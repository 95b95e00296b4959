# Release-notes generator, modelled in Dafny

The repository is a small Node.js command-line tool. It asks for a product name,
a version, a style ("Normal" or "Expanded"), a description of the changes and an
OpenAI API key. It sends one chat-completions request to `gpt-4o`, then writes the
returned markdown to `<name>-<version>-release-notes.md` in the temporary directory.

This project models the tool's logic as pure functions over strings and values:

- `text.dfy`: module `Wrappers` (an `Option`) and module `Text`. `Text` holds the
  ECMAScript white-space class used by `trim()` and `\s`, and trimming. It also
  holds `startsWith`, sub-string containment, ASCII lower-casing and joining
  sentences with spaces.
- `release_notes.dfy`: module `ReleaseNotesCli`, covering `bin/release-notes.js`.
  It has the four `validate` callbacks, the style choice lowered to the mode, the
  mapping from answers to the generator's argument, and the output file name
  (`name.replace(/\s+/g, '-')`).
- `generator.dfy`: module `Generator`, covering `lib/generator.js`. It has the
  two system-prompt templates, the request body, the bearer header, the single
  outbound request, and how the response becomes a result.

The HTTP exchange is a parameter. `Classify` takes the response as a value.
`GenerateReleaseNotes` takes a function from the request to its answer: a
response, or None when `fetch` itself rejects (a network failure). So the outcome
depends only on the answer to the one request it builds. A response is the status
flag, the status text and the fields of the JSON body that the code reads. A body
that does not parse makes `response.json()` reject, and a JSON `null` body makes
the next property read throw a TypeError: both are `Unparsable`. Any other value that is not an object (a string, a number, an array) has
neither field and is `Json(None, None)`.

The templates are built as lists of sentences joined by single spaces. Joined,
they are exactly the two template literals of `lib/generator.js:7-8`. Some
constant sentences are written as two or three concatenated literals; this does
not change the text.

Some of the behaviour differs from what a reader of the prompts might expect of
such a tool; the model follows the code:

- File name: the product name is neither lower-cased nor stripped of
  punctuation. The code only replaces each run of white space by one hyphen. So `"Acme"`, `"1.9.2"` gives
  `Acme-1.9.2-release-notes.md`, and `"My App!"` gives `My-App!`
  (`ExampleFileName`, `ExampleSanitize`).
- Missing content: a success response without `choices[0].message.content` is
  not an error. The promise resolves with `undefined`; this is the `Undefined`
  outcome (`MissingContentIsUndefined`). A missing
  `choices`, an empty `choices` array or a missing `message` make the runtime
  throw a TypeError (`Failure(RuntimeError)`).
- Credentials: nothing is cached; the key is prompted for, and validated, on
  every run.
- Error status: no status classification and no authorization hint exist in the
  code. A non-ok response gives `"OpenAI API error: "` followed by
  `error.message`, or by the status text when that message is absent or empty.

## Model

| member | source | states |
|---|---|---|
| `Text.Trim` | bin/release-notes.js:19 | `trim()` is empty exactly when the input is all white space; it is a contiguous piece of the input with no white space at either end, and everything removed before and after it is white space |
| `ReleaseNotesCli.ValidateProductName` | bin/release-notes.js:19 | accepted exactly when the name has a non-white-space character; otherwise rejected with "Product name is required" |
| `ReleaseNotesCli.ValidateVersion` | bin/release-notes.js:25 | accepted exactly when the version has a non-white-space character; otherwise rejected with "Version is required" |
| `ReleaseNotesCli.ValidateFeatures` | bin/release-notes.js:38 | accepted exactly when the text has a non-white-space character; otherwise rejected with "Features/fixes are required" |
| `ReleaseNotesCli.ValidateApiKey` | bin/release-notes.js:44-48 | an all-white-space key gets "API key is required" (the blank check comes first); any other key without the raw `sk-` prefix gets the format message; accepted exactly when the untrimmed key starts with `sk-` |
| `ReleaseNotesCli.LeadingSpaceKeyRejected` | bin/release-notes.js:46 | a key typed with a leading space is rejected with the format message even when `sk-` follows |
| `ReleaseNotesCli.Mode` | bin/release-notes.js:58 | the lowered choice is "normal" for Normal (the default) and "expanded" for Expanded, and it is "expanded" exactly for Expanded |
| `ReleaseNotesCli.ToRequest` | bin/release-notes.js:55-61 | the generator gets the name, version, features and key as typed, and the lowered style as mode |
| `ReleaseNotesCli.DefaultStyleIsNormal` | bin/release-notes.js:31-32 | leaving the style at the prompt's default, Normal, sends mode "normal" and so the normal template |
| `ReleaseNotesCli.StyleSelectsTemplate` | bin/release-notes.js:58 | choosing Expanded, and only that, leads the generator to the expanded template |
| `ReleaseNotesCli.AcceptedRequest` | bin/release-notes.js:14-50 | answers that passed every validator give non-blank name, version and features and a key starting with `sk-` |
| `ReleaseNotesCli.AcceptedKeyHeader` | lib/generator.js:22 | a request with an accepted key sends an Authorization header starting with "Bearer sk-" |
| `ReleaseNotesCli.AuthorizationOf` | lib/generator.js:21-24 | the Authorization header of the outbound request is the bearer header of the request's key |
| `ReleaseNotesCli.Sanitize` | bin/release-notes.js:68 | the sanitized name contains no white space and is no longer than the name |
| `ReleaseNotesCli.SanitizeIsCollapse` | bin/release-notes.js:68 | sanitizing equals a left-to-right scan in which the first white-space character of a run writes one hyphen and the rest of the run writes nothing |
| `ReleaseNotesCli.SanitizeKeepsPlainName` | bin/release-notes.js:68 | a name without white space is unchanged |
| `ReleaseNotesCli.SanitizeIdempotent` | bin/release-notes.js:68 | sanitizing twice equals sanitizing once |
| `ReleaseNotesCli.SanitizeRun` | bin/release-notes.js:68 | a non-empty all-white-space name becomes exactly one hyphen |
| `ReleaseNotesCli.SanitizeAppend` | bin/release-notes.js:68 | sanitizing distributes over a concatenation whose seam is not inside a white-space run |
| `ReleaseNotesCli.SanitizeBetweenWords` | bin/release-notes.js:68 | a maximal white-space run between two words becomes exactly one hyphen |
| `ReleaseNotesCli.SanitizeKeepsLetters` | bin/release-notes.js:68 | the characters other than white space and hyphens are kept, in order and in their case |
| `ReleaseNotesCli.FileName` | bin/release-notes.js:68 | the file name starts with the sanitized name, a hyphen and the version as typed, ends with "-release-notes.md", has exactly the length of those three parts together (so nothing sits between them), and is free of white space exactly when the version is |
| `ReleaseNotesCli.ExampleFileName` | bin/release-notes.js:68 | "Acme" and "1.9.2" give "Acme-1.9.2" followed by "-release-notes.md": the case is kept and nothing is lower-cased |
| `ReleaseNotesCli.ExampleSanitize` | bin/release-notes.js:68 | "My App!" becomes "My-App!" (punctuation kept) |
| `ReleaseNotesCli.ExampleAccepted` | bin/release-notes.js:14-50 | the worked example's answers pass every validator |
| `ReleaseNotesCli.ExampleRequest` | bin/release-notes.js:55-61 | the worked example sends "Added dark mode" as the user message and the normal prompt, which quotes "Acme - 1.9.2", as the system message |
| `Generator.SystemPrompt` | lib/generator.js:4-8 | the expanded template is chosen exactly when mode is "expanded" and the normal one for every other string; either carries the title and the placeholder sentence with the literal values; the expanded one asks for multiple sections |
| `Generator.NormalPromptContents` | lib/generator.js:8 | the normal template contains the title `"<name> - <version>"` and the sentence naming both values again |
| `Generator.ExpandedPromptContents` | lib/generator.js:7 | the expanded template contains the title `"<name> - <version>"` and the sentence naming both values again |
| `Generator.MultipleSectionsOnlyExpanded` | lib/generator.js:7-8 | the expanded template contains "multiple sections"; the multiple-sections sentence is one of the expanded template's sentences and none of the normal template's |
| `Generator.TemplatesDiffer` | lib/generator.js:7-8 | the two templates differ for every name and version |
| `Generator.RequestBody` | lib/generator.js:10-17 | model "gpt-4o", temperature 0.7, exactly two messages: `system` with the selected prompt (which contains the title), then `user` with the features verbatim |
| `Generator.Bearer` | lib/generator.js:22 | the header's bearer token is the key |
| `Generator.BearerRoundTrip` | lib/generator.js:22 | a header carries token `t` exactly when it is `"Bearer " + t` |
| `Generator.BearerKeepsPrefix` | lib/generator.js:22 | the header starts with "Bearer " followed by any prefix of the key |
| `Generator.Headers` | lib/generator.js:21-24 | exactly the Authorization and Content-Type headers: bearer token is the key, content type "application/json" |
| `Generator.OutboundRequest` | lib/generator.js:19-26 | a POST to the chat-completions endpoint with those headers and that body |
| `Generator.ErrorDetail` | lib/generator.js:30 | the error detail is `error.message` when present and non-empty, otherwise the status text |
| `Generator.Classify` | lib/generator.js:28-34 | a non-ok response with a readable body fails with "OpenAI API error: " and the detail, and only such a response gives an API error; an unreadable body, or an ok one without choices, with no choices or with a first choice without message, fails with a runtime error; a first message without content resolves with `undefined`; success exactly when the first choice has content, and its text is that content |
| `Generator.MissingContentIsUndefined` | lib/generator.js:34 | an ok answer whose first message has no content resolves with `undefined` instead of rejecting, whatever the other choices hold |
| `Generator.LaterChoicesIgnored` | lib/generator.js:34 | choices after the first never change the outcome |
| `Generator.EmbeddedMessageSurfaced` | lib/generator.js:28-30 | a non-empty embedded error message (such as "invalid_api_key") appears verbatim in the failure message |
| `Generator.GenerateReleaseNotes` | lib/generator.js:3-35 | the call rejects with a fetch error exactly when `fetch` rejects; it rejects with a runtime error exactly when the answer is malformed (an unreadable body, or an ok one without choices, with no choices or with a first choice without message), never with an API error there; an error answer with a readable body rejects with "OpenAI API error: " and the error detail, whatever else the body holds; the call resolves with text exactly when the answer's first choice has content, and the text is that content; it resolves with `undefined` exactly when the answer's first message lacks content |
| `Generator.OnlyOneRequestMatters` | lib/generator.js:19-34 | the outcome is decided by the answer to the one outbound request: transports that agree on it give the same outcome |
| `Generator.GenerateSurfacesApiError` | lib/generator.js:28-31 | end to end: an error answer embedding a non-empty message rejects with "OpenAI API error: " followed by that message |
| `Generator.GenerateFallsBackToStatus` | lib/generator.js:28-31 | end to end: an error answer with a readable body but without a usable message rejects with "OpenAI API error: " followed by the status text, whatever `choices` holds |
| `Generator.GenerateReturnsContent` | lib/generator.js:33-34 | end to end: an ok answer whose first choice has content `c` resolves with `c` |

## Left out

- The interactive prompt flow (inquirer), chalk colouring and console output (bin/release-notes.js:11, 14-50, 52, 64-65, 74, 92): user-interface I/O. Only the validators and the collected answers are modelled.
- `fs.writeFileSync`, `os.tmpdir`, `path.join` and `process.exit` (bin/release-notes.js:69-72, 93): filesystem and process I/O. Only the file-name string is modelled. The model does not say what `writeFileSync` does with an `undefined` text.
- The clipboard question and its stub (bin/release-notes.js:77-89): it does nothing but print a hint.
- `node-fetch`, `JSON.stringify` and `response.json()` (lib/generator.js:19-26, 29, 33): network and JSON parsing. The answer is the abstract `Response`, or None when `fetch` rejects, and the reason of that rejection is not kept. A JSON `null` body is `Unparsable`; any other non-object body is `Json(None, None)`. An `error.message` that is neither a string nor absent, a `choices` that is not an array, and a `content` that is not a string (a number, say, which the code returns as it is) are not modelled.
- `temperature: 0.7` is recorded as the decimal 0.7, not as an IEEE double.
- `Text.ToLower`: lowers ASCII letters only, where JavaScript's `toLowerCase` maps all of Unicode; the only inputs are the labels "Normal" and "Expanded".
- `Text.IsWS`: follows ECMAScript's WhiteSpace and LineTerminator characters with the space separators of current Unicode; a runtime with another Unicode version may differ.
- `Generator.MultipleSectionsOnlyExpanded`: the normal template is shown to lack the multiple-sections sentence, not to lack the words "multiple sections" anywhere: a product name or version may itself contain them, and proving substring absence over the long literal text is out of the verifier's reach here.
- A JSON `"content": null` is read as absent content, so it gives `Undefined`; the code resolves with `null` there, a value the model does not tell apart from `undefined`.
