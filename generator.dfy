/**
 The release-notes generator: it turns the collected fields into one
 chat-completions request (system prompt, user message, model, bearer header)
 and turns the service's answer into the generated text or an error.

 The HTTP exchange itself is not modelled: the answer to the one request is a
 parameter, given either as a `Response` value or as a function from the
 request to its response.
 */
module Generator {
  import opened Wrappers
  import opened Text

  /** The object `generateReleaseNotes` destructures. */
  datatype ReleaseRequest = ReleaseRequest(
    productName: string,
    version: string,
    mode: string,
    features: string,
    apiKey: string)

  // ---------------------------------------------------------------------------
  // The two system-prompt templates, sentence by sentence. Joining the sentences
  // with single spaces gives exactly the template literal of the source.

  /** `"<productName> - <version>"`, quotes included. */
  function Title(productName: string, version: string): string {
    "\"" + productName + " - " + version + "\""
  }

  const RoleOpening := "You are a software developer writing "
  const RoleSentence := RoleOpening + "GitHub release descriptions."
  const DetailedRoleSentence := RoleOpening + "detailed GitHub release descriptions."
  const MarkdownSentence := "Write in correct markdown format."
  const UserMessageSentence := "The user message contains the features/changes for this release."
  const MultipleSections := "multiple sections"
  const MultipleSectionsSentence := "Create an expanded, " + "detailed release description with " + MultipleSections + "."
  const ComprehensiveSentence := "Make it comprehensive and well-structured."
  const BaseSentence := "Base the content on the features provided in the user message."

  function CreateSentence(productName: string, version: string): string {
    "Create a release description with the title " + Title(productName, version)
    + " based on the features provided in the user message."
  }

  function UseTitleSentence(productName: string, version: string): string {
    "Use the title " + Title(productName, version) + "."
  }

  /** The "never use placeholders" sentence, which repeats both literal values. */
  function PlaceholderSentence(productName: string, version: string): string {
    "Always use the actual product name " + productName + " and version " + version
    + " in the release notes, never use placeholders."
  }

  function NormalSentences(productName: string, version: string): seq<string> {
    [RoleSentence, MarkdownSentence, UserMessageSentence,
     CreateSentence(productName, version), PlaceholderSentence(productName, version)]
  }

  function ExpandedSentences(productName: string, version: string): seq<string> {
    [DetailedRoleSentence, MarkdownSentence, UserMessageSentence,
     MultipleSectionsSentence, ComprehensiveSentence,
     UseTitleSentence(productName, version), BaseSentence,
     PlaceholderSentence(productName, version)]
  }

  function NormalPrompt(productName: string, version: string): string {
    Join(NormalSentences(productName, version))
  }

  function ExpandedPrompt(productName: string, version: string): string {
    Join(ExpandedSentences(productName, version))
  }

  /** The normal template carries the title and the placeholder sentence with the
      literal values. */
  lemma NormalPromptContents(productName: string, version: string)
    ensures Contains(NormalPrompt(productName, version), Title(productName, version))
    ensures Contains(NormalPrompt(productName, version), PlaceholderSentence(productName, version))
  {
    var p, v := productName, version;
    JoinContains(NormalSentences(p, v), 3);
    ContainsMiddle("Create a release description with the title ", Title(p, v),
                   " based on the features provided in the user message.");
    ContainsTransitive(NormalPrompt(p, v), CreateSentence(p, v), Title(p, v));
    JoinContains(NormalSentences(p, v), 4);
  }

  /** The expanded template carries the title and the placeholder sentence with the
      literal values. */
  lemma ExpandedPromptContents(productName: string, version: string)
    ensures Contains(ExpandedPrompt(productName, version), Title(productName, version))
    ensures Contains(ExpandedPrompt(productName, version), PlaceholderSentence(productName, version))
  {
    var p, v := productName, version;
    JoinContains(ExpandedSentences(p, v), 5);
    ContainsMiddle("Use the title ", Title(p, v), ".");
    ContainsTransitive(ExpandedPrompt(p, v), UseTitleSentence(p, v), Title(p, v));
    JoinContains(ExpandedSentences(p, v), 7);
  }

  /** Only the expanded template has the sentence asking for multiple sections. */
  lemma MultipleSectionsOnlyExpanded(productName: string, version: string)
    ensures Contains(ExpandedPrompt(productName, version), "multiple sections")
    ensures MultipleSectionsSentence in ExpandedSentences(productName, version)
    ensures MultipleSectionsSentence !in NormalSentences(productName, version)
  {
    var p, v := productName, version;
    JoinContains(ExpandedSentences(p, v), 3);
    MultipleSectionsSentenceContents();
    ContainsTransitive(ExpandedPrompt(p, v), MultipleSectionsSentence, "multiple sections");
    NotCreateSentence(p, v);
  }

  lemma MultipleSectionsSentenceContents()
    ensures Contains(MultipleSectionsSentence, "multiple sections")
  {
    ContainsMiddle("Create an expanded, " + "detailed release description with ", MultipleSections, ".");
  }

  lemma NotCreateSentence(p: string, v: string)
    ensures MultipleSectionsSentence !in NormalSentences(p, v)
  {
    var create := "Create a release description with the title ";
    assert create[8] == ' ';
    assert CreateSentence(p, v)[8] == create[8];
    var expanded := "Create an expanded, ";
    assert expanded[8] == 'n';
    assert MultipleSectionsSentence[8] == expanded[8];
    assert PlaceholderSentence(p, v)[0] == 'A';
  }

  /** The two templates never coincide: they differ at the word after "writing". */
  lemma TemplatesDiffer(productName: string, version: string)
    ensures NormalPrompt(productName, version) != ExpandedPrompt(productName, version)
  {
    var p, v := productName, version;
    JoinStartsWith(NormalSentences(p, v));
    JoinStartsWith(ExpandedSentences(p, v));
    var k := |RoleOpening|;
    assert NormalPrompt(p, v)[k] == RoleSentence[k] == 'G';
    assert ExpandedPrompt(p, v)[k] == DetailedRoleSentence[k] == 'd';
  }

  /** `mode === 'expanded'` selects the expanded template; every other string,
      including "Expanded" and "", selects the normal one. */
  function SystemPrompt(productName: string, version: string, mode: string): (r: string)
    ensures r == ExpandedPrompt(productName, version) <==> mode == "expanded"
    ensures r == NormalPrompt(productName, version) <==> mode != "expanded"
    ensures Contains(r, Title(productName, version))
    ensures Contains(r, PlaceholderSentence(productName, version))
    ensures mode == "expanded" ==> Contains(r, "multiple sections")
  {
    TemplatesDiffer(productName, version);
    NormalPromptContents(productName, version);
    ExpandedPromptContents(productName, version);
    MultipleSectionsOnlyExpanded(productName, version);
    if mode == "expanded" then ExpandedPrompt(productName, version)
    else NormalPrompt(productName, version)
  }

  // ---------------------------------------------------------------------------
  // The request.

  datatype ChatMessage = ChatMessage(role: string, content: string)

  /** The JSON body; `temperature` is kept as the decimal 0.7, not as an IEEE double. */
  datatype ChatBody = ChatBody(model: string, messages: seq<ChatMessage>, temperature: real)

  const Model := "gpt-4o"
  const Temperature: real := 0.7
  const Endpoint := "https://api.openai.com/v1/chat/completions"

  /** Exactly two messages: the selected prompt as `system`, the features verbatim as `user`. */
  function RequestBody(req: ReleaseRequest): (b: ChatBody)
    ensures b.model == "gpt-4o" && b.temperature == 0.7
    ensures |b.messages| == 2
    ensures b.messages[0].role == "system" && b.messages[1].role == "user"
    ensures b.messages[1].content == req.features
    ensures b.messages[0].content == SystemPrompt(req.productName, req.version, req.mode)
    ensures Contains(b.messages[0].content, Title(req.productName, req.version))
  {
    ChatBody(Model,
             [ChatMessage("system", SystemPrompt(req.productName, req.version, req.mode)),
              ChatMessage("user", req.features)],
             Temperature)
  }

  /** The Authorization header value. */
  function Bearer(apiKey: string): (h: string)
    ensures BearerToken(h) == Some(apiKey)
  {
    BearerTokenOf(apiKey);
    "Bearer " + apiKey
  }

  /** The inverse reading of an Authorization header: the token after "Bearer ". */
  function BearerToken(header: string): Option<string> {
    if StartsWith(header, "Bearer ") then Some(header[7..]) else None
  }

  lemma BearerTokenOf(apiKey: string)
    ensures BearerToken("Bearer " + apiKey) == Some(apiKey)
  {
    assert ("Bearer " + apiKey)[..7] == "Bearer ";
    assert ("Bearer " + apiKey)[7..] == apiKey;
  }

  /** A header carries token `t` exactly when it is the bearer header built from `t`. */
  lemma BearerRoundTrip(header: string, token: string)
    ensures BearerToken(header) == Some(token) <==> header == Bearer(token)
  {
    if BearerToken(header) == Some(token) {
      assert header == header[..7] + header[7..];
    }
  }

  /** The header starts with "Bearer " followed by whatever the key starts with. */
  lemma BearerKeepsPrefix(apiKey: string, prefix: string)
    requires StartsWith(apiKey, prefix)
    ensures StartsWith(Bearer(apiKey), "Bearer " + prefix)
  {
    assert Bearer(apiKey)[..7 + |prefix|] == "Bearer " + apiKey[..|prefix|];
  }

  function Headers(apiKey: string): (h: map<string, string>)
    ensures h.Keys == {"Authorization", "Content-Type"}
    ensures BearerToken(h["Authorization"]) == Some(apiKey)
    ensures h["Content-Type"] == "application/json"
  {
    map["Authorization" := Bearer(apiKey), "Content-Type" := "application/json"]
  }

  datatype HttpRequest = HttpRequest(
    verb: string,
    url: string,
    headers: map<string, string>,
    body: ChatBody)

  /** The single POST that `generateReleaseNotes` sends. */
  function OutboundRequest(req: ReleaseRequest): (r: HttpRequest)
    ensures r.verb == "POST" && r.url == Endpoint
    ensures r.headers == Headers(req.apiKey) && r.body == RequestBody(req)
  {
    HttpRequest("POST", Endpoint, Headers(req.apiKey), RequestBody(req))
  }

  // ---------------------------------------------------------------------------
  // The response and its classification.

  /** `error` of an error body; `message` is None when absent, null or `error`
      itself is not an object. */
  datatype ErrorField = ErrorField(message: Option<string>)
  /** `choices[i].message`; `content` is None when absent or null, and also when
      `message` is not an object (a string, say), whose `.content` is `undefined`. */
  datatype ReplyMessage = ReplyMessage(content: Option<string>)
  /** `choices[i]`; `message` is None when absent or null. An entry of `choices`
      that is `null` or not an object (a number, say) is also `Choice(None)`:
      reading `.message.content` on any of these throws a TypeError. */
  datatype Choice = Choice(message: Option<ReplyMessage>)

  /** The result of `response.json()`. A body that does not parse makes
      `response.json()` reject, and a body that is `null` makes the next property
      read throw a TypeError: both are `Unparsable`. Any other value gives the fields the code reads; a value that
      is not an object (a string, a number, an array) has neither field and is
      `Json(None, None)`. */
  datatype Body =
    | Unparsable
    | Json(error: Option<ErrorField>, choices: Option<seq<Choice>>)

  datatype Response = Response(ok: bool, statusText: string, body: Body)

  datatype Error =
    | ApiError(message: string)   // the `Error` thrown at lib/generator.js:30
    | RuntimeError                 // `response.json()` rejecting an unreadable body, or a TypeError
    | FetchError                   // `fetch` itself rejected: no response arrived

  /** How the returned promise settles: with a string, with `undefined` (the
      first choice's message has no `content`), or by rejecting. */
  datatype Outcome = Success(text: string) | Undefined | Failure(error: Error)

  /** An answer the runtime rejects on: a body that cannot be read, or an ok body
      without choices, with an empty choices array or whose first choice has no
      message. */
  predicate Malformed(response: Response) {
    || response.body.Unparsable?
    || (response.ok && (|| response.body.choices.None?
                        || |response.body.choices.value| == 0
                        || response.body.choices.value[0].message.None?))
  }

  /** An ok response whose first choice carries a message. */
  predicate HasFirstMessage(response: Response) {
    && response.ok && response.body.Json? && response.body.choices.Some?
    && |response.body.choices.value| > 0
    && response.body.choices.value[0].message.Some?
  }

  /** `choices[0].message` of such a response. */
  function FirstMessage(response: Response): ReplyMessage
    requires HasFirstMessage(response)
  {
    response.body.choices.value[0].message.value
  }

  /** The answer delivers text: its first choice's message has `content`. */
  predicate Delivers(response: Response) {
    HasFirstMessage(response) && FirstMessage(response).content.Some?
  }

  /** The text that an answer delivers. */
  function FirstContent(response: Response): string
    requires Delivers(response)
  {
    FirstMessage(response).content.value
  }

  const ErrorPrefix := "OpenAI API error: "

  /** `errorData.error?.message || response.statusText` */
  function ErrorDetail(statusText: string, error: Option<ErrorField>): (d: string)
    ensures error.Some? && error.value.message.Some? && error.value.message.value != ""
            ==> d == error.value.message.value
    ensures !(error.Some? && error.value.message.Some? && error.value.message.value != "")
            ==> d == statusText
  {
    match error
    case Some(ErrorField(Some(m))) => if m != "" then m else statusText
    case _ => statusText
  }

  /** lib/generator.js:28-34, after the request has been answered. */
  function Classify(response: Response): (r: Outcome)
    // an error status with a parsable body gives the API error with the embedded
    // message, or the status text when there is none
    ensures !response.ok && response.body.Json? ==>
      r == Failure(ApiError(ErrorPrefix + ErrorDetail(response.statusText, response.body.error)))
    // only an error status with a parsable body gives an API error
    ensures r.Failure? && r.error.ApiError? <==> !response.ok && response.body.Json?
    // a body that cannot be read, missing choices, an empty choices array or a
    // first choice without a message all reject with a runtime error
    ensures r == Failure(RuntimeError) <==> Malformed(response)
    // a first message without content resolves with `undefined`
    ensures r == Undefined <==> HasFirstMessage(response) && FirstMessage(response).content.None?
    // success carries the first choice's content and nothing else
    ensures r.Success? <==> Delivers(response)
    ensures r.Success? ==> r.text == FirstContent(response)
    // the promise never rejects with a network error once a response is there
    ensures r != Failure(FetchError)
  {
    match response.body
    case Unparsable => Failure(RuntimeError)
    case Json(error, choices) =>
      if !response.ok then Failure(ApiError(ErrorPrefix + ErrorDetail(response.statusText, error)))
      else if choices.None? || |choices.value| == 0 then Failure(RuntimeError)
      else match choices.value[0].message
        case None => Failure(RuntimeError)
        case Some(m) => if m.content.Some? then Success(m.content.value) else Undefined
  }

  /** An ok answer whose first message lacks `content` resolves with `undefined`
      rather than rejecting, whatever the other choices hold. */
  lemma MissingContentIsUndefined(statusText: string, error: Option<ErrorField>, rest: seq<Choice>)
    ensures Classify(Response(true, statusText, Json(error, Some([Choice(Some(ReplyMessage(None)))] + rest))))
         == Undefined
  {
    assert ([Choice(Some(ReplyMessage(None)))] + rest)[0] == Choice(Some(ReplyMessage(None)));
  }

  /** Choices after the first never change the outcome. */
  lemma LaterChoicesIgnored(ok: bool, statusText: string, error: Option<ErrorField>,
                            first: Choice, rest: seq<Choice>)
    ensures Classify(Response(ok, statusText, Json(error, Some([first] + rest))))
         == Classify(Response(ok, statusText, Json(error, Some([first]))))
  {
    assert ([first] + rest)[0] == first;
  }

  /** An error message embedded in the body appears verbatim in the failure. */
  lemma EmbeddedMessageSurfaced(response: Response, message: string)
    requires !response.ok && response.body.Json?
    requires response.body.error == Some(ErrorField(Some(message))) && message != ""
    ensures Classify(response) == Failure(ApiError(ErrorPrefix + message))
    ensures Contains(Classify(response).error.message, message)
  {
    ContainsMiddle(ErrorPrefix, message, "");
    assert ErrorPrefix + message + "" == ErrorPrefix + message;
  }

  /** `generateReleaseNotes`: one request, whose answer `send` supplies (None
      when `fetch` rejects), decides the outcome. */
  function GenerateReleaseNotes(req: ReleaseRequest, send: HttpRequest -> Option<Response>): (r: Outcome)
    ensures send(OutboundRequest(req)).None? <==> r == Failure(FetchError)
    // an error status with a readable body rejects with the API error, whatever
    // else the body holds
    ensures send(OutboundRequest(req)).Some? && !send(OutboundRequest(req)).value.ok
            && send(OutboundRequest(req)).value.body.Json? ==>
      r == Failure(ApiError(ErrorPrefix + ErrorDetail(send(OutboundRequest(req)).value.statusText,
                                                      send(OutboundRequest(req)).value.body.error)))
    // a malformed answer rejects with a runtime error, never with an API error
    ensures r == Failure(RuntimeError) <==>
      send(OutboundRequest(req)).Some? && Malformed(send(OutboundRequest(req)).value)
    ensures r.Success? <==> send(OutboundRequest(req)).Some? && Delivers(send(OutboundRequest(req)).value)
    ensures r.Success? ==> r.text == FirstContent(send(OutboundRequest(req)).value)
    ensures r == Undefined <==>
      && send(OutboundRequest(req)).Some? && HasFirstMessage(send(OutboundRequest(req)).value)
      && FirstMessage(send(OutboundRequest(req)).value).content.None?
  {
    match send(OutboundRequest(req))
    case None => Failure(FetchError)
    case Some(response) => Classify(response)
  }

  /** Two transports that answer the one outbound request alike give the same
      outcome, whatever they would answer to anything else. */
  lemma OnlyOneRequestMatters(req: ReleaseRequest, send1: HttpRequest -> Option<Response>,
                              send2: HttpRequest -> Option<Response>)
    requires send1(OutboundRequest(req)) == send2(OutboundRequest(req))
    ensures GenerateReleaseNotes(req, send1) == GenerateReleaseNotes(req, send2)
  {
  }

  /** End to end: an error answer that embeds a message rejects with that
      message after the prefix. */
  lemma GenerateSurfacesApiError(req: ReleaseRequest, send: HttpRequest -> Option<Response>,
                                 statusText: string, message: string, choices: Option<seq<Choice>>)
    requires message != ""
    requires send(OutboundRequest(req)) == Some(Response(false, statusText, Json(Some(ErrorField(Some(message))), choices)))
    ensures GenerateReleaseNotes(req, send) == Failure(ApiError(ErrorPrefix + message))
  {
    EmbeddedMessageSurfaced(Response(false, statusText, Json(Some(ErrorField(Some(message))), choices)), message);
  }

  /** End to end: an error answer without a message rejects with the status text. */
  lemma GenerateFallsBackToStatus(req: ReleaseRequest, send: HttpRequest -> Option<Response>,
                                  statusText: string, error: Option<ErrorField>,
                                  choices: Option<seq<Choice>>)
    requires error.None? || error.value.message.None? || error.value.message.value == ""
    requires send(OutboundRequest(req)) == Some(Response(false, statusText, Json(error, choices)))
    ensures GenerateReleaseNotes(req, send) == Failure(ApiError(ErrorPrefix + statusText))
  {
  }

  /** End to end: an ok answer whose first choice has content `c` resolves with `c`. */
  lemma GenerateReturnsContent(req: ReleaseRequest, send: HttpRequest -> Option<Response>,
                               statusText: string, error: Option<ErrorField>, c: string, rest: seq<Choice>)
    requires send(OutboundRequest(req))
          == Some(Response(true, statusText, Json(error, Some([Choice(Some(ReplyMessage(Some(c))))] + rest))))
    ensures GenerateReleaseNotes(req, send) == Success(c)
  {
    assert ([Choice(Some(ReplyMessage(Some(c))))] + rest)[0] == Choice(Some(ReplyMessage(Some(c))));
  }
}
