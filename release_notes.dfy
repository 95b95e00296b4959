/**
 The command-line front end's logic: the validators of the interactive prompt,
 the style choice lowered to the generator's mode, and the name of the file the
 notes are written to. The prompt flow, console output and file writing are I/O
 and are not modelled.
 */
module ReleaseNotesCli {
  import opened Text
  import Generator

  /** What an inquirer `validate` callback returns: `true`, or the message to show. */
  datatype Validation = Accepted | Rejected(message: string)

  /** `input.trim() !== '' || message` */
  function Required(input: string, message: string): (r: Validation)
    ensures r.Accepted? <==> !AllWS(input)
    ensures r.Rejected? ==> r.message == message
  {
    if Trim(input) != "" then Accepted else Rejected(message)
  }

  function ValidateProductName(input: string): (r: Validation)
    ensures r.Accepted? <==> !AllWS(input)
    ensures r.Rejected? ==> r.message == "Product name is required"
  {
    Required(input, "Product name is required")
  }

  function ValidateVersion(input: string): (r: Validation)
    ensures r.Accepted? <==> !AllWS(input)
    ensures r.Rejected? ==> r.message == "Version is required"
  {
    Required(input, "Version is required")
  }

  function ValidateFeatures(input: string): (r: Validation)
    ensures r.Accepted? <==> !AllWS(input)
    ensures r.Rejected? ==> r.message == "Features/fixes are required"
  {
    Required(input, "Features/fixes are required")
  }

  const KeyRequired := "API key is required"
  const KeyFormat := "Invalid API key format (should start with sk-)"

  /** The blank check comes first and looks at the trimmed key; the prefix check
      looks at the key as typed, so leading white space is rejected. */
  function ValidateApiKey(input: string): (r: Validation)
    ensures AllWS(input) ==> r == Rejected(KeyRequired)
    ensures !AllWS(input) && !StartsWith(input, "sk-") ==> r == Rejected(KeyFormat)
    ensures r == Accepted <==> StartsWith(input, "sk-")
  {
    if Trim(input) == "" then Rejected(KeyRequired)
    else if !StartsWith(input, "sk-") then Rejected(KeyFormat)
    else Accepted
  }

  /** A key typed with leading white space never passes, even when `sk-` follows. */
  lemma LeadingSpaceKeyRejected(key: string)
    requires StartsWith(key, "sk-")
    ensures ValidateApiKey(" " + key) == Rejected(KeyFormat)
  {
    var k := " " + key;
    assert key[0] == "sk-"[0] by { assert key[..3] == "sk-"; }
    assert !AllWS(k) by { assert k[1] == key[0]; }
    assert !StartsWith(k, "sk-") by { assert k[0] == ' '; }
  }

  // ---------------------------------------------------------------------------
  // The style choice.

  /** The two entries of the `list` prompt; `Normal` is its default. */
  datatype Style = Normal | Expanded

  const DefaultStyle := Normal

  function Label(style: Style): string {
    match style
    case Normal => "Normal"
    case Expanded => "Expanded"
  }

  /** `answers.mode.toLowerCase()` */
  function Mode(style: Style): (m: string)
    ensures m == (if style == Expanded then "expanded" else "normal")
    ensures m == "expanded" <==> style == Expanded
  {
    ToLower(Label(style))
  }

  /** The collected answers. */
  datatype Answers = Answers(
    productName: string,
    version: string,
    mode: Style,
    features: string,
    apiKey: string)

  /** Every validator accepted its field (the prompt re-asks until it does). */
  predicate Accepts(a: Answers) {
    && ValidateProductName(a.productName) == Accepted
    && ValidateVersion(a.version) == Accepted
    && ValidateFeatures(a.features) == Accepted
    && ValidateApiKey(a.apiKey) == Accepted
  }

  /** The argument of `generateReleaseNotes` (bin/release-notes.js:55-61): every field as typed,
      the style lowered. */
  function ToRequest(a: Answers): (r: Generator.ReleaseRequest)
    ensures r.productName == a.productName && r.version == a.version
    ensures r.features == a.features && r.apiKey == a.apiKey
    ensures r.mode == Mode(a.mode)
  {
    Generator.ReleaseRequest(a.productName, a.version, Mode(a.mode), a.features, a.apiKey)
  }

  /** Choosing "Expanded" in the prompt, and only that, selects the expanded template. */
  lemma StyleSelectsTemplate(a: Answers)
    ensures var r := ToRequest(a);
      Generator.SystemPrompt(r.productName, r.version, r.mode)
        == if a.mode == Expanded then Generator.ExpandedPrompt(a.productName, a.version)
           else Generator.NormalPrompt(a.productName, a.version)
  {
  }

  /** Leaving the style prompt at its default reaches the normal template. */
  lemma DefaultStyleIsNormal(a: Answers)
    requires a.mode == DefaultStyle
    ensures ToRequest(a).mode == "normal"
    ensures Generator.SystemPrompt(a.productName, a.version, ToRequest(a).mode)
         == Generator.NormalPrompt(a.productName, a.version)
  {
  }

  /** Answers that passed the validators give a request whose fields are non-blank
      and whose key has the `sk-` prefix. */
  lemma AcceptedRequest(a: Answers)
    requires Accepts(a)
    ensures var r := ToRequest(a);
      !AllWS(r.productName) && !AllWS(r.version) && !AllWS(r.features)
      && StartsWith(r.apiKey, "sk-")
  {
  }

  /** A request carrying an accepted key sends an Authorization header that reads
      "Bearer sk-...". */
  lemma AcceptedKeyHeader(r: Generator.ReleaseRequest)
    requires ValidateApiKey(r.apiKey) == Accepted
    ensures StartsWith(Generator.OutboundRequest(r).headers["Authorization"], Generator.Bearer("sk-"))
  {
    AuthorizationOf(r);
    Generator.BearerKeepsPrefix(r.apiKey, "sk-");
  }

  lemma AuthorizationOf(r: Generator.ReleaseRequest)
    ensures Generator.OutboundRequest(r).headers["Authorization"] == Generator.Bearer(r.apiKey)
  {
    var h := Generator.OutboundRequest(r).headers;
    assert h == Generator.Headers(r.apiKey);
    Generator.BearerRoundTrip(h["Authorization"], r.apiKey);
  }

  // ---------------------------------------------------------------------------
  // The output file name.

  /** `name.replace(/\s+/g, '-')`: each maximal run of white space becomes one
      hyphen; every other character is kept, in order and in its case. */
  function Sanitize(name: string): (r: string)
    ensures NoWS(r)
    ensures |r| <= |name|
    decreases |name|
  {
    if name == [] then []
    else if IsWS(name[0]) then "-" + Sanitize(TrimStart(name))
    else [name[0]] + Sanitize(name[1..])
  }

  /** The same replacement read one character at a time, as a left-to-right regex
      scan does it: `inRun` says the previous character was white space. */
  function Collapse(s: string, inRun: bool): string {
    if s == [] then []
    else if IsWS(s[0]) then (if inRun then [] else "-") + Collapse(s[1..], true)
    else [s[0]] + Collapse(s[1..], false)
  }

  lemma {:induction false} CollapseSkipsRun(s: string)
    ensures Collapse(s, true) == Collapse(TrimStart(s), true)
  {
    if s != [] && IsWS(s[0]) {
      CollapseSkipsRun(s[1..]);
    }
  }

  lemma {:induction false} SanitizeIsCollapse(s: string)
    ensures Sanitize(s) == Collapse(s, false)
    decreases |s|
  {
    if s == [] {
    } else if IsWS(s[0]) {
      var t := TrimStart(s);
      SanitizeIsCollapse(t);
      CollapseSkipsRun(s[1..]);
      assert TrimStart(s[1..]) == t;
      // after the run the scan is no longer inside one
      assert Collapse(t, true) == Collapse(t, false);
    } else {
      SanitizeIsCollapse(s[1..]);
    }
  }

  /** A name without white space is unchanged. */
  lemma {:induction false} SanitizeKeepsPlainName(s: string)
    requires NoWS(s)
    ensures Sanitize(s) == s
  {
    if s != [] {
      assert NoWS(s[1..]);
      SanitizeKeepsPlainName(s[1..]);
    }
  }

  lemma SanitizeIdempotent(s: string)
    ensures Sanitize(Sanitize(s)) == Sanitize(s)
  {
    SanitizeKeepsPlainName(Sanitize(s));
  }

  /** A non-empty run of white space on its own becomes a single hyphen. */
  lemma SanitizeRun(w: string)
    requires w != [] && AllWS(w)
    ensures Sanitize(w) == "-"
  {
  }

  lemma {:induction false} TrimStartAppend(a: string, b: string)
    requires !AllWS(a)
    ensures TrimStart(a + b) == TrimStart(a) + b
  {
    assert a != [];
    if IsWS(a[0]) {
      assert (a + b)[1..] == a[1..] + b;
      assert !AllWS(a[1..]) by {
        var i :| 0 <= i < |a| && !IsWS(a[i]);
        assert a[1..][i - 1] == a[i];
      }
      TrimStartAppend(a[1..], b);
    }
  }

  lemma {:induction false} TrimStartAllWS(a: string, b: string)
    requires AllWS(a)
    ensures TrimStart(a + b) == TrimStart(b)
  {
    if a != [] {
      assert (a + b)[0] == a[0];
      assert (a + b)[1..] == a[1..] + b;
      assert AllWS(a[1..]) by {
        forall i | 0 <= i < |a| - 1 ensures IsWS(a[1..][i]) { assert a[1..][i] == a[i + 1]; }
      }
      TrimStartAllWS(a[1..], b);
    } else {
      assert a + b == b;
    }
  }

  lemma SanitizeWordStep(a: string, b: string)
    requires a != [] && !IsWS(a[0])
    ensures Sanitize(a + b) == [a[0]] + Sanitize(a[1..] + b)
    ensures Sanitize(a) == [a[0]] + Sanitize(a[1..])
  {
    assert (a + b)[0] == a[0];
    assert (a + b)[1..] == a[1..] + b;
  }

  lemma SanitizeRunStep(a: string, b: string)
    requires a != [] && IsWS(a[0])
    ensures Sanitize(a + b) == "-" + Sanitize(TrimStart(a + b))
    ensures Sanitize(a) == "-" + Sanitize(TrimStart(a))
  {
    assert (a + b)[0] == a[0];
  }

  /** One word character in front: it is kept, and the rest is sanitized. */
  lemma AppendAfterWordChar(a: string, b: string)
    requires a != [] && !IsWS(a[0])
    requires Sanitize(a[1..] + b) == Sanitize(a[1..]) + Sanitize(b)
    ensures Sanitize(a + b) == Sanitize(a) + Sanitize(b)
  {
    SanitizeWordStep(a, b);
  }

  /** A run in front that ends inside `a`: it becomes one hyphen before the rest of `a`. */
  lemma AppendAfterInnerRun(a: string, b: string)
    requires a != [] && IsWS(a[0]) && !AllWS(a)
    requires Sanitize(TrimStart(a) + b) == Sanitize(TrimStart(a)) + Sanitize(b)
    ensures Sanitize(a + b) == Sanitize(a) + Sanitize(b)
  {
    SanitizeRunStep(a, b);
    TrimStartAppend(a, b);
    HyphenThen(Sanitize(a + b), Sanitize(a), Sanitize(TrimStart(a)), Sanitize(b));
  }

  lemma HyphenThen(whole: string, front: string, rest: string, back: string)
    requires front == "-" + rest
    requires whole == "-" + (rest + back)
    ensures whole == front + back
  {
  }

  /** `a` is one run and `b` starts with a word: the run becomes one hyphen. */
  lemma AppendAfterWholeRun(a: string, b: string)
    requires a != [] && AllWS(a)
    requires b == [] || !IsWS(b[0])
    ensures Sanitize(a + b) == Sanitize(a) + Sanitize(b)
  {
    SanitizeRunStep(a, b);
    TrimStartAllWS(a, b);
    SanitizeRun(a);
    assert TrimStart(b) == b;
  }

  /** Dropping the leading white space of a string that starts with white space
      but is not all white space leaves a shorter string with the same last character. */
  lemma TrimStartShorter(a: string)
    requires a != [] && IsWS(a[0]) && !AllWS(a)
    ensures var t := TrimStart(a); t != [] && |t| < |a| && t[|t| - 1] == a[|a| - 1]
  {
    var t := TrimStart(a);
    assert t != [] && t == a[|a| - |t|..];
  }

  /** Sanitizing distributes over a concatenation whose seam is not inside a run
      of white space. */
  lemma {:induction false} SanitizeAppend(a: string, b: string)
    requires a == [] || b == [] || !IsWS(a[|a| - 1]) || !IsWS(b[0])
    ensures Sanitize(a + b) == Sanitize(a) + Sanitize(b)
    decreases |a|
  {
    if a == [] {
      assert a + b == b;
    } else if !IsWS(a[0]) {
      SanitizeAppend(a[1..], b);
      AppendAfterWordChar(a, b);
    } else if AllWS(a) {
      AppendAfterWholeRun(a, b);
    } else {
      TrimStartShorter(a);
      SanitizeAppend(TrimStart(a), b);
      AppendAfterInnerRun(a, b);
    }
  }

  /** Each maximal run between two words becomes exactly one hyphen. */
  lemma SanitizeBetweenWords(a: string, w: string, b: string)
    requires a != [] && !IsWS(a[|a| - 1])
    requires w != [] && AllWS(w)
    requires b != [] && !IsWS(b[0])
    ensures Sanitize(a + w + b) == Sanitize(a) + "-" + Sanitize(b)
  {
    SanitizeAppend(a, w);
    assert (a + w)[|a + w| - 1] == w[|w| - 1];
    SanitizeAppend(a + w, b);
    SanitizeRun(w);
  }

  /** The characters of `s` other than white space and hyphens, in order. */
  function Letters(s: string): string {
    if s == [] then []
    else (if IsWS(s[0]) || s[0] == '-' then [] else [s[0]]) + Letters(s[1..])
  }

  lemma {:induction false} LettersSkipRun(s: string)
    ensures Letters(TrimStart(s)) == Letters(s)
  {
    if s != [] && IsWS(s[0]) {
      LettersSkipRun(s[1..]);
    }
  }

  lemma LettersCons(c: char, s: string)
    ensures Letters([c] + s) == (if IsWS(c) || c == '-' then [] else [c]) + Letters(s)
  {
    assert ([c] + s)[0] == c;
    assert ([c] + s)[1..] == s;
  }

  /** Sanitizing keeps every other character, in order and in its case: it only
      adds hyphens and removes white space. */
  lemma {:induction false} SanitizeKeepsLetters(s: string)
    ensures Letters(Sanitize(s)) == Letters(s)
    decreases |s|
  {
    if s == [] {
    } else if IsWS(s[0]) {
      var t := TrimStart(s);
      SanitizeKeepsLetters(t);
      LettersSkipRun(s);
      LettersCons('-', Sanitize(t));
    } else {
      SanitizeKeepsLetters(s[1..]);
      LettersCons(s[0], Sanitize(s[1..]));
      LettersCons(s[0], s[1..]);
      assert [s[0]] + s[1..] == s;
    }
  }

  const FileSuffix := "-release-notes.md"

  /** `${productName.replace(/\s+/g, '-')}-${version}-release-notes.md`: the
      version is inserted as typed, so the name is free of white space exactly
      when the version is. */
  function FileName(productName: string, version: string): (r: string)
    ensures NoWS(r) <==> NoWS(version)
    ensures StartsWith(r, Sanitize(productName) + "-" + version)
    ensures |r| >= |FileSuffix| && r[|r| - |FileSuffix|..] == FileSuffix
    // nothing sits between the version and the suffix
    ensures |r| == |Sanitize(productName)| + 1 + |version| + |FileSuffix|
  {
    FileNameParts(Sanitize(productName) + "-", version);
    Sanitize(productName) + "-" + version + FileSuffix
  }

  lemma FileNameParts(head: string, version: string)
    requires NoWS(head)
    ensures NoWS(head + version + FileSuffix) <==> NoWS(version)
    ensures StartsWith(head + version + FileSuffix, head + version)
    ensures (head + version + FileSuffix)[|head + version|..] == FileSuffix
  {
    assert NoWS(FileSuffix);
    NoWSAppend(head, version);
    NoWSAppend(head + version, FileSuffix);
    assert (head + version + FileSuffix)[..|head + version|] == head + version;
  }

  /** The file name of the worked example keeps the product name's case. */
  lemma ExampleFileName()
    ensures FileName("Acme", "1.9.2") == "Acme-1.9.2" + FileSuffix
  {
    AcmeIsPlain();
    assert "Acme" + "-" + "1.9.2" == "Acme-1.9.2";
  }

  lemma AcmeIsPlain()
    ensures Sanitize("Acme") == "Acme"
  {
    assert NoWS("Acme");
    SanitizeKeepsPlainName("Acme");
  }

  /** Punctuation is kept too: only the space of "My App!" is replaced. */
  lemma ExampleSanitize()
    ensures Sanitize("My App!") == "My-App!"
  {
    assert "My" + " " + "App!" == "My App!";
    SanitizeBetweenWords("My", " ", "App!");
    PlainNames();
    assert "My" + "-" + "App!" == "My-App!";
  }

  lemma PlainNames()
    ensures Sanitize("My") == "My" && Sanitize("App!") == "App!"
  {
    assert NoWS("My") && NoWS("App!");
    SanitizeKeepsPlainName("My");
    SanitizeKeepsPlainName("App!");
  }

  /** The worked example's answers pass every validator. */
  lemma ExampleAccepted()
    ensures Accepts(Answers("Acme", "1.9.2", Normal, "Added dark mode", "sk-test"))
  {
    assert !IsWS("Acme"[0]) && !IsWS("1.9.2"[0]) && !IsWS("Added dark mode"[0]);
    assert StartsWith("sk-test", "sk-");
  }

  /** What the worked example sends: the features verbatim as the user message and
      the literal title in the normal system prompt. */
  lemma ExampleRequest()
    ensures var body := Generator.RequestBody(ToRequest(Answers("Acme", "1.9.2", Normal, "Added dark mode", "sk-test")));
      && body.messages[1].content == "Added dark mode"
      && body.messages[0].content == Generator.NormalPrompt("Acme", "1.9.2")
      && Contains(body.messages[0].content, "\"Acme - 1.9.2\"")
  {
    var r := ToRequest(Answers("Acme", "1.9.2", Normal, "Added dark mode", "sk-test"));
    assert r.mode == "normal";
    assert r.mode != "expanded";
    assert Generator.Title("Acme", "1.9.2") == "\"Acme - 1.9.2\"";
  }
}
