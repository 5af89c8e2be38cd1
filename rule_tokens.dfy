/** The rule tokens the tables are written in, and what the validator does with each of them.
    `MinTok(3)` is the token `"min:3"`, `ExtensionsTok(["jpg", "png"])` is `"extensions:jpg,png"`. */
module RuleTokens {
  import opened Text
  import opened Values
  import opened Checks

  const RequiredTok := "required"
  const NoHtmlTok := "no_html"
  const UniqueTok := "unique"
  const EmailTok := "email"
  const UrlTok := "url"
  const FileTok := "file"

  function MinTok(n: int): string { "min:" + IntToString(n) }
  function MaxTok(n: int): string { "max:" + IntToString(n) }
  function SizeTok(n: int): string { "size:" + IntToString(n) }
  function ExtensionsTok(exts: seq<string>): string { "extensions:" + Join(exts, [',']) }

  /** The tokens with a fixed meaning besides `required` and `no_html`. */
  lemma DispatchWords(f: string, v: Value, env: Env)
    ensures CheckToken(f, v, RequiredTok, env) == Pass
    ensures CheckToken(f, v, NoHtmlTok, env) == Pass
    ensures CheckToken(f, v, UniqueTok, env) == ValidateUnique(f, v, env)
    ensures CheckToken(f, v, EmailTok, env) == ValidateEmail(v, env)
    ensures CheckToken(f, v, UrlTok, env) == ValidateUrl(v, env)
    ensures CheckToken(f, v, FileTok, env) == ValidateFile(v)
  {
    assert UniqueTok[0] == 'u' && UniqueTok[1] == 'n';
    assert !StartsWith(UniqueTok, "max:") && !StartsWith(UniqueTok, "min:");
    assert !StartsWith(UniqueTok, "size:") && !StartsWith(UniqueTok, "extensions:");
    assert EmailTok[0] == 'e' && EmailTok[1] == 'm';
    assert !StartsWith(EmailTok, "max:") && !StartsWith(EmailTok, "min:");
    assert UrlTok[0] == 'u' && UrlTok[1] == 'r';
    assert !StartsWith(UrlTok, "max:") && !StartsWith(UrlTok, "min:");
    assert FileTok[0] == 'f';
    assert !StartsWith(FileTok, "max:") && !StartsWith(FileTok, "min:");
  }

  lemma DispatchMin(f: string, v: Value, n: int, env: Env)
    ensures CheckToken(f, v, MinTok(n), env) == ValidateMin(v, MinTok(n))
  {
    var s := MinTok(n);
    assert s[0] == 'm' && s[1] == 'i' && s[..4] == "min:";
  }

  lemma DispatchMax(f: string, v: Value, n: int, env: Env)
    ensures CheckToken(f, v, MaxTok(n), env) == ValidateMax(v, MaxTok(n))
  {
    var s := MaxTok(n);
    assert s[0] == 'm' && s[1] == 'a' && s[..4] == "max:";
  }

  lemma DispatchSize(f: string, v: Value, n: int, env: Env)
    ensures CheckToken(f, v, SizeTok(n), env) == ValidateFileSize(v, SizeTok(n))
  {
    var s := SizeTok(n);
    assert s[0] == 's' && s[1] == 'i' && s[..5] == "size:";
    assert s != NoHtmlTok && s != RequiredTok && s != EmailTok && s != UrlTok && s != FileTok;
    assert !StartsWith(s, "max:") && !StartsWith(s, "min:");
  }

  lemma DispatchExtensions(f: string, v: Value, exts: seq<string>, env: Env)
    ensures CheckToken(f, v, ExtensionsTok(exts), env) == ValidateFileExtensions(v, ExtensionsTok(exts))
  {
    var s := ExtensionsTok(exts);
    assert s[0] == 'e' && s[1] == 'x' && s[..11] == "extensions:";
    assert s != NoHtmlTok && s != RequiredTok && s != EmailTok && s != UrlTok && s != FileTok;
    assert !StartsWith(s, "max:") && !StartsWith(s, "min:") && !StartsWith(s, "size:");
  }

  /** `int("2MB")` raises. */
  lemma TwoMegabytesIsNotAnInteger(arg: string)
    requires arg == "2MB"
    ensures PyInt(arg) == None
  {
    assert arg[0] == '2' && arg[1] == 'M' && arg[2] == 'B';
    PyIntRejects(arg, 1);
  }

  /** The malformed token `'max:2MB'` raises `ValueError` on every value it is applied to. */
  lemma MalformedMaxRaises(f: string, v: Value, env: Env, arg: string)
    requires arg == "2MB"
    ensures CheckToken(f, v, "max:" + arg, env) == Raise
  {
    var s := "max:" + arg;
    assert s[0] == 'm' && s[1] == 'a' && s[..4] == "max:";
    TwoMegabytesIsNotAnInteger(arg);
    assert ':' !in arg;
    MaxMalformedRaises(v, arg);
  }

  // ---------------------------------------------------------------------------
  // Tokens as data
  // ---------------------------------------------------------------------------

  /** A rule token by its meaning. `Raw` keeps a token verbatim (such as the malformed `'max:2MB'`). */
  datatype Tok =
    | Required | NoHtml | Unique | Email | Url | File
    | Min(n: int) | Max(n: int) | Size(n: int)
    | Extensions(exts: seq<string>)
    | Raw(text: string)

  /** The string the rule tables hold for a token. */
  function Render(tok: Tok): string {
    match tok
    case Required => RequiredTok
    case NoHtml => NoHtmlTok
    case Unique => UniqueTok
    case Email => EmailTok
    case Url => UrlTok
    case File => FileTok
    case Min(n) => MinTok(n)
    case Max(n) => MaxTok(n)
    case Size(n) => SizeTok(n)
    case Extensions(exts) => ExtensionsTok(exts)
    case Raw(text) => text
  }

  /** Only `no_html` itself renders as `no_html`. */
  lemma RenderNotNoHtml(tok: Tok)
    requires tok != NoHtml && (tok.Raw? ==> tok.text != NoHtmlTok)
    ensures Render(tok) != NoHtmlTok
  {
    match tok
    case Min(n) => assert MinTok(n)[0] == 'm';
    case Max(n) => assert MaxTok(n)[0] == 'm';
    case Size(n) => assert SizeTok(n)[0] == 's';
    case Extensions(exts) => assert ExtensionsTok(exts)[0] == 'e';
    case _ =>
  }

  function RenderAll(toks: seq<Tok>): (r: seq<string>)
    ensures |r| == |toks| && forall i :: 0 <= i < |toks| ==> r[i] == Render(toks[i])
  {
    seq(|toks|, i requires 0 <= i < |toks| => Render(toks[i]))
  }

  /** Extension lists that survive `split(":")` and `split(",")`. */
  predicate WellFormed(tok: Tok) {
    tok.Extensions? ==> |tok.exts| >= 1 && forall k :: 0 <= k < |tok.exts| ==> ':' !in tok.exts[k] && ',' !in tok.exts[k]
  }

  /** What each token means, stated on its arguments rather than on its text. */
  function Expected(tok: Tok, f: string, v: Value, env: Env): Check {
    match tok
    case Required => Pass
    case NoHtml => Pass
    case Unique => ValidateUnique(f, v, env)
    case Email => ValidateEmail(v, env)
    case Url => ValidateUrl(v, env)
    case File => ValidateFile(v)
    case Min(n) => MinCheck(v, n)
    case Max(n) => MaxCheck(v, n)
    case Size(n) => SizeCheck(v, n)
    case Extensions(exts) => ExtensionsCheck(v, exts)
    case Raw(text) => CheckToken(f, v, text, env)
  }

  lemma MinMeaning(f: string, v: Value, n: int, env: Env)
    ensures CheckToken(f, v, MinTok(n), env) == MinCheck(v, n)
  {
    DispatchMin(f, v, n, env);
    MinArgument(n);
    assert ValidateMin(v, MinTok(n)) == MinCheck(v, n);
  }

  lemma MinArgument(n: int)
    ensures PyInt(ParamText(MinTok(n))) == Some(n)
  {
    ParamOfNumber("min:", n);
  }

  lemma MaxMeaning(f: string, v: Value, n: int, env: Env)
    ensures CheckToken(f, v, MaxTok(n), env) == MaxCheck(v, n)
  {
    DispatchMax(f, v, n, env);
    MaxArgument(n);
    assert ValidateMax(v, MaxTok(n)) == MaxCheck(v, n);
  }

  lemma MaxArgument(n: int)
    ensures PyInt(ParamText(MaxTok(n))) == Some(n)
  {
    ParamOfNumber("max:", n);
  }

  lemma SizeMeaning(f: string, v: Value, n: int, env: Env)
    ensures CheckToken(f, v, SizeTok(n), env) == SizeCheck(v, n)
  {
    DispatchSize(f, v, n, env);
    SizeArgument(n);
    assert ValidateFileSize(v, SizeTok(n)) == SizeCheck(v, n);
  }

  lemma SizeArgument(n: int)
    ensures PyInt(ParamText(SizeTok(n))) == Some(n)
  {
    ParamOfNumber("size:", n);
  }

  lemma ExtensionsMeaning(f: string, v: Value, exts: seq<string>, env: Env)
    requires WellFormed(Extensions(exts))
    ensures CheckToken(f, v, ExtensionsTok(exts), env) == Expected(Extensions(exts), f, v, env)
  {
    DispatchExtensions(f, v, exts, env);
    AllowedOfToken(exts);
    assert ValidateFileExtensions(v, ExtensionsTok(exts)) == ExtensionsCheck(v, exts);
    ExpectedExtensions(f, v, exts, env);
  }

  /** The validator's string dispatch agrees with the meaning of every well-formed token. */
  lemma TokenMeaning(tok: Tok, f: string, v: Value, env: Env)
    requires WellFormed(tok)
    ensures CheckToken(f, v, Render(tok), env) == Expected(tok, f, v, env)
  {
    match tok {
      case Min(n) => MinMeaning(f, v, n, env);
      case Max(n) => MaxMeaning(f, v, n, env);
      case Size(n) => SizeMeaning(f, v, n, env);
      case Extensions(exts) => ExtensionsMeaning(f, v, exts, env);
      case Raw(_) =>
      case _ => DispatchWords(f, v, env);
    }
  }

  /** The messages a field collects, computed from the tokens' meanings. */
  function ExpectedMessages(f: string, v: Value, toks: seq<Tok>, env: Env): FieldResult
    decreases |toks|
  {
    if |toks| == 0 then Msgs([])
    else
      match Expected(toks[0], f, v, env)
      case Raise => Crashed
      case Pass => ExpectedMessages(f, v, toks[1..], env)
      case Fail(m) => Prepend([m], ExpectedMessages(f, v, toks[1..], env))
  }

  /** One token in front of others: its check, then the messages of the rest. */
  lemma ExpectedCons(f: string, v: Value, tok: Tok, rest: seq<Tok>, env: Env)
    ensures ExpectedMessages(f, v, [tok] + rest, env) == Continue(Expected(tok, f, v, env), ExpectedMessages(f, v, rest, env))
  {
    assert ([tok] + rest)[0] == tok && ([tok] + rest)[1..] == rest;
  }

  /** Three checks in a row: no message exactly when all pass, a crash exactly when one raises. */
  lemma ContinueThree(a: Check, b: Check, c: Check)
    ensures Continue(a, Continue(b, Continue(c, Msgs([])))) == Msgs([]) <==> a == Pass && b == Pass && c == Pass
    ensures Continue(a, Continue(b, Continue(c, Msgs([])))) == Crashed <==> a == Raise || b == Raise || c == Raise
  {
  }

  /** On a file, `size:n` never raises and passes exactly within n MiB. */
  lemma SizeCheckOnFile(v: Value, n: int)
    requires HasSize(v)
    ensures SizeCheck(v, n) != Raise
    ensures SizeCheck(v, n) == Pass <==> v.size <= n * 1024 * 1024
  {
  }

  /** On a file, `extensions:` never raises and passes exactly for a listed extension. */
  lemma ExtensionsCheckOnFile(v: Value, exts: seq<string>)
    requires HasSize(v)
    ensures ExtensionsCheck(v, exts) != Raise
    ensures ExtensionsCheck(v, exts) == Pass <==> Lower(ExtensionOf(v.name)) in exts
  {
  }

  /** The messages of three tokens are their three checks in order. */
  lemma ExpectedThree(f: string, v: Value, x: Tok, y: Tok, z: Tok, env: Env)
    ensures ExpectedMessages(f, v, [x, y, z], env)
      == Continue(Expected(x, f, v, env), Continue(Expected(y, f, v, env), Continue(Expected(z, f, v, env), Msgs([]))))
  {
    ExpectedCons(f, v, z, [], env);
    ExpectedCons(f, v, y, [z], env);
    ExpectedCons(f, v, x, [y, z], env);
    assert [z] == [z] + [] && [y, z] == [y] + [z] && [x, y, z] == [x] + [y, z];
  }

  /** The meanings of the three file tokens, one at a time. */
  lemma ExpectedFile(f: string, v: Value, env: Env)
    ensures Expected(Tok.File, f, v, env) == ValidateFile(v)
  {
  }

  lemma ExpectedSize(f: string, v: Value, n: int, env: Env)
    ensures Expected(Size(n), f, v, env) == SizeCheck(v, n)
  {
  }

  lemma ExpectedExtensions(f: string, v: Value, exts: seq<string>, env: Env)
    ensures Expected(Extensions(exts), f, v, env) == ExtensionsCheck(v, exts)
  {
    var tok := Extensions(exts);
    assert tok.Extensions? && tok.exts == exts;
  }

  /** The messages of `[file, size:n, extensions:…]` are its three checks in order. */
  lemma FileRuleSteps(f: string, v: Value, n: int, exts: seq<string>, env: Env)
    ensures ExpectedMessages(f, v, [Tok.File, Size(n), Extensions(exts)], env)
      == Continue(ValidateFile(v), Continue(SizeCheck(v, n), Continue(ExtensionsCheck(v, exts), Msgs([]))))
  {
    ExpectedThree(f, v, Tok.File, Size(n), Extensions(exts), env);
    ExpectedFile(f, v, env);
    ExpectedSize(f, v, n, env);
    ExpectedExtensions(f, v, exts, env);
  }

  /** A `[file, size:n, extensions:…]` rule on any value: a file passes exactly within the size
      and with a listed extension and never raises; anything else raises at `size:`. */
  lemma FileRuleMeaning(f: string, v: Value, n: int, exts: seq<string>, env: Env)
    ensures HasSize(v) ==> (ExpectedMessages(f, v, [Tok.File, Size(n), Extensions(exts)], env) == Msgs([])
      <==> v.size <= n * 1024 * 1024 && Lower(ExtensionOf(v.name)) in exts)
    ensures HasSize(v) ==> ExpectedMessages(f, v, [Tok.File, Size(n), Extensions(exts)], env) != Crashed
    ensures !HasSize(v) ==> ExpectedMessages(f, v, [Tok.File, Size(n), Extensions(exts)], env) == Crashed
  {
    var a, b, c := ValidateFile(v), SizeCheck(v, n), ExtensionsCheck(v, exts);
    FileRuleSteps(f, v, n, exts, env);
    ContinueThree(a, b, c);
    if HasSize(v) {
      SizeCheckOnFile(v, n);
      ExtensionsCheckOnFile(v, exts);
    } else {
      assert b == Raise;
    }
  }

  /** The rule loop over the rendered tokens collects exactly the expected messages. */
  lemma {:induction false} RenderedMessages(f: string, v: Value, toks: seq<Tok>, env: Env)
    requires forall i :: 0 <= i < |toks| ==> WellFormed(toks[i])
    ensures RuleMessages(f, v, RenderAll(toks), env) == ExpectedMessages(f, v, toks, env)
    decreases |toks|
  {
    if |toks| > 0 {
      TokenMeaning(toks[0], f, v, env);
      RenderedMessages(f, v, toks[1..], env);
      assert RenderAll(toks)[1..] == RenderAll(toks[1..]);
    }
  }
}
