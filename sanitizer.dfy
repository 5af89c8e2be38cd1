/** The `no_html` sanitiser of the dynamic validator: markup stripping by an external HTML cleaner,
    then three single-pass, case-insensitive regular-expression removals, then `strip()`. */
module Sanitizer {
  import opened Text
  import opened Values

  const JavascriptScheme := "javascript:"
  const DataPrefix := "data-"

  /** Removes every leftmost, non-overlapping, case-insensitive occurrence of the lower-case
      literal `pat`, scanning once from left to right (`re.sub(pat, '', s, flags=re.IGNORECASE)`). */
  function RemoveLiteral(s: string, pat: string): (r: string)
    requires |pat| > 0
    ensures |r| <= |s|
    decreases |s|
  {
    if |s| == 0 then ""
    else if |pat| <= |s| && Lower(s[..|pat|]) == pat then RemoveLiteral(s[|pat|..], pat)
    else [s[0]] + RemoveLiteral(s[1..], pat)
  }

  /** A string with no case-insensitive occurrence of the lower-case literal `pat`. */
  ghost predicate FreeOf(s: string, pat: string) {
    forall i: nat :: !MatchesAt(s, pat, i)
  }

  /** A case-insensitive occurrence of the lower-case literal `pat` at position `i`. */
  predicate MatchesAt(s: string, pat: string, i: nat) {
    i + |pat| <= |s| && Lower(s[i..i + |pat|]) == pat
  }

  /** Length of the longest prefix made of `\w` characters. */
  function WordRun(s: string): (n: nat)
    ensures n <= |s|
    ensures forall i :: 0 <= i < n ==> IsWordChar(s[i])
    ensures n < |s| ==> !IsWordChar(s[n])
  {
    if |s| > 0 && IsWordChar(s[0]) then 1 + WordRun(s[1..]) else 0
  }

  /** Length of the longest prefix made of `\s` characters. */
  function SpaceRun(s: string): (n: nat)
    ensures n <= |s|
    ensures forall i :: 0 <= i < n ==> IsSpace(s[i])
    ensures n < |s| ==> !IsSpace(s[n])
  {
    if |s| > 0 && IsSpace(s[0]) then 1 + SpaceRun(s[1..]) else 0
  }

  /** Length of a match of `on\w+\s*=` (case-insensitive) at the start of `s`, if there is one.
      Taking the longest word run is the only choice: a shorter run is followed by a word
      character, which is neither whitespace nor `=`. */
  function HandlerMatch(s: string): (r: Option<nat>)
    ensures r.Some? ==> 4 <= r.value <= |s|
    ensures r.Some? ==> ToLower(s[0]) == 'o' && ToLower(s[1]) == 'n' && s[r.value - 1] == '='
  {
    if |s| >= 2 && ToLower(s[0]) == 'o' && ToLower(s[1]) == 'n' then
      var w := WordRun(s[2..]);
      if w == 0 then None
      else
        var sp := SpaceRun(s[2 + w..]);
        if 2 + w + sp < |s| && s[2 + w + sp] == '=' then Some(2 + w + sp + 1) else None
    else None
  }

  /** `re.sub(r'on\w+\s*=', '', s, flags=re.IGNORECASE)` */
  function RemoveHandlers(s: string): (r: string)
    ensures |r| <= |s|
    decreases |s|
  {
    if |s| == 0 then ""
    else match HandlerMatch(s)
      case Some(k) => RemoveHandlers(s[k..])
      case None => [s[0]] + RemoveHandlers(s[1..])
  }

  /** The text pipeline applied to `str(value)`: the external cleaner `bleach`
      (markup removal with an empty tag whitelist), the three removals, then `strip()`. */
  function SanitizeText(s: string, bleach: string -> string): (r: string)
    ensures IsStripped(r)
    ensures |r| <= |bleach(s)|
  {
    var t := RemoveLiteral(RemoveHandlers(RemoveLiteral(bleach(s), JavascriptScheme)), DataPrefix);
    StripIsStripped(t);
    Strip(t)
  }

  /** `_clean_no_html`: falsy values and uploaded files come back unchanged; anything else is
      printed with `str()` and sanitised into a string. */
  function CleanNoHtml(v: Value, bleach: string -> string): (r: Value)
    ensures !Truthy(v) || HasSize(v) ==> r == v
    ensures Truthy(v) && !HasSize(v) ==> r.Str? && IsStripped(r.s) && |r.s| <= |bleach(PyStr(v))|
  {
    if !Truthy(v) then v
    else if HasSize(v) then v
    else Str(SanitizeText(PyStr(v), bleach))
  }

  /** Text shorter than the pattern passes through unchanged. */
  lemma {:induction false} RemoveLiteralShort(s: string, pat: string)
    requires 0 < |pat| && |s| < |pat|
    ensures RemoveLiteral(s, pat) == s
    decreases |s|
  {
    if |s| > 0 {
      RemoveLiteralShort(s[1..], pat);
      assert s == [s[0]] + s[1..];
    }
  }

  /** Characters at which no occurrence starts are copied through. */
  lemma {:induction false} KeepPrefix(p: string, rest: string, pat: string)
    requires |pat| > 0
    requires forall i :: 0 <= i < |p| ==> !MatchesAt(p + rest, pat, i)
    ensures RemoveLiteral(p + rest, pat) == p + RemoveLiteral(rest, pat)
    decreases |p|
  {
    if |p| > 0 {
      var s := p + rest;
      assert !MatchesAt(s, pat, 0);
      assert RemoveLiteral(s, pat) == [s[0]] + RemoveLiteral(s[1..], pat);
      assert s[1..] == p[1..] + rest;
      NoMatchAfterFirst(p, rest, pat);
      KeepPrefix(p[1..], rest, pat);
      assert s[0] == p[0];
      assert [p[0]] + (p[1..] + RemoveLiteral(rest, pat)) == p + RemoveLiteral(rest, pat);
    } else {
      assert p + rest == rest;
    }
  }

  /** Dropping the first character shifts the occurrence-free positions down by one. */
  lemma NoMatchAfterFirst(p: string, rest: string, pat: string)
    requires |p| > 0
    requires forall i :: 0 <= i < |p| ==> !MatchesAt(p + rest, pat, i)
    ensures forall i :: 0 <= i < |p| - 1 ==> !MatchesAt(p[1..] + rest, pat, i)
  {
    var s := p + rest;
    forall i | 0 <= i < |p| - 1
      ensures !MatchesAt(p[1..] + rest, pat, i)
    {
      assert !MatchesAt(s, pat, i + 1);
      if i + |pat| <= |s| - 1 {
        assert (p[1..] + rest)[i..i + |pat|] == s[i + 1..i + 1 + |pat|];
      }
    }
  }

  /** An occurrence at the front is dropped whole and scanning resumes after it. */
  lemma SkipOccurrence(m: string, rest: string, pat: string)
    requires |pat| > 0 && Lower(m) == pat
    ensures RemoveLiteral(m + rest, pat) == RemoveLiteral(rest, pat)
  {
    var s := m + rest;
    assert s[..|pat|] == m && s[|pat|..] == rest;
  }

  /** No occurrence of the scheme starts within the leading "java" of "javajavascript:script:". */
  lemma LeadingPiece(s: string, pat: string)
    requires pat == JavascriptScheme && s == "javajavascript:script:"
    ensures forall i :: 0 <= i < 4 ==> !MatchesAt(s, pat, i)
  {
    forall i | 0 <= i < 4 ensures !MatchesAt(s, pat, i) {
      assert Lower(s[i..i + 11])[4 - i] == 'j';
    }
  }

  /** The inner occurrence is dropped, and the remaining "script:" is too short to match. */
  lemma InnerOccurrence(s4: string, pat: string, tail: string)
    requires pat == JavascriptScheme && tail == "script:" && s4 == pat + tail
    ensures RemoveLiteral(s4, pat) == tail
  {
    assert Lower(pat) == pat;
    SkipOccurrence(pat, tail, pat);
    RemoveLiteralShort(tail, pat);
  }

  /** A single pass of the `javascript:` removal can reassemble the scheme from its pieces:
      removing the inner occurrence of "javajavascript:script:" leaves "javascript:". */
  lemma SchemeSurvivesOnePass(s: string, pat: string, s4: string)
    requires pat == JavascriptScheme && s4 == "javascript:script:" && s == "java" + s4
    ensures RemoveLiteral(s, pat) == "java" + "script:"
  {
    LeadingPiece(s, pat);
    KeepPrefix("java", s4, pat);
    InnerOccurrence(s4, pat, "script:");
  }

  /** `onkey=` at the front of "onkey=1" is a handler match. */
  lemma HandlerAfterFirst(t: string)
    requires t == "onkey=1"
    ensures HandlerMatch(t) == Some(6)
  {
    var w := t[2..];
    assert w[0] == 'k' && w[1] == 'e' && w[2] == 'y' && w[3] == '=';
    assert WordRun(w) == 3;
    assert SpaceRun(t[5..]) == 0;
  }

  /** The handler pattern is not anchored to attributes: it cuts into ordinary words, so
      "monkey=1" loses "onkey=" and becomes "m1". */
  lemma HandlerPatternCutsWords(s: string)
    requires s == "monkey=1"
    ensures RemoveHandlers(s) == [s[0]] + [s[7]]
  {
    assert HandlerMatch(s) == None;
    var t := s[1..];
    HandlerAfterFirst(t);
    assert t[6..] == [s[7]];
    assert HandlerMatch([s[7]]) == None;
    assert RemoveHandlers([s[7]]) == [s[7]] + RemoveHandlers([]);
    assert RemoveHandlers(t) == RemoveHandlers(t[6..]);
    assert RemoveHandlers(s) == [s[0]] + RemoveHandlers(t);
  }
}
