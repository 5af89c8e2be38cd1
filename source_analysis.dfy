/** The traffic-source analysis: classifying a referrer into a main source and a sub source, the
    reverse map from source to domain, and `analyze_main_sources`, which counts visits per source
    and per sub source and sorts the sources by their totals. */
module SourceAnalysis {
  import opened Text

  // ---------------------------------------------------------------------------
  // Classification
  // ---------------------------------------------------------------------------

  // The listed domains.
  const FacebookCom := "facebook.com"
  const FbCom := "fb.com"
  const InstagramCom := "instagram.com"
  const TwitterCom := "twitter.com"
  const XCom := "x.com"
  const LinkedinCom := "linkedin.com"
  const TiktokCom := "tiktok.com"
  const YoutubeCom := "youtube.com"
  const GoogleCom := "google.com"
  const BingCom := "bing.com"
  const YahooCom := "yahoo.com"

  /** `sources_map`, in declaration order. */
  const SourcesMap: seq<(string, string)> := [
    (FacebookCom, "facebook"), (FbCom, "facebook"), (InstagramCom, "instagram"),
    (TwitterCom, "twitter"), (XCom, "twitter"), (LinkedinCom, "linkedin"),
    (TiktokCom, "tiktok"), (YoutubeCom, "youtube"), (GoogleCom, "google"),
    (BingCom, "bing"), (YahooCom, "yahoo")]

  /** The value of the first entry whose domain occurs in `s`. */
  function FirstMatch(table: seq<(string, string)>, s: string): (r: Option<string>)
    ensures r.None? <==> forall i :: 0 <= i < |table| ==> !Contains(s, table[i].0)
    ensures r.Some? ==> exists i :: (0 <= i < |table| && Contains(s, table[i].0) && r.value == table[i].1
      && forall j :: 0 <= j < i ==> !Contains(s, table[j].0))
    decreases |table|
  {
    if |table| == 0 then None
    else if Contains(s, table[0].0) then Some(table[0].1)
    else
      var r := FirstMatch(table[1..], s);
      assert forall i :: 1 <= i < |table| ==> table[1..][i - 1] == table[i];
      if r.Some? then
        var i :| 0 <= i < |table[1..]| && Contains(s, table[1..][i].0) && r.value == table[1..][i].1
          && forall j :: 0 <= j < i ==> !Contains(s, table[1..][j].0);
        assert forall j :: 1 <= j < i + 1 ==> !Contains(s, table[j].0) by {
          forall j | 1 <= j < i + 1 ensures !Contains(s, table[j].0) {
            assert table[j] == table[1..][j - 1];
          }
        }
        r
      else r
  }

  /** The first entry in declaration order whose domain occurs decides. */
  lemma FirstMatchAt(table: seq<(string, string)>, s: string, i: nat)
    requires i < |table| && Contains(s, table[i].0)
    requires forall j :: 0 <= j < i ==> !Contains(s, table[j].0)
    ensures FirstMatch(table, s) == Some(table[i].1)
  {
    var r := FirstMatch(table, s);
    var k :| 0 <= k < |table| && Contains(s, table[k].0) && r.value == table[k].1
      && forall j :: 0 <= j < k ==> !Contains(s, table[j].0);
    assert k == i;
  }

  /** `get_main_source`: a missing or empty referrer, or one mentioning "direct", is `'direct'`;
      otherwise the first listed domain occurring in the lower-cased referrer names the source;
      with none, `'other'`. */
  function MainSource(ref: Option<string>): (r: string)
    ensures ref.None? || ref.value == "" || Contains(Lower(ref.value), "direct") ==> r == "direct"
    ensures r == "direct" || r == "other" || exists i :: 0 <= i < |SourcesMap| && r == SourcesMap[i].1
  {
    if ref.None? || ref.value == "" || Contains(Lower(ref.value), "direct") then "direct"
    else
      match FirstMatch(SourcesMap, Lower(ref.value))
      case None => "other"
      case Some(source) => source
  }

  /** Without "direct" in it, a referrer is classified by the first listed domain it contains. */
  lemma MainSourceByDomain(ref: string, i: nat)
    requires ref != "" && !Contains(Lower(ref), "direct")
    requires i < |SourcesMap| && Contains(Lower(ref), SourcesMap[i].0)
    requires forall j :: 0 <= j < i ==> !Contains(Lower(ref), SourcesMap[j].0)
    ensures MainSource(Some(ref)) == SourcesMap[i].1
  {
    FirstMatchAt(SourcesMap, Lower(ref), i);
  }

  /** A non-empty referrer without "direct" and without any listed domain is `'other'`. */
  lemma MainSourceOther(ref: string)
    requires ref != "" && !Contains(Lower(ref), "direct")
    requires forall j :: 0 <= j < |SourcesMap| ==> !Contains(Lower(ref), SourcesMap[j].0)
    ensures MainSource(Some(ref)) == "other"
  {
  }

  // Showing that a domain does not occur: some character of it is missing from the text.

  predicate SomeCharMissing(s: string, p: string)
    decreases |p|
  {
    |p| > 0 && (p[0] !in s || SomeCharMissing(s, p[1..]))
  }

  lemma {:induction false} MissingCharNotContained(s: string, p: string)
    requires SomeCharMissing(s, p)
    ensures !Contains(s, p)
    decreases |p|
  {
    if Contains(s, p) {
      var i := ContainsWitness(s, p);
      assert s[i] == p[0];
      MissingCharNotContained(s, p[1..]);
      ContainsAt(s, p[1..], i + 1);
    }
  }

  /** A text lacking one character of `p` does not contain `p`. */
  lemma Absent(s: string, p: string, c: char)
    requires c in p && c !in s
    ensures !Contains(s, p)
  {
    if Contains(s, p) {
      var i := ContainsWitness(s, p);
    }
  }

  lemma {:induction false} ContainsSuffix(s: string, p: string)
    ensures Contains(s + p, p)
  {
    ContainsAt(s + p, p, |s|);
  }

  lemma {:induction false} LowerOfLowercase(s: string)
    requires forall i :: 0 <= i < |s| ==> !('A' <= s[i] <= 'Z')
    ensures Lower(s) == s
  {
  }

  /** Domains are matched as substrings, not as host names: `dropbox.com` ends in `x.com` and is
      counted as Twitter. */
  lemma DropboxIsTwitter(ref: string)
    requires ref == "dropbox.com"
    ensures MainSource(Some(ref)) == "twitter"
  {
    DropboxMisses(ref);
    FirstFiveDomains();
    assert forall j :: 0 <= j < 4 ==> !Contains(Lower(ref), SourcesMap[j].0);
    MainSourceByDomain(ref, 4);
  }

  /** The first five entries of the domain table. */
  lemma FirstFiveDomains()
    ensures |SourcesMap| > 4
    ensures SourcesMap[0].0 == "facebook.com" && SourcesMap[1].0 == "fb.com"
    ensures SourcesMap[2].0 == "instagram.com" && SourcesMap[3].0 == "twitter.com"
    ensures SourcesMap[4] == ("x.com", "twitter")
  {
  }

  lemma DropboxMisses(ref: string)
    requires ref == "dropbox.com"
    ensures Lower(ref) == ref && Contains(ref, "x.com") && !Contains(ref, "direct")
    ensures !Contains(ref, "facebook.com") && !Contains(ref, "fb.com")
    ensures !Contains(ref, "instagram.com") && !Contains(ref, "twitter.com")
  {
    DropboxText(ref);
    DropboxLacks(ref);
  }

  lemma DropboxText(ref: string)
    requires ref == "dropbox.com"
    ensures Lower(ref) == ref && Contains(ref, "x.com")
  {
    LowerOfLowercase(ref);
    assert ref == "dropbo" + "x.com";
    ContainsSuffix("dropbo", "x.com");
  }

  lemma DropboxLacks(ref: string)
    requires ref == "dropbox.com"
    ensures !Contains(ref, "direct") && !Contains(ref, "facebook.com") && !Contains(ref, "fb.com")
    ensures !Contains(ref, "instagram.com") && !Contains(ref, "twitter.com")
  {
    assert !Contains(ref, "direct") && !Contains(ref, "instagram.com") by {
      Absent(ref, "direct", 'i');
      Absent(ref, "instagram.com", 'i');
    }
    assert !Contains(ref, "facebook.com") && !Contains(ref, "fb.com") by {
      Absent(ref, "facebook.com", 'f');
      Absent(ref, "fb.com", 'f');
    }
    Absent(ref, "twitter.com", 't');
  }

  const Facebook := "facebook"
  const Google := "google"
  const Instagram := "instagram"
  const TikTok := "tiktok"

  /** `get_sub_source`, for a stored referrer text. */
  function SubSource(ref: string, main: string): (r: string)
    ensures main == Facebook ==> r in {"ads", "groups", "pages", "events", "marketplace", "posts"}
    ensures main == Google ==> r in {"search", "ads", "maps", "other"}
    ensures main == Instagram ==> r in {"posts", "reels", "stories", "other"}
    ensures main == TikTok ==> r in {"videos", "ads", "other"}
    ensures main !in {Facebook, Google, Instagram, TikTok} ==> r == "general"
  {
    var s := Lower(ref);
    if main == Facebook then
      if Contains(s, "/ads/") || Contains(s, "utm_campaign=") then "ads"
      else if Contains(s, "/groups/") then "groups"
      else if Contains(s, "/pages/") then "pages"
      else if Contains(s, "/events/") then "events"
      else if Contains(s, "/marketplace/") then "marketplace"
      else "posts"
    else if main == Google then
      if Contains(s, "/search") then "search"
      else if Contains(s, "/ads/") then "ads"
      else if Contains(s, "/maps/") then "maps"
      else "other"
    else if main == Instagram then
      if Contains(s, "/p/") then "posts"
      else if Contains(s, "/reel/") then "reels"
      else if Contains(s, "/stories/") then "stories"
      else "other"
    else if main == TikTok then
      if Contains(s, "/video/") then "videos"
      else if Contains(s, "/ads/") then "ads"
      else "other"
    else "general"
  }

  /** On Facebook, an ad marker wins over every other path marker, and a link with none is a
      post. */
  lemma FacebookSubSource(ref: string)
    ensures Contains(Lower(ref), "/ads/") || Contains(Lower(ref), "utm_campaign=") ==> SubSource(ref, Facebook) == "ads"
    ensures (!Contains(Lower(ref), "/ads/") && !Contains(Lower(ref), "utm_campaign=")
      && !Contains(Lower(ref), "/groups/") && !Contains(Lower(ref), "/pages/")
      && !Contains(Lower(ref), "/events/") && !Contains(Lower(ref), "/marketplace/"))
      ==> SubSource(ref, Facebook) == "posts"
  {
  }

  /** `get_source_domain`'s table. */
  const Domains: map<string, string> := map[
    "facebook" := FacebookCom, "google" := GoogleCom, "instagram" := InstagramCom,
    "tiktok" := TiktokCom, "twitter" := TwitterCom, "linkedin" := LinkedinCom,
    "youtube" := YoutubeCom, "bing" := BingCom, "yahoo" := YahooCom]

  /** `get_source_domain`: the listed domain, or the name itself. */
  function SourceDomain(name: string): (r: string)
    ensures name in Domains ==> r == Domains[name]
    ensures name !in Domains ==> r == name
  {
    if name in Domains then Domains[name] else name
  }

  /** The reverse map agrees with `sources_map`: every name it lists is paired there with the
      domain it returns, and for Facebook and Twitter, which have two domains, with the first. */
  lemma DomainListed(name: string)
    requires name in Domains
    ensures exists i :: (0 <= i < |SourcesMap| && SourcesMap[i] == (SourceDomain(name), name)
      && forall j :: 0 <= j < i ==> SourcesMap[j].1 != name)
  {
    if name == "facebook" { assert SourcesMap[0] == (SourceDomain(name), name); }
    else if name == "instagram" { assert SourcesMap[2] == (SourceDomain(name), name); }
    else if name == "twitter" { assert SourcesMap[3] == (SourceDomain(name), name); assert SourcesMap[2].1 != name; }
    else if name == "linkedin" { assert SourcesMap[5] == (SourceDomain(name), name); }
    else if name == "tiktok" { assert SourcesMap[6] == (SourceDomain(name), name); }
    else if name == "youtube" { assert SourcesMap[7] == (SourceDomain(name), name); }
    else if name == "google" { assert SourcesMap[8] == (SourceDomain(name), name); }
    else if name == "bing" { assert SourcesMap[9] == (SourceDomain(name), name); }
    else { assert SourcesMap[10] == (SourceDomain(name), name); }
  }

  // ---------------------------------------------------------------------------
  // Counting: a Python dict of counters, in insertion order
  // ---------------------------------------------------------------------------

  /** A counter dict: labels with their counts, in the order they were first added. */
  type Counter = seq<(string, nat)>

  predicate DistinctLabels(c: Counter) {
    forall i, j :: 0 <= i < j < |c| ==> c[i].0 != c[j].0
  }

  /** The position of `l` in the counter, or -1. */
  function IndexOf(c: Counter, l: string): (r: int)
    ensures -1 <= r < |c|
    ensures r >= 0 ==> c[r].0 == l
    ensures r < 0 <==> forall k :: 0 <= k < |c| ==> c[k].0 != l
    decreases |c|
  {
    if |c| == 0 then -1
    else if c[|c| - 1].0 == l then |c| - 1
    else IndexOf(c[..|c| - 1], l)
  }

  /** `d[l]`, with 0 for a missing label. */
  function CountIn(c: Counter, l: string): nat {
    var k := IndexOf(c, l);
    if k < 0 then 0 else c[k].1
  }

  /** `if l not in d: d[l] = 0` followed by `d[l] += 1`. */
  function Bump(c: Counter, l: string): Counter {
    var k := IndexOf(c, l);
    if k < 0 then c + [(l, 1)] else c[k := (l, c[k].1 + 1)]
  }

  /** The counter that counting `xs` in order produces. */
  function Tally(xs: seq<string>): Counter
    decreases |xs|
  {
    if |xs| == 0 then [] else Bump(Tally(xs[..|xs| - 1]), xs[|xs| - 1])
  }

  function Occurrences(xs: seq<string>, l: string): nat
    decreases |xs|
  {
    if |xs| == 0 then 0 else Occurrences(xs[..|xs| - 1], l) + (if xs[|xs| - 1] == l then 1 else 0)
  }

  function SumCounts(c: Counter): nat
    decreases |c|
  {
    if |c| == 0 then 0 else SumCounts(c[..|c| - 1]) + c[|c| - 1].1
  }

  lemma {:induction false} SumAppend(c: Counter, e: (string, nat))
    ensures SumCounts(c + [e]) == SumCounts(c) + e.1
  {
    assert (c + [e])[..|c|] == c;
  }

  lemma {:induction false} SumUpdate(c: Counter, k: nat, e: (string, nat))
    requires k < |c|
    ensures SumCounts(c[k := e]) == SumCounts(c) - c[k].1 + e.1
    decreases |c|
  {
    var n := |c| - 1;
    if k < n {
      SumUpdate(c[..n], k, e);
      assert c[k := e][..n] == c[..n][k := e];
    } else {
      assert c[k := e][..n] == c[..n];
    }
  }

  /** Bumping keeps the labels, in their order and distinct, adding the new label at the end. */
  lemma BumpShape(c: Counter, l: string)
    requires DistinctLabels(c)
    ensures DistinctLabels(Bump(c, l))
    ensures |Bump(c, l)| == |c| + (if IndexOf(c, l) < 0 then 1 else 0)
    ensures forall k :: 0 <= k < |c| ==> Bump(c, l)[k].0 == c[k].0
    ensures IndexOf(c, l) < 0 ==> Bump(c, l)[|c|] == (l, 1)
  {
  }

  /** Bumping adds one to the sum of the counts. */
  lemma BumpSum(c: Counter, l: string)
    ensures SumCounts(Bump(c, l)) == SumCounts(c) + 1
  {
    var k := IndexOf(c, l);
    if k < 0 {
      SumAppend(c, (l, 1));
    } else {
      SumUpdate(c, k, (l, c[k].1 + 1));
    }
  }

  /** Bumping adds one to the bumped label's count and changes no other count. */
  lemma BumpCount(c: Counter, l: string, m: string)
    requires DistinctLabels(c)
    ensures CountIn(Bump(c, l), m) == CountIn(c, m) + (if m == l then 1 else 0)
  {
    var d := Bump(c, l);
    BumpShape(c, l);
    var j := IndexOf(c, m);
    if j >= 0 {
      LabelPosition(d, m, j);
    } else if m == l {
      LabelPosition(d, l, |c|);
    } else {
      assert forall q :: 0 <= q < |d| ==> d[q].0 != m;
    }
  }

  lemma BumpLaws(c: Counter, l: string)
    requires DistinctLabels(c)
    ensures DistinctLabels(Bump(c, l))
    ensures forall m :: CountIn(Bump(c, l), m) == CountIn(c, m) + (if m == l then 1 else 0)
    ensures SumCounts(Bump(c, l)) == SumCounts(c) + 1
  {
    BumpShape(c, l);
    BumpSum(c, l);
    forall m ensures CountIn(Bump(c, l), m) == CountIn(c, m) + (if m == l then 1 else 0) {
      BumpCount(c, l, m);
    }
  }

  /** With distinct labels, the position of a label is wherever it stands. */
  lemma LabelPosition(c: Counter, l: string, j: nat)
    requires DistinctLabels(c) && j < |c| && c[j].0 == l
    ensures IndexOf(c, l) == j
  {
    var k := IndexOf(c, l);
    assert k >= 0;
  }

  /** The counter built by counting `xs` holds each label of `xs` once, with its number of
      occurrences, and its counts add up to `|xs|`. */
  lemma {:induction false} TallyMeaning(xs: seq<string>)
    ensures DistinctLabels(Tally(xs))
    ensures forall l :: CountIn(Tally(xs), l) == Occurrences(xs, l)
    ensures SumCounts(Tally(xs)) == |xs|
    decreases |xs|
  {
    if |xs| > 0 {
      var ys := xs[..|xs| - 1];
      TallyMeaning(ys);
      BumpLaws(Tally(ys), xs[|xs| - 1]);
    }
  }

  // ---------------------------------------------------------------------------
  // analyze_main_sources
  // ---------------------------------------------------------------------------

  /** One entry of the result, without the percentages: the source, its number of visits and the
      sub-source counter. */
  datatype Stat = Stat(source: string, total: nat, referrers: Counter)

  /** A classified visit: its main source and its sub source. */
  type Visit = (string, string)

  /** `(get_main_source(r), get_sub_source(r, main))` */
  function Classify(t: string): Visit {
    (MainSource(Some(t)), SubSource(t, MainSource(Some(t))))
  }

  /** Each referrer classified, in visit order. */
  function Classified(texts: seq<string>): (r: seq<Visit>)
    ensures |r| == |texts| && forall i :: 0 <= i < |texts| ==> r[i] == Classify(texts[i])
  {
    seq(|texts|, i requires 0 <= i < |texts| => Classify(texts[i]))
  }

  /** The main source of each visit, in visit order. */
  function MainsOf(vs: seq<Visit>): (r: seq<string>)
    ensures |r| == |vs|
    decreases |vs|
  {
    if |vs| == 0 then [] else MainsOf(vs[..|vs| - 1]) + [vs[|vs| - 1].0]
  }

  /** The main-source counter: `sources[main]['total_visits']` for every main source seen. */
  function MainTally(vs: seq<Visit>): Counter {
    Tally(MainsOf(vs))
  }

  /** The sub sources of the visits whose main source is `s`, in visit order. */
  function SubsOf(vs: seq<Visit>, s: string): seq<string>
    decreases |vs|
  {
    if |vs| == 0 then []
    else
      var v := vs[|vs| - 1];
      SubsOf(vs[..|vs| - 1], s) + if v.0 == s then [v.1] else []
  }

  /** The entries `analyze_main_sources` builds before sorting: per main source in first-seen
      order, its number of visits and its sub-source counter. */
  function Entries(vs: seq<Visit>): (r: seq<Stat>)
    ensures |r| == |MainTally(vs)| && forall k :: 0 <= k < |MainTally(vs)| ==>
      r[k] == Stat(MainTally(vs)[k].0, MainTally(vs)[k].1, Tally(SubsOf(vs, MainTally(vs)[k].0)))
  {
    var mt := MainTally(vs);
    seq(|mt|, k requires 0 <= k < |mt| => Stat(mt[k].0, mt[k].1, Tally(SubsOf(vs, mt[k].0))))
  }

  /** A source has as many sub-source entries as visits. */
  lemma {:induction false} SubsCount(vs: seq<Visit>, s: string)
    ensures |SubsOf(vs, s)| == Occurrences(MainsOf(vs), s)
    decreases |vs|
  {
    if |vs| > 0 {
      var n := |vs| - 1;
      SubsCount(vs[..n], s);
      assert MainsOf(vs)[..n] == MainsOf(vs[..n]);
    }
  }

  function SumTotals(es: seq<Stat>): nat
    decreases |es|
  {
    if |es| == 0 then 0 else SumTotals(es[..|es| - 1]) + es[|es| - 1].total
  }

  lemma {:induction false} TotalsOfEntries(es: seq<Stat>, mt: Counter)
    requires |es| == |mt| && forall k :: 0 <= k < |mt| ==> es[k].total == mt[k].1
    ensures SumTotals(es) == SumCounts(mt)
    decreases |es|
  {
    if |es| > 0 {
      TotalsOfEntries(es[..|es| - 1], mt[..|mt| - 1]);
    }
  }

  /** The counts before sorting: the sources are distinct, the totals add up to the number of
      visits, every source's total is its number of visits, and its sub-source counts add up to
      that total. */
  lemma EntriesCount(vs: seq<Visit>)
    ensures forall i, j :: 0 <= i < j < |Entries(vs)| ==> Entries(vs)[i].source != Entries(vs)[j].source
    ensures SumTotals(Entries(vs)) == |vs|
    ensures forall k :: 0 <= k < |Entries(vs)| ==>
      Entries(vs)[k].total == Occurrences(MainsOf(vs), Entries(vs)[k].source)
      && SumCounts(Entries(vs)[k].referrers) == Entries(vs)[k].total
  {
    var mt := MainTally(vs);
    var es := Entries(vs);
    TallyMeaning(MainsOf(vs));
    TotalsOfEntries(es, mt);
    forall k | 0 <= k < |es|
      ensures es[k].total == Occurrences(MainsOf(vs), es[k].source)
      && SumCounts(es[k].referrers) == es[k].total
    {
      LabelPosition(mt, mt[k].0, k);
      TallyMeaning(SubsOf(vs, mt[k].0));
      SubsCount(vs, mt[k].0);
    }
  }

  /** Every main source of a visit has an entry. */
  lemma EveryVisitHasEntry(vs: seq<Visit>, i: nat)
    requires i < |vs|
    ensures exists k :: 0 <= k < |Entries(vs)| && Entries(vs)[k].source == vs[i].0
  {
    var mt := MainTally(vs);
    TallyMeaning(MainsOf(vs));
    OccursAt(vs, i);
    var k := IndexOf(mt, vs[i].0);
    assert Entries(vs)[k].source == vs[i].0;
  }

  lemma {:induction false} OccursAt(vs: seq<Visit>, i: nat)
    requires i < |vs|
    ensures Occurrences(MainsOf(vs), vs[i].0) > 0
    decreases |vs|
  {
    var n := |vs| - 1;
    var ms := MainsOf(vs);
    assert ms[..n] == MainsOf(vs[..n]);
    if i < n {
      OccursAt(vs[..n], i);
    }
  }

  // Sorting: `result.sort(key=lambda x: x['total_visits'], reverse=True)`

  predicate SortedDesc(es: seq<Stat>) {
    forall i, j :: 0 <= i < j < |es| ==> es[i].total >= es[j].total
  }

  /** Inserting after every entry with at least the same total, so equal totals keep their
      order. */
  function InsertDesc(es: seq<Stat>, e: Stat): (r: seq<Stat>)
    requires SortedDesc(es)
    ensures multiset(r) == multiset(es) + multiset{e}
    ensures SortedDesc(r)
    decreases |es|
  {
    if |es| == 0 then [e]
    else if es[|es| - 1].total >= e.total then
      assert forall i :: 0 <= i < |es| ==> es[i].total >= es[|es| - 1].total;
      es + [e]
    else
      var n := |es| - 1;
      var rest := InsertDesc(es[..n], e);
      var r := rest + [es[n]];
      assert SortedDesc(r) by {
        MembersBound(rest, es[..n], e, es[n].total);
        assert forall i :: 0 <= i < |rest| ==> r[i] == rest[i];
      }
      assert multiset(r) == multiset(es) + multiset{e} by {
        assert es == es[..n] + [es[n]];
      }
      r
  }

  /** Every entry of a permutation of `pool + [e]` has at least a bound that all of them have. */
  lemma MembersBound(rest: seq<Stat>, pool: seq<Stat>, e: Stat, b: int)
    requires multiset(rest) == multiset(pool) + multiset{e}
    requires e.total >= b && forall i :: 0 <= i < |pool| ==> pool[i].total >= b
    ensures forall i :: 0 <= i < |rest| ==> rest[i].total >= b
  {
    forall i | 0 <= i < |rest| ensures rest[i].total >= b {
      assert rest[i] in multiset(rest);
      if rest[i] != e {
        assert rest[i] in multiset(pool);
      }
    }
  }

  lemma {:induction false} SumAppendStat(es: seq<Stat>, e: Stat)
    ensures SumTotals(es + [e]) == SumTotals(es) + e.total
  {
    assert (es + [e])[..|es|] == es;
  }

  lemma {:induction false} InsertDescSum(es: seq<Stat>, e: Stat)
    requires SortedDesc(es)
    ensures SumTotals(InsertDesc(es, e)) == SumTotals(es) + e.total
    decreases |es|
  {
    if |es| == 0 {
    } else if es[|es| - 1].total >= e.total {
      SumAppendStat(es, e);
    } else {
      var n := |es| - 1;
      assert es == es[..n] + [es[n]];
      var rest := InsertDesc(es[..n], e);
      assert InsertDesc(es, e) == rest + [es[n]];
      InsertDescSum(es[..n], e);
      SumAppendStat(rest, es[n]);
      SumAppendStat(es[..n], es[n]);
    }
  }

  /** Sorted by descending total, a permutation of its input, with the same sum of totals. */
  function SortDesc(es: seq<Stat>): (r: seq<Stat>)
    ensures SortedDesc(r) && multiset(r) == multiset(es) && SumTotals(r) == SumTotals(es)
    decreases |es|
  {
    if |es| == 0 then []
    else
      var n := |es| - 1;
      assert es == es[..n] + [es[n]];
      SumAppendStat(es[..n], es[n]);
      InsertDescSum(SortDesc(es[..n]), es[n]);
      InsertDesc(SortDesc(es[..n]), es[n])
  }

  /** What `analyze_main_sources` returns, up to the percentages: sorted by descending total, the
      totals adding up to the number of visits, each a count of the visits with that main source,
      each split into sub-source counts adding up to it, and every visit's main source present. */
  lemma AnalysisCounts(vs: seq<Visit>)
    ensures SortedDesc(SortDesc(Entries(vs)))
    ensures SumTotals(SortDesc(Entries(vs))) == |vs|
    ensures forall k :: 0 <= k < |SortDesc(Entries(vs))| ==>
      SortDesc(Entries(vs))[k].total == Occurrences(MainsOf(vs), SortDesc(Entries(vs))[k].source)
      && SumCounts(SortDesc(Entries(vs))[k].referrers) == SortDesc(Entries(vs))[k].total
    ensures forall i :: 0 <= i < |vs| ==>
      exists k :: 0 <= k < |SortDesc(Entries(vs))| && SortDesc(Entries(vs))[k].source == vs[i].0
  {
    var es := Entries(vs);
    var r := SortDesc(es);
    EntriesCount(vs);
    forall k | 0 <= k < |r|
      ensures r[k].total == Occurrences(MainsOf(vs), r[k].source) && SumCounts(r[k].referrers) == r[k].total
    {
      assert r[k] in multiset(es);
      var q :| 0 <= q < |es| && es[q] == r[k];
    }
    forall i | 0 <= i < |vs|
      ensures exists k :: 0 <= k < |r| && r[k].source == vs[i].0
    {
      EveryVisitHasEntry(vs, i);
      var q :| 0 <= q < |es| && es[q].source == vs[i].0;
      assert es[q] in multiset(r);
      var k :| 0 <= k < |r| && r[k] == es[q];
    }
  }

  /** The referrer texts, when none is null. */
  function Texts(refs: seq<Option<string>>): (r: seq<string>)
    requires forall i :: 0 <= i < |refs| ==> refs[i].Some?
    ensures |r| == |refs| && forall i :: 0 <= i < |refs| ==> refs[i] == Some(r[i])
  {
    seq(|refs|, i requires 0 <= i < |refs| => refs[i].value)
  }

  /** `analyze_main_sources` without the percentages. A visit whose referrer is null makes
      `get_sub_source` call `lower()` on `None`, which raises: `None` here. */
  method AnalyzeMainSources(refs: seq<Option<string>>) returns (r: Option<seq<Stat>>)
    ensures r.None? <==> exists i :: 0 <= i < |refs| && refs[i].None?
    ensures r.Some? ==> (forall i :: 0 <= i < |refs| ==> refs[i].Some?)
    ensures r.Some? ==> r.value == SortDesc(Entries(Classified(Texts(refs))))
  {
    var sources: seq<Stat> := [];
    ghost var texts: seq<string> := [];
    ghost var vs: seq<Visit> := [];
    var i := 0;
    while i < |refs|
      invariant 0 <= i <= |refs| && |texts| == i
      invariant forall j :: 0 <= j < i ==> refs[j] == Some(texts[j])
      invariant vs == Classified(texts)
      invariant sources == Entries(vs)
    {
      if refs[i].None? {
        return None;
      }
      var referrer := refs[i].value;
      var main := MainSource(Some(referrer));
      var sub := SubSource(referrer, main);
      EntriesStep(vs, main, sub);
      sources := CountVisit(sources, main, sub);
      ClassifiedAppend(texts, referrer);
      TextsStep(refs, texts, referrer);
      texts := texts + [referrer];
      vs := vs + [(main, sub)];
      i := i + 1;
    }
    assert texts == Texts(refs);
    return Some(SortDesc(sources));
  }

  /** The texts read so far grow with the next present referrer. */
  lemma TextsStep(refs: seq<Option<string>>, texts: seq<string>, t: string)
    requires |texts| < |refs| && refs[|texts|] == Some(t)
    requires forall j :: 0 <= j < |texts| ==> refs[j] == Some(texts[j])
    ensures forall j :: 0 <= j < |texts| + 1 ==> refs[j] == Some((texts + [t])[j])
  {
  }

  lemma ClassifiedAppend(texts: seq<string>, t: string)
    ensures Classified(texts + [t]) == Classified(texts) + [Classify(t)]
  {
  }

  /** One iteration of the counting loop: the main source gains one visit and its sub source one
      count, the main source being appended first when it is new. */
  function Counted(sources: seq<Stat>, main: string, sub: string): (r: seq<Stat>)
    ensures |r| == |sources| + (if StatIndex(sources, main) < 0 then 1 else 0)
  {
    var k := StatIndex(sources, main);
    if k < 0 then sources + [Stat(main, 1, Bump([], sub))]
    else sources[k := Stat(main, sources[k].total + 1, Bump(sources[k].referrers, sub))]
  }

  /** The loop body: `sources[main_source]` is created with no visits when missing, then its
      total and its sub-source counter are bumped. */
  method CountVisit(sources: seq<Stat>, main: string, sub: string) returns (r: seq<Stat>)
    ensures r == Counted(sources, main, sub)
  {
    var k := StatIndex(sources, main);
    ghost var found := k >= 0;
    r := sources;
    if k < 0 {
      r := r + [Stat(main, 0, [])];
      k := |r| - 1;
    }
    r := r[k := Stat(main, r[k].total + 1, Bump(r[k].referrers, sub))];
    if !found {
      UpdateAppended(sources, Stat(main, 0, []), Stat(main, 1, Bump([], sub)));
    }
  }

  /** Replacing the element just appended is appending the replacement. */
  lemma UpdateAppended(es: seq<Stat>, x: Stat, y: Stat)
    ensures (es + [x])[|es| := y] == es + [y]
  {
  }

  /** `main_source in sources`, as a position. */
  function StatIndex(es: seq<Stat>, s: string): (r: int)
    ensures -1 <= r < |es|
    ensures r >= 0 ==> es[r].source == s
    ensures r < 0 <==> forall k :: 0 <= k < |es| ==> es[k].source != s
    decreases |es|
  {
    if |es| == 0 then -1
    else if es[|es| - 1].source == s then |es| - 1
    else StatIndex(es[..|es| - 1], s)
  }

  /** Counting one more visit bumps the main-source counter at the visit's main source. */
  lemma MainsAppend(vs: seq<Visit>, v: Visit)
    ensures MainTally(vs + [v]) == Bump(MainTally(vs), v.0)
  {
    var ms := MainsOf(vs + [v]);
    assert (vs + [v])[..|vs|] == vs;
    assert ms[..|vs|] == MainsOf(vs);
  }

  /** ... and appends the visit's sub source to that source's list only. */
  lemma SubsAppend(vs: seq<Visit>, v: Visit, s: string)
    ensures SubsOf(vs + [v], s) == SubsOf(vs, s) + if v.0 == s then [v.1] else []
  {
    assert (vs + [v])[..|vs|] == vs;
  }

  lemma TallyAppend(xs: seq<string>, u: string)
    ensures Tally(xs + [u]) == Bump(Tally(xs), u)
  {
    assert (xs + [u])[..|xs|] == xs;
  }

  /** Looking a source up among the entries finds it where the main-source counter has it. */
  lemma StatIndexAgrees(vs: seq<Visit>, m: string)
    ensures StatIndex(Entries(vs), m) == IndexOf(MainTally(vs), m)
  {
    var mt := MainTally(vs);
    var es := Entries(vs);
    TallyMeaning(MainsOf(vs));
    var j := StatIndex(es, m);
    if j >= 0 {
      LabelPosition(mt, m, j);
    } else {
      forall q | 0 <= q < |mt| ensures mt[q].0 != m {
        assert es[q].source == mt[q].0;
      }
    }
  }

  /** A source not yet in the counter has no sub sources yet. */
  lemma NewSourceHasNoSubs(vs: seq<Visit>, m: string)
    requires IndexOf(MainTally(vs), m) < 0
    ensures SubsOf(vs, m) == []
  {
    TallyMeaning(MainsOf(vs));
    SubsCount(vs, m);
    assert CountIn(MainTally(vs), m) == 0;
  }

  /** The entry of a source other than the visit's is unchanged by counting the visit. */
  lemma OtherEntry(vs: seq<Visit>, v: Visit, q: nat)
    requires q < |MainTally(vs)| && MainTally(vs)[q].0 != v.0
    ensures q < |Entries(vs + [v])| && Entries(vs + [v])[q] == Entries(vs)[q]
  {
    var mt := MainTally(vs);
    var l := mt[q].0;
    var mt2 := MainTally(vs + [v]);
    assert q < |mt2| && mt2[q] == mt[q] by {
      MainsAppend(vs, v);
      TallyMeaning(MainsOf(vs));
      BumpShape(mt, v.0);
    }
    assert SubsOf(vs + [v], l) == SubsOf(vs, l) by {
      SubsAppend(vs, v, l);
    }
    assert Entries(vs)[q] == Stat(l, mt[q].1, Tally(SubsOf(vs, l)));
    assert Entries(vs + [v])[q] == Stat(l, mt[q].1, Tally(SubsOf(vs + [v], l)));
  }

  /** The counter of a main source already seen gains one at its own position. */
  lemma BumpedTally(vs: seq<Visit>, v: Visit, j: nat)
    requires j < |MainTally(vs)| && MainTally(vs)[j].0 == v.0
    ensures j < |MainTally(vs + [v])| && MainTally(vs + [v])[j] == (v.0, MainTally(vs)[j].1 + 1)
  {
    var mt := MainTally(vs);
    assert DistinctLabels(mt) by {
      TallyMeaning(MainsOf(vs));
    }
    LabelPosition(mt, v.0, j);
    MainsAppend(vs, v);
    assert Bump(mt, v.0) == mt[j := (v.0, mt[j].1 + 1)];
  }

  /** The entry of the visit's main source, when it was already counted, gains the visit. */
  lemma BumpedEntry(vs: seq<Visit>, v: Visit, j: nat)
    requires j < |Entries(vs)| && Entries(vs)[j].source == v.0
    ensures j < |Entries(vs + [v])|
    ensures Entries(vs + [v])[j] == Stat(v.0, Entries(vs)[j].total + 1, Bump(Entries(vs)[j].referrers, v.1))
  {
    var mt := MainTally(vs);
    var mt2 := MainTally(vs + [v]);
    assert mt[j].0 == v.0;
    BumpedTally(vs, v, j);
    assert Tally(SubsOf(vs + [v], v.0)) == Bump(Tally(SubsOf(vs, v.0)), v.1) by {
      SubsAppend(vs, v, v.0);
      TallyAppend(SubsOf(vs, v.0), v.1);
    }
    assert Entries(vs)[j] == Stat(v.0, mt[j].1, Tally(SubsOf(vs, v.0)));
    assert Entries(vs + [v])[j] == Stat(v.0, mt2[j].1, Tally(SubsOf(vs + [v], v.0)));
  }

  /** A main source seen for the first time is appended with one visit. */
  lemma NewEntry(vs: seq<Visit>, v: Visit)
    requires IndexOf(MainTally(vs), v.0) < 0
    ensures |Entries(vs + [v])| == |Entries(vs)| + 1
    ensures Entries(vs + [v])[|Entries(vs)|] == Stat(v.0, 1, Bump([], v.1))
  {
    var mt := MainTally(vs);
    var mt2 := MainTally(vs + [v]);
    assert |mt2| == |mt| + 1 && mt2[|mt|] == (v.0, 1) by {
      MainsAppend(vs, v);
      TallyMeaning(MainsOf(vs));
      BumpShape(mt, v.0);
    }
    assert Tally(SubsOf(vs + [v], v.0)) == Bump([], v.1) by {
      SubsAppend(vs, v, v.0);
      NewSourceHasNoSubs(vs, v.0);
      TallyAppend([], v.1);
    }
    assert Entries(vs + [v])[|mt|] == Stat(v.0, mt2[|mt|].1, Tally(SubsOf(vs + [v], v.0)));
  }

  /** Counting one more visit into the entries of the earlier visits gives the entries of all
      of them. */
  lemma EntriesStep(vs: seq<Visit>, main: string, sub: string)
    ensures Counted(Entries(vs), main, sub) == Entries(vs + [(main, sub)])
  {
    var sources := Entries(vs);
    var r := Counted(sources, main, sub);
    var v := (main, sub);
    var mt := MainTally(vs);
    var es := Entries(vs + [v]);
    var j := IndexOf(mt, main);
    assert StatIndex(sources, main) == j by {
      StatIndexAgrees(vs, main);
    }
    assert DistinctLabels(mt) by {
      TallyMeaning(MainsOf(vs));
    }
    assert |es| == |r| by {
      MainsAppend(vs, v);
      BumpShape(mt, main);
    }
    forall q | 0 <= q < |r| ensures r[q] == es[q] {
      if q == j {
        BumpedEntry(vs, v, j);
      } else if q == |mt| {
        NewEntry(vs, v);
      } else {
        assert mt[q].0 != main;
        OtherEntry(vs, v, q);
      }
    }
    assert r == es;
  }
}
