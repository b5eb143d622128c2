/** Masking the parameter values of a URL: what it hides, and what it keeps. */
module Redaction {
  const REDACTED := "REDACTED"

  // ---- str.partition, str.split and str.join ----

  function Find(s: string, c: char): (i: nat)
    ensures i <= |s| && c !in s[..i] && (i < |s| ==> s[i] == c)
  {
    if s == "" || s[0] == c then 0
    else
      var rest := Find(s[1..], c);
      assert s[..rest + 1] == [s[0]] + s[1..][..rest];
      rest + 1
  }

  function Partition(s: string, c: char): (string, string, string) {
    var i := Find(s, c);
    if i == |s| then (s, "", "") else (s[..i], [c], s[i + 1..])
  }

  function Split(s: string, c: char): (parts: seq<string>)
    ensures |parts| > 0
    decreases |s|
  {
    var i := Find(s, c);
    if i == |s| then [s] else [s[..i]] + Split(s[i + 1..], c)
  }

  function Join(parts: seq<string>, c: char): string
    requires |parts| > 0
  {
    if |parts| == 1 then parts[0] else parts[0] + [c] + Join(parts[1..], c)
  }

  lemma {:induction false} FindAfter(head: string, c: char, tail: string)
    requires c !in head
    ensures Find(head + [c] + tail, c) == |head|
  {
    if head != "" {
      assert (head + [c] + tail)[1..] == head[1..] + [c] + tail;
      FindAfter(head[1..], c, tail);
    }
  }

  lemma FindNone(s: string, c: char)
    requires c !in s
    ensures Find(s, c) == |s|
  {
  }

  /** Parting at the first separator undoes joining there. */
  lemma PartitionOf(head: string, c: char, sep: string, tail: string)
    requires c !in head && (sep == [c] || (sep == "" && tail == ""))
    ensures Partition(head + sep + tail, c) == (head, sep, tail)
  {
    var s := head + sep + tail;
    if sep == "" {
      FindNone(head, c);
      assert s == head;
    } else {
      FindAfter(head, c, tail);
      assert s[..|head|] == head && s[|head| + 1..] == tail;
    }
  }

  lemma PartitionParts(s: string, c: char)
    ensures var (head, sep, tail) := Partition(s, c);
            s == head + sep + tail && c !in head && (sep == [c] || (sep == "" && tail == ""))
  {
    assert s == s[..Find(s, c)] + s[Find(s, c)..];
  }

  lemma {:induction false} JoinOfSplit(s: string, c: char)
    ensures Join(Split(s, c), c) == s
    ensures forall p :: p in Split(s, c) ==> c !in p && forall d :: d in p ==> d in s
    decreases |s|
  {
    var i := Find(s, c);
    if i < |s| {
      JoinOfSplit(s[i + 1..], c);
      assert Split(s, c)[1..] == Split(s[i + 1..], c);
      assert s == s[..i] + [c] + s[i + 1..];
    }
  }

  lemma {:induction false} SplitOfJoin(parts: seq<string>, c: char)
    requires |parts| > 0 && forall p :: p in parts ==> c !in p
    ensures Split(Join(parts, c), c) == parts
  {
    if |parts| == 1 {
      FindNone(parts[0], c);
    } else {
      FindAfter(parts[0], c, Join(parts[1..], c));
      SplitOfJoin(parts[1..], c);
      var s := Join(parts, c);
      assert s[..|parts[0]|] == parts[0] && s[|parts[0]| + 1..] == Join(parts[1..], c);
    }
  }

  // ---- masking ----

  function MaskPair(pair: string): string {
    var (key, sep, _) := Partition(pair, '=');
    if sep != "" then key + "=" + REDACTED else key
  }

  function MaskEach(pairs: seq<string>): seq<string> {
    seq(|pairs|, i requires 0 <= i < |pairs| => MaskPair(pairs[i]))
  }

  /** `_mask_component`. */
  function MaskComponent(component: string): string {
    if '=' !in component then component else Join(MaskEach(Split(component, '&')), '&')
  }

  /** `_mask_query`. */
  function MaskQuery(url: string): string {
    if '=' !in url then url
    else
      var (rest, hashSign, fragment) := Partition(url, '#');
      var (base, questionMark, query) := Partition(rest, '?');
      base + questionMark + MaskComponent(query) + hashSign + MaskComponent(fragment)
  }

  // ---- what is left: keys and separators ----

  datatype Param = Param(key: string, valued: bool)

  function ParamOf(pair: string): Param {
    Param(Partition(pair, '=').0, Partition(pair, '=').1 != "")
  }

  function ParamsOf(component: string): seq<Param> {
    var pairs := Split(component, '&');
    seq(|pairs|, i requires 0 <= i < |pairs| => ParamOf(pairs[i]))
  }

  /** A URL without its parameter values: no field says anything of them. */
  datatype Skeleton = Skeleton(base: string, queried: bool, query: seq<Param>, hashed: bool, fragment: seq<Param>)

  function SkeletonOf(url: string): Skeleton {
    var (rest, hashSign, fragment) := Partition(url, '#');
    var (base, questionMark, query) := Partition(rest, '?');
    Skeleton(base, questionMark != "", ParamsOf(query), hashSign != "", ParamsOf(fragment))
  }

  lemma MaskPairKeeps(pair: string, c: char)
    requires c !in "=REDACTED" && c !in pair
    ensures c !in MaskPair(pair)
  {
  }

  lemma ParamKept(pair: string)
    ensures ParamOf(MaskPair(pair)) == ParamOf(pair)
  {
    var i := Find(pair, '=');
    if i < |pair| {
      FindAfter(pair[..i], '=', REDACTED);
      var masked := pair[..i] + ['='] + REDACTED;
      assert MaskPair(pair) == masked && masked[..i] == pair[..i];
    } else {
      assert MaskPair(pair) == pair;
    }
  }

  /** The test for `=` is a shortcut: masking pair by pair says the same. */
  lemma MaskComponentIs(s: string)
    ensures MaskComponent(s) == Join(MaskEach(Split(s, '&')), '&')
  {
    if '=' !in s {
      JoinOfSplit(s, '&');
      var pairs := Split(s, '&');
      forall i | 0 <= i < |pairs|
        ensures MaskPair(pairs[i]) == pairs[i]
      {
        assert pairs[i] in pairs;
        FindNone(pairs[i], '=');
      }
      assert MaskEach(pairs) == pairs;
    }
  }

  lemma ParamsKept(s: string)
    ensures ParamsOf(MaskComponent(s)) == ParamsOf(s)
    ensures '#' !in s ==> '#' !in MaskComponent(s)
  {
    MaskComponentIs(s);
    JoinOfSplit(s, '&');
    var pairs := Split(s, '&');
    var masked := MaskEach(pairs);
    forall p | p in masked
      ensures '&' !in p && ('#' !in s ==> '#' !in p)
    {
      var i :| 0 <= i < |masked| && masked[i] == p;
      assert pairs[i] in pairs;
      MaskPairKeeps(pairs[i], '&');
      if '#' !in s {
        MaskPairKeeps(pairs[i], '#');
      }
    }
    SplitOfJoin(masked, '&');
    JoinAvoids(masked, '&', '#', '#' in s);
    forall i | 0 <= i < |pairs|
      ensures ParamOf(masked[i]) == ParamOf(pairs[i])
    {
      ParamKept(pairs[i]);
    }
    assert ParamsOf(MaskComponent(s)) == ParamsOf(s);
  }

  lemma {:induction false} JoinAvoids(parts: seq<string>, c: char, d: char, excused: bool)
    requires |parts| > 0 && c != d && (excused || forall p :: p in parts ==> d !in p)
    ensures excused || d !in Join(parts, c)
  {
    if |parts| > 1 {
      JoinAvoids(parts[1..], c, d, excused);
    }
  }

  /** Components with the same keys and separators mask to the same string. */
  lemma ComponentsBlind(s: string, t: string)
    requires ParamsOf(s) == ParamsOf(t)
    ensures MaskComponent(s) == MaskComponent(t)
  {
    MaskComponentIs(s);
    MaskComponentIs(t);
    var xs, ys := Split(s, '&'), Split(t, '&');
    assert |ParamsOf(s)| == |xs| && |ParamsOf(t)| == |ys|;
    forall i | 0 <= i < |xs|
      ensures MaskPair(xs[i]) == MaskPair(ys[i])
    {
      assert ParamsOf(s)[i] == ParamOf(xs[i]) && ParamsOf(t)[i] == ParamOf(ys[i]);
    }
    assert MaskEach(xs) == MaskEach(ys);
  }

  /** The first test for `=` is a shortcut too. */
  lemma MaskQueryIs(url: string)
    ensures var (rest, hashSign, fragment) := Partition(url, '#');
            var (base, questionMark, query) := Partition(rest, '?');
            MaskQuery(url) == base + questionMark + MaskComponent(query) + hashSign + MaskComponent(fragment)
  {
    var (rest, hashSign, fragment) := Partition(url, '#');
    var (base, questionMark, query) := Partition(rest, '?');
    PartitionParts(url, '#');
    PartitionParts(rest, '?');
  }

  /** Masking keeps the whole skeleton. */
  lemma SkeletonKept(url: string)
    ensures SkeletonOf(MaskQuery(url)) == SkeletonOf(url)
  {
    var (rest, hashSign, fragment) := Partition(url, '#');
    var (base, questionMark, query) := Partition(rest, '?');
    MaskQueryIs(url);
    ParamsKept(query);
    ParamsKept(fragment);
    PartitionParts(url, '#');
    PartitionParts(rest, '?');
    assert MaskComponent("") == "";
    hide MaskQuery, MaskComponent, Partition, ParamsOf;
    var head := base + questionMark + MaskComponent(query);
    assert '#' !in head;
    assert MaskQuery(url) == head + hashSign + MaskComponent(fragment);
    PartitionOf(head, '#', hashSign, MaskComponent(fragment));
    PartitionOf(base, '?', questionMark, MaskComponent(query));
  }

  /**
    Two URLs mask to the same string exactly when they differ in nothing but parameter values:
    the output tells all of the skeleton and none of the values.
   */
  lemma MaskingIsValueBlind(u: string, v: string)
    ensures MaskQuery(u) == MaskQuery(v) <==> SkeletonOf(u) == SkeletonOf(v)
  {
    SkeletonKept(u);
    SkeletonKept(v);
    if SkeletonOf(u) == SkeletonOf(v) {
      MaskQueryIs(u);
      MaskQueryIs(v);
      var (restU, _, fragmentU) := Partition(u, '#');
      var (restV, _, fragmentV) := Partition(v, '#');
      ComponentsBlind(fragmentU, fragmentV);
      ComponentsBlind(Partition(restU, '?').2, Partition(restV, '?').2);
    }
  }

  /** Masking what is masked changes nothing. */
  lemma MaskingIsIdempotent(url: string)
    ensures MaskQuery(MaskQuery(url)) == MaskQuery(url)
  {
    SkeletonKept(url);
    MaskingIsValueBlind(MaskQuery(url), url);
  }

  // ---- what the output is ----

  /** A pair keeps its key, up to its first =, and has the literal in place of its value; without = it is kept. */
  lemma PairMasked(key: string, value: string)
    requires '=' !in key && '&' !in key + value
    ensures MaskComponent(key + "=" + value) == key + "=REDACTED"
    ensures MaskComponent(key) == key
  {
    var pair := key + ['='] + value;
    assert pair == key + "=" + value;
    FindNone(pair, '&');
    FindAfter(key, '=', value);
    assert pair[..|key|] == key;
    assert MaskEach([pair]) == [MaskPair(pair)];
    MaskComponentIs(pair);
  }

  lemma SplitFirst(first: string, rest: string)
    requires '&' !in first
    ensures Split(first + ['&'] + rest, '&') == [first] + Split(rest, '&')
    ensures Split(first, '&') == [first]
  {
    var s := first + ['&'] + rest;
    FindAfter(first, '&', rest);
    FindNone(first, '&');
    assert s[..|first|] == first && s[|first| + 1..] == rest;
  }

  /** Components are masked pair by pair. */
  lemma PairByPair(first: string, rest: string)
    requires '&' !in first
    ensures MaskComponent(first + ['&'] + rest) == MaskComponent(first) + ['&'] + MaskComponent(rest)
  {
    hide MaskComponent, MaskPair, Split;
    SplitFirst(first, rest);
    MaskComponentIs(first + ['&'] + rest);
    MaskComponentIs(first);
    MaskComponentIs(rest);
    var masked := MaskEach([first] + Split(rest, '&'));
    assert MaskEach([first]) == [MaskPair(first)];
    assert masked[0] == MaskPair(first) && masked[1..] == MaskEach(Split(rest, '&'));
  }

  /** The query starts at the first ? before any #, the fragment at the first #; each is masked, and the rest is kept. */
  lemma UrlMasked(base: string, query: string, fragment: string)
    requires '?' !in base && '#' !in base && '#' !in query
    ensures MaskQuery(base) == base
    ensures MaskQuery(base + "?" + query) == base + "?" + MaskComponent(query)
    ensures MaskQuery(base + "#" + fragment) == base + "#" + MaskComponent(fragment)
    ensures MaskQuery(base + "?" + query + "#" + fragment) == base + "?" + MaskComponent(query) + "#" + MaskComponent(fragment)
  {
    hide MaskComponent, MaskQuery;
    MaskNothing();
    OneUrl(base, "", "", "", "");
    OneUrl(base, "?", query, "", "");
    OneUrl(base, "", "", "#", fragment);
    OneUrl(base, "?", query, "#", fragment);
    Plain(base);
    Plain(base + "?" + query);
    Plain(base + "?" + MaskComponent(query));
  }

  lemma MaskNothing()
    ensures MaskComponent("") == ""
  {
  }

  lemma Plain(s: string)
    ensures s + "" == s && s + "" + "" == s && s + "" + "" + "" + "" == s
  {
  }

  lemma OneUrl(base: string, mark: string, query: string, hash: string, fragment: string)
    requires '?' !in base && '#' !in base && '#' !in query
    requires (mark == "?" || (mark == "" && query == "")) && (hash == "#" || (hash == "" && fragment == ""))
    ensures MaskQuery(base + mark + query + hash + fragment) == base + mark + MaskComponent(query) + hash + MaskComponent(fragment)
  {
    hide MaskComponent, Partition, MaskQuery;
    var rest := base + mark + query;
    PartitionOf(rest, '#', hash, fragment);
    PartitionOf(base, '?', mark, query);
    MaskQueryIs(rest + hash + fragment);
  }
}
