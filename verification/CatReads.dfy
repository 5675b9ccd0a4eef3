/** Reading the category dictionary in order: joins, ranks, spaced strings and rows. */
module CatReads {
  import opened Wrappers
  import opened CatStrings
  import opened TextOrder
  import opened CatTree
  import opened CatDictionary
  import opened CatIndex
  import opened CatLoops

  // ----- joining two dictionaries -----

  // The string has both ids, and they differ.
  predicate Reencodes(ids: Assignment, other: Assignment, s: Str, p: (U32, U32)) {
    s in ids && s in other && p == (ids[s], other[s]) && p.0 != p.1
  }

  /** The pairs of different ids that two dictionaries give a common string. */
  method InnerJoinReEnc(m: Entries, other: Entries) returns (r: seq<(U32, U32)>)
    requires Ascending(m) && Ascending(other)
    ensures forall p :: p in r <==> exists s :: Reencodes(Ids(m), Ids(other), s, p)
  {
    r := [];
    for i := 0 to |m|
      invariant forall p :: p in r <==>
        exists j :: 0 <= j < i && Reencodes(Ids(m), Ids(other), Text(m[j].key), p)
    {
      IdsAt(m, i);
      FindIsLookup(other, m[i].key);
      var e := Find(other, m[i].key);
      if e.Some? && m[i].id != e.value {
        r := r + [(m[i].id, e.value)];
        assert Reencodes(Ids(m), Ids(other), Text(m[i].key), (m[i].id, e.value));
      }
    }
    forall p, s | Reencodes(Ids(m), Ids(other), s, p) ensures p in r {
      IdsFrom(m, s);
      var j :| 0 <= j < |m| && Text(m[j].key) == s;
    }
  }

  // ----- ranks -----

  /** The rank of every requested id is the number of smaller strings, so ranks are ordered as the strings are. */
  method GlobalRankMap(m: Entries, us: set<U32>) returns (ranked: map<U32, U32>)
    requires Ascending(m) && Injective(Ids(m))
    ensures ranked.Keys == us * Ids(m).Values
    ensures forall s :: s in Ids(m) && Ids(m)[s] in us ==> ranked[Ids(m)[s]] == Rank(Ids(m).Keys, s)
  {
    ranked := map[];
    for i := 0 to |m|
      invariant forall u :: u in ranked <==> u in us && exists j :: 0 <= j < i && m[j].id == u
      invariant forall j :: 0 <= j < i && m[j].id in us ==> ranked[m[j].id] == j
    {
      PositionFits(m, i);
      forall j | 0 <= j < i ensures m[j].id != m[i].id {
        IdsAt(m, j);
        IdsAt(m, i);
        TotalOrder(Text(m[i].key), Text(m[i].key), Text(m[i].key));
      }
      if m[i].id in us { ranked := ranked[m[i].id := i % U32_LIMIT]; }
    }
    RanksComplete(m, us, ranked);
  }

  lemma ValuesAt(m: Entries, u: U32)
    requires Ascending(m)
    ensures u in Ids(m).Values <==> exists j :: 0 <= j < |m| && m[j].id == u
  {
    if u in Ids(m).Values {
      var s :| s in Ids(m) && Ids(m)[s] == u;
      IdsFrom(m, s);
    }
    forall j | 0 <= j < |m| ensures m[j].id in Ids(m).Values { IdsAt(m, j); }
  }

  lemma RanksComplete(m: Entries, us: set<U32>, ranked: map<U32, U32>)
    requires Ascending(m)
    requires forall u :: u in ranked <==> u in us && exists j :: 0 <= j < |m| && m[j].id == u
    requires forall j :: 0 <= j < |m| && m[j].id in us ==> ranked[m[j].id] == j
    ensures ranked.Keys == us * Ids(m).Values
    ensures forall s :: s in Ids(m) && Ids(m)[s] in us ==> ranked[Ids(m)[s]] == Rank(Ids(m).Keys, s)
  {
    forall u ensures u in ranked <==> u in us && u in Ids(m).Values { ValuesAt(m, u); }
    forall s | s in Ids(m) && Ids(m)[s] in us ensures ranked[Ids(m)[s]] == Rank(Ids(m).Keys, s) {
      IdsFrom(m, s);
      var j :| 0 <= j < |m| && Text(m[j].key) == s && m[j].id == Ids(m)[s];
      RankAt(m, j);
    }
  }

  /** On a compacted dictionary the rank map is the identity on the requested ids. */
  lemma CompactedRanks(ids: Assignment, s: Str)
    requires Injective(ids) && s in ids
    ensures s in CompactedIds(ids) && Rank(CompactedIds(ids).Keys, s) == CompactedIds(ids)[s]
  {
    CompactedIs(ids);
  }

  // ----- spaced strings -----

  // The last position of a range that is not cut short: every stride-th position.
  function EndOf(j: nat, stride: nat): nat {
    if j == 0 then stride else EndOf(j - 1, stride) + stride
  }

  function RangeStart(j: nat, stride: nat): nat { if j == 0 then 0 else EndOf(j - 1, stride) + 1 }

  function RangeEnd(j: nat, stride: nat, n: nat): nat
    requires n > 0
  {
    if EndOf(j, stride) < n - 1 then EndOf(j, stride) else n - 1
  }

  // Each range is given by its first and last string, and the next one starts right after it.
  ghost predicate IsRange(ss: seq<Str>, spaced: seq<(Str, Str)>, stride: nat, j: nat)
    requires j < |spaced| && ss != []
  {
    var lo, hi := RangeStart(j, stride), RangeEnd(j, stride, |ss|);
    && lo <= hi <= lo + stride
    && spaced[j] == (ss[lo], ss[hi])
    && (if j + 1 < |spaced| then hi + 1 == RangeStart(j + 1, stride) else hi == |ss| - 1)
  }

  // Consecutive ranges from the first string to the last.
  ghost predicate CutsUp(ss: seq<Str>, spaced: seq<(Str, Str)>, stride: nat) {
    && (ss == [] <==> spaced == [])
    && forall j :: 0 <= j < |spaced| ==> IsRange(ss, spaced, stride, j)
  }

  lemma {:induction false} EndIsMultiple(j: nat, stride: nat)
    ensures EndOf(j, stride) == (j + 1) * stride
  {
    if j > 0 { EndIsMultiple(j - 1, stride); }
  }

  lemma Products(a: int, b: int, stride: int)
    requires stride >= 0
    ensures a * stride == b * stride + (a - b) * stride
    ensures a > b ==> (a - b) * stride >= stride
    ensures a < b ==> (a - b) * stride <= -stride
  {
    if a > b { Grows(a - b, stride); }
    if a < b {
      Grows(b - a, stride);
      assert (a - b) * stride == -((b - a) * stride);
    }
  }

  lemma Grows(d: int, stride: int)
    requires d >= 1 && stride >= 0
    ensures d * stride >= stride
  {
  }

  lemma NextMultiple(i: nat, j: nat, stride: nat)
    requires stride > 0 && j * stride < i <= (j + 1) * stride
    ensures i % stride == 0 <==> i == (j + 1) * stride
  {
    var q := i / stride;
    assert i == q * stride + i % stride;
    Products(q, j + 1, stride);
    Products(q, j, stride);
    Products(j + 1, j, stride);
  }

  // Position i lies in range j, whose first string has been noted when i is past it.
  ghost predicate InRange(ss: seq<Str>, i: nat, j: nat, stride: nat, start: Option<Str>)
    requires i < |ss|
  {
    var lo := RangeStart(j, stride);
    lo <= i <= EndOf(j, stride) && (if start.None? then i == lo else start.value == ss[lo])
  }

  // The first ranges, each as long as it can be, all ending before position i.
  ghost predicate FullRanges(ss: seq<Str>, spaced: seq<(Str, Str)>, stride: nat, i: nat) {
    forall j :: 0 <= j < |spaced| ==> FullRange(ss, spaced, stride, j, i)
  }

  ghost predicate FullRange(ss: seq<Str>, spaced: seq<(Str, Str)>, stride: nat, j: nat, i: nat)
    requires j < |spaced|
  {
    && RangeStart(j, stride) <= EndOf(j, stride) < i <= |ss|
    && spaced[j] == (ss[RangeStart(j, stride)], ss[EndOf(j, stride)])
  }

  // The test for the end of a range, at a position in that range.
  lemma EndsRange(i: nat, j: nat, stride: nat)
    requires stride > 0 && RangeStart(j, stride) <= i <= EndOf(j, stride)
    ensures (i != 0 && i % stride == 0) <==> i == EndOf(j, stride)
  {
    EndIsMultiple(j, stride);
    if i > 0 {
      if j > 0 { EndIsMultiple(j - 1, stride); }
      NextMultiple(i, j, stride);
    }
  }

  lemma LastRange(ss: seq<Str>, before: seq<(Str, Str)>, stride: nat, start: Option<Str>)
    requires ss != []
    requires FullRanges(ss, before, stride, |ss| - 1) && InRange(ss, |ss| - 1, |before|, stride, start)
    ensures CutsUp(ss, before + [(ss[RangeStart(|before|, stride)], ss[|ss| - 1])], stride)
  {
    var spaced := before + [(ss[RangeStart(|before|, stride)], ss[|ss| - 1])];
    forall j | 0 <= j < |spaced| ensures IsRange(ss, spaced, stride, j) {
      if j < |before| { assert FullRange(ss, before, stride, j, |ss| - 1); }
    }
  }

  lemma MoreRanges(ss: seq<Str>, before: seq<(Str, Str)>, stride: nat, i: nat, start: Option<Str>)
    requires i + 1 < |ss| && stride > 0 && i == EndOf(|before|, stride)
    requires FullRanges(ss, before, stride, i) && InRange(ss, i, |before|, stride, start)
    ensures var spaced := before + [(ss[RangeStart(|before|, stride)], ss[i])];
      FullRanges(ss, spaced, stride, i + 1) && InRange(ss, i + 1, |spaced|, stride, None)
  {
    var spaced := before + [(ss[RangeStart(|before|, stride)], ss[i])];
    var next := i + 1;
    forall j | 0 <= j < |spaced| ensures FullRange(ss, spaced, stride, j, next) {
      if j < |before| { assert FullRange(ss, before, stride, j, i); }
    }
  }

  lemma SameRange(ss: seq<Str>, before: seq<(Str, Str)>, stride: nat, i: nat, start: Option<Str>)
    requires i + 1 < |ss| && i < EndOf(|before|, stride) && start.Some?
    requires FullRanges(ss, before, stride, i) && InRange(ss, i, |before|, stride, start)
    ensures FullRanges(ss, before, stride, i + 1) && InRange(ss, i + 1, |before|, stride, start)
  {
    var next := i + 1;
    forall j | 0 <= j < |before| ensures FullRange(ss, before, stride, j, next) {
      assert FullRange(ss, before, stride, j, i);
    }
  }

  /** Spaced strings cut the ascending strings into consecutive ranges that cover every string. */
  method GetSpacedStrings(m: Entries, stride: nat) returns (spaced: seq<(Str, Str)>)
    requires stride > 0 || |m| <= 1
    ensures CutsUp(TextList(m), spaced, stride)
  {
    ghost var ss := TextList(m);
    spaced := [];
    var i, start := 0, None;
    while i < |m|
      invariant i <= |m|
      invariant if i == |m| then CutsUp(ss, spaced, stride)
        else FullRanges(ss, spaced, stride, i) && InRange(ss, i, |spaced|, stride, start)
      decreases |m| - i
    {
      if start.None? { start := Some(Text(m[i].key)); }
      assert start.value == ss[RangeStart(|spaced|, stride)];
      if stride > 0 { EndsRange(i, |spaced|, stride); }
      if (i != 0 && i % stride == 0) || i == |m| - 1 {
        if i == |m| - 1 {
          LastRange(ss, spaced, stride, start);
        } else {
          MoreRanges(ss, spaced, stride, i, start);
        }
        spaced := spaced + [(start.value, Text(m[i].key))];
        start := None;
      } else {
        SameRange(ss, spaced, stride, i, start);
      }
      i := i + 1;
    }
  }

  // ----- rows -----

  /** Of several rows with one string, the last gives the id. */
  lemma {:induction false} LastRowWins(ss: seq<(Str, U32)>, i: nat)
    requires i < |ss| && forall j :: i < j < |ss| ==> ss[j].0 != ss[i].0
    ensures ss[i].0 in FromPairs(ss) && FromPairs(ss)[ss[i].0] == ss[i].1
  {
    if i < |ss| - 1 { LastRowWins(ss[..|ss| - 1], i); }
  }

  lemma {:induction false} FromPairsAt(ss: seq<(Str, U32)>, s: Str)
    ensures s in FromPairs(ss) ==> exists i :: 0 <= i < |ss| && ss[i].0 == s && ss[i].1 == FromPairs(ss)[s]
    ensures s !in FromPairs(ss) ==> forall i :: 0 <= i < |ss| ==> ss[i].0 != s
  {
    if ss != [] {
      var front, last := ss[..|ss| - 1], ss[|ss| - 1];
      FromPairsAt(front, s);
      if s in FromPairs(ss) && s != last.0 {
        var i :| 0 <= i < |front| && front[i].0 == s && front[i].1 == FromPairs(front)[s];
        assert ss[i] == front[i];
      }
      forall i | 0 <= i < |ss| && s !in FromPairs(ss) ensures ss[i].0 != s {
        if i < |front| { assert ss[i] == front[i]; }
      }
    }
  }

  /** Reading the stored rows back gives every string its id again. */
  lemma RowsRoundTrip(m: Entries)
    requires Ascending(m)
    ensures FromPairs(Rows(m)) == Ids(m)
  {
    forall s ensures s in FromPairs(Rows(m)) <==> s in Ids(m) {
      FromPairsAt(Rows(m), s);
      IdsFrom(m, s);
      if s in Ids(m) {
        var i :| 0 <= i < |m| && Text(m[i].key) == s;
        assert Rows(m)[i].0 == s;
      }
    }
    forall s | s in Ids(m) ensures FromPairs(Rows(m))[s] == Ids(m)[s] {
      FromPairsAt(Rows(m), s);
      var i :| 0 <= i < |m| && Rows(m)[i].0 == s && Rows(m)[i].1 == FromPairs(Rows(m))[s];
      IdsAt(m, i);
    }
  }

  /** Both forms of the dictionary store the same rows. */
  lemma OneRowOrder(m: Entries, n: Entries)
    requires Ascending(m) && Ascending(n) && Ids(m) == Ids(n)
    ensures Rows(m) == Rows(n) && TextList(m) == TextList(n)
  {
    OneOrder(m, n);
  }
}
