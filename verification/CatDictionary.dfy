/** The category dictionary as one assignment of ids to strings, and what each operation does to it. */
module CatDictionary {
  import opened FiniteSets
  import opened CatStrings
  import opened TextOrder
  import opened CatTree

  type Assignment = map<Str, U32>

  ghost predicate Injective(ids: Assignment) {
    forall s, t :: s in ids && t in ids && ids[s] == ids[t] ==> s == t
  }

  // All ids lie below the counter.
  predicate AllBelow(ids: Assignment, c: nat) { forall s :: s in ids ==> ids[s] < c }

  // The position of a string among others.
  function Rank(keys: set<Str>, s: Str): nat { |Smaller(keys, s)| }

  function Smaller(keys: set<Str>, s: Str): set<Str> { set t | t in keys && Below(t, s) }

  // ----- sizes -----

  lemma SetBound(us: set<U32>, n: nat)
    requires forall u :: u in us ==> u < n
    ensures |us| <= n
  {
    if n == 0 {
      assert us == {};
    } else {
      SetBound(us - {n - 1}, n - 1);
    }
  }

  // Distinct ids are as many as their strings.
  lemma InjectiveSize(ids: Assignment, keys: set<Str>)
    requires Injective(ids) && keys <= ids.Keys
    ensures |set s | s in keys :: ids[s]| == |keys|
    decreases keys
  {
    if keys != {} {
      var s :| s in keys;
      var rest := keys - {s};
      InjectiveSize(ids, rest);
      assert (set t | t in keys :: ids[t]) == (set t | t in rest :: ids[t]) + {ids[s]};
    }
  }

  /** A dictionary with distinct 32-bit ids has no more strings than there are such ids. */
  lemma FitsU32(ids: Assignment)
    requires Injective(ids)
    ensures |ids| <= U32_LIMIT
  {
    InjectiveSize(ids, ids.Keys);
    SetBound((set s | s in ids.Keys :: ids[s]), U32_LIMIT);
  }

  lemma RankBelow(keys: set<Str>, s: Str)
    requires s in keys
    ensures Rank(keys, s) < |keys|
  {
    TotalOrder(s, s, s);
    SubsetSize(Smaller(keys, s), keys);
  }

  /** Ranks are ordered as the strings are. */
  lemma RankOrder(keys: set<Str>, s: Str, t: Str)
    requires s in keys && t in keys
    ensures Rank(keys, s) < Rank(keys, t) <==> Below(s, t)
    ensures Rank(keys, s) == Rank(keys, t) <==> s == t
  {
    TotalOrder(s, t, s);
    if Below(s, t) { RankLess(keys, s, t); }
    if Below(t, s) { RankLess(keys, t, s); }
  }

  lemma RankLess(keys: set<Str>, s: Str, t: Str)
    requires s in keys && Below(s, t)
    ensures Rank(keys, s) < Rank(keys, t)
  {
    var a, b := Smaller(keys, s), Smaller(keys, t);
    forall r | r in a ensures r in b { BelowTransitive(r, s, t); }
    TotalOrder(s, s, s);
    assert s in b && s !in a;
    SubsetSize(a, b);
  }

  // ----- operations -----

  // The strings of a list that have no id yet, in order.
  function Fresh(ids: Assignment, ss: seq<Str>): seq<Str> { FreshFrom(ids, ss, 0) }

  function FreshFrom(ids: Assignment, ss: seq<Str>, i: nat): seq<Str>
    requires i <= |ss|
    decreases |ss| - i
  {
    if i == |ss| then []
    else if ss[i] in ids then FreshFrom(ids, ss, i + 1)
    else [ss[i]] + FreshFrom(ids, ss, i + 1)
  }

  // Consecutive ids from the counter on, in list order; a repeated string keeps its last id.
  function Numbered(ids: Assignment, ss: seq<Str>, c: nat): Assignment
    requires c + |ss| <= U32_LIMIT
    decreases |ss|
  {
    if ss == [] then ids else Numbered(ids[ss[0] := c], ss[1..], c + 1)
  }

  function MergedIds(ids: Assignment, other: Assignment, c: nat): Assignment
    requires c + |other.Keys - ids.Keys| < U32_LIMIT
  {
    map s | s in ids.Keys + other.Keys :: if s in ids then ids[s] else NumberOf(other.Keys - ids.Keys, s, c)
  }

  // The id of a new string: its rank among the new strings, counted from c.
  function NumberOf(added: set<Str>, s: Str, c: nat): U32
    requires s in added && c + |added| < U32_LIMIT
  {
    RankBelow(added, s);
    c + Rank(added, s)
  }

  function CollectedIds(ids: Assignment, us: set<U32>): Assignment {
    map s | s in ids && ids[s] !in us :: ids[s]
  }

  function ImageIds(ids: Assignment, us: set<U32>): Assignment {
    map s | s in ids && ids[s] in us :: ids[s]
  }

  function RankId(ids: Assignment, s: Str): U32
    requires Injective(ids) && s in ids
  {
    FitsU32(ids);
    RankBelow(ids.Keys, s);
    assert |ids.Keys| == |ids|;
    Rank(ids.Keys, s)
  }

  ghost function CompactedIds(ids: Assignment): Assignment
    requires Injective(ids)
  {
    map s | s in ids :: RankId(ids, s)
  }

  // ----- single operations keep the ids distinct -----

  /** A new pair keeps the ids distinct exactly when no other string has the id. */
  lemma EncodeInjective(ids: Assignment, s: Str, u: U32)
    requires Injective(ids)
    ensures Injective(ids[s := u]) <==> forall t :: t in ids && ids[t] == u ==> t == s
  {
    var r := ids[s := u];
    assert r[s] == u;
    assert forall t :: t in ids && t != s ==> t in r && r[t] == ids[t];
  }

  ghost predicate NoRepeats(ss: seq<Str>) { forall i, j :: 0 <= i < j < |ss| ==> ss[i] != ss[j] }

  ghost predicate AllFresh(ids: Assignment, ss: seq<Str>) { forall s :: s in ss ==> s !in ids }

  lemma {:induction false} NumberedKeys(ids: Assignment, ss: seq<Str>, c: nat)
    requires c + |ss| <= U32_LIMIT
    ensures Numbered(ids, ss, c).Keys == ids.Keys + set s | s in ss
    decreases |ss|
  {
    if ss != [] {
      NumberedKeys(ids[ss[0] := c], ss[1..], c + 1);
      assert ss == [ss[0]] + ss[1..];
    }
  }

  lemma {:induction false} NumberedOld(ids: Assignment, ss: seq<Str>, c: nat, s: Str)
    requires c + |ss| <= U32_LIMIT && s in ids && s !in ss
    ensures s in Numbered(ids, ss, c) && Numbered(ids, ss, c)[s] == ids[s]
    decreases |ss|
  {
    if ss != [] {
      assert s != ss[0];
      NumberedOld(ids[ss[0] := c], ss[1..], c + 1, s);
    }
  }

  /** Numbering new strings gives the i-th one the i-th id from the counter on. */
  lemma {:induction false} NumberedAt(ids: Assignment, ss: seq<Str>, c: nat, i: nat)
    requires c + |ss| <= U32_LIMIT && NoRepeats(ss) && i < |ss|
    ensures ss[i] in Numbered(ids, ss, c) && Numbered(ids, ss, c)[ss[i]] == c + i
    decreases |ss|
  {
    var first := ids[ss[0] := c];
    assert NoRepeats(ss[1..]);
    if i == 0 {
      assert ss[0] !in ss[1..];
      NumberedOld(first, ss[1..], c + 1, ss[0]);
    } else {
      NumberedAt(first, ss[1..], c + 1, i - 1);
      assert ss[i] == ss[1..][i - 1];
    }
  }

  // The id that numbering leaves a string with.
  lemma NumberedCase(ids: Assignment, ss: seq<Str>, c: nat, s: Str) returns (i: nat)
    requires c + |ss| <= U32_LIMIT && NoRepeats(ss) && AllFresh(ids, ss) && s in Numbered(ids, ss, c)
    ensures if s in ids then Numbered(ids, ss, c)[s] == ids[s] && i == 0
      else i < |ss| && ss[i] == s && Numbered(ids, ss, c)[s] == c + i
  {
    NumberedKeys(ids, ss, c);
    i := 0;
    if s in ids {
      NumberedOld(ids, ss, c, s);
    } else {
      i :| i < |ss| && ss[i] == s;
      NumberedAt(ids, ss, c, i);
    }
  }

  lemma NumberedInjective(ids: Assignment, ss: seq<Str>, c: nat)
    requires c + |ss| <= U32_LIMIT && NoRepeats(ss) && AllFresh(ids, ss)
    requires Injective(ids) && AllBelow(ids, c)
    ensures Injective(Numbered(ids, ss, c)) && AllBelow(Numbered(ids, ss, c), c + |ss|)
  {
    var r := Numbered(ids, ss, c);
    forall s, t | s in r && t in r && r[s] == r[t] ensures s == t {
      var i := NumberedCase(ids, ss, c, s);
      var j := NumberedCase(ids, ss, c, t);
    }
    forall s | s in r ensures r[s] < c + |ss| {
      var i := NumberedCase(ids, ss, c, s);
    }
  }

  // Old strings keep their ids.
  ghost predicate Extends(r: Assignment, ids: Assignment) {
    forall s :: s in ids ==> s in r && r[s] == ids[s]
  }

  ghost predicate Taken(r: Assignment, keys: set<Str>, u: nat) { exists s :: s in keys && s in r && r[s] == u }

  // The strings have exactly the ids from lo up to hi.
  ghost predicate FillsBlock(r: Assignment, keys: set<Str>, lo: nat, hi: nat) {
    && (forall s :: s in keys ==> s in r && lo <= r[s] < hi)
    && (forall u: nat :: lo <= u < hi ==> Taken(r, keys, u))
  }

  ghost predicate NumberedByRank(r: Assignment, keys: set<Str>, c: nat) {
    forall s :: s in keys ==> s in r && r[s] == c + Rank(keys, s)
  }

  lemma RanksFill(r: Assignment, keys: set<Str>, c: nat)
    requires NumberedByRank(r, keys, c)
    ensures FillsBlock(r, keys, c, c + |keys|)
  {
    forall s | s in keys ensures c <= r[s] < c + |keys| { RankBelow(keys, s); }
    forall u: nat | c <= u < c + |keys| ensures Taken(r, keys, u) {
      var s := OfRank(keys, u - c);
      assert r[s] == u;
    }
  }

  lemma RanksInjective(r: Assignment, ids: Assignment, keys: set<Str>, c: nat)
    requires Injective(ids) && AllBelow(ids, c) && Extends(r, ids) && NumberedByRank(r, keys, c)
    requires r.Keys == ids.Keys + keys
    ensures Injective(r) && AllBelow(r, c + |keys|)
  {
    forall s, t | s in r && t in r && r[s] == r[t] ensures s == t {
      if s in keys && t in keys { RankOrder(keys, s, t); }
    }
    forall s | s in keys ensures r[s] < c + |keys| { RankBelow(keys, s); }
  }

  lemma MergedIs(ids: Assignment, other: Assignment, c: nat)
    requires c + |other.Keys - ids.Keys| < U32_LIMIT
    ensures MergedIds(ids, other, c).Keys == ids.Keys + other.Keys
    ensures Extends(MergedIds(ids, other, c), ids)
    ensures NumberedByRank(MergedIds(ids, other, c), other.Keys - ids.Keys, c)
  {
  }

  /** Merging keeps old ids, gives the new strings exactly the block of ids from the counter on, and keeps ids distinct. */
  lemma MergeCorrect(ids: Assignment, other: Assignment, c: nat)
    requires Injective(ids) && AllBelow(ids, c) && c + |other.Keys - ids.Keys| < U32_LIMIT
    ensures var added, r := other.Keys - ids.Keys, MergedIds(ids, other, c);
      && r.Keys == ids.Keys + other.Keys
      && Extends(r, ids)
      && FillsBlock(r, added, c, c + |added|)
      && Injective(r)
      && AllBelow(r, c + |added|)
  {
    var added, r := other.Keys - ids.Keys, MergedIds(ids, other, c);
    MergedIs(ids, other, c);
    RanksFill(r, added, c);
    RanksInjective(r, ids, added, c);
  }

  // Every rank is taken.
  lemma OfRank(keys: set<Str>, n: nat) returns (s: Str)
    requires n < |keys|
    ensures s in keys && Rank(keys, s) == n
    decreases |keys|
  {
    var top := Largest(keys);
    var rest := keys - {top};
    assert Smaller(keys, top) == rest by { TotalOrder(top, top, top); }
    if n == |rest| {
      s := top;
    } else {
      s := OfRank(rest, n);
      TotalOrder(s, top, s);
      assert Smaller(keys, s) == Smaller(rest, s);
    }
  }

  lemma Largest(keys: set<Str>) returns (top: Str)
    requires keys != {}
    ensures top in keys && forall t :: t in keys && t != top ==> Below(t, top)
    decreases keys
  {
    var s :| s in keys;
    if keys == {s} {
      top := s;
    } else {
      var rest := keys - {s};
      var r := Largest(rest);
      TotalOrder(s, r, s);
      top := if Below(s, r) then r else s;
      forall t | t in keys && t != top ensures Below(t, top) {
        if t != s && top == s && t != r { BelowTransitive(t, r, s); }
      }
    }
  }

  lemma CompactedAt(ids: Assignment, s: Str)
    requires Injective(ids) && s in ids
    ensures CompactedIds(ids)[s] == Rank(ids.Keys, s) < |ids|
  {
    RankBelow(ids.Keys, s);
    assert |ids.Keys| == |ids|;
  }

  // Ids and strings are ordered alike.
  ghost predicate InStringOrder(r: Assignment) {
    forall s, t :: s in r && t in r ==> (r[s] < r[t] <==> Below(s, t))
  }

  lemma CompactedIs(ids: Assignment)
    requires Injective(ids)
    ensures CompactedIds(ids).Keys == ids.Keys && NumberedByRank(CompactedIds(ids), ids.Keys, 0)
  {
    forall s | s in ids ensures CompactedIds(ids)[s] == 0 + Rank(ids.Keys, s) { CompactedAt(ids, s); }
  }

  lemma RanksOrdered(r: Assignment, keys: set<Str>)
    requires r.Keys == keys && NumberedByRank(r, keys, 0)
    ensures Injective(r) && InStringOrder(r)
  {
    forall s, t | s in r && t in r ensures (r[s] < r[t] <==> Below(s, t)) && (r[s] == r[t] ==> s == t) {
      RankOrder(keys, s, t);
    }
  }

  lemma CompactedOrder(ids: Assignment)
    requires Injective(ids)
    ensures Injective(CompactedIds(ids)) && InStringOrder(CompactedIds(ids))
    ensures FillsBlock(CompactedIds(ids), ids.Keys, 0, |ids.Keys|)
  {
    CompactedIs(ids);
    RanksOrdered(CompactedIds(ids), ids.Keys);
    RanksFill(CompactedIds(ids), ids.Keys, 0);
    assert 0 + |ids.Keys| == |ids.Keys|;
  }

  lemma CompactedAgain(ids: Assignment, s: Str)
    requires Injective(ids) && Injective(CompactedIds(ids)) && s in ids
    ensures s in CompactedIds(CompactedIds(ids)) && CompactedIds(CompactedIds(ids))[s] == CompactedIds(ids)[s]
  {
    var r := CompactedIds(ids);
    assert r.Keys == ids.Keys;
    CompactedAt(ids, s);
    CompactedAt(r, s);
  }

  /** Compaction keeps the strings and numbers them from zero, without gaps, in their order; doing it again changes nothing. */
  lemma CompactCorrect(ids: Assignment)
    requires Injective(ids)
    ensures CompactedIds(ids).Keys == ids.Keys
    ensures Injective(CompactedIds(ids)) && InStringOrder(CompactedIds(ids))
    ensures FillsBlock(CompactedIds(ids), ids.Keys, 0, |ids.Keys|)
    ensures CompactedIds(CompactedIds(ids)) == CompactedIds(ids)
  {
    CompactedOrder(ids);
    CompactedIs(ids);
    forall s | s in ids
      ensures s in CompactedIds(CompactedIds(ids)) && CompactedIds(CompactedIds(ids))[s] == CompactedIds(ids)[s]
    {
      CompactedAgain(ids, s);
    }
    assert CompactedIds(CompactedIds(ids)).Keys == CompactedIds(ids).Keys;
  }

  /** Taking the image of some ids is collecting all the others. */
  lemma ImageIsCollection(ids: Assignment, us: set<U32>)
    ensures ImageIds(ids, us) == CollectedIds(ids, ids.Values - us)
  {
    forall s | s in ids ensures ids[s] in ids.Values { }
  }

  lemma FreshAre(ids: Assignment, ss: seq<Str>, i: nat)
    requires i <= |ss|
    ensures AllFresh(ids, FreshFrom(ids, ss, i)) && forall s :: s in FreshFrom(ids, ss, i) ==> s in ss
    decreases |ss| - i
  {
    if i < |ss| { FreshAre(ids, ss, i + 1); }
  }

  lemma FreshNext(ids: Assignment, ss: seq<Str>, i: nat)
    requires i < |ss|
    ensures ss[i] in ids ==> FreshFrom(ids, ss, i) == FreshFrom(ids, ss, i + 1)
    ensures ss[i] !in ids ==> FreshFrom(ids, ss, i) != [] && FreshFrom(ids, ss, i)[0] == ss[i]
    ensures ss[i] !in ids ==> FreshFrom(ids, ss, i)[1..] == FreshFrom(ids, ss, i + 1)
  {
  }

  // ----- runs -----

  datatype Operation =
    | Encode(text: Str, id: U32)
    | EncodeAll(texts: seq<Str>, counter: nat)
    | Merge(other: Assignment, counter: nat)
    | Image(kept: set<U32>)
    | Collect(dropped: set<U32>)
    | Compact

  // What the callers of an operation see to.
  ghost predicate Allowed(ids: Assignment, op: Operation) {
    match op
    case Encode(s, u) => s !in ids && u !in ids.Values
    case EncodeAll(ss, c) => NoRepeats(Fresh(ids, ss)) && AllBelow(ids, c) && c + |Fresh(ids, ss)| < U32_LIMIT
    case Merge(other, c) => Injective(other) && AllBelow(ids, c) && c + |other.Keys - ids.Keys| < U32_LIMIT
    case Image(us) => !(us !! ids.Values)
    case Collect(us) => us <= ids.Values
    case Compact => true
  }

  ghost function Step(ids: Assignment, op: Operation): Assignment
    requires Injective(ids) && Allowed(ids, op)
  {
    match op
    case Encode(s, u) => ids[s := u]
    case EncodeAll(ss, c) => Numbered(ids, Fresh(ids, ss), c)
    case Merge(other, c) => MergedIds(ids, other, c)
    case Image(us) => ImageIds(ids, us)
    case Collect(us) => CollectedIds(ids, us)
    case Compact => CompactedIds(ids)
  }

  lemma StepInjective(ids: Assignment, op: Operation)
    requires Injective(ids) && Allowed(ids, op)
    ensures Injective(Step(ids, op))
  {
    match op {
      case Encode(s, u) =>
        assert forall t :: t in ids ==> ids[t] in ids.Values;
        EncodeInjective(ids, s, u);
      case EncodeAll(ss, c) =>
        FreshAre(ids, ss, 0);
        NumberedInjective(ids, Fresh(ids, ss), c);
      case Merge(other, c) => MergeCorrect(ids, other, c);
      case Image(us) =>
      case Collect(us) =>
      case Compact => CompactedOrder(ids);
    }
  }

  ghost predicate RunAllowed(ids: Assignment, ops: seq<Operation>)
    requires Injective(ids)
    decreases |ops|
  {
    ops == [] || (Allowed(ids, ops[0]) && (StepInjective(ids, ops[0]); RunAllowed(Step(ids, ops[0]), ops[1..])))
  }

  /** Ids stay distinct over every allowed run. */
  ghost function Run(ids: Assignment, ops: seq<Operation>): (r: Assignment)
    requires Injective(ids) && RunAllowed(ids, ops)
    ensures Injective(r)
    decreases |ops|
  {
    if ops == [] then ids
    else
      StepInjective(ids, ops[0]);
      Run(Step(ids, ops[0]), ops[1..])
  }

  predicate Growing(op: Operation) { op.Encode? || op.EncodeAll? || op.Merge? }

  lemma StepExtends(ids: Assignment, op: Operation)
    requires Injective(ids) && Allowed(ids, op) && Growing(op)
    ensures Extends(Step(ids, op), ids)
  {
    if op.EncodeAll? {
      FreshAre(ids, op.texts, 0);
      forall s | s in ids ensures s in Step(ids, op) && Step(ids, op)[s] == ids[s] {
        NumberedOld(ids, Fresh(ids, op.texts), op.counter, s);
      }
    } else if op.Merge? {
      MergedIs(ids, op.other, op.counter);
    }
  }

  /** No id changes over a run of encodes, bulk encodes and merges. */
  lemma {:induction false} GrowingRunExtends(ids: Assignment, ops: seq<Operation>)
    requires Injective(ids) && RunAllowed(ids, ops)
    requires forall op :: op in ops ==> Growing(op)
    ensures Extends(Run(ids, ops), ids)
    decreases |ops|
  {
    if ops != [] {
      StepInjective(ids, ops[0]);
      StepExtends(ids, ops[0]);
      GrowingRunExtends(Step(ids, ops[0]), ops[1..]);
    }
  }
}
