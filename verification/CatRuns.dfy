/** Either form behind one interface, bulk encoding, and whole runs of operations. */
module CatRuns {
  import opened Wrappers
  import opened CatStrings
  import opened TextOrder
  import opened CatTree
  import opened CatDictionary
  import opened CatIndex
  import opened CatLoops
  import opened CatReads
  import opened CatMaps

  // ----- bulk encoding -----

  // Both maps as they were, the texts to encode, and the counter.
  datatype Bulk = Bulk(ids: Assignment, back: map<U32, Key>, compressed: bool, texts: seq<Str>, counter: nat) {
    ghost predicate Fits() {
      Mirrors(ids, back, compressed) && AllBelow(ids, counter) && counter + |Fresh(ids, texts)| < U32_LIMIT
    }
  }

  // After the first i texts, numbering the others leads where numbering all of them did.
  ghost predicate SoFar(b: Bulk, i: nat, ids: Assignment, back: map<U32, Key>, next: nat) {
    && b.Fits() && i <= |b.texts|
    && var added, rest := Fresh(b.ids, b.texts), FreshFrom(b.ids, b.texts, i);
    && next + |rest| == b.counter + |added|
    && Numbered(ids, rest, next) == Numbered(b.ids, added, b.counter)
    && NumberedBack(back, rest, next, b.compressed) == NumberedBack(b.back, added, b.counter, b.compressed)
  }

  lemma BulkStarts(b: Bulk)
    requires b.Fits()
    ensures SoFar(b, 0, b.ids, b.back, b.counter)
  {
  }

  lemma SoFarNext(b: Bulk, i: nat, ids: Assignment, back: map<U32, Key>, next: nat)
    requires SoFar(b, i, ids, back, next) && i < |b.texts|
    ensures b.texts[i] in b.ids ==> SoFar(b, i + 1, ids, back, next)
    ensures b.texts[i] !in b.ids ==> next < U32_LIMIT
    ensures b.texts[i] !in b.ids ==>
      SoFar(b, i + 1, ids[b.texts[i] := next], back[next := MakeKey(b.compressed, b.texts[i])], next + 1)
  {
    FreshNext(b.ids, b.texts, i);
  }

  /** In the end both maps are inverse exactly when no new string was listed twice. */
  lemma BulkEnds(b: Bulk, ids: Assignment, back: map<U32, Key>, next: nat)
    requires SoFar(b, |b.texts|, ids, back, next)
    ensures var added := Fresh(b.ids, b.texts);
      && next == b.counter + |added|
      && ids == Numbered(b.ids, added, b.counter)
      && back == NumberedBack(b.back, added, b.counter, b.compressed)
      && (Mirrors(ids, back, b.compressed) <==> NoRepeats(added))
  {
    FreshAre(b.ids, b.texts, 0);
    BulkExactly(b.ids, b.back, b.compressed, Fresh(b.ids, b.texts), b.counter);
  }

  datatype CatMapsInMemory = Compressed(c: PrefixCompressedCatMaps) | Uncompressed(u: UncompressedCatMaps) {
    ghost function Object(): object { if Compressed? then c else u }

    ghost function Assigned(): Assignment
      reads Object()
    {
      if Compressed? then c.Assigned() else u.Assigned()
    }

    ghost predicate Valid()
      reads Object()
    {
      if Compressed? then c.Valid() else u.Valid()
    }

    ghost function Reverse(): map<U32, Key>
      reads Object()
    {
      if Compressed? then c.revMap else u.revMap
    }

    ghost predicate Ordered()
      reads Object()
    {
      if Compressed? then c.Ordered() else u.Ordered()
    }

    function MaybeEncodeStr(s: Str): (r: Option<U32>)
      requires Valid()
      reads Object()
      ensures r == Lookup(Assigned(), s)
    {
      if Compressed? then c.MaybeEncodeStr(s) else u.MaybeEncodeStr(s)
    }

    function MaybeDecode(id: U32): (r: Option<Str>)
      requires Valid()
      reads Object()
      ensures forall s :: r == Some(s) <==> Lookup(Assigned(), s) == Some(id)
    {
      if Compressed? then c.MaybeDecode(id) else u.MaybeDecode(id)
    }

    method EncodeNewInMemoryString(s: Str, id: U32)
      requires Ordered()
      modifies Object()
      ensures Ordered() && Assigned() == old(Assigned())[s := id]
      ensures Reverse() == old(Reverse())[id := MakeKey(Compressed?, s)]
      ensures old(Valid()) ==>
        (Valid() <==> (s !in old(Assigned()) && id !in old(Reverse())) || Lookup(old(Assigned()), s) == Some(id))
    {
      match this
      case Compressed(m) => m.EncodeNewString(s, id);
      case Uncompressed(m) => m.EncodeNewString(s, id);
    }

    method MaybeEncodeStrs(ss: seq<Str>) returns (r: seq<Option<U32>>)
      requires Valid()
      ensures |r| == |ss| && forall i :: 0 <= i < |ss| ==> r[i] == Lookup(Assigned(), ss[i])
    {
      r := [];
      for i := 0 to |ss|
        invariant |r| == i && forall j :: 0 <= j < i ==> r[j] == Lookup(Assigned(), ss[j])
      {
        r := r + [MaybeEncodeStr(ss[i])];
      }
    }

    // A string with an id is passed over; another one takes the next id.
    method EncodeOne(ghost bulk: Bulk, i: nat, known: bool, s: Str, counter: nat) returns (next: nat)
      requires Ordered() && SoFar(bulk, i, Assigned(), Reverse(), counter) && bulk.compressed == Compressed?
      requires i < |bulk.texts| && s == bulk.texts[i] && (known <==> s in bulk.ids)
      modifies Object()
      ensures Ordered() && SoFar(bulk, i + 1, Assigned(), Reverse(), next)
    {
      SoFarNext(bulk, i, Assigned(), Reverse(), counter);
      next := counter;
      if !known {
        EncodeNewInMemoryString(s, counter);
        next := counter + 1;
      }
    }

    /**
      The strings without an id get consecutive ids from the counter on, in list order. A string that is
      listed twice takes two of them and keeps the last, and then the maps are no longer inverse.
     */
    method EncodeAllNewNonDuplicatedStrings(ss: seq<Str>, counter: nat) returns (next: nat)
      requires Valid() && AllBelow(Assigned(), counter) && counter + |Fresh(Assigned(), ss)| < U32_LIMIT
      modifies Object()
      ensures Ordered() && Assigned() == Numbered(old(Assigned()), Fresh(old(Assigned()), ss), counter)
      ensures Reverse() == NumberedBack(old(Reverse()), Fresh(old(Assigned()), ss), counter, Compressed?)
      ensures Valid() <==> NoRepeats(Fresh(old(Assigned()), ss))
      ensures next == counter + |Fresh(old(Assigned()), ss)|
    {
      ghost var bulk := Bulk(Assigned(), Reverse(), Compressed?, ss, counter);
      BulkStarts(bulk);
      var encoded := MaybeEncodeStrs(ss);
      next := counter;
      for i := 0 to |ss|
        invariant Ordered() && SoFar(bulk, i, Assigned(), Reverse(), next)
      {
        next := EncodeOne(bulk, i, encoded[i].Some?, ss[i], next);
      }
      BulkEnds(bulk, Assigned(), Reverse(), next);
      ValidIs();
    }

    lemma ValidIs()
      ensures Valid() <==> Ordered() && Mirrors(Assigned(), Reverse(), Compressed?)
    {
    }

    /** One past the largest id, wrapping on 32 bits: above all ids exactly when the largest 32-bit id is free. */
    method Counter() returns (next: U32)
      requires Valid() && Assigned() != map[]
      ensures AllBelow(Assigned(), next) <==> U32_LIMIT - 1 !in Assigned().Values
      ensures if U32_LIMIT - 1 in Assigned().Values then next == 0 else next > 0 && next - 1 in Assigned().Values
    {
      var rev := if Compressed? then c.revMap else u.revMap;
      DecodeInverts(Assigned(), rev, Compressed?);
      ghost var s :| s in Assigned();
      assert Assigned()[s] in rev.Keys;
      var top := Largest(rev.Keys);
      NextAbove(Assigned(), top);
      next := NextId(top);
    }

    // Largest of a set of ids.
    static method Largest(us: set<U32>) returns (top: U32)
      requires us != {}
      ensures top in us && forall u :: u in us ==> u <= top
    {
      top :| top in us;
      var rest := us - {top};
      while rest != {}
        invariant rest <= us && top in us && forall v :: v in us && v !in rest ==> v <= top
      {
        var u :| u in rest;
        if u > top { top := u; }
        rest := rest - {u};
      }
    }
  }

  // Addition on 32 bits.
  function NextId(top: U32): U32 { (top + 1) % U32_LIMIT }

  lemma NextAbove(ids: Assignment, top: U32)
    requires top in ids.Values && forall u :: u in ids.Values ==> u <= top
    ensures AllBelow(ids, NextId(top)) <==> U32_LIMIT - 1 !in ids.Values
    ensures NextId(top) == if U32_LIMIT - 1 in ids.Values then 0 else top + 1
  {
    if top + 1 < U32_LIMIT { SmallModulus(top + 1); }
    forall s | s in ids ensures ids[s] <= top { assert ids[s] in ids.Values; }
    var s :| s in ids && ids[s] == top;
  }

  // Any list of the pairs of an assignment.
  method PairsOf(ids: Assignment) returns (ss: seq<(Str, U32)>)
    ensures FromPairs(ss) == ids
  {
    ss := [];
    var rest := ids.Keys;
    while rest != {}
      invariant rest <= ids.Keys && FromPairs(ss) == map s | s in ids && s !in rest :: ids[s]
    {
      var s :| s in rest;
      assert (ss + [(s, ids[s])])[..|ss|] == ss;
      ss := ss + [(s, ids[s])];
      rest := rest - {s};
    }
  }

  method FromOrderedVec(ss: seq<(Str, U32)>, isIri: bool) returns (m: CatMapsInMemory)
    requires Injective(FromPairs(ss))
    ensures fresh(m.Object()) && m.Compressed? == isIri && m.Valid() && m.Assigned() == FromPairs(ss)
  {
    if isIri {
      var c := new PrefixCompressedCatMaps.FromOrderedVec(ss);
      m := Compressed(c);
    } else {
      var u := new UncompressedCatMaps.FromOrderedVec(ss);
      m := Uncompressed(u);
    }
  }

  method MergeInto(m: CatMapsInMemory, other: CatMapsInMemory, counter: nat) returns (remap: map<U32, U32>, next: nat)
    requires m.Valid() && other.Valid() && other.Object() != m.Object() && m.Compressed? == other.Compressed?
    requires AllBelow(m.Assigned(), counter) && counter + |other.Assigned().Keys - m.Assigned().Keys| < U32_LIMIT
    modifies m.Object()
    ensures m.Valid() && m.Assigned() == MergedIds(old(m.Assigned()), old(other.Assigned()), counter)
    ensures next == counter + old(|other.Assigned().Keys - m.Assigned().Keys|)
    ensures Remaps(remap, old(other.Assigned()), m.Assigned())
  {
    match m
    case Compressed(c) => remap, next := c.MergeWith(other.c, counter);
    case Uncompressed(u) => remap, next := u.MergeWith(other.u, counter);
  }

  method ImageOf(m: CatMapsInMemory, us: set<U32>) returns (r: Option<CatMapsInMemory>)
    requires m.Valid()
    ensures r.None? <==> us !! m.Assigned().Values
    ensures r.Some? ==> fresh(r.value.Object()) && r.value.Compressed? == m.Compressed?
    ensures r.Some? ==> r.value.Valid() && r.value.Assigned() == ImageIds(m.Assigned(), us)
  {
    match m
    case Compressed(c) =>
      var i := c.ImageOf(us);
      r := if i.Some? then Some(Compressed(i.value)) else None;
    case Uncompressed(u) =>
      var i := u.ImageOf(us);
      r := if i.Some? then Some(Uncompressed(i.value)) else None;
  }

  method GarbageCollectCats(m: CatMapsInMemory, us: set<U32>)
    requires m.Valid() && us <= m.Assigned().Values
    modifies m.Object()
    ensures m.Valid() && m.Assigned() == CollectedIds(old(m.Assigned()), us)
  {
    match m
    case Compressed(c) =>
      DecodeInverts(c.Assigned(), c.revMap, true);
      c.GarbageCollectCats(us);
    case Uncompressed(u) =>
      DecodeInverts(u.Assigned(), u.revMap, false);
      u.GarbageCollectCats(us);
  }

  method CompactIds(m: CatMapsInMemory)
    requires m.Valid()
    modifies m.Object()
    ensures m.Valid() && Injective(old(m.Assigned())) && m.Assigned() == CompactedIds(old(m.Assigned()))
  {
    match m
    case Compressed(c) =>
      DecodeInverts(c.Assigned(), c.revMap, true);
      c.CompactIds();
    case Uncompressed(u) =>
      DecodeInverts(u.Assigned(), u.revMap, false);
      u.CompactIds();
  }

  // Merging a dictionary of the same form that is built for the purpose.
  method MergeAssignment(m: CatMapsInMemory, other: Assignment, counter: nat)
    requires m.Valid() && Injective(other)
    requires AllBelow(m.Assigned(), counter) && counter + |other.Keys - m.Assigned().Keys| < U32_LIMIT
    modifies m.Object()
    ensures m.Valid() && m.Assigned() == MergedIds(old(m.Assigned()), other, counter)
  {
    var ss := PairsOf(other);
    var o := FromOrderedVec(ss, m.Compressed?);
    assert m.Assigned() == old(m.Assigned()) && o.Assigned() == other;
    var remap, next := MergeInto(m, o, counter);
  }

  // The object is the same one, or a new one of the same form.
  twostate predicate Continues(m: CatMapsInMemory, new r: CatMapsInMemory) {
    r.Compressed? == m.Compressed? && (r.Object() == m.Object() || fresh(r.Object()))
  }

  /** One operation on either form does to the assignment what the operation says. */
  method Apply(m: CatMapsInMemory, op: Operation) returns (r: CatMapsInMemory)
    requires m.Valid() && Injective(m.Assigned()) && Allowed(m.Assigned(), op)
    modifies m.Object()
    ensures r.Valid() && Continues(m, r)
    ensures r.Assigned() == Step(old(m.Assigned()), op)
  {
    r := m;
    match op
    case Encode(s, u) =>
      DecodeInverts(m.Assigned(), m.Reverse(), m.Compressed?);
      m.EncodeNewInMemoryString(s, u);
    case EncodeAll(ss, c) => var next := m.EncodeAllNewNonDuplicatedStrings(ss, c);
    case Merge(other, c) => MergeAssignment(m, other, c);
    case Image(us) =>
      var i := ImageOf(m, us);
      r := i.value;
    case Collect(us) => GarbageCollectCats(m, us);
    case Compact => CompactIds(m);
  }

  /** A run on either form ends with the assignment that the operations give, whatever the form. */
  method Replay(m: CatMapsInMemory, ops: seq<Operation>) returns (r: CatMapsInMemory)
    requires m.Valid() && Injective(m.Assigned()) && RunAllowed(m.Assigned(), ops)
    modifies m.Object()
    ensures r.Valid() && Continues(m, r)
    ensures r.Assigned() == Run(old(m.Assigned()), ops)
  {
    r := m;
    for i := 0 to |ops|
      invariant r.Valid() && Continues(m, r)
      invariant Injective(r.Assigned()) && RunAllowed(r.Assigned(), ops[i..])
      invariant Run(r.Assigned(), ops[i..]) == Run(old(m.Assigned()), ops)
    {
      StepInjective(r.Assigned(), ops[i]);
      assert ops[i..][1..] == ops[i + 1..];
      r := Apply(r, ops[i]);
    }
  }

  /** Both forms with the same assignment answer every lookup alike and store the same rows. */
  lemma FormsAgree(p: UncompressedCatMaps, q: PrefixCompressedCatMaps)
    requires p.Valid() && q.Valid() && p.Assigned() == q.Assigned()
    ensures forall s :: p.MaybeEncodeStr(s) == q.MaybeEncodeStr(s)
    ensures forall u: U32 :: p.MaybeDecode(u) == q.MaybeDecode(u)
    ensures Rows(p.entries) == Rows(q.entries) && TextList(p.entries) == TextList(q.entries)
  {
    OneRowOrder(p.entries, q.entries);
    forall u: U32 ensures p.MaybeDecode(u) == q.MaybeDecode(u) {
      var a, b := p.MaybeDecode(u), q.MaybeDecode(u);
      if a.Some? { assert Lookup(p.Assigned(), a.value) == Some(u); }
      if b.Some? { assert Lookup(q.Assigned(), b.value) == Some(u); }
    }
  }

  /** From nothing, the same allowed run leaves both forms with the same answers. */
  method ReplayBoth(ops: seq<Operation>) returns (p: UncompressedCatMaps, q: PrefixCompressedCatMaps)
    requires RunAllowed(map[], ops)
    ensures p.Valid() && q.Valid() && p.Assigned() == q.Assigned() == Run(map[], ops)
    ensures forall s :: p.MaybeEncodeStr(s) == q.MaybeEncodeStr(s)
    ensures forall u: U32 :: p.MaybeDecode(u) == q.MaybeDecode(u)
    ensures Rows(p.entries) == Rows(q.entries)
  {
    var plain := FromOrderedVec([], false);
    plain := Replay(plain, ops);
    p := plain.u;
    var compressed := FromOrderedVec([], true);
    compressed := Replay(compressed, ops);
    q := compressed.c;
    FormsAgree(p, q);
  }
}
