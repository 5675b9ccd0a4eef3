/** The in-memory category dictionary in its plain and its prefix-compressed form. */
module CatMaps {
  import opened Wrappers
  import opened CatStrings
  import opened TextOrder
  import opened CatTree
  import opened CatDictionary
  import opened CatIndex
  import opened CatLoops
  import opened CatPrefixes
  import opened CatReads

  class UncompressedCatMaps {
    var entries: Entries
    var revMap: map<U32, Key>

    ghost function Assigned(): Assignment reads this { Ids(entries) }

    ghost predicate Ordered() reads this { WellOrdered(entries, false) }

    ghost predicate Valid() reads this { Consistent(entries, revMap, false) }

    constructor ()
      ensures Valid() && Assigned() == map[]
    {
      entries, revMap := [], map[];
    }

    /** Building from rows keeps the last id of every string, and gives inverse maps when the ids are distinct. */
    constructor FromOrderedVec(ss: seq<(Str, U32)>)
      ensures Assigned() == FromPairs(ss)
      ensures Injective(FromPairs(ss)) ==> Valid()
    {
      new;
      var es := seq(|ss|, i requires 0 <= i < |ss| => Entry(Whole(ss[i].0), ss[i].1));
      assert Rows(es) == ss;
      entries := BuildMap(es, false);
      revMap := BuildReverse(entries);
      if Injective(Ids(entries)) { ReversedMirrors(entries, revMap, false); }
    }

    method CompactIds()
      requires Valid()
      modifies this
      ensures Valid() && Assigned() == CompactedIds(old(Assigned()))
    {
      DecodeInverts(Ids(entries), revMap, false);
      ghost var was := entries;
      entries := Renumber(entries);
      RenumberedIsCompacted(was, entries, false);
      CompactedOrder(Ids(was));
      revMap := BuildReverse(entries);
      ReversedMirrors(entries, revMap, false);
    }

    method GarbageCollectCats(us: set<U32>)
      requires Valid() && us <= revMap.Keys
      modifies this
      ensures Valid() && Assigned() == CollectedIds(old(Assigned()), us)
    {
      ghost var ids, rev := Ids(entries), revMap;
      var ks;
      revMap, ks := TakeOut(revMap, us);
      entries := RemoveAll(entries, ks, false);
      CollectedMirrors(ids, rev, false, us, ks);
    }

    method EncodeNewString(s: Str, u: U32)
      requires Ordered()
      modifies this
      ensures Ordered() && Assigned() == old(Assigned())[s := u] && revMap == old(revMap)[u := Whole(s)]
      ensures old(Valid()) ==>
        (Valid() <==> (s !in old(Assigned()) && u !in old(revMap)) || Lookup(old(Assigned()), s) == Some(u))
    {
      EncodeInto(entries, revMap, false, s, u);
      entries, revMap := Insert(entries, Whole(s), u), revMap[u := Whole(s)];
    }

    function MaybeEncodeStr(s: Str): (r: Option<U32>)
      requires Valid()
      reads this
      ensures r == Lookup(Assigned(), s)
    {
      FindIsLookup(entries, Whole(s));
      Find(entries, Whole(s))
    }

    function MaybeDecode(u: U32): (r: Option<Str>)
      requires Valid()
      reads this
      ensures forall s :: r == Some(s) <==> Lookup(Assigned(), s) == Some(u)
    {
      DecodeInverts(Assigned(), revMap, false);
      Decode(revMap, u)
    }

    constructor FromParts(m: Entries, rev: map<U32, Key>)
      ensures entries == m && revMap == rev
    {
      entries, revMap := m, rev;
    }

    /** The part of the dictionary with the given ids, when there is any. */
    method ImageOf(us: set<U32>) returns (r: Option<UncompressedCatMaps>)
      requires Valid()
      ensures r.None? <==> us !! Assigned().Values
      ensures r.Some? ==> fresh(r.value) && r.value.Valid() && r.value.Assigned() == ImageIds(Assigned(), us)
    {
      var rev := ImageReverse(revMap, us);
      ImageMirrors(Ids(entries), revMap, false, us, rev);
      if rev == map[] { return None; }
      var m := TurnAround(rev, false);
      TurnedIsImage(ImageIds(Ids(entries), us), rev, false, m);
      var image := new UncompressedCatMaps.FromParts(m, rev);
      r := Some(image);
    }

    // Inserting new strings under consecutive new ids.
    method InsertAll(inserts: Entries, ghost ss: seq<Str>, ghost c: nat)
      requires Valid() && AllBelow(Assigned(), c) && AllFresh(Assigned(), ss) && NoRepeats(ss) && c + |ss| < U32_LIMIT
      requires InsertsFrom(inserts, ss, c)
      modifies this
      ensures Valid() && Assigned() == Numbered(old(Assigned()), ss, c)
    {
      for i := 0 to |inserts|
        invariant Valid() && AllBelow(Assigned(), c + i) && AllFresh(Assigned(), ss[i..]) && NoRepeats(ss[i..])
        invariant Numbered(Assigned(), ss[i..], c + i) == Numbered(old(Assigned()), ss, c)
      {
        NextNumber(Assigned(), ss[i..], c + i);
        assert ss[i..][1..] == ss[i + 1..];
        NewId(Assigned(), revMap, false, c + i);
        EncodeNewString(Text(inserts[i].key), inserts[i].id);
      }
    }

    /** Merging: the remap sends every id of the other dictionary to the merged id of the same string. */
    method MergeWith(other: UncompressedCatMaps, c: nat) returns (remap: map<U32, U32>, next: nat)
      requires Valid() && other.Valid() && other != this
      requires AllBelow(Assigned(), c) && c + |other.Assigned().Keys - Assigned().Keys| < U32_LIMIT
      modifies this
      ensures Valid() && Assigned() == MergedIds(old(Assigned()), old(other.Assigned()), c)
      ensures next == c + old(|other.Assigned().Keys - Assigned().Keys|)
      ensures Remaps(remap, old(other.Assigned()), Assigned())
    {
      ghost var ss, goal := MergePlan(Ids(entries), other.entries, other.revMap, false, c);
      var inserts;
      inserts, remap, next := PlanMerge(entries, other.entries, false, c);
      InsertAll(inserts, ss, c);
    }

    method ToRecordBatch() returns (rows: seq<(Str, U32)>)
      ensures rows == Rows(entries)
    {
      rows := [];
      for i := 0 to |entries|
        invariant rows == Rows(entries)[..i]
      {
        rows := rows + [(Text(entries[i].key), entries[i].id)];
      }
    }
  }

  class PrefixCompressedCatMaps {
    var entries: Entries
    var revMap: map<U32, Key>
    var prefixMap: map<Str, Str>

    ghost function Assigned(): Assignment reads this { Ids(entries) }

    ghost predicate Ordered() reads this { WellOrdered(entries, true) && Covers(prefixMap, entries) }

    ghost predicate Valid() reads this { Consistent(entries, revMap, true) && Covers(prefixMap, entries) }

    constructor ()
      ensures Valid() && Assigned() == map[]
    {
      entries, revMap, prefixMap := [], map[], map[];
    }

    /** Building from rows keeps the last id of every string, and gives inverse maps when the ids are distinct. */
    constructor FromOrderedVec(ss: seq<(Str, U32)>)
      ensures Assigned() == FromPairs(ss)
      ensures Injective(FromPairs(ss)) ==> Valid()
    {
      new;
      var es;
      es, prefixMap := InternAll(ss);
      entries := BuildMap(es, true);
      revMap := BuildReverse(entries);
      BuiltSound(entries, revMap, prefixMap, ss);
    }

    method CompactIds()
      requires Valid()
      modifies this
      ensures Valid() && Assigned() == CompactedIds(old(Assigned()))
    {
      DecodeInverts(Ids(entries), revMap, true);
      ghost var was := entries;
      entries := Renumber(entries);
      RenumberedIsCompacted(was, entries, true);
      CoversRenumbered(prefixMap, was, entries);
      CompactedOrder(Ids(was));
      revMap := BuildReverse(entries);
      ReversedMirrors(entries, revMap, true);
    }

    // Prefixes stay in the table even when their last string goes.
    method GarbageCollectCats(us: set<U32>)
      requires Valid() && us <= revMap.Keys
      modifies this
      ensures Valid() && Assigned() == CollectedIds(old(Assigned()), us) && prefixMap == old(prefixMap)
    {
      ghost var ids, rev := Ids(entries), revMap;
      var ks;
      revMap, ks := TakeOut(revMap, us);
      entries := RemoveAll(entries, ks, true);
      CollectedMirrors(ids, rev, true, us, ks);
    }

    method EncodeNewPrefixCompressedString(k: Key, u: U32)
      requires Ordered() && k == MakeKey(true, Text(k))
      modifies this
      ensures Ordered() && Assigned() == old(Assigned())[Text(k) := u] && revMap == old(revMap)[u := k]
      ensures old(Valid()) ==>
        (Valid() <==> (Text(k) !in old(Assigned()) && u !in old(revMap)) || Lookup(old(Assigned()), Text(k)) == Some(u))
    {
      var prefixes, shared := Intern(prefixMap, k.prefix);
      EncodeCompressed(entries, revMap, prefixMap, k, u, prefixes);
      entries, revMap, prefixMap := Insert(entries, k, u), revMap[u := k], prefixes;
    }

    method EncodeNewString(s: Str, u: U32)
      requires Ordered()
      modifies this
      ensures Ordered() && Assigned() == old(Assigned())[s := u] && revMap == old(revMap)[u := MakeKey(true, s)]
      ensures old(Valid()) ==>
        (Valid() <==> (s !in old(Assigned()) && u !in old(revMap)) || Lookup(old(Assigned()), s) == Some(u))
    {
      var parts := SplitIri(s);
      var prefixes, shared := Intern(prefixMap, parts.0);
      prefixMap := prefixes;
      EncodeNewPrefixCompressedString(Split(shared, parts.1), u);
    }

    function MaybeEncodeStr(s: Str): (r: Option<U32>)
      requires Valid()
      reads this
      ensures r == Lookup(Assigned(), s)
    {
      FindThroughPrefixes(entries, prefixMap, s);
      var parts := SplitIri(s);
      if parts.0 in prefixMap then Find(entries, Split(prefixMap[parts.0], parts.1)) else None
    }

    function MaybeDecode(u: U32): (r: Option<Str>)
      requires Valid()
      reads this
      ensures forall s :: r == Some(s) <==> Lookup(Assigned(), s) == Some(u)
    {
      DecodeInverts(Assigned(), revMap, true);
      Decode(revMap, u)
    }

    constructor FromParts(m: Entries, rev: map<U32, Key>, prefixes: map<Str, Str>)
      ensures entries == m && revMap == rev && prefixMap == prefixes
    {
      entries, revMap, prefixMap := m, rev, prefixes;
    }

    /** The part of the dictionary with the given ids, when there is any, with only the prefixes it uses. */
    method ImageOf(us: set<U32>) returns (r: Option<PrefixCompressedCatMaps>)
      requires Valid()
      ensures r.None? <==> us !! Assigned().Values
      ensures r.Some? ==> fresh(r.value) && r.value.Valid() && r.value.Assigned() == ImageIds(Assigned(), us)
    {
      var rev := ImageReverse(revMap, us);
      ImageMirrors(Ids(entries), revMap, true, us, rev);
      if rev == map[] { return None; }
      var m := TurnAround(rev, true);
      var prefixes := PrefixesOf(rev);
      ImageSound(entries, revMap, us, m, rev, prefixes);
      var image := new PrefixCompressedCatMaps.FromParts(m, rev, prefixes);
      r := Some(image);
    }

    // Inserting new strings under consecutive new ids.
    method InsertAll(inserts: Entries, ghost ss: seq<Str>, ghost c: nat)
      requires Valid() && AllBelow(Assigned(), c) && AllFresh(Assigned(), ss) && NoRepeats(ss) && c + |ss| < U32_LIMIT
      requires InsertsFrom(inserts, ss, c) && InForm(inserts, true)
      modifies this
      ensures Valid() && Assigned() == Numbered(old(Assigned()), ss, c)
    {
      for i := 0 to |inserts|
        invariant Valid() && AllBelow(Assigned(), c + i) && AllFresh(Assigned(), ss[i..]) && NoRepeats(ss[i..])
        invariant Numbered(Assigned(), ss[i..], c + i) == Numbered(old(Assigned()), ss, c)
      {
        NextNumber(Assigned(), ss[i..], c + i);
        assert ss[i..][1..] == ss[i + 1..];
        NewId(Assigned(), revMap, true, c + i);
        EncodeNewPrefixCompressedString(inserts[i].key, inserts[i].id);
      }
    }

    /** Merging: the remap sends every id of the other dictionary to the merged id of the same string. */
    method MergeWith(other: PrefixCompressedCatMaps, c: nat) returns (remap: map<U32, U32>, next: nat)
      requires Valid() && other.Valid() && other != this
      requires AllBelow(Assigned(), c) && c + |other.Assigned().Keys - Assigned().Keys| < U32_LIMIT
      modifies this
      ensures Valid() && Assigned() == MergedIds(old(Assigned()), old(other.Assigned()), c)
      ensures next == c + old(|other.Assigned().Keys - Assigned().Keys|)
      ensures Remaps(remap, old(other.Assigned()), Assigned())
    {
      ghost var ss, goal := MergePlan(Ids(entries), other.entries, other.revMap, true, c);
      var inserts;
      inserts, remap, next := PlanMerge(entries, other.entries, true, c);
      InsertAll(inserts, ss, c);
    }

    method ToRecordBatch() returns (rows: seq<(Str, U32)>)
      requires Valid()
      ensures rows == Rows(entries)
    {
      rows := StoredRows(entries, prefixMap);
    }
  }
}
