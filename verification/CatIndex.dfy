/** The ordered map and the reverse map together, and the loops that only read them. */
module CatIndex {
  import opened Wrappers
  import opened CatStrings
  import opened TextOrder
  import opened CatTree
  import opened CatDictionary

  // The reverse map holds exactly the pairs of the assignment, with the keys in one form.
  ghost predicate Mirrors(ids: Assignment, rev: map<U32, Key>, compressed: bool) {
    && (forall s :: s in ids ==> ids[s] in rev && rev[ids[s]] == MakeKey(compressed, s))
    && (forall u :: u in rev ==> Text(rev[u]) in ids && ids[Text(rev[u])] == u)
  }

  ghost predicate Consistent(m: Entries, rev: map<U32, Key>, compressed: bool) {
    Ascending(m) && InForm(m, compressed) && Mirrors(Ids(m), rev, compressed)
  }

  function Decode(rev: map<U32, Key>, u: U32): Option<Str> { if u in rev then Some(Text(rev[u])) else None }

  /** Decoding inverts encoding, so no two strings share an id. */
  lemma DecodeInverts(ids: Assignment, rev: map<U32, Key>, compressed: bool)
    requires Mirrors(ids, rev, compressed)
    ensures Injective(ids) && rev.Keys == ids.Values
    ensures forall s: Str, u: U32 :: Decode(rev, u) == Some(s) <==> Lookup(ids, s) == Some(u)
  {
    forall u ensures u in rev <==> u in ids.Values {
      if u in rev { assert ids[Text(rev[u])] in ids.Values; }
    }
  }

  lemma EncodeMirrors(ids: Assignment, rev: map<U32, Key>, compressed: bool, s: Str, u: U32)
    requires Mirrors(ids, rev, compressed)
    requires (s !in ids && u !in rev) || Lookup(ids, s) == Some(u)
    ensures Mirrors(ids[s := u], rev[u := MakeKey(compressed, s)], compressed)
  {
    var ids', rev' := ids[s := u], rev[u := MakeKey(compressed, s)];
    forall t | t in ids' ensures ids'[t] in rev' && rev'[ids'[t]] == MakeKey(compressed, t) {
      if t != s { assert t in ids; }
    }
    forall v | v in rev' ensures Text(rev'[v]) in ids' && ids'[Text(rev'[v])] == v {
      if v != u { assert v in rev; }
    }
  }

  lemma EncodeBreaks(ids: Assignment, rev: map<U32, Key>, compressed: bool, s: Str, u: U32)
    requires Mirrors(ids, rev, compressed)
    requires if s in ids then ids[s] != u else u in rev
    ensures !Mirrors(ids[s := u], rev[u := MakeKey(compressed, s)], compressed)
  {
    var ids', rev' := ids[s := u], rev[u := MakeKey(compressed, s)];
    if s in ids {
      assert ids[s] in rev' && Text(rev'[ids[s]]) == s && ids'[s] != ids[s];
    } else {
      var t := Text(rev[u]);
      assert t in ids' && ids'[t] == u && rev'[u] == MakeKey(compressed, s);
    }
  }

  /** A new pair keeps both maps inverse exactly when string and id are both new, or already belong together. */
  lemma EncodeExactly(ids: Assignment, rev: map<U32, Key>, compressed: bool, s: Str, u: U32)
    requires Mirrors(ids, rev, compressed)
    ensures Mirrors(ids[s := u], rev[u := MakeKey(compressed, s)], compressed) <==>
      (s !in ids && u !in rev) || Lookup(ids, s) == Some(u)
  {
    if (s !in ids && u !in rev) || Lookup(ids, s) == Some(u) {
      EncodeMirrors(ids, rev, compressed, s, u);
    } else {
      EncodeBreaks(ids, rev, compressed, s, u);
    }
  }

  /** A language string's value and language, encoded under two ids, stay apart exactly when they differ. */
  lemma LangStringExactly(value: Str, lang: Str, u: U32)
    requires u + 1 < U32_LIMIT
    ensures Mirrors(map[value := u][lang := u + 1], map[u := Whole(value)][u + 1 := Whole(lang)], false) <==> value != lang
  {
    EncodeExactly(map[value := u], map[u := Whole(value)], false, lang, u + 1);
  }

  lemma InsertInForm(m: Entries, s: Str, u: U32, compressed: bool)
    requires InForm(m, compressed)
    ensures InForm(Insert(m, MakeKey(compressed, s), u), compressed)
  {
    InsertKeys(m, MakeKey(compressed, s), u);
  }

  lemma RemoveInForm(m: Entries, k: Key, compressed: bool)
    requires InForm(m, compressed)
    ensures InForm(Remove(m, k), compressed)
  {
    RemoveKeeps(m, k);
  }

  // The ordered map is well formed, whatever the reverse map holds.
  ghost predicate WellOrdered(m: Entries, compressed: bool) { Ascending(m) && InForm(m, compressed) }

  /** Inserting a pair into both maps sets one id, and keeps them consistent exactly when the pair is new or already there. */
  lemma EncodeInto(m: Entries, rev: map<U32, Key>, compressed: bool, s: Str, u: U32)
    requires WellOrdered(m, compressed)
    ensures var k := MakeKey(compressed, s);
      && WellOrdered(Insert(m, k, u), compressed)
      && Ids(Insert(m, k, u)) == Ids(m)[s := u]
      && (Consistent(m, rev, compressed) ==>
          (Consistent(Insert(m, k, u), rev[u := k], compressed) <==>
           (s !in Ids(m) && u !in rev) || Lookup(Ids(m), s) == Some(u)))
  {
    if Consistent(m, rev, compressed) { EncodeExactly(Ids(m), rev, compressed, s, u); }
    InsertCorrect(m, MakeKey(compressed, s), u);
    InsertInForm(m, s, u, compressed);
  }

  // ----- numbering with repeats -----

  // Both maps after numbering a list from the counter on, one insertion after the other.
  function NumberedBack(rev: map<U32, Key>, ss: seq<Str>, c: nat, compressed: bool): map<U32, Key>
    requires c + |ss| <= U32_LIMIT
    decreases |ss|
  {
    if ss == [] then rev else NumberedBack(rev[c := MakeKey(compressed, ss[0])], ss[1..], c + 1, compressed)
  }

  lemma {:induction false} NumberedBackAt(rev: map<U32, Key>, ss: seq<Str>, c: nat, compressed: bool, u: U32)
    requires c + |ss| <= U32_LIMIT
    ensures var r := NumberedBack(rev, ss, c, compressed);
      if c <= u < c + |ss| then u in r && r[u] == MakeKey(compressed, ss[u - c])
      else u in r <==> u in rev
    ensures !(c <= u < c + |ss|) && u in rev ==> NumberedBack(rev, ss, c, compressed)[u] == rev[u]
    decreases |ss|
  {
    if ss != [] {
      var rev' := rev[c := MakeKey(compressed, ss[0])];
      NumberedBackAt(rev', ss[1..], c + 1, compressed, u);
      if c < u < c + |ss| { assert ss[1..][u - (c + 1)] == ss[u - c]; }
    }
  }

  lemma NumberedMirrors(ids: Assignment, rev: map<U32, Key>, compressed: bool, ss: seq<Str>, c: nat)
    requires Mirrors(ids, rev, compressed) && AllBelow(ids, c) && AllFresh(ids, ss) && c + |ss| <= U32_LIMIT
    requires NoRepeats(ss)
    ensures Mirrors(Numbered(ids, ss, c), NumberedBack(rev, ss, c, compressed), compressed)
  {
    var r, back := Numbered(ids, ss, c), NumberedBack(rev, ss, c, compressed);
    forall s | s in r ensures r[s] in back && back[r[s]] == MakeKey(compressed, s) {
      var i := NumberedCase(ids, ss, c, s);
      NumberedBackAt(rev, ss, c, compressed, r[s]);
    }
    forall u | u in back ensures Text(back[u]) in r && r[Text(back[u])] == u {
      NumberedBackAt(rev, ss, c, compressed, u);
      if c <= u < c + |ss| {
        NumberedAt(ids, ss, c, u - c);
      } else {
        NumberedKeys(ids, ss, c);
        NumberedOld(ids, ss, c, Text(rev[u]));
      }
    }
  }

  // A repeated string is found under both of its ids, but has only one.
  lemma RepeatsBreak(ids: Assignment, rev: map<U32, Key>, compressed: bool, ss: seq<Str>, c: nat, i: nat, j: nat)
    requires c + |ss| <= U32_LIMIT && i < j < |ss| && ss[i] == ss[j]
    ensures !Mirrors(Numbered(ids, ss, c), NumberedBack(rev, ss, c, compressed), compressed)
  {
    var r, back := Numbered(ids, ss, c), NumberedBack(rev, ss, c, compressed);
    NumberedBackAt(rev, ss, c, compressed, c + i);
    NumberedBackAt(rev, ss, c, compressed, c + j);
    assert Text(back[c + i]) == ss[i] && Text(back[c + j]) == ss[j];
  }

  /** Bulk encoding new strings keeps both maps inverse exactly when no string is listed twice. */
  lemma BulkExactly(ids: Assignment, rev: map<U32, Key>, compressed: bool, ss: seq<Str>, c: nat)
    requires Mirrors(ids, rev, compressed) && AllBelow(ids, c) && AllFresh(ids, ss) && c + |ss| <= U32_LIMIT
    ensures Mirrors(Numbered(ids, ss, c), NumberedBack(rev, ss, c, compressed), compressed) <==> NoRepeats(ss)
  {
    if NoRepeats(ss) {
      NumberedMirrors(ids, rev, compressed, ss, c);
    } else {
      var i, j :| 0 <= i < j < |ss| && ss[i] == ss[j];
      RepeatsBreak(ids, rev, compressed, ss, c, i, j);
    }
  }

  // ----- positions are ranks -----

  lemma SmallestFirst(m: Entries)
    requires Ascending(m) && m != []
    ensures Smaller(Ids(m).Keys, Text(m[0].key)) == {}
  {
    var s := Text(m[0].key);
    forall t | t in Ids(m) ensures !Below(t, s) {
      HeadSmallest(m, t);
      TotalOrder(t, s, t);
    }
  }

  lemma SmallerStep(m: Entries, s: Str)
    requires Ascending(m) && m != [] && Below(Text(m[0].key), s)
    ensures Smaller(Ids(m).Keys, s) == Smaller(Ids(m[1..]).Keys, s) + {Text(m[0].key)}
    ensures Text(m[0].key) !in Smaller(Ids(m[1..]).Keys, s)
  {
    TailIds(m);
    assert Ids(m).Keys == Ids(m[1..]).Keys + {Text(m[0].key)};
  }

  lemma {:induction false} RankAt(m: Entries, i: nat)
    requires Ascending(m) && i < |m|
    ensures Rank(Ids(m).Keys, Text(m[i].key)) == i
  {
    var s := Text(m[i].key);
    if i == 0 {
      SmallestFirst(m);
    } else {
      AscendingTail(m);
      assert m[1..][i - 1] == m[i];
      RankAt(m[1..], i - 1);
      SmallerStep(m, s);
    }
  }

  lemma SizeIs(m: Entries)
    requires Ascending(m)
    ensures |Ids(m)| == |m|
  {
    if m != [] {
      AscendingTail(m);
      SizeIs(m[1..]);
      TailIds(m);
      assert Ids(m) == Ids(m[1..])[Text(m[0].key) := m[0].id];
      assert Ids(m).Keys == Ids(m[1..]).Keys + {Text(m[0].key)};
    }
  }

  // A position fits into 32 bits, so casting it loses nothing.
  lemma PositionFits(m: Entries, i: nat)
    requires Ascending(m) && Injective(Ids(m)) && i < |m|
    ensures i < U32_LIMIT && i % U32_LIMIT == i
  {
    SizeIs(m);
    FitsU32(Ids(m));
    SmallModulus(i);
  }

  lemma SmallModulus(i: nat)
    requires i < U32_LIMIT
    ensures i % U32_LIMIT == i
  {
  }
}
