/** The loops that both forms of the category dictionary run over their ordered map. */
module CatLoops {
  import opened Wrappers
  import opened CatStrings
  import opened TextOrder
  import opened CatTree
  import opened CatDictionary
  import opened CatIndex

  // ----- rebuilding the reverse map -----

  ghost predicate Reversed(m: Entries, rev: map<U32, Key>) {
    && (forall e :: e in m ==> e.id in rev)
    && (forall u :: u in rev ==> Entry(rev[u], u) in m)
  }

  lemma ReversedMirrors(m: Entries, rev: map<U32, Key>, compressed: bool)
    requires Ascending(m) && InForm(m, compressed) && Injective(Ids(m)) && Reversed(m, rev)
    ensures Mirrors(Ids(m), rev, compressed)
  {
    var ids := Ids(m);
    forall u | u in rev ensures Text(rev[u]) in ids && ids[Text(rev[u])] == u && rev[u] == MakeKey(compressed, Text(rev[u])) {
      var i :| 0 <= i < |m| && m[i] == Entry(rev[u], u);
      IdsAt(m, i);
    }
    forall s | s in ids ensures ids[s] in rev && rev[ids[s]] == MakeKey(compressed, s) {
      IdsFrom(m, s);
      var i :| 0 <= i < |m| && Text(m[i].key) == s && m[i].id == ids[s];
      assert m[i] in m;
    }
  }

  method BuildReverse(m: Entries) returns (rev: map<U32, Key>)
    ensures Reversed(m, rev)
  {
    rev := map[];
    for i := 0 to |m|
      invariant Reversed(m[..i], rev)
    {
      rev := rev[m[i].id := m[i].key];
      assert m[..i + 1] == m[..i] + [m[i]];
      assert Entry(rev[m[i].id], m[i].id) == m[i];
    }
    assert m[..|m|] == m;
  }

  // ----- building the ordered map from pairs -----

  // Pairs in order; a later pair for the same string wins.
  function FromPairs(ss: seq<(Str, U32)>): Assignment {
    if ss == [] then map[] else FromPairs(ss[..|ss| - 1])[ss[|ss| - 1].0 := ss[|ss| - 1].1]
  }

  method BuildMap(es: Entries, ghost compressed: bool) returns (m: Entries)
    requires InForm(es, compressed)
    ensures Ascending(m) && InForm(m, compressed) && Ids(m) == FromPairs(Rows(es))
  {
    m := [];
    for i := 0 to |es|
      invariant Ascending(m) && InForm(m, compressed) && Ids(m) == FromPairs(Rows(es)[..i])
    {
      InsertCorrect(m, es[i].key, es[i].id);
      InsertInForm(m, Text(es[i].key), es[i].id, compressed);
      m := Insert(m, es[i].key, es[i].id);
      assert Rows(es)[..i + 1][..i] == Rows(es)[..i];
    }
    assert Rows(es)[..|es|] == Rows(es);
  }

  // ----- compaction -----

  // The same keys, each with its position as its id.
  predicate Renumbered(m: Entries, n: Entries) {
    |n| == |m| && forall i :: 0 <= i < |m| ==> n[i].key == m[i].key && n[i].id == i % U32_LIMIT
  }

  method Renumber(m: Entries) returns (n: Entries)
    ensures Renumbered(m, n)
  {
    n := m;
    for i := 0 to |m|
      invariant |n| == |m|
      invariant forall j :: 0 <= j < |m| ==> n[j].key == m[j].key
      invariant forall j :: 0 <= j < i ==> n[j].id == j % U32_LIMIT
    {
      n := n[i := Entry(n[i].key, i % U32_LIMIT)];
    }
  }

  lemma RenumberedIsCompacted(m: Entries, n: Entries, compressed: bool)
    requires Ascending(m) && InForm(m, compressed) && Injective(Ids(m)) && Renumbered(m, n)
    ensures Ascending(n) && InForm(n, compressed) && Ids(n) == CompactedIds(Ids(m))
  {
    forall e | e in n ensures e.key == MakeKey(compressed, Text(e.key)) {
      var i :| 0 <= i < |n| && n[i] == e;
      assert m[i] in m;
    }
    forall s ensures s in Ids(n) <==> s in Ids(m) {
      IdsFrom(m, s);
      IdsFrom(n, s);
    }
    forall s | s in Ids(n) ensures Ids(n)[s] == CompactedIds(Ids(m))[s] {
      IdsFrom(n, s);
      var i :| 0 <= i < |n| && Text(n[i].key) == s && n[i].id == Ids(n)[s];
      RankAt(m, i);
      PositionFits(m, i);
    }
  }

  // ----- collecting -----

  method TakeOut(rev: map<U32, Key>, us: set<U32>) returns (r: map<U32, Key>, ks: seq<Key>)
    requires us <= rev.Keys
    ensures r == rev - us
    ensures forall k :: k in ks <==> exists u :: u in us && rev[u] == k
  {
    r, ks := rev, [];
    var rest := us;
    while rest != {}
      invariant rest <= us && r == rev - (us - rest)
      invariant forall k :: k in ks <==> exists u :: u in us - rest && rev[u] == k
    {
      var u :| u in rest;
      ks := ks + [r[u]];
      r := r - {u};
      rest := rest - {u};
    }
  }

  function Texts(ks: seq<Key>): set<Str> { set k | k in ks :: Text(k) }

  method RemoveAll(m: Entries, ks: seq<Key>, compressed: bool) returns (n: Entries)
    requires Ascending(m) && InForm(m, compressed)
    ensures Ascending(n) && InForm(n, compressed) && Ids(n) == Ids(m) - Texts(ks)
    ensures forall e :: e in n ==> e in m
  {
    n := m;
    for i := 0 to |ks|
      invariant Ascending(n) && InForm(n, compressed) && Ids(n) == Ids(m) - Texts(ks[..i])
      invariant forall e :: e in n ==> e in m
    {
      RemoveKeeps(n, ks[i]);
      RemoveCorrect(n, ks[i]);
      RemoveInForm(n, ks[i], compressed);
      n := Remove(n, ks[i]);
      assert ks[..i + 1] == ks[..i] + [ks[i]];
      assert Texts(ks[..i + 1]) == Texts(ks[..i]) + {Text(ks[i])};
    }
    assert ks[..|ks|] == ks;
  }

  lemma CollectedMirrors(ids: Assignment, rev: map<U32, Key>, compressed: bool, us: set<U32>, ks: seq<Key>)
    requires Mirrors(ids, rev, compressed) && us <= rev.Keys
    requires forall k :: k in ks <==> exists u :: u in us && rev[u] == k
    ensures ids - Texts(ks) == CollectedIds(ids, us)
    ensures Mirrors(CollectedIds(ids, us), rev - us, compressed)
  {
    forall s | s in ids ensures s in Texts(ks) <==> ids[s] in us {
      if ids[s] in us { assert rev[ids[s]] in ks; }
    }
    assert (ids - Texts(ks)).Keys == CollectedIds(ids, us).Keys;
  }

  // ----- image -----

  method ImageReverse(rev: map<U32, Key>, us: set<U32>) returns (r: map<U32, Key>)
    ensures r == map u | u in rev && u in us :: rev[u]
  {
    r := map[];
    var rest := us;
    while rest != {}
      invariant rest <= us
      invariant r == map u | u in rev && u in us - rest :: rev[u]
    {
      var u :| u in rest;
      if u in rev { r := r[u := rev[u]]; }
      rest := rest - {u};
    }
  }

  // The ordered map that turns the pairs of a reverse map around.
  ghost predicate Turned(m: Entries, rev: map<U32, Key>, done: set<U32>)
    requires done <= rev.Keys
  {
    && (forall s :: s in Ids(m) ==> Ids(m)[s] in done && Text(rev[Ids(m)[s]]) == s)
    && (forall u :: u in done ==> Text(rev[u]) in Ids(m))
  }

  ghost predicate KeysInForm(rev: map<U32, Key>, compressed: bool) {
    forall u :: u in rev ==> rev[u] == MakeKey(compressed, Text(rev[u]))
  }

  method TurnAround(rev: map<U32, Key>, ghost compressed: bool) returns (m: Entries)
    requires KeysInForm(rev, compressed)
    ensures Ascending(m) && InForm(m, compressed) && Turned(m, rev, rev.Keys)
  {
    m := [];
    var rest := rev.Keys;
    while rest != {}
      invariant rest <= rev.Keys && Ascending(m) && InForm(m, compressed)
      invariant Turned(m, rev, rev.Keys - rest)
    {
      var u :| u in rest;
      InsertCorrect(m, rev[u], u);
      InsertInForm(m, Text(rev[u]), u, compressed);
      m := Insert(m, rev[u], u);
      rest := rest - {u};
    }
    assert rev.Keys - {} == rev.Keys;
  }

  lemma ImageMirrors(ids: Assignment, rev: map<U32, Key>, compressed: bool, us: set<U32>, r: map<U32, Key>)
    requires Mirrors(ids, rev, compressed)
    requires r == map u | u in rev && u in us :: rev[u]
    ensures KeysInForm(r, compressed) && Mirrors(ImageIds(ids, us), r, compressed)
    ensures r == map[] <==> us !! ids.Values
  {
    forall u | u in us && u in ids.Values ensures u in r {
      var s :| s in ids && ids[s] == u;
    }
    forall u | u in r ensures u in ids.Values { assert ids[Text(rev[u])] == u; }
    if r != map[] {
      var u :| u in r;
    }
  }

  lemma TurnedIsImage(ids: Assignment, r: map<U32, Key>, compressed: bool, m: Entries)
    requires Mirrors(ids, r, compressed) && Turned(m, r, r.Keys)
    ensures Ids(m) == ids
  {
    forall s ensures s in Ids(m) <==> s in ids { }
  }

  // ----- merge -----

  // The entries whose strings have no id yet, in order.
  function Missing(ids: Assignment, m: Entries): Entries {
    if m == [] then []
    else if Text(m[0].key) in ids then Missing(ids, m[1..])
    else [m[0]] + Missing(ids, m[1..])
  }

  lemma {:induction false} MissingAppend(ids: Assignment, m: Entries, e: Entry)
    ensures Missing(ids, m + [e]) == Missing(ids, m) + if Text(e.key) in ids then [] else [e]
  {
    if m == [] {
      assert m + [e] == [e] && [e][1..] == [];
    } else {
      assert (m + [e])[1..] == m[1..] + [e];
      MissingAppend(ids, m[1..], e);
    }
  }

  lemma {:induction false} MissingElements(ids: Assignment, m: Entries)
    ensures forall e :: e in Missing(ids, m) <==> e in m && Text(e.key) !in ids
  {
    if m != [] {
      MissingElements(ids, m[1..]);
      assert m == [m[0]] + m[1..];
    }
  }

  lemma {:induction false} MissingAscending(ids: Assignment, m: Entries)
    requires Ascending(m)
    ensures Ascending(Missing(ids, m))
  {
    if m != [] {
      AscendingTail(m);
      MissingAscending(ids, m[1..]);
      if Text(m[0].key) !in ids {
        MissingElements(ids, m[1..]);
        PrependAscending(m[0], Missing(ids, m[1..]));
      }
    }
  }

  lemma MissingKeys(ids: Assignment, m: Entries)
    requires Ascending(m)
    ensures Ids(Missing(ids, m)).Keys == Ids(m).Keys - ids.Keys
    ensures |Missing(ids, m)| == |Ids(m).Keys - ids.Keys|
  {
    var x := Missing(ids, m);
    MissingAscending(ids, m);
    MissingElements(ids, m);
    forall s ensures s in Ids(x) <==> s in Ids(m) && s !in ids {
      IdsFrom(x, s);
      IdsFrom(m, s);
      if s in Ids(m) && s !in ids {
        var i :| 0 <= i < |m| && Text(m[i].key) == s;
        assert m[i] in x;
        var j :| 0 <= j < |x| && x[j] == m[i];
      }
    }
    SizeIs(x);
  }

  function TextList(m: Entries): seq<Str> { seq(|m|, i requires 0 <= i < |m| => Text(m[i].key)) }

  // Numbering strings in ascending order numbers them by rank.
  lemma NumberedRanks(ids: Assignment, x: Entries, c: nat)
    requires Ascending(x) && c + |x| <= U32_LIMIT && forall e :: e in x ==> Text(e.key) !in ids
    ensures var r := Numbered(ids, TextList(x), c);
      r.Keys == ids.Keys + Ids(x).Keys && Extends(r, ids) && NumberedByRank(r, Ids(x).Keys, c)
  {
    var ss := TextList(x);
    var r := Numbered(ids, ss, c);
    ListFacts(ids, x);
    NumberedKeys(ids, ss, c);
    forall s | s in ids ensures r[s] == ids[s] { NumberedOld(ids, ss, c, s); }
    forall s | s in Ids(x) ensures r[s] == c + Rank(Ids(x).Keys, s) {
      var i := NumberedCase(ids, ss, c, s);
      RankAt(x, i);
    }
  }

  lemma SameRanks(r: Assignment, g: Assignment, ids: Assignment, keys: set<Str>, c: nat)
    requires Extends(r, ids) && Extends(g, ids) && NumberedByRank(r, keys, c) && NumberedByRank(g, keys, c)
    requires r.Keys == g.Keys == ids.Keys + keys
    ensures r == g
  {
    forall s | s in r ensures r[s] == g[s] { }
  }

  // Numbering the missing strings in their order is the merge.
  lemma NumberedIsMerged(ids: Assignment, m: Entries, c: nat)
    requires Ascending(m) && c + |Ids(m).Keys - ids.Keys| < U32_LIMIT
    ensures |Missing(ids, m)| == |Ids(m).Keys - ids.Keys|
    ensures NoRepeats(TextList(Missing(ids, m))) && AllFresh(ids, TextList(Missing(ids, m)))
    ensures Numbered(ids, TextList(Missing(ids, m)), c) == MergedIds(ids, Ids(m), c)
  {
    var x := Missing(ids, m);
    MissingAscending(ids, m);
    MissingElements(ids, m);
    MissingKeys(ids, m);
    ListFacts(ids, x);
    MergedIs(ids, Ids(m), c);
    NumberedRanks(ids, x, c);
    SameRanks(Numbered(ids, TextList(x), c), MergedIds(ids, Ids(m), c), ids, Ids(x).Keys, c);
  }

  lemma ListFacts(ids: Assignment, x: Entries)
    requires Ascending(x) && forall e :: e in x ==> Text(e.key) !in ids
    ensures NoRepeats(TextList(x)) && AllFresh(ids, TextList(x))
    ensures (set s | s in TextList(x)) == Ids(x).Keys
  {
    var ss := TextList(x);
    forall i, j | 0 <= i < j < |ss| ensures ss[i] != ss[j] { TotalOrder(ss[i], ss[j], ss[i]); }
    forall s ensures s in ss <==> s in Ids(x) {
      IdsFrom(x, s);
      if s in Ids(x) {
        var i :| 0 <= i < |x| && Text(x[i].key) == s;
        assert ss[i] == s;
      }
    }
  }

  // The first pass of a merge: ids found already, and entries to insert.
  method Partition(m: Entries, other: Entries) returns (found: seq<(U32, U32)>, missing: Entries)
    requires Ascending(m)
    ensures missing == Missing(Ids(m), other)
    ensures forall p :: p in found <==> exists i :: 0 <= i < |other| && FoundPair(Ids(m), other[i], p)
  {
    found, missing := [], [];
    for i := 0 to |other|
      invariant missing == Missing(Ids(m), other[..i])
      invariant forall p :: p in found <==> exists j :: 0 <= j < i && FoundPair(Ids(m), other[j], p)
    {
      FindIsLookup(m, other[i].key);
      MissingAppend(Ids(m), other[..i], other[i]);
      assert other[..i + 1] == other[..i] + [other[i]];
      var e := Find(m, other[i].key);
      if e.Some? {
        found := found + [(other[i].id, e.value)];
      } else {
        missing := missing + [other[i]];
      }
    }
    assert other[..|other|] == other;
  }

  // The second pass: consecutive numbers from the counter on.
  method Number(missing: Entries, c: nat) returns (inserts: Entries, pairs: seq<(U32, U32)>, next: nat)
    requires c + |missing| < U32_LIMIT
    ensures next == c + |missing| && |inserts| == |missing| == |pairs|
    ensures forall i :: 0 <= i < |missing| ==> inserts[i] == Entry(missing[i].key, c + i) && pairs[i] == (missing[i].id, c + i)
  {
    inserts, pairs, next := [], [], c;
    for i := 0 to |missing|
      invariant next == c + i && |inserts| == i == |pairs|
      invariant forall j :: 0 <= j < i ==> inserts[j] == Entry(missing[j].key, c + j) && pairs[j] == (missing[j].id, c + j)
    {
      inserts := inserts + [Entry(missing[i].key, next)];
      pairs := pairs + [(missing[i].id, next)];
      next := next + 1;
    }
  }

  method CollectPairs(pairs: seq<(U32, U32)>) returns (r: map<U32, U32>)
    ensures forall u :: u in r ==> (u, r[u]) in pairs
    ensures forall p :: p in pairs ==> p.0 in r
  {
    r := map[];
    for i := 0 to |pairs|
      invariant forall u :: u in r ==> (u, r[u]) in pairs[..i]
      invariant forall p :: p in pairs[..i] ==> p.0 in r
    {
      r := r[pairs[i].0 := pairs[i].1];
      assert pairs[..i + 1] == pairs[..i] + [pairs[i]];
    }
    assert pairs[..|pairs|] == pairs;
  }

  // Every id of one dictionary goes to the id that another gives the same string, and no other id goes anywhere.
  ghost predicate Remaps(remap: map<U32, U32>, other: Assignment, merged: Assignment) {
    && remap.Keys == other.Values
    && forall s :: s in other ==> s in merged && remap[other[s]] == merged[s]
  }

  /** A remap onto distinct ids is injective, and decoding a remapped id gives the original string. */
  lemma RemapInjective(remap: map<U32, U32>, other: Assignment, merged: Assignment)
    requires Injective(merged) && Remaps(remap, other, merged)
    ensures forall u, v :: u in remap && v in remap && remap[u] == remap[v] ==> u == v
    ensures forall s: Str, u :: Lookup(other, s) == Some(u) ==> Lookup(merged, s) == Some(remap[u])
  {
    forall u, v | u in remap && v in remap && remap[u] == remap[v] ensures u == v {
      var s :| s in other && other[s] == u;
      var t :| t in other && other[t] == v;
      assert merged[s] == merged[t];
    }
  }

  lemma NewId(ids: Assignment, rev: map<U32, Key>, compressed: bool, u: U32)
    requires Mirrors(ids, rev, compressed) && AllBelow(ids, u)
    ensures u !in rev
  {
  }

  // The first string takes the next id.
  lemma NextNumber(ids: Assignment, ss: seq<Str>, c: nat)
    requires ss != [] && c + |ss| <= U32_LIMIT && NoRepeats(ss) && AllFresh(ids, ss) && AllBelow(ids, c)
    ensures ss[0] !in ids && AllBelow(ids[ss[0] := c], c + 1)
    ensures NoRepeats(ss[1..]) && AllFresh(ids[ss[0] := c], ss[1..])
    ensures Numbered(ids, ss, c) == Numbered(ids[ss[0] := c], ss[1..], c + 1)
  {
    forall s | s in ss[1..] ensures s in ss && s != ss[0] {
      var i :| 0 <= i < |ss[1..]| && ss[1..][i] == s;
      assert ss[i + 1] == s;
    }
  }

  // The pairs of a merge: found ids first, then new ones.
  ghost predicate MergePairs(ids: Assignment, m: Entries, c: nat, found: seq<(U32, U32)>, pairs: seq<(U32, U32)>) {
    && (forall p :: p in found <==> exists i :: 0 <= i < |m| && FoundPair(ids, m[i], p))
    && |pairs| == |Missing(ids, m)|
    && forall i :: 0 <= i < |pairs| ==> pairs[i].0 == Missing(ids, m)[i].id && pairs[i].1 == c + i
  }

  predicate FoundPair(ids: Assignment, e: Entry, p: (U32, U32)) {
    Text(e.key) in ids && p == (e.id, ids[Text(e.key)])
  }

  // A pair takes the old id of a string to its merged id.
  ghost predicate Takes(other: Assignment, merged: Assignment, s: Str, p: (U32, U32)) {
    s in other && s in merged && p == (other[s], merged[s])
  }

  // The merged ids: old ones, and for the i-th missing string the i-th one from the counter on.
  ghost predicate MergedBy(merged: Assignment, ids: Assignment, missing: Entries, c: nat) {
    && Extends(merged, ids)
    && forall i :: 0 <= i < |missing| ==> Text(missing[i].key) in merged && merged[Text(missing[i].key)] == c + i
  }

  lemma FoundTakes(ids: Assignment, m: Entries, merged: Assignment, i: nat, p: (U32, U32))
    requires Ascending(m) && Extends(merged, ids) && i < |m| && FoundPair(ids, m[i], p)
    ensures Takes(Ids(m), merged, Text(m[i].key), p)
  {
    IdsAt(m, i);
  }

  lemma {:induction false} MissingFrom(ids: Assignment, m: Entries, i: nat) returns (j: nat)
    requires i < |Missing(ids, m)|
    ensures j < |m| && m[j] == Missing(ids, m)[i]
  {
    if Text(m[0].key) in ids {
      j := MissingFrom(ids, m[1..], i);
      j := j + 1;
    } else if i == 0 {
      j := 0;
    } else {
      j := MissingFrom(ids, m[1..], i - 1);
      j := j + 1;
    }
  }

  lemma NewTakes(m: Entries, merged: Assignment, j: nat, p: (U32, U32))
    requires Ascending(m) && j < |m| && p.0 == m[j].id
    requires Text(m[j].key) in merged && p.1 == merged[Text(m[j].key)]
    ensures Takes(Ids(m), merged, Text(m[j].key), p)
  {
    IdsAt(m, j);
  }

  lemma PairTakes(
    ids: Assignment, m: Entries, merged: Assignment, c: nat, found: seq<(U32, U32)>, pairs: seq<(U32, U32)>, p: (U32, U32))
    requires Ascending(m) && MergedBy(merged, ids, Missing(ids, m), c) && MergePairs(ids, m, c, found, pairs)
    requires p in found + pairs
    ensures exists s :: Takes(Ids(m), merged, s, p)
  {
    if p in found {
      var i :| 0 <= i < |m| && FoundPair(ids, m[i], p);
      FoundTakes(ids, m, merged, i, p);
    } else {
      var i :| 0 <= i < |pairs| && pairs[i] == p;
      var j := MissingFrom(ids, m, i);
      NewTakes(m, merged, j, p);
    }
  }

  lemma StringTaken(ids: Assignment, m: Entries, c: nat, found: seq<(U32, U32)>, pairs: seq<(U32, U32)>, s: Str)
    requires MergePairs(ids, m, c, found, pairs) && s in Ids(m)
    ensures exists p :: p in found + pairs && p.0 == Ids(m)[s]
  {
    IdsFrom(m, s);
    var i :| 0 <= i < |m| && Text(m[i].key) == s && m[i].id == Ids(m)[s];
    if s in ids {
      var p := (m[i].id, ids[s]);
      assert FoundPair(ids, m[i], p);
      assert p in found + pairs;
    } else {
      MissingElements(ids, m);
      assert m[i] in m && m[i] in Missing(ids, m);
      var j :| 0 <= j < |pairs| && Missing(ids, m)[j] == m[i];
      assert pairs[j] in found + pairs;
    }
  }

  lemma RemapCorrect(
    ids: Assignment, m: Entries, merged: Assignment, c: nat, found: seq<(U32, U32)>, pairs: seq<(U32, U32)>, remap: map<U32, U32>)
    requires Ascending(m) && Injective(Ids(m)) && MergedBy(merged, ids, Missing(ids, m), c)
    requires MergePairs(ids, m, c, found, pairs)
    requires forall u :: u in remap ==> (u, remap[u]) in found + pairs
    requires forall p :: p in found + pairs ==> p.0 in remap
    ensures Remaps(remap, Ids(m), merged)
  {
    var other := Ids(m);
    forall s | s in other ensures s in merged && other[s] in remap && remap[other[s]] == merged[s] {
      StringTaken(ids, m, c, found, pairs, s);
      PairTakes(ids, m, merged, c, found, pairs, (other[s], remap[other[s]]));
      var t :| Takes(other, merged, t, (other[s], remap[other[s]]));
    }
    forall u | u in remap ensures u in other.Values {
      PairTakes(ids, m, merged, c, found, pairs, (u, remap[u]));
      var s :| Takes(other, merged, s, (u, remap[u]));
    }
  }

  lemma NumberedMerges(ids: Assignment, missing: Entries, c: nat)
    requires c + |missing| <= U32_LIMIT && NoRepeats(TextList(missing)) && AllFresh(ids, TextList(missing))
    ensures MergedBy(Numbered(ids, TextList(missing), c), ids, missing, c)
  {
    var ss := TextList(missing);
    forall s | s in ids ensures s in Numbered(ids, ss, c) && Numbered(ids, ss, c)[s] == ids[s] {
      NumberedOld(ids, ss, c, s);
    }
    forall i | 0 <= i < |missing|
      ensures Text(missing[i].key) in Numbered(ids, ss, c) && Numbered(ids, ss, c)[Text(missing[i].key)] == c + i
    {
      NumberedAt(ids, ss, c, i);
    }
  }

  // The strings with consecutive ids from the counter on.
  predicate InsertsFrom(inserts: Entries, ss: seq<Str>, c: nat) {
    |inserts| == |ss| && forall i :: 0 <= i < |ss| ==> Text(inserts[i].key) == ss[i] && inserts[i].id == c + i
  }

  /** The whole plan of a merge: what to insert, the remap, and the next counter. */
  method PlanMerge(m: Entries, other: Entries, ghost compressed: bool, c: nat) returns (inserts: Entries, remap: map<U32, U32>, next: nat)
    requires Ascending(m) && Ascending(other) && InForm(other, compressed) && Injective(Ids(other))
    requires c + |Missing(Ids(m), other)| < U32_LIMIT
    ensures next == c + |Missing(Ids(m), other)|
    ensures InsertsFrom(inserts, TextList(Missing(Ids(m), other)), c) && InForm(inserts, compressed)
    ensures Remaps(remap, Ids(other), Numbered(Ids(m), TextList(Missing(Ids(m), other)), c))
  {
    var found, missing := Partition(m, other);
    var pairs;
    inserts, pairs, next := Number(missing, c);
    remap := CollectPairs(found + pairs);
    MissingElements(Ids(m), other);
    MissingAscending(Ids(m), other);
    ListFacts(Ids(m), missing);
    NumberedMerges(Ids(m), missing, c);
    RemapCorrect(Ids(m), other, Numbered(Ids(m), TextList(missing), c), c, found, pairs, remap);
  }

  // The new strings of a merge, and the ids after it.
  lemma MergePlan(ids: Assignment, other: Entries, rev: map<U32, Key>, compressed: bool, c: nat)
    returns (ss: seq<Str>, goal: Assignment)
    requires Consistent(other, rev, compressed) && c + |Ids(other).Keys - ids.Keys| < U32_LIMIT
    ensures Injective(Ids(other))
    ensures ss == TextList(Missing(ids, other)) && |ss| == |Missing(ids, other)| == |Ids(other).Keys - ids.Keys|
    ensures NoRepeats(ss) && AllFresh(ids, ss)
    ensures goal == Numbered(ids, ss, c) == MergedIds(ids, Ids(other), c)
  {
    DecodeInverts(Ids(other), rev, compressed);
    NumberedIsMerged(ids, other, c);
    ss := TextList(Missing(ids, other));
    goal := Numbered(ids, ss, c);
  }
}
