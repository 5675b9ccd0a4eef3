/** The prefix table of the compressed dictionary. */
module CatPrefixes {
  import opened Wrappers
  import opened CatStrings
  import opened TextOrder
  import opened CatTree
  import opened CatDictionary
  import opened CatIndex
  import opened CatLoops
  import opened CatReads

  // Every prefix in the table stands for itself.
  predicate Interned(prefixes: map<Str, Str>) { forall p :: p in prefixes ==> prefixes[p] == p }

  // The prefix of every key is in the table.
  ghost predicate Covers(prefixes: map<Str, Str>, m: Entries) {
    Interned(prefixes) && forall e :: e in m ==> e.key.Split? && e.key.prefix in prefixes
  }

  method Intern(prefixes: map<Str, Str>, p: Str) returns (r: map<Str, Str>, shared: Str)
    requires Interned(prefixes)
    ensures Interned(r) && shared == p && r.Keys == prefixes.Keys + {p}
  {
    if p in prefixes {
      r, shared := prefixes, prefixes[p];
      assert prefixes.Keys == prefixes.Keys + {p};
    } else {
      r, shared := prefixes[p := p], p;
    }
  }

  // Split keys for all pairs, with their prefixes in one table.
  method InternAll(ss: seq<(Str, U32)>) returns (es: Entries, prefixes: map<Str, Str>)
    ensures Rows(es) == ss && InForm(es, true) && Interned(prefixes)
    ensures forall i :: 0 <= i < |ss| ==> SplitIri(ss[i].0).0 in prefixes
  {
    es, prefixes := [], map[];
    for i := 0 to |ss|
      invariant Rows(es) == ss[..i] && InForm(es, true) && Interned(prefixes)
      invariant forall j :: 0 <= j < i ==> SplitIri(ss[j].0).0 in prefixes
    {
      var parts := SplitIri(ss[i].0);
      var shared;
      prefixes, shared := Intern(prefixes, parts.0);
      var e := Entry(Split(shared, parts.1), ss[i].1);
      assert e.key == MakeKey(true, ss[i].0);
      assert Rows(es + [e]) == Rows(es) + [(ss[i].0, ss[i].1)];
      es := es + [e];
    }
    assert ss[..|ss|] == ss;
  }

  // The prefixes of the keys of a reverse map.
  method PrefixesOf(rev: map<U32, Key>) returns (prefixes: map<Str, Str>)
    requires forall u :: u in rev ==> rev[u].Split?
    ensures Interned(prefixes) && forall u :: u in rev ==> rev[u].prefix in prefixes
  {
    prefixes := map[];
    var rest := rev.Keys;
    while rest != {}
      invariant rest <= rev.Keys && Interned(prefixes)
      invariant forall u :: u in rev.Keys - rest ==> rev[u].prefix in prefixes
    {
      var u :| u in rest;
      if rev[u].prefix !in prefixes { prefixes := prefixes[rev[u].prefix := rev[u].prefix]; }
      rest := rest - {u};
    }
  }

  lemma CoversPairs(prefixes: map<Str, Str>, m: Entries, ss: seq<(Str, U32)>)
    requires Ascending(m) && InForm(m, true) && Interned(prefixes) && Ids(m) == FromPairs(ss)
    requires forall i :: 0 <= i < |ss| ==> SplitIri(ss[i].0).0 in prefixes
    ensures Covers(prefixes, m)
  {
    forall e | e in m ensures e.key.Split? && e.key.prefix in prefixes {
      var i :| 0 <= i < |m| && m[i] == e;
      IdsAt(m, i);
      FromPairsAt(ss, Text(e.key));
      var j :| 0 <= j < |ss| && ss[j].0 == Text(e.key);
    }
  }

  /** Building from rows: with distinct ids both maps and the prefix table agree. */
  lemma BuiltSound(m: Entries, rev: map<U32, Key>, prefixes: map<Str, Str>, ss: seq<(Str, U32)>)
    requires Ascending(m) && InForm(m, true) && Interned(prefixes) && Ids(m) == FromPairs(ss) && Reversed(m, rev)
    requires forall i :: 0 <= i < |ss| ==> SplitIri(ss[i].0).0 in prefixes
    ensures Injective(FromPairs(ss)) ==> Consistent(m, rev, true) && Covers(prefixes, m)
  {
    CoversPairs(prefixes, m, ss);
    if Injective(FromPairs(ss)) { ReversedMirrors(m, rev, true); }
  }

  lemma ImageSound(
    m: Entries, rev: map<U32, Key>, us: set<U32>, n: Entries, r: map<U32, Key>, prefixes: map<Str, Str>)
    requires Consistent(m, rev, true) && (r == map u | u in rev && u in us :: rev[u]) && KeysInForm(r, true)
    requires Ascending(n) && InForm(n, true) && Turned(n, r, r.Keys)
    requires Interned(prefixes) && forall u :: u in r ==> r[u].Split? && r[u].prefix in prefixes
    ensures Ids(n) == ImageIds(Ids(m), us) && Consistent(n, r, true) && Covers(prefixes, n)
  {
    ImageMirrors(Ids(m), rev, true, us, r);
    TurnedIsImage(ImageIds(Ids(m), us), r, true, n);
    forall e | e in n ensures e.key.Split? && e.key.prefix in prefixes {
      var i :| 0 <= i < |n| && n[i] == e;
      IdsAt(n, i);
      assert r[e.id] == e.key;
    }
  }

  lemma KnownPrefix(m: Entries, prefixes: map<Str, Str>, s: Str)
    requires InForm(m, true) && Covers(prefixes, m) && s in Ids(m)
    ensures SplitIri(s).0 in prefixes
  {
    IdsFrom(m, s);
    var i :| 0 <= i < |m| && Text(m[i].key) == s;
    assert m[i] in m && m[i].key == MakeKey(true, s);
  }

  /** Finding the parts of a string through the prefix table finds what the plain form finds for the whole string. */
  lemma FindThroughPrefixes(m: Entries, prefixes: map<Str, Str>, s: Str)
    requires Ascending(m) && InForm(m, true) && Covers(prefixes, m)
    ensures (if SplitIri(s).0 in prefixes then Find(m, Split(prefixes[SplitIri(s).0], SplitIri(s).1)) else None) == Lookup(Ids(m), s)
  {
    if s in Ids(m) { KnownPrefix(m, prefixes, s); }
    if SplitIri(s).0 in prefixes { FindIsLookup(m, Split(prefixes[SplitIri(s).0], SplitIri(s).1)); }
  }

  lemma CoversMore(prefixes: map<Str, Str>, r: map<Str, Str>, m: Entries, k: Key, u: U32)
    requires Covers(prefixes, m) && Interned(r) && k.Split? && r.Keys == prefixes.Keys + {k.prefix}
    ensures Covers(r, Insert(m, k, u))
  {
    InsertKeys(m, k, u);
  }

  /** Inserting a key with its prefix known keeps the compressed form, with the pair in both maps. */
  lemma EncodeCompressed(
      m: Entries, rev: map<U32, Key>, prefixes: map<Str, Str>, k: Key, u: U32, r: map<Str, Str>)
    requires WellOrdered(m, true) && Covers(prefixes, m) && k == MakeKey(true, Text(k))
    requires Interned(r) && r.Keys == prefixes.Keys + {k.prefix}
    ensures WellOrdered(Insert(m, k, u), true) && Covers(r, Insert(m, k, u))
    ensures Ids(Insert(m, k, u)) == Ids(m)[Text(k) := u]
    ensures Consistent(m, rev, true) ==>
      (Consistent(Insert(m, k, u), rev[u := k], true) <==>
       (Text(k) !in Ids(m) && u !in rev) || Lookup(Ids(m), Text(k)) == Some(u))
  {
    EncodeInto(m, rev, true, Text(k), u);
    CoversMore(prefixes, r, m, k, u);
  }

  lemma CoversRenumbered(prefixes: map<Str, Str>, m: Entries, n: Entries)
    requires Covers(prefixes, m) && Renumbered(m, n)
    ensures Covers(prefixes, n)
  {
    forall e | e in n ensures e.key.Split? && e.key.prefix in prefixes {
      var i :| 0 <= i < |n| && n[i] == e;
      assert m[i] in m;
    }
  }

  // The prefix of every key stands for itself.
  lemma PrefixFound(m: Entries, prefixes: map<Str, Str>, i: nat)
    requires Covers(prefixes, m) && i < |m|
    ensures var k := m[i].key; k.Split? && k.prefix in prefixes && prefixes[k.prefix] + k.suffix == Text(k)
  {
    assert m[i] in m;
  }

  /** Storing the rows never misses a prefix, and joins every key to its whole text. */
  method StoredRows(m: Entries, prefixes: map<Str, Str>) returns (rows: seq<(Str, U32)>)
    requires Covers(prefixes, m)
    ensures rows == Rows(m)
  {
    rows := [];
    for i := 0 to |m|
      invariant rows == Rows(m)[..i]
    {
      PrefixFound(m, prefixes, i);
      rows := rows + [(prefixes[m[i].key.prefix] + m[i].key.suffix, m[i].id)];
    }
  }
}
