/** The ordered map of the category dictionary: entries kept in ascending order of their key texts. */
module CatTree {
  import opened Wrappers
  import opened CatStrings
  import opened TextOrder

  const U32_LIMIT: nat := 0x1_0000_0000
  type U32 = x: nat | x < 0x1_0000_0000

  datatype Entry = Entry(key: Key, id: U32)

  type Entries = seq<Entry>

  predicate Ascending(m: Entries) {
    forall i, j :: 0 <= i < j < |m| ==> Below(Text(m[i].key), Text(m[j].key))
  }

  // The ids of the strings in the map.
  function Ids(m: Entries): map<Str, U32> {
    if m == [] then map[] else Ids(m[1..])[Text(m[0].key) := m[0].id]
  }

  // A search stops at the first larger key.
  function Find(m: Entries, k: Key): Option<U32> {
    if m == [] then None
    else
      match Compare(Text(k), Text(m[0].key))
      case Less => None
      case Equal => Some(m[0].id)
      case Greater => Find(m[1..], k)
  }

  // An equal key keeps its place and its own form; only the id is replaced.
  function Insert(m: Entries, k: Key, u: U32): Entries {
    if m == [] then [Entry(k, u)]
    else
      match Compare(Text(k), Text(m[0].key))
      case Less => [Entry(k, u)] + m
      case Equal => [Entry(m[0].key, u)] + m[1..]
      case Greater => [m[0]] + Insert(m[1..], k, u)
  }

  function Remove(m: Entries, k: Key): Entries {
    if m == [] then []
    else
      match Compare(Text(k), Text(m[0].key))
      case Less => m
      case Equal => m[1..]
      case Greater => [m[0]] + Remove(m[1..], k)
  }

  function Lookup(ids: map<Str, U32>, s: Str): Option<U32> { if s in ids then Some(ids[s]) else None }

  // The strings and ids in order, as they are stored.
  function Rows(m: Entries): seq<(Str, U32)> {
    seq(|m|, i requires 0 <= i < |m| => (Text(m[i].key), m[i].id))
  }

  // ----- what the entries mean -----

  lemma {:induction false} IdsFrom(m: Entries, s: Str)
    ensures s in Ids(m) ==> exists i :: 0 <= i < |m| && Text(m[i].key) == s && m[i].id == Ids(m)[s]
    ensures s !in Ids(m) ==> forall i :: 0 <= i < |m| ==> Text(m[i].key) != s
  {
    if m != [] {
      IdsFrom(m[1..], s);
      if s in Ids(m) {
        if s == Text(m[0].key) {
          assert m[0].id == Ids(m)[s];
        } else {
          var i :| 0 <= i < |m[1..]| && Text(m[1..][i].key) == s && m[1..][i].id == Ids(m[1..])[s];
          assert m[i + 1] == m[1..][i];
        }
      } else {
        forall i | 0 <= i < |m| ensures Text(m[i].key) != s {
          if i > 0 { assert m[i] == m[1..][i - 1]; }
        }
      }
    }
  }

  lemma AscendingTail(m: Entries)
    requires Ascending(m) && m != []
    ensures Ascending(m[1..])
    ensures forall i :: 0 <= i < |m[1..]| ==> Below(Text(m[0].key), Text(m[1..][i].key))
  {
  }

  // Entries in ascending order are found at most once.
  lemma IdsAt(m: Entries, i: nat)
    requires Ascending(m) && i < |m|
    ensures Text(m[i].key) in Ids(m) && Ids(m)[Text(m[i].key)] == m[i].id
  {
    var s := Text(m[i].key);
    IdsFrom(m, s);
    var j :| 0 <= j < |m| && Text(m[j].key) == s && m[j].id == Ids(m)[s];
    TotalOrder(s, s, s);
  }

  // Nothing at or below a string is found among larger ones.
  lemma NotAmongLarger(m: Entries, s: Str)
    requires forall i :: 0 <= i < |m| ==> Below(s, Text(m[i].key))
    ensures s !in Ids(m)
  {
    IdsFrom(m, s);
    TotalOrder(s, s, s);
  }

  lemma LargerThanHead(m: Entries, s: Str)
    requires m != [] && Ascending(m) && Below(s, Text(m[0].key))
    ensures forall i :: 0 <= i < |m| ==> Below(s, Text(m[i].key))
  {
    forall i | 0 <= i < |m| ensures Below(s, Text(m[i].key)) {
      if i > 0 { BelowTransitive(s, Text(m[0].key), Text(m[i].key)); }
    }
  }

  /** Looking a key up by comparisons finds what the map holds for its text. */
  lemma {:induction false} FindIsLookup(m: Entries, k: Key)
    requires Ascending(m)
    ensures Find(m, k) == Lookup(Ids(m), Text(k))
  {
    if m != [] {
      var s := Text(k);
      CompareEqual(s, Text(m[0].key));
      match Compare(s, Text(m[0].key)) {
        case Less =>
          LargerThanHead(m, s);
          NotAmongLarger(m, s);
        case Equal =>
        case Greater =>
          AscendingTail(m);
          FindIsLookup(m[1..], k);
      }
    }
  }

  // ----- insertion and removal -----

  lemma {:induction false} InsertKeys(m: Entries, k: Key, u: U32)
    ensures forall e :: e in Insert(m, k, u) ==> e.key == k || exists o :: o in m && o.key == e.key
  {
    if m != [] {
      assert m == [m[0]] + m[1..] && m[0] in m;
      InsertKeys(m[1..], k, u);
    }
  }

  lemma PrependAscending(e: Entry, m: Entries)
    requires Ascending(m)
    requires forall o :: o in m ==> Below(Text(e.key), Text(o.key))
    ensures Ascending([e] + m)
  {
    var n := [e] + m;
    forall i, j | 0 <= i < j < |n| ensures Below(Text(n[i].key), Text(n[j].key)) {
      assert n[j] == m[j - 1] && m[j - 1] in m;
      if i > 0 { assert n[i] == m[i - 1]; }
    }
  }

  lemma {:induction false} InsertIds(m: Entries, k: Key, u: U32)
    ensures Ids(Insert(m, k, u)) == Ids(m)[Text(k) := u]
  {
    if m != [] {
      CompareEqual(Text(k), Text(m[0].key));
      var r := Insert(m, k, u);
      match Compare(Text(k), Text(m[0].key)) {
        case Less => assert r[1..] == m;
        case Equal => assert r[1..] == m[1..];
        case Greater =>
          InsertIds(m[1..], k, u);
          assert r[1..] == Insert(m[1..], k, u);
      }
    }
  }

  /** Insertion keeps the order and sets the id of one text. */
  lemma {:induction false} InsertCorrect(m: Entries, k: Key, u: U32)
    requires Ascending(m)
    ensures Ascending(Insert(m, k, u))
    ensures Ids(Insert(m, k, u)) == Ids(m)[Text(k) := u]
  {
    InsertIds(m, k, u);
    if m != [] {
      var s := Text(k);
      CompareEqual(s, Text(m[0].key));
      AscendingTail(m);
      match Compare(s, Text(m[0].key)) {
        case Less =>
          LargerThanHead(m, s);
          PrependAscending(Entry(k, u), m);
        case Equal =>
          PrependAscending(Entry(m[0].key, u), m[1..]);
        case Greater =>
          CompareFlips(Text(m[0].key), s);
          InsertCorrect(m[1..], k, u);
          InsertKeys(m[1..], k, u);
          PrependAscending(m[0], Insert(m[1..], k, u));
      }
    }
  }

  lemma {:induction false} RemoveKeeps(m: Entries, k: Key)
    ensures forall e :: e in Remove(m, k) ==> e in m
  {
    if m != [] {
      assert m == [m[0]] + m[1..] && m[0] in m;
      RemoveKeeps(m[1..], k);
    }
  }

  lemma {:induction false} RemoveIds(m: Entries, k: Key)
    requires Ascending(m)
    ensures Ids(Remove(m, k)) == Ids(m) - {Text(k)}
  {
    if m != [] {
      var s := Text(k);
      CompareEqual(s, Text(m[0].key));
      AscendingTail(m);
      match Compare(s, Text(m[0].key)) {
        case Less =>
          LargerThanHead(m, s);
          NotAmongLarger(m, s);
        case Equal =>
          NotAmongLarger(m[1..], s);
        case Greater =>
          RemoveIds(m[1..], k);
          assert ([m[0]] + Remove(m[1..], k))[1..] == Remove(m[1..], k);
      }
    }
  }

  /** Removal keeps the order and takes one text out. */
  lemma {:induction false} RemoveCorrect(m: Entries, k: Key)
    requires Ascending(m)
    ensures Ascending(Remove(m, k))
    ensures Ids(Remove(m, k)) == Ids(m) - {Text(k)}
  {
    RemoveIds(m, k);
    if m != [] && Compare(Text(k), Text(m[0].key)) == Greater {
      AscendingTail(m);
      RemoveCorrect(m[1..], k);
      RemoveKeeps(m[1..], k);
      PrependAscending(m[0], Remove(m[1..], k));
    }
  }

  // ----- one order for both forms -----

  // The key of a string: split in the compressed form, whole in the plain one.
  function MakeKey(compressed: bool, s: Str): (k: Key)
    ensures Text(k) == s
  {
    if compressed then Split(SplitIri(s).0, SplitIri(s).1) else Whole(s)
  }

  predicate InForm(m: Entries, compressed: bool) {
    forall e :: e in m ==> e.key == MakeKey(compressed, Text(e.key))
  }

  // The same ids for the same strings in the same order.
  predicate SameRows(m: Entries, n: Entries) {
    |m| == |n| && forall i :: 0 <= i < |m| ==> Text(m[i].key) == Text(n[i].key) && m[i].id == n[i].id
  }

  lemma NoIds(m: Entries)
    ensures m == [] <==> Ids(m) == map[]
  {
    if m != [] { assert Text(m[0].key) in Ids(m); }
  }

  lemma HeadSmallest(m: Entries, s: Str)
    requires Ascending(m) && m != [] && s in Ids(m)
    ensures s == Text(m[0].key) || Below(Text(m[0].key), s)
  {
    IdsFrom(m, s);
  }

  lemma TailIds(m: Entries)
    requires Ascending(m) && m != []
    ensures Ids(m[1..]) == Ids(m) - {Text(m[0].key)}
  {
    AscendingTail(m);
    NotAmongLarger(m[1..], Text(m[0].key));
  }

  /** The strings and their ids fix the sequence of rows, whichever form the keys have. */
  lemma {:induction false} OneOrder(m: Entries, n: Entries)
    requires Ascending(m) && Ascending(n) && Ids(m) == Ids(n)
    ensures SameRows(m, n)
  {
    if m == [] || n == [] {
      NoIds(m);
      NoIds(n);
    } else {
      var s, t := Text(m[0].key), Text(n[0].key);
      assert s in Ids(n) && t in Ids(m);
      HeadSmallest(m, t);
      HeadSmallest(n, s);
      TotalOrder(s, t, s);
      IdsAt(m, 0);
      IdsAt(n, 0);
      TailIds(m);
      TailIds(n);
      AscendingTail(m);
      AscendingTail(n);
      OneOrder(m[1..], n[1..]);
      forall i | 0 <= i < |m| ensures Text(m[i].key) == Text(n[i].key) && m[i].id == n[i].id {
        if i > 0 { assert m[i] == m[1..][i - 1] && n[i] == n[1..][i - 1]; }
      }
    }
  }
}
