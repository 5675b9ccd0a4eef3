/** Byte strings of the category dictionary: the IRI split and prefix-compressed keys, and their order. */
module CatStrings {
  import opened TextOrder

  type Byte = x: int | 0 <= x < 256
  type Str = seq<Byte>

  // ----- splitting an IRI after its last delimiter -----

  const SLASH: Byte := 47
  const HASH: Byte := 35
  const COLON: Byte := 58

  predicate Delimiter(b: Byte) { b == SLASH || b == HASH || b == COLON }

  /** The delimiters are the slash, the hash and the colon. */
  lemma Delimiters(c: char)
    ensures c as int < 256 && Delimiter(c as int) <==> c == '/' || c == '#' || c == ':'
  {
  }

  // The end of the last delimiter before a position, or zero.
  function Cut(s: Str, n: nat): (r: nat)
    requires n <= |s|
    ensures r <= n
  {
    if n == 0 then 0 else if Delimiter(s[n - 1]) then n else Cut(s, n - 1)
  }

  predicate WellSplit(prefix: Str, suffix: Str) {
    && (prefix == [] || Delimiter(prefix[|prefix| - 1]))
    && (forall i :: 0 <= i < |suffix| ==> !Delimiter(suffix[i]))
  }

  function SplitIri(s: Str): (r: (Str, Str))
    ensures r.0 + r.1 == s
  {
    (s[..Cut(s, |s|)], s[Cut(s, |s|)..])
  }

  lemma {:induction false} CutIsLast(s: Str, n: nat)
    requires n <= |s|
    ensures Cut(s, n) > 0 ==> Delimiter(s[Cut(s, n) - 1])
    ensures forall i :: Cut(s, n) <= i < n ==> !Delimiter(s[i])
  {
    if n > 0 && !Delimiter(s[n - 1]) { CutIsLast(s, n - 1); }
  }

  lemma {:induction false} CutExactly(s: Str, n: nat, k: nat)
    requires k <= n <= |s| && (k == 0 || Delimiter(s[k - 1]))
    requires forall i :: k <= i < n ==> !Delimiter(s[i])
    ensures Cut(s, n) == k
  {
    if k < n { CutExactly(s, n - 1, k); }
  }

  /** The split is the only way to cut a string after a delimiter, or at its start, with no delimiter left behind. */
  lemma SplitUnique(prefix: Str, suffix: Str)
    ensures SplitIri(prefix + suffix) == (prefix, suffix) <==> WellSplit(prefix, suffix)
  {
    CutIsLast(prefix + suffix, |prefix + suffix|);
    if WellSplit(prefix, suffix) { CutExactly(prefix + suffix, |prefix + suffix|, |prefix|); }
  }

  // ----- keys -----

  // A key of the plain dictionary is the whole string; one of the compressed dictionary is split.
  datatype Key = Whole(chars: Str) | Split(prefix: Str, suffix: Str)

  function Text(k: Key): Str {
    match k
    case Whole(s) => s
    case Split(p, s) => p + s
  }

  // The key as two chained parts.
  function Head(k: Key): Str { if k.Whole? then [] else k.prefix }

  function Tail(k: Key): Str { if k.Whole? then k.chars else k.suffix }

  // The i-th byte of the chained parts.
  function Chained(k: Key, i: nat): Byte
    requires i < |Head(k)| + |Tail(k)|
  {
    if i < |Head(k)| then Head(k)[i] else Tail(k)[i - |Head(k)|]
  }

  // The keys agree on their first bytes.
  ghost predicate AgreeUpTo(a: Key, b: Key, n: nat) {
    n <= |Text(a)| && n <= |Text(b)| && Text(a)[..n] == Text(b)[..n]
  }

  lemma ChainedAt(k: Key, i: nat)
    requires i < |Head(k)| + |Tail(k)|
    ensures |Text(k)| == |Head(k)| + |Tail(k)| && Text(k)[i] == Chained(k, i)
  {
  }

  lemma BytesDiffer(a: Key, b: Key, i: nat)
    requires i < |Head(a)| + |Tail(a)| && i < |Head(b)| + |Tail(b)| && AgreeUpTo(a, b, i)
    ensures Chained(a, i) != Chained(b, i) ==>
      Compare(Text(a), Text(b)) == if Chained(a, i) < Chained(b, i) then Less else Greater
    ensures Chained(a, i) == Chained(b, i) ==> AgreeUpTo(a, b, i + 1)
  {
    ChainedAt(a, i);
    ChainedAt(b, i);
    var x, y := Text(a), Text(b);
    if x[i] != y[i] {
      FirstDifference(x, y, i);
    } else {
      assert x[..i + 1] == x[..i] + [x[i]] && y[..i + 1] == y[..i] + [y[i]];
    }
  }

  lemma BytesEnd(a: Key, b: Key, i: nat)
    requires AgreeUpTo(a, b, i) && (i == |Text(a)| || i == |Text(b)|)
    ensures var la, lb := |Head(a)| + |Tail(a)|, |Head(b)| + |Tail(b)|;
      Compare(Text(a), Text(b)) == if la < lb then Less else if la > lb then Greater else Equal
  {
    ShorterFirst(Text(a), Text(b), i);
  }

  /** Comparing keys byte by byte over their chained parts orders them as their whole texts. */
  method Cmp(a: Key, b: Key) returns (r: Ordering)
    ensures r == Compare(Text(a), Text(b))
  {
    var i := 0;
    var la, lb := |Head(a)| + |Tail(a)|, |Head(b)| + |Tail(b)|;
    while i < la && i < lb
      invariant i <= la && i <= lb && AgreeUpTo(a, b, i)
      decreases la - i
    {
      BytesDiffer(a, b, i);
      if Chained(a, i) != Chained(b, i) {
        return if Chained(a, i) < Chained(b, i) then Less else Greater;
      }
      i := i + 1;
    }
    BytesEnd(a, b, i);
    r := if la < lb then Less else if la > lb then Greater else Equal;
  }

  // The keys that splitting makes, and whole strings.
  predicate Regular(k: Key) { k.Split? ==> WellSplit(k.prefix, k.suffix) }

  /** For keys that splitting makes, comparing equal is fieldwise equality. */
  lemma EqualIsFieldwise(a: Key, b: Key)
    requires Regular(a) && Regular(b) && a.Split? == b.Split?
    ensures Compare(Text(a), Text(b)) == Equal <==> a == b
  {
    CompareEqual(Text(a), Text(b));
    if a.Split? {
      SplitUnique(a.prefix, a.suffix);
      SplitUnique(b.prefix, b.suffix);
    }
  }

  /** Keys cut elsewhere can compare equal while their fields differ. */
  lemma EqualNotFieldwise()
    ensures exists a: Key, b: Key :: a.Split? && b.Split? && Compare(Text(a), Text(b)) == Equal && a != b
  {
    var a, b := Split([SLASH], []), Split([], [SLASH]);
    CompareEqual(Text(a), Text(b));
    assert Text(a) == Text(b) && a != b;
  }
}
