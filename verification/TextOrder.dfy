/** The lexicographic order on texts, as bytes or as character codes. */
module TextOrder {
  type Symbols = seq<int>

  datatype Ordering = Less | Equal | Greater

  // The lexicographic order on texts.
  function Compare(x: Symbols, y: Symbols): Ordering {
    if x == [] then if y == [] then Equal else Less
    else if y == [] then Greater
    else if x[0] < y[0] then Less
    else if x[0] > y[0] then Greater
    else Compare(x[1..], y[1..])
  }

  predicate Below(x: Symbols, y: Symbols) { Compare(x, y) == Less }

  lemma {:induction false} CompareEqual(x: Symbols, y: Symbols)
    ensures Compare(x, y) == Equal <==> x == y
  {
    if x != [] && y != [] && x[0] == y[0] {
      CompareEqual(x[1..], y[1..]);
      assert x == [x[0]] + x[1..] && y == [y[0]] + y[1..];
    }
  }

  lemma {:induction false} CompareFlips(x: Symbols, y: Symbols)
    ensures Below(x, y) <==> Compare(y, x) == Greater
  {
    if x != [] && y != [] && x[0] == y[0] { CompareFlips(x[1..], y[1..]); }
  }

  lemma {:induction false} BelowTransitive(x: Symbols, y: Symbols, z: Symbols)
    requires Below(x, y) && Below(y, z)
    ensures Below(x, z)
  {
    if x != [] && x[0] == y[0] && y[0] == z[0] { BelowTransitive(x[1..], y[1..], z[1..]); }
  }

  /** The lexicographic order is a strict total order. */
  lemma TotalOrder(x: Symbols, y: Symbols, z: Symbols)
    ensures Below(x, y) || x == y || Below(y, x)
    ensures !(Below(x, y) && Below(y, x)) && !Below(x, x)
    ensures Below(x, y) && Below(y, z) ==> Below(x, z)
  {
    CompareEqual(x, y);
    CompareEqual(x, x);
    CompareFlips(x, y);
    CompareFlips(y, x);
    if Below(x, y) && Below(y, z) { BelowTransitive(x, y, z); }
  }

  // A common beginning does not matter.
  lemma {:induction false} CompareFrom(x: Symbols, y: Symbols, k: nat)
    requires k <= |x| && k <= |y| && x[..k] == y[..k]
    ensures Compare(x, y) == Compare(x[k..], y[k..])
  {
    if k == 0 {
      assert x[k..] == x && y[k..] == y;
    } else {
      assert x[0] == x[..k][0] == y[..k][0] == y[0];
      assert x[1..][..k - 1] == x[..k][1..] && y[1..][..k - 1] == y[..k][1..];
      CompareFrom(x[1..], y[1..], k - 1);
      assert x[1..][k - 1..] == x[k..] && y[1..][k - 1..] == y[k..];
    }
  }

  // The first different element decides.
  lemma FirstDifference(x: Symbols, y: Symbols, k: nat)
    requires k < |x| && k < |y| && x[..k] == y[..k] && x[k] != y[k]
    ensures Compare(x, y) == if x[k] < y[k] then Less else Greater
  {
    CompareFrom(x, y, k);
  }

  // When one string begins with the other, the shorter one comes first.
  lemma ShorterFirst(x: Symbols, y: Symbols, k: nat)
    requires k <= |x| && k <= |y| && x[..k] == y[..k] && (k == |x| || k == |y|)
    ensures Compare(x, y) == if |x| < |y| then Less else if |x| > |y| then Greater else Equal
  {
    CompareFrom(x, y, k);
  }
}
