/** The position of an expression in a query, whose text names a column. */
module QueryContext {
  import opened PathEntries

  function Digits(n: nat): string {
    (if n < 10 then "" else Digits(n / 10)) + [('0' as int + n % 10) as char]
  }

  function Suffix(e: PathEntry): string { if Indexed(e) then "(" + Digits(e.index) + ")" else "" }

  /** The printed entry. */
  function Print(e: PathEntry): string { Name(e) + Suffix(e) }

  // ----- entries are told apart by their texts -----

  function Value(s: string): nat
    requires AllDigits(s)
  {
    if s == "" then 0 else Value(s[..|s| - 1]) * 10 + s[|s| - 1] as int - '0' as int
  }

  predicate AllDigits(s: string) { forall i :: 0 <= i < |s| ==> '0' <= s[i] <= '9' }

  lemma AppendDigit(front: string, d: nat)
    requires AllDigits(front) && d < 10
    ensures AllDigits(front + [('0' as int + d) as char]) && Value(front + [('0' as int + d) as char]) == Value(front) * 10 + d
  {
    var s := front + [('0' as int + d) as char];
    assert s[..|s| - 1] == front;
  }

  lemma {:induction false} DigitsValue(n: nat)
    ensures AllDigits(Digits(n)) && Value(Digits(n)) == n
  {
    if n >= 10 { DigitsValue(n / 10); }
    AppendDigit(if n < 10 then "" else Digits(n / 10), n % 10);
  }

  lemma NotThere(c: char, s: string, lo: nat, hi: nat)
    requires lo <= hi <= |s| && c !in s[lo..hi]
    ensures forall k :: lo <= k < hi ==> s[k] != c
  {
    forall k | lo <= k < hi ensures s[k] != c { assert s[k] == s[lo..hi][k - lo]; }
  }

  // Texts without a character before it, or before nothing.
  lemma CutBefore(c: char, p: string, x: string, q: string, y: string)
    requires p + x == q + y && c !in p && c !in q
    requires (x == "" || x[0] == c) && (y == "" || y[0] == c)
    ensures p == q && x == y
  {
    var s := p + x;
    assert s[..|p|] == p && s[|p|..] == x && s[..|q|] == q && s[|q|..] == y;
    NotThere(c, s, 0, |p|);
    NotThere(c, s, 0, |q|);
    assert |p| < |s| ==> s[|p|] == x[0];
    assert |q| < |s| ==> s[|q|] == y[0];
    assert |p| == |q|;
  }

  lemma SuffixIndex(e: PathEntry, f: PathEntry)
    requires Indexed(e) && Indexed(f) && Suffix(e) == Suffix(f)
    ensures e.index == f.index
  {
    var d := Suffix(e);
    assert d[1..|d| - 1] == Digits(e.index) && d[1..|d| - 1] == Digits(f.index);
    DigitsValue(e.index);
    DigitsValue(f.index);
  }

  lemma PrintPlain(e: PathEntry)
    ensures Print(e) != "" && '-' !in Print(e)
  {
    NamePlain(e);
    SuffixPlain(e);
  }

  lemma SuffixPlain(e: PathEntry)
    ensures '-' !in Suffix(e)
  {
    if Indexed(e) {
      DigitsValue(e.index);
      NoHyphen(Digits(e.index));
    }
  }

  lemma NoHyphen(d: string)
    requires AllDigits(d)
    ensures '-' !in "(" + d + ")"
  {
    var s := "(" + d + ")";
    forall i | 0 <= i < |s| ensures s[i] != '-' {
      if 0 < i <= |d| { assert s[i] == d[i - 1]; }
    }
  }

  lemma SameEntry(e: PathEntry, f: PathEntry)
    requires Unnumbered(e) == Unnumbered(f) && (Indexed(e) ==> e.index == f.index)
    ensures e == f
  {
    assert Indexed(e) ==> e == Unnumbered(e).(index := e.index);
  }

  /** Different entries have different texts. */
  lemma PrintTold(e: PathEntry, f: PathEntry)
    ensures Print(e) == Print(f) <==> e == f
  {
    if Print(e) == Print(f) {
      NamePlain(e);
      NamePlain(f);
      CutBefore('(', Name(e), Suffix(e), Name(f), Suffix(f));
      SameName(e, f);
      if Indexed(e) { SuffixIndex(e, f); }
      SameEntry(e, f);
    }
  }

  // ----- contexts -----

  datatype Context = Context(stringRep: string, path: seq<PathEntry>) {
    function ExtensionWith(p: PathEntry): Context {
      Context(stringRep + (if path != [] then "-" else "") + Print(p), path + [p])
    }

    function AsStr(): string { stringRep }
  }

  // The text of a path: its entries with hyphens between them.
  function Joined(path: seq<PathEntry>): string {
    if path == [] then ""
    else if |path| == 1 then Print(path[0])
    else Joined(path[..|path| - 1]) + "-" + Print(path[|path| - 1])
  }

  lemma Extended(front: seq<PathEntry>, e: PathEntry)
    ensures Context(Joined(front), front).ExtensionWith(e) == Context(Joined(front + [e]), front + [e])
  {
    assert (front + [e])[..|front|] == front;
  }

  method FromPath(path: seq<PathEntry>) returns (ctx: Context)
    ensures ctx == Context(Joined(path), path)
  {
    ctx := Context("", []);
    for i := 0 to |path|
      invariant ctx == Context(Joined(path[..i]), path[..i])
    {
      Extended(path[..i], path[i]);
      ctx := ctx.ExtensionWith(path[i]);
      assert path[..i + 1] == path[..i] + [path[i]];
    }
    assert path[..|path|] == path;
  }

  lemma CutAfterLast(c: char, a: string, x: string, b: string, y: string)
    requires a + x == b + y && c !in x && c !in y
    requires (a == "" || a[|a| - 1] == c) && (b == "" || b[|b| - 1] == c)
    ensures a == b && x == y
  {
    var s := a + x;
    assert s[..|a|] == a && s[|a|..|s|] == x && s[..|b|] == b && s[|b|..|s|] == y;
    NotThere(c, s, |a|, |s|);
    NotThere(c, s, |b|, |s|);
    assert a != "" ==> s[|a| - 1] == c;
    assert b != "" ==> s[|b| - 1] == c;
    assert |a| == |b|;
  }

  // What stands before the last entry, with its hyphen.
  function Before(path: seq<PathEntry>): string
    requires path != []
  {
    if |path| == 1 then "" else Joined(path[..|path| - 1]) + "-"
  }

  lemma JoinedBefore(path: seq<PathEntry>)
    requires path != []
    ensures Joined(path) == Before(path) + Print(path[|path| - 1])
    ensures |path| > 1 ==> Before(path) != "" && Before(path)[..|Before(path)| - 1] == Joined(path[..|path| - 1])
  {
  }

  lemma NotEmpty(path: seq<PathEntry>)
    requires path != []
    ensures Joined(path) != ""
  {
    PrintPlain(path[|path| - 1]);
    JoinedBefore(path);
  }

  // Equal texts end in the same entry, after equal texts.
  lemma SameLast(p: seq<PathEntry>, q: seq<PathEntry>)
    requires p != [] && q != [] && Joined(p) == Joined(q)
    ensures p[|p| - 1] == q[|q| - 1] && Before(p) == Before(q)
  {
    var x, y := p[|p| - 1], q[|q| - 1];
    JoinedBefore(p);
    JoinedBefore(q);
    PrintPlain(x);
    PrintPlain(y);
    CutAfterLast('-', Before(p), Print(x), Before(q), Print(y));
    PrintTold(x, y);
  }

  lemma SameFront(p: seq<PathEntry>, q: seq<PathEntry>)
    requires p != [] && q != [] && Before(p) == Before(q)
    ensures |p| > 1 <==> |q| > 1
    ensures Joined(p[..|p| - 1]) == Joined(q[..|q| - 1])
  {
    JoinedBefore(p);
    JoinedBefore(q);
  }

  /** Different paths have different texts, so the text of a context names one position only. */
  lemma {:induction false} PathsTold(p: seq<PathEntry>, q: seq<PathEntry>)
    ensures Joined(p) == Joined(q) <==> p == q
    decreases |p|
  {
    if Joined(p) == Joined(q) {
      if p != [] { NotEmpty(p); }
      if q != [] { NotEmpty(q); }
      if p != [] && q != [] {
        SameLast(p, q);
        SameFront(p, q);
        PathsTold(p[..|p| - 1], q[..|q| - 1]);
        SameEnds(p, q);
      }
    }
  }

  lemma SameEnds(p: seq<PathEntry>, q: seq<PathEntry>)
    requires p != [] && q != [] && p[..|p| - 1] == q[..|q| - 1] && p[|p| - 1] == q[|q| - 1]
    ensures p == q
  {
    assert p == p[..|p| - 1] + [p[|p| - 1]] && q == q[..|q| - 1] + [q[|q| - 1]];
  }

  // ----- scope -----

  predicate ExposesVariables(e: PathEntry) {
    || e.BGP? || e.UnionLeftSide? || e.UnionRightSide? || e.JoinLeftSide? || e.JoinRightSide? || e.LeftJoinLeftSide?
    || e.LeftJoinRightSide? || e.MinusLeftSide? || e.FilterInner? || e.GraphInner? || e.ExtendInner? || e.OrderByInner?
    || e.ProjectInner? || e.DistinctInner? || e.ReducedInner? || e.SliceInner? || e.ServiceInner? || e.GroupInner?
  }

  predicate MaintainsFullDownwardScope(e: PathEntry) {
    !(ExposesVariables(e) || e.LeftJoinExpression? || e.MinusRightSide? || e.PathRewrite?)
  }

  // Position i is the first one at which the paths differ.
  predicate DivergesAt(p: seq<PathEntry>, q: seq<PathEntry>, i: nat) {
    i < |p| && i < |q| && p[..i] == q[..i] && p[i] != q[i]
  }

  ghost predicate AllExpose(path: seq<PathEntry>) { forall e :: e in path ==> ExposesVariables(e) }

  ghost predicate AllMaintain(path: seq<PathEntry>) { forall e :: e in path ==> MaintainsFullDownwardScope(e) }

  /** From where the paths part, the one exposes its variables and, for full scope, the other keeps them. */
  ghost predicate InScope(p: seq<PathEntry>, q: seq<PathEntry>, partial: bool) {
    forall i: nat :: DivergesAt(p, q, i) ==> AllExpose(p[i..]) && (partial || AllMaintain(q[i..]))
  }

  method IsInScope(self: Context, other: Context, partial: bool) returns (r: bool)
    ensures r <==> InScope(self.path, other.path, partial)
  {
    var p, q := self.path, other.path;
    var least := if |p| < |q| then |p| else |q|;
    var mine, theirs := [], [];
    var i := 0;
    while i < least
      invariant i <= least && p[..i] == q[..i] && mine == [] && theirs == []
    {
      if p[i] != q[i] {
        mine, theirs := p[i..], q[i..];
        break;
      }
      assert p[..i + 1] == p[..i] + [p[i]] && q[..i + 1] == q[..i] + [q[i]];
      i := i + 1;
    }
    assert i < least ==> DivergesAt(p, q, i);
    OneDivergence(p, q, i);
    for k := 0 to |mine|
      invariant forall j :: 0 <= j < k ==> ExposesVariables(mine[j])
    {
      if !ExposesVariables(mine[k]) {
        assert mine[k] in p[i..];
        return false;
      }
    }
    if !partial {
      for k := 0 to |theirs|
        invariant forall j :: 0 <= j < k ==> MaintainsFullDownwardScope(theirs[j])
      {
        if !MaintainsFullDownwardScope(theirs[k]) {
          assert theirs[k] in q[i..];
          return false;
        }
      }
    }
    r := true;
  }

  // Paths part at one position at most, and not before a common beginning ends.
  lemma OneDivergence(p: seq<PathEntry>, q: seq<PathEntry>, i: nat)
    requires i <= |p| && i <= |q| && p[..i] == q[..i]
    ensures forall j: nat :: DivergesAt(p, q, j) ==> i <= j
    ensures DivergesAt(p, q, i) ==> forall j: nat :: DivergesAt(p, q, j) ==> j == i
  {
    forall j: nat | j < i ensures p[j] == q[j] { assert p[..i][j] == q[..i][j]; }
    forall j: nat | i < j <= |p| && j <= |q| && p[..j] == q[..j] ensures p[i] == q[i] { assert p[..j][i] == q[..j][i]; }
  }

  lemma ShiftedDivergence(c: seq<PathEntry>, p: seq<PathEntry>, q: seq<PathEntry>, i: nat)
    ensures DivergesAt(p, q, i) <==> DivergesAt(c + p, c + q, |c| + i)
  {
    if i <= |p| && i <= |q| {
      assert (c + p)[..|c| + i] == c + p[..i] && (c + q)[..|c| + i] == c + q[..i];
      assert (c + p)[..|c| + i] == (c + q)[..|c| + i] <==> p[..i] == q[..i] by {
        if (c + p)[..|c| + i] == (c + q)[..|c| + i] {
          assert p[..i] == (c + p)[..|c| + i][|c|..] == (c + q)[..|c| + i][|c|..] == q[..i];
        }
      }
    }
  }

  /** Positions below a common one are in scope of each other as they are without it. */
  lemma CommonPath(c: seq<PathEntry>, p: seq<PathEntry>, q: seq<PathEntry>, partial: bool)
    ensures InScope(c + p, c + q, partial) <==> InScope(p, q, partial)
  {
    assert (c + p)[..|c|] == c == (c + q)[..|c|];
    OneDivergence(c + p, c + q, |c|);
    forall i: nat ensures DivergesAt(p, q, i) <==> DivergesAt(c + p, c + q, |c| + i) { ShiftedDivergence(c, p, q, i); }
    forall i: nat | DivergesAt(p, q, i) ensures (c + p)[|c| + i..] == p[i..] && (c + q)[|c| + i..] == q[i..] { }
    forall j: nat | DivergesAt(c + p, c + q, j) ensures DivergesAt(p, q, j - |c|) { ShiftedDivergence(c, p, q, j - |c|); }
  }

  /** Full scope is partial scope. */
  lemma FullIsPartial(p: seq<PathEntry>, q: seq<PathEntry>)
    requires InScope(p, q, false)
    ensures InScope(p, q, true)
  {
  }

  /** A position and one above it are always in scope of each other, whatever lies between. */
  lemma AboveIsInScope(p: seq<PathEntry>, below: seq<PathEntry>, partial: bool)
    ensures InScope(p, p + below, partial) && InScope(p + below, p, partial)
  {
    assert (p + below)[..|p|] == p[..|p|];
    OneDivergence(p, p + below, |p|);
    OneDivergence(p + below, p, |p|);
  }
}
