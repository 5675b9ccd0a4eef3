/** Ancestors in a tree that is given by a parent function and depths. */
module Trees {
  datatype Tree<!T(!new)> = Tree(parent: T -> T, depth: T -> nat, root: T)

  ghost predicate Rooted<T(!new)>(tree: Tree<T>) {
    forall s :: s != tree.root ==> tree.depth(tree.parent(s)) < tree.depth(s)
  }

  /** t is s, or reached from s by going up. */
  ghost predicate Reaches<T(!new)>(tree: Tree<T>, s: T, t: T)
    requires Rooted(tree)
    decreases tree.depth(s)
  {
    s == t || (s != tree.root && Reaches(tree, tree.parent(s), t))
  }

  lemma {:induction false} ReachesTransitive<T(!new)>(tree: Tree<T>, s: T, t: T, u: T)
    requires Rooted(tree) && Reaches(tree, s, t) && Reaches(tree, t, u)
    ensures Reaches(tree, s, u)
    decreases tree.depth(s)
  {
    if s != t { ReachesTransitive(tree, tree.parent(s), t, u); }
  }

  lemma {:induction false} ReachesHigher<T(!new)>(tree: Tree<T>, s: T, t: T)
    requires Rooted(tree) && Reaches(tree, s, t)
    ensures s == t || tree.depth(t) < tree.depth(s)
    decreases tree.depth(s)
  {
    if s != t { ReachesHigher(tree, tree.parent(s), t); }
  }

  lemma {:induction false} ReachesRoot<T(!new)>(tree: Tree<T>, s: T)
    requires Rooted(tree)
    ensures Reaches(tree, s, tree.root)
    decreases tree.depth(s)
  {
    if s != tree.root { ReachesRoot(tree, tree.parent(s)); }
  }

  /** Reaching is a partial order. */
  lemma ReachesOrder<T(!new)>(tree: Tree<T>, s: T, t: T, u: T)
    requires Rooted(tree)
    ensures Reaches(tree, s, s)
    ensures Reaches(tree, s, t) && Reaches(tree, t, u) ==> Reaches(tree, s, u)
    ensures Reaches(tree, s, t) && Reaches(tree, t, s) ==> s == t
  {
    if Reaches(tree, s, t) {
      ReachesHigher(tree, s, t);
      if Reaches(tree, t, u) { ReachesTransitive(tree, s, t, u); }
      if Reaches(tree, t, s) { ReachesHigher(tree, t, s); }
    }
  }

  ghost predicate Under<T(!new)>(tree: Tree<T>, s: T, t: T)
    requires Rooted(tree)
  {
    s != t && Reaches(tree, s, t)
  }

  lemma ChildUp<T(!new)>(tree: Tree<T>, s: T, c: T)
    requires Rooted(tree) && c != tree.root && (s == c || Under(tree, s, c))
    ensures Under(tree, s, tree.parent(c))
  {
    assert Reaches(tree, c, tree.parent(c));
    ReachesTransitive(tree, s, c, tree.parent(c));
    ReachesHigher(tree, s, c);
  }

  lemma {:induction false} ChildDown<T(!new)>(tree: Tree<T>, s: T, t: T) returns (c: T)
    requires Rooted(tree) && Under(tree, s, t)
    ensures c != tree.root && tree.parent(c) == t && (s == c || Under(tree, s, c))
    decreases tree.depth(s)
  {
    if tree.parent(s) == t {
      c := s;
    } else {
      c := ChildDown(tree, tree.parent(s), t);
      assert Reaches(tree, tree.parent(s), c);
    }
  }

  /** What lies under an element with up to three children. */
  lemma Children<T(!new)>(tree: Tree<T>, s: T, t: T, a: T, b: T, c: T)
    requires Rooted(tree) && a != tree.root && b != tree.root && c != tree.root
    requires forall d :: d != tree.root ==> (tree.parent(d) == t <==> d == a || d == b || d == c)
    ensures Under(tree, s, t) <==>
      s == a || s == b || s == c || Under(tree, s, a) || Under(tree, s, b) || Under(tree, s, c)
  {
    if Under(tree, s, t) { var d := ChildDown(tree, s, t); }
    if s == a || Under(tree, s, a) { ChildUp(tree, s, a); }
    if s == b || Under(tree, s, b) { ChildUp(tree, s, b); }
    if s == c || Under(tree, s, c) { ChildUp(tree, s, c); }
  }

  lemma NoChild<T(!new)>(tree: Tree<T>, s: T, t: T)
    requires Rooted(tree) && forall d :: d != tree.root ==> tree.parent(d) != t
    ensures !Under(tree, s, t)
  {
    if Under(tree, s, t) { var d := ChildDown(tree, s, t); }
  }

  lemma OneChild<T(!new)>(tree: Tree<T>, s: T, t: T, c: T)
    requires Rooted(tree) && c != tree.root && forall d :: d != tree.root ==> (tree.parent(d) == t <==> d == c)
    ensures Under(tree, s, t) <==> s == c || Under(tree, s, c)
  {
    Children(tree, s, t, c, c, c);
  }

  // Strictly under is the whole of reaching, but for reaching oneself.
  lemma ReachesIsUnder<T(!new)>(tree: Tree<T>, s: T, t: T, under: bool)
    requires Rooted(tree) && s != t && (Under(tree, s, t) <==> under)
    ensures Reaches(tree, s, t) <==> under
  {
  }
}
