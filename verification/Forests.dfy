/**
 Parent maps as union-find uses them, over any totally ordered keys. A ghost map gives each node its
 representative, the smallest key of its class; every change of a parent is judged by it.
 */
module Forests {
  import opened Ordering

  /** The parent of `x` is a node, not larger than `x`, with the same representative. */
  ghost predicate Fits<T(!new)>(le: (T, T) -> bool, parent: map<T, T>, rep: map<T, T>, x: T)
    requires rep.Keys == parent.Keys && x in parent
  {
    parent[x] in parent && le(parent[x], x) && rep[parent[x]] == rep[x] && (parent[x] == x <==> rep[x] == x)
  }

  ghost predicate Settled<T(!new)>(le: (T, T) -> bool, rep: map<T, T>, x: T)
    requires x in rep
  {
    rep[x] in rep && le(rep[x], x) && rep[rep[x]] == rep[x]
  }

  ghost predicate IsRepresentation<T(!new)>(le: (T, T) -> bool, rep: map<T, T>) {
    forall x {:trigger Settled(le, rep, x)} :: x in rep ==> Settled(le, rep, x)
  }

  /** A parent map together with the representative of each of its nodes. */
  ghost predicate IsForest<T(!new)>(le: (T, T) -> bool, parent: map<T, T>, rep: map<T, T>) {
    && rep.Keys == parent.Keys
    && (forall x {:trigger Fits(le, parent, rep, x)} :: x in parent ==> Fits(le, parent, rep, x))
    && IsRepresentation(le, rep)
  }

  ghost function WithNode<T(!new)>(rep: map<T, T>, x: T): map<T, T> {
    if x in rep then rep else rep[x := x]
  }

  lemma WithNodeIs<T(!new)>(le: (T, T) -> bool, rep: map<T, T>, x: T)
    requires IsTotalOrder(le) && IsRepresentation(le, rep)
    ensures IsRepresentation(le, WithNode(rep, x))
  {
    var rep' := WithNode(rep, x);
    assert le(x, x);
    forall y | y in rep' ensures Settled(le, rep', y) {
      if y in rep { assert Settled(le, rep, y); }
    }
  }

  /** The representatives once the classes of `a` and `b` are one: the smaller representative wins. */
  ghost function Merged<T(!new)>(le: (T, T) -> bool, rep: map<T, T>, a: T, b: T): map<T, T>
    requires a in rep && b in rep
  {
    var lo, hi := if le(rep[a], rep[b]) then rep[a] else rep[b], if le(rep[a], rep[b]) then rep[b] else rep[a];
    map x | x in rep :: if rep[x] == hi then lo else rep[x]
  }

  lemma NewNode<T(!new)>(le: (T, T) -> bool, parent: map<T, T>, rep: map<T, T>, x: T)
    requires IsTotalOrder(le) && IsForest(le, parent, rep) && x !in parent
    ensures IsForest(le, parent[x := x], rep[x := x])
  {
    var parent', rep' := parent[x := x], rep[x := x];
    assert le(x, x);
    WithNodeIs(le, rep, x);
    forall y | y in parent' ensures Fits(le, parent', rep', y) {
      if y != x { assert Fits(le, parent, rep, y); }
    }
  }

  /** A node may point at any node of its class that is not larger, unless it is the representative. */
  lemma Repoint<T(!new)>(le: (T, T) -> bool, parent: map<T, T>, rep: map<T, T>, x: T, y: T)
    requires IsForest(le, parent, rep) && x in parent && y in parent
    requires rep[y] == rep[x] && le(y, x) && (y == x <==> rep[x] == x)
    ensures IsForest(le, parent[x := y], rep)
  {
    var parent' := parent[x := y];
    forall z | z in parent' ensures Fits(le, parent', rep, z) {
      assert Fits(le, parent, rep, z);
    }
  }

  lemma MergedRepresents<T(!new)>(le: (T, T) -> bool, rep: map<T, T>, a: T, b: T)
    requires IsTotalOrder(le) && IsRepresentation(le, rep) && a in rep && b in rep
    ensures IsRepresentation(le, Merged(le, rep, a, b))
  {
    assert Settled(le, rep, a) && Settled(le, rep, b);
    var rep' := Merged(le, rep, a, b);
    forall y | y in rep' ensures Settled(le, rep', y) {
      assert Settled(le, rep, y);
    }
  }

  /** Hanging the larger of two roots below the smaller one merges exactly their classes. */
  lemma Hang<T(!new)>(le: (T, T) -> bool, parent: map<T, T>, rep: map<T, T>, a: T, b: T, lo: T, hi: T)
    requires IsTotalOrder(le) && IsForest(le, parent, rep) && a in rep && b in rep && le(lo, hi) && lo != hi
    requires (rep[a] == lo && rep[b] == hi) || (rep[a] == hi && rep[b] == lo)
    ensures IsForest(le, parent[hi := lo], Merged(le, rep, a, b))
  {
    var parent', rep' := parent[hi := lo], Merged(le, rep, a, b);
    MergedRepresents(le, rep, a, b);
    assert Settled(le, rep, a) && Settled(le, rep, b);
    forall y | y in parent' ensures Fits(le, parent', rep', y) {
      assert Fits(le, parent, rep, y);
    }
  }

  lemma MergedWithItself<T(!new)>(le: (T, T) -> bool, rep: map<T, T>, a: T, b: T)
    requires a in rep && b in rep && rep[a] == rep[b]
    ensures Merged(le, rep, a, b) == rep
  {
  }
}
