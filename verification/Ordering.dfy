/** Sorting by a total order, as Python's `sorted` and `list.sort` do with a key. */
module Ordering {

  /** Total and transitive: what sorting by a key gives, where distinct elements may tie. */
  ghost predicate IsPreorder<T(!new)>(le: (T, T) -> bool) {
    && (forall a, b :: le(a, b) || le(b, a))
    && (forall a, b, c :: le(a, b) && le(b, c) ==> le(a, c))
  }

  ghost predicate IsTotalOrder<T(!new)>(le: (T, T) -> bool) {
    IsPreorder(le) && forall a, b :: le(a, b) && le(b, a) ==> a == b
  }

  ghost predicate SortedBy<T>(s: seq<T>, le: (T, T) -> bool) {
    forall i, j :: 0 <= i < j < |s| ==> le(s[i], s[j])
  }

  function Insert<T>(x: T, s: seq<T>, le: (T, T) -> bool): (r: seq<T>)
    ensures multiset(r) == multiset([x]) + multiset(s)
  {
    if s == [] then [x]
    else if le(x, s[0]) then [x] + s
    else
      assert s == [s[0]] + s[1..];
      [s[0]] + Insert(x, s[1..], le)
  }

  function Sort<T>(s: seq<T>, le: (T, T) -> bool): (r: seq<T>)
    ensures multiset(r) == multiset(s)
    ensures |r| == |s|
  {
    if s == [] then []
    else
      assert s == [s[0]] + s[1..];
      var r := Insert(s[0], Sort(s[1..], le), le);
      SameSize(r, s);
      r
  }

  lemma SameSize<T>(a: seq<T>, b: seq<T>)
    requires multiset(a) == multiset(b)
    ensures |a| == |b|
  {
    assert |multiset(a)| == |a| && |multiset(b)| == |b|;
  }

  lemma SameElements<T>(a: seq<T>, b: seq<T>)
    requires multiset(a) == multiset(b)
    ensures forall x :: x in a <==> x in b
  {
    forall x ensures x in a <==> x in b {
      assert x in a <==> x in multiset(a);
      assert x in b <==> x in multiset(b);
    }
  }

  lemma {:induction false} InsertSorted<T(!new)>(x: T, s: seq<T>, le: (T, T) -> bool)
    requires IsPreorder(le) && SortedBy(s, le)
    ensures SortedBy(Insert(x, s, le), le)
  {
    if s == [] {
    } else if le(x, s[0]) {
      var r := [x] + s;
      forall i, j | 0 <= i < j < |r| ensures le(r[i], r[j]) {
        assert le(s[0], s[j - 1]);
      }
    } else {
      InsertSorted(x, s[1..], le);
      var t := Insert(x, s[1..], le);
      SameElements(t, [x] + s[1..]);
      forall j | 0 <= j < |t| ensures le(s[0], t[j]) {
        assert t[j] in [x] + s[1..];
      }
    }
  }

  lemma {:induction false} SortSorted<T(!new)>(s: seq<T>, le: (T, T) -> bool)
    requires IsPreorder(le)
    ensures SortedBy(Sort(s, le), le)
  {
    if s != [] {
      SortSorted(s[1..], le);
      InsertSorted(s[0], Sort(s[1..], le), le);
    }
  }

  // ----- ties -----

  predicate Tie<T>(a: T, b: T, le: (T, T) -> bool) { le(a, b) && le(b, a) }

  /** The elements that tie with `x`, in order. */
  function TiesWith<T>(x: T, s: seq<T>, le: (T, T) -> bool): seq<T> {
    if s == [] then [] else (if Tie(s[0], x, le) then [s[0]] else []) + TiesWith(x, s[1..], le)
  }

  lemma TiesNext<T>(x: T, head: T, tail: seq<T>, le: (T, T) -> bool)
    ensures TiesWith(x, [head] + tail, le) == (if Tie(head, x, le) then [head] else []) + TiesWith(x, tail, le)
  {
    assert ([head] + tail)[1..] == tail;
  }

  lemma InsertLater<T>(x: T, s: seq<T>, le: (T, T) -> bool)
    requires s != [] && !le(x, s[0])
    ensures Insert(x, s, le) == [s[0]] + Insert(x, s[1..], le)
  {
  }

  lemma NotBothTie<T(!new)>(x: T, h: T, y: T, le: (T, T) -> bool)
    requires IsPreorder(le) && !le(x, h)
    ensures !(Tie(x, y, le) && Tie(h, y, le))
  {
  }

  /** Putting `x` behind an element that comes before it. */
  lemma StableStep<T>(x: T, h: T, inserted: seq<T>, tail: seq<T>, le: (T, T) -> bool, y: T)
    requires TiesWith(y, inserted, le) == TiesWith(y, [x], le) + TiesWith(y, tail, le)
    requires !(Tie(x, y, le) && Tie(h, y, le))
    ensures TiesWith(y, [h] + inserted, le) == TiesWith(y, [x], le) + TiesWith(y, [h] + tail, le)
  {
    TiesNext(y, h, inserted, le);
    TiesNext(y, h, tail, le);
  }

  lemma {:induction false} InsertIsStable<T(!new)>(x: T, s: seq<T>, le: (T, T) -> bool, y: T)
    requires IsPreorder(le)
    ensures TiesWith(y, Insert(x, s, le), le) == TiesWith(y, [x], le) + TiesWith(y, s, le)
  {
    if s == [] || le(x, s[0]) {
      TiesNext(y, x, s, le);
      TiesNext(y, x, [], le);
      assert [x] + [] == [x];
    } else {
      InsertIsStable(x, s[1..], le, y);
      InsertLater(x, s, le);
      NotBothTie(x, s[0], y, le);
      StableStep(x, s[0], Insert(x, s[1..], le), s[1..], le, y);
      assert s == [s[0]] + s[1..];
    }
  }

  lemma InsertedStably<T(!new)>(x: T, tail: seq<T>, sorted: seq<T>, le: (T, T) -> bool, y: T)
    requires IsPreorder(le) && TiesWith(y, sorted, le) == TiesWith(y, tail, le)
    ensures TiesWith(y, Insert(x, sorted, le), le) == TiesWith(y, [x] + tail, le)
  {
    InsertIsStable(x, sorted, le, y);
    TiesNext(y, x, tail, le);
    TiesNext(y, x, [], le);
    assert [x] + [] == [x];
  }

  /** Sorting keeps elements that tie in the order they came in, as Python's sort does. */
  lemma {:induction false} SortIsStable<T(!new)>(s: seq<T>, le: (T, T) -> bool, y: T)
    requires IsPreorder(le)
    ensures TiesWith(y, Sort(s, le), le) == TiesWith(y, s, le)
  {
    if s != [] {
      var sorted := Sort(s[1..], le);
      SortIsStable(s[1..], le, y);
      InsertedStably(s[0], s[1..], sorted, le, y);
      assert s == [s[0]] + s[1..];
    }
  }

  lemma SameFirst<T(!new)>(a: seq<T>, b: seq<T>, le: (T, T) -> bool)
    requires IsTotalOrder(le) && SortedBy(a, le) && SortedBy(b, le)
    requires a != [] && b != [] && a[0] in b && b[0] in a
    ensures a[0] == b[0]
  {
    var i :| 0 <= i < |b| && b[i] == a[0];
    var j :| 0 <= j < |a| && a[j] == b[0];
    assert le(b[0], b[i]) && le(a[0], a[j]);
  }

  lemma TailElements<T>(a: seq<T>)
    requires a != []
    ensures multiset(a[1..]) == multiset(a) - multiset{a[0]}
  {
    assert a == [a[0]] + a[1..];
  }

  /** A sorted sequence is determined by its elements, so sorting forgets the input order. */
  lemma {:induction false} SortedUnique<T(!new)>(a: seq<T>, b: seq<T>, le: (T, T) -> bool)
    requires IsTotalOrder(le) && SortedBy(a, le) && SortedBy(b, le)
    requires multiset(a) == multiset(b)
    ensures a == b
  {
    SameSize(a, b);
    if a != [] {
      SameElements(a, b);
      SameFirst(a, b, le);
      TailElements(a);
      TailElements(b);
      SortedUnique(a[1..], b[1..], le);
      assert a == [a[0]] + a[1..] && b == [b[0]] + b[1..];
    }
  }

  lemma SortOrderFree<T(!new)>(a: seq<T>, b: seq<T>, le: (T, T) -> bool)
    requires IsTotalOrder(le)
    requires multiset(a) == multiset(b)
    ensures Sort(a, le) == Sort(b, le)
  {
    SortSorted(a, le);
    SortSorted(b, le);
    SortedUnique(Sort(a, le), Sort(b, le), le);
  }

  lemma LastIsLargest<T(!new)>(r: seq<T>, m: T, le: (T, T) -> bool)
    requires IsTotalOrder(le) && SortedBy(r, le) && m in r && forall x :: x in r ==> le(x, m)
    ensures r[|r| - 1] == m
  {
    var i :| 0 <= i < |r| && r[i] == m;
    assert r[|r| - 1] in r;
    if i < |r| - 1 { assert le(r[i], r[|r| - 1]); }
  }

  // ----- orders the source sorts by -----

  predicate NatLe(a: nat, b: nat) { a <= b }

  predicate IntLe(a: int, b: int) { a <= b }

  /** Python compares strings by code point, first difference first. */
  predicate StringLe(a: string, b: string) {
    if a == [] then true
    else if b == [] then false
    else a[0] < b[0] || (a[0] == b[0] && StringLe(a[1..], b[1..]))
  }

  lemma {:induction false} StringLeTotal(a: string, b: string)
    ensures StringLe(a, b) || StringLe(b, a)
    ensures StringLe(a, b) && StringLe(b, a) ==> a == b
  {
    if a != [] && b != [] && a[0] == b[0] {
      StringLeTotal(a[1..], b[1..]);
      assert a == [a[0]] + a[1..] && b == [b[0]] + b[1..];
    }
  }

  lemma {:induction false} StringLeTransitive(a: string, b: string, c: string)
    requires StringLe(a, b) && StringLe(b, c)
    ensures StringLe(a, c)
  {
    if a != [] && a[0] == b[0] == c[0] {
      StringLeTransitive(a[1..], b[1..], c[1..]);
    }
  }

  /** The smaller text is a prefix of the other, or has the smaller character at the first difference. */
  lemma {:induction false} StringLeExact(a: string, b: string)
    ensures StringLe(a, b) <==> a <= b || exists i :: 0 <= i < |a| && i < |b| && a[..i] == b[..i] && a[i] < b[i]
  {
    if a != [] && b != [] && a[0] == b[0] {
      StringLeExact(a[1..], b[1..]);
      if i :| 0 <= i < |a[1..]| && i < |b[1..]| && a[1..][..i] == b[1..][..i] && a[1..][i] < b[1..][i] {
        assert a[..i + 1] == [a[0]] + a[1..][..i] && b[..i + 1] == [b[0]] + b[1..][..i];
        assert a[i + 1] < b[i + 1];
      }
      if i :| 0 <= i < |a| && i < |b| && a[..i] == b[..i] && a[i] < b[i] {
        assert i > 0;
        assert a[1..][..i - 1] == a[..i][1..] && b[1..][..i - 1] == b[..i][1..];
        assert a[1..][i - 1] < b[1..][i - 1];
      }
      assert a <= b <==> a[1..] <= b[1..];
    } else if a != [] && b != [] && a[0] < b[0] {
      assert a[..0] == b[..0];
    }
  }

  lemma StringLeIsTotalOrder()
    ensures IsTotalOrder(StringLe)
  {
    forall a: string, b: string
      ensures StringLe(a, b) || StringLe(b, a)
      ensures StringLe(a, b) && StringLe(b, a) ==> a == b
    {
      StringLeTotal(a, b);
    }
    forall a: string, b: string, c: string | StringLe(a, b) && StringLe(b, c)
      ensures StringLe(a, c)
    {
      StringLeTransitive(a, b, c);
    }
  }

  // ----- sets in sorted order -----

  /** `sorted(s)` for a set. */
  ghost function SortedSet<T>(s: set<T>, le: (T, T) -> bool): (r: seq<T>)
    ensures multiset(r) == multiset(s)
  {
    if s == {} then []
    else
      var x :| x in s;
      assert s == {x} + (s - {x});
      Insert(x, SortedSet(s - {x}, le), le)
  }

  ghost predicate Distinct<T>(s: seq<T>) {
    forall i, j :: 0 <= i < j < |s| ==> s[i] != s[j]
  }

  lemma {:induction false} SortedSetSorted<T(!new)>(s: set<T>, le: (T, T) -> bool)
    requires IsTotalOrder(le)
    ensures SortedBy(SortedSet(s, le), le)
  {
    if s != {} {
      var x :| x in s && SortedSet(s, le) == Insert(x, SortedSet(s - {x}, le), le);
      SortedSetSorted(s - {x}, le);
      InsertSorted(x, SortedSet(s - {x}, le), le);
    }
  }

  lemma SortedSetElements<T>(s: set<T>, le: (T, T) -> bool)
    ensures forall x :: x in SortedSet(s, le) <==> x in s
  {
    forall x ensures x in SortedSet(s, le) <==> x in s {
      assert x in SortedSet(s, le) <==> x in multiset(SortedSet(s, le));
    }
  }

  lemma TwiceCounts<T>(s: seq<T>, i: nat, j: nat)
    requires i < j < |s| && s[i] == s[j]
    ensures multiset(s)[s[i]] >= 2
  {
    assert s == s[..i] + [s[i]] + s[i + 1..j] + [s[j]] + s[j + 1..];
  }

  lemma {:induction false} SortedSetDistinct<T>(s: set<T>, le: (T, T) -> bool)
    ensures Distinct(SortedSet(s, le))
  {
    var r := SortedSet(s, le);
    forall i, j | 0 <= i < j < |r| ensures r[i] != r[j] {
      if r[i] == r[j] { TwiceCounts(r, i, j); }
    }
  }

  /** Iterating a set in sorted order. */
  method SortSet<T(!new, ==)>(s: set<T>, le: (T, T) -> bool) returns (r: seq<T>)
    requires IsTotalOrder(le)
    ensures r == SortedSet(s, le)
  {
    r := [];
    var rest := s;
    while rest != {}
      invariant rest <= s
      invariant SortedBy(r, le) && multiset(r) == multiset(s - rest)
      decreases rest
    {
      var x :| x in rest;
      InsertSorted(x, r, le);
      r := Insert(x, r, le);
      assert s - (rest - {x}) == (s - rest) + {x};
      rest := rest - {x};
    }
    assert s - rest == s;
    SortedSetSorted(s, le);
    SortedUnique(r, SortedSet(s, le), le);
  }
}
