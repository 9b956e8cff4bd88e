/**
 When raising the `featured` cap keeps every episode page (src/impact2/render_plan.py), decided on the
 engineers' profiles alone.
 */
module PageGrowth {
  import opened Collections
  import opened Ordering
  import opened RenderPlan

  // ----- the first new element -----

  function FirstOf(s: seq<string>, q: string -> bool): Option<string> {
    if s == [] then None
    else
      var n := |s| - 1;
      var r := FirstOf(s[..n], q);
      if r.Some? then r else if q(s[n]) then Some(s[n]) else None
  }

  lemma {:induction false} FirstOfAt(s: seq<string>, q: string -> bool, k: nat)
    requires k < |s| && q(s[k]) && forall i :: 0 <= i < k ==> !q(s[i])
    ensures FirstOf(s, q) == Some(s[k])
  {
    var n := |s| - 1;
    if k < n { FirstOfAt(s[..n], q, k); } else { NoneOf(s[..n], q); }
  }

  lemma {:induction false} NoneOf(s: seq<string>, q: string -> bool)
    ensures FirstOf(s, q).None? <==> forall x :: x in s ==> !q(x)
  {
    if s != [] {
      var n := |s| - 1;
      NoneOf(s[..n], q);
      assert forall x :: x in s <==> x in s[..n] || x == s[n];
    }
  }

  lemma {:induction false} FirstOfIs(s: seq<string>, q: string -> bool) returns (k: nat)
    requires FirstOf(s, q).Some?
    ensures k < |s| && s[k] == FirstOf(s, q).value && q(s[k]) && forall i :: 0 <= i < k ==> !q(s[i])
  {
    var n := |s| - 1;
    if FirstOf(s[..n], q).Some? {
      k := FirstOfIs(s[..n], q);
    } else {
      k := n;
      NoneOf(s[..n], q);
      forall i | 0 <= i < n ensures !q(s[i]) { assert s[i] in s[..n]; }
    }
  }

  lemma {:induction false} FirstOfAppend(s: seq<string>, t: seq<string>, q: string -> bool)
    ensures FirstOf(s + t, q) == if FirstOf(s, q).Some? then FirstOf(s, q) else FirstOf(t, q)
  {
    if t == [] {
      assert s + t == s;
    } else {
      var n := |t| - 1;
      assert (s + t)[..|s + t| - 1] == s + t[..n];
      FirstOfAppend(s, t[..n], q);
    }
  }

  /** Kept, and not collected yet. */
  function Fresh(keep: string -> bool, order: seq<string>): string -> bool {
    x => keep(x) && x !in order
  }

  /** Each collected element is the first fresh one after those before it. */
  lemma {:induction false} GatherNext(s: seq<string>, keep: string -> bool, i: nat)
    requires i <= |Gather([], s, keep)|
    ensures var r := Gather([], s, keep);
            FirstOf(s, Fresh(keep, r[..i])) == if i < |r| then Some(r[i]) else None
  {
    var r := Gather([], s, keep);
    var q := Fresh(keep, r[..i]);
    if i == |r| {
      assert r[..i] == r;
      NoneOf(s, q);
    } else {
      var n := |s| - 1;
      var t := Gather([], s[..n], keep);
      assert i <= |t| && t[..i] == r[..i];
      GatherNext(s[..n], keep, i);
    }
  }

  lemma {:induction false} FirstDifference(small: seq<string>, large: seq<string>) returns (i: nat)
    requires !(small <= large)
    ensures i < |small| && i <= |large| && small[..i] == large[..i] && (i < |large| ==> small[i] != large[i])
  {
    if large == [] || small[0] != large[0] {
      i := 0;
    } else {
      assert small == [small[0]] + small[1..] && large == [large[0]] + large[1..];
      var j := FirstDifference(small[1..], large[1..]);
      i := j + 1;
      assert small[..i] == [small[0]] + small[1..][..j] && large[..i] == [large[0]] + large[1..][..j];
    }
  }

  // ----- one profile overtaking another -----

  /**
   Between the two caps `e` brings in an episode `y` that its own profile does not place after `x`, and the
   profile of `f` shows `x` below the smaller cap and not after `y`. If `e` is ranked first, `y` overtakes `x`.
   */
  ghost predicate Overtakes(e: Engineer, f: Engineer, m: nat, n: nat) {
    exists j: nat, k: nat :: OvertakesAt(Featured(e), Featured(f), m, n, j, k)
  }

  predicate OvertakesAt(first: seq<string>, second: seq<string>, m: nat, n: nat, j: nat, k: nat) {
    && m <= j < n && j < |first| && k < m && k < |second|
    && first[j] != second[k] && second[k] !in first[..j] && first[j] !in second[..k]
  }

  ghost predicate NobodyOvertakes(engineers: seq<Engineer>, m: nat, n: nat) {
    forall e, f :: e in ByActor(engineers).Values && f in ByActor(engineers).Values ==> !Overtakes(e, f, m, n)
  }

  /** What is fresh below the larger cap, but nothing below the smaller one: it comes in between the two. */
  lemma {:induction false} ComesInBetween(byActor: map<string, Engineer>, actors: seq<string>, m: nat, n: nat,
      q: string -> bool)
      returns (e: Engineer, j: nat)
    requires m <= n && FirstOf(Contributions(byActor, actors, m), q).None?
      && FirstOf(Contributions(byActor, actors, n), q).Some?
    ensures e in byActor.Values && m <= j < n && j < |Featured(e)|
    ensures Some(Featured(e)[j]) == FirstOf(Contributions(byActor, actors, n), q) && q(Featured(e)[j])
    ensures forall i :: 0 <= i < j ==> !q(Featured(e)[i])
  {
    var l := |actors| - 1;
    var actor, front := actors[l], actors[..l];
    FirstOfAppend(Contributions(byActor, front, m), Contribution(byActor, actor, m), q);
    FirstOfAppend(Contributions(byActor, front, n), Contribution(byActor, actor, n), q);
    if FirstOf(Contributions(byActor, front, n), q).Some? {
      e, j := ComesInBetween(byActor, front, m, n, q);
    } else {
      var block := Contribution(byActor, actor, n);
      e := byActor[actor];
      j := FirstOfIs(block, q);
      NoneOf(Contribution(byActor, actor, m), q);
      NotBelow(Featured(e), m, n, j, q);
      assert forall i :: 0 <= i <= j ==> Featured(e)[i] == block[i];
    }
  }

  lemma NotBelow(s: seq<string>, m: nat, n: nat, j: nat, q: string -> bool)
    requires m <= n && j < |Prefix(s, n)| && q(Prefix(s, n)[j]) && forall x :: x in Prefix(s, m) ==> !q(x)
    ensures j >= m
  {
    forall i | 0 <= i < |Prefix(s, m)| ensures !q(Prefix(s, n)[i]) {
      assert Prefix(s, m)[i] in Prefix(s, m) && Prefix(s, m)[i] == Prefix(s, n)[i];
    }
  }

  lemma LastBlockOvertakes(e: Engineer, j: nat, f: Engineer, m: nat, n: nat, q: string -> bool)
    requires m <= j < n && j < |Featured(e)| && q(Featured(e)[j]) && forall i :: 0 <= i < j ==> !q(Featured(e)[i])
    requires FirstOf(Prefix(Featured(f), m), q).Some? && FirstOf(Prefix(Featured(f), m), q) != Some(Featured(e)[j])
    ensures Overtakes(e, f, m, n)
  {
    var k := FirstOfIs(Prefix(Featured(f), m), q);
    assert forall i :: 0 <= i <= k ==> Featured(f)[i] == Prefix(Featured(f), m)[i];
    assert OvertakesAt(Featured(e), Featured(f), m, n, j, k);
  }

  /** If the first fresh elements below the two caps differ, somebody overtakes. */
  lemma {:induction false} DifferenceIsOvertaking(byActor: map<string, Engineer>, actors: seq<string>, m: nat, n: nat,
      q: string -> bool)
      returns (e: Engineer, f: Engineer)
    requires m <= n && FirstOf(Contributions(byActor, actors, m), q).Some?
    requires FirstOf(Contributions(byActor, actors, m), q) != FirstOf(Contributions(byActor, actors, n), q)
    ensures e in byActor.Values && f in byActor.Values && Overtakes(e, f, m, n)
  {
    var l := |actors| - 1;
    var actor, front := actors[l], actors[..l];
    FirstOfAppend(Contributions(byActor, front, m), Contribution(byActor, actor, m), q);
    FirstOfAppend(Contributions(byActor, front, n), Contribution(byActor, actor, n), q);
    if FirstOf(Contributions(byActor, front, m), q).Some? {
      e, f := DifferenceIsOvertaking(byActor, front, m, n, q);
    } else {
      f := byActor[actor];
      if FirstOf(Contributions(byActor, front, n), q).None? {
        SameBlock(Featured(f), m, n, q);
        assert false;
      } else {
        var j;
        e, j := ComesInBetween(byActor, front, m, n, q);
        LastBlockOvertakes(e, j, f, m, n, q);
      }
    }
  }

  lemma SameBlock(s: seq<string>, m: nat, n: nat, q: string -> bool)
    requires m <= n && FirstOf(Prefix(s, m), q).Some?
    ensures FirstOf(Prefix(s, n), q) == FirstOf(Prefix(s, m), q)
  {
    var k := FirstOfIs(Prefix(s, m), q);
    assert forall i :: 0 <= i <= k ==> Prefix(s, n)[i] == Prefix(s, m)[i];
    FirstOfAt(Prefix(s, n), q, k);
  }

  lemma NobodyOvertakesIsSafe(engineers: seq<Engineer>, scenarios: seq<Scenario>, a: Budget, b: Budget,
      known: set<string>)
    requires a.featured <= b.featured && NobodyOvertakes(engineers, a.featured, b.featured)
    ensures PageOrder(engineers, scenarios, a, known) <= PageOrder(engineers, scenarios, b, known)
  {
    var byActor, actors := ByActor(engineers), AllTops(scenarios) + AllActors(scenarios);
    var small, large := PageOrder(engineers, scenarios, a, known), PageOrder(engineers, scenarios, b, known);
    if !(small <= large) {
      var i := FirstDifference(small, large);
      var q := Fresh(IsIn(known), small[..i]);
      GatherNext(Contributions(byActor, actors, a.featured), IsIn(known), i);
      GatherNext(Contributions(byActor, actors, b.featured), IsIn(known), i);
      var e, f := DifferenceIsOvertaking(byActor, actors, a.featured, b.featured, q);
    }
  }

  // ----- the witness -----

  lemma FirstPage(engineers: seq<Engineer>, scenarios: seq<Scenario>, b: Budget, known: set<string>, x: string)
    requires FirstOf(Contributions(ByActor(engineers), AllTops(scenarios) + AllActors(scenarios), b.featured),
      IsIn(known)) == Some(x)
    ensures var order := PageOrder(engineers, scenarios, b, known); order != [] && order[0] == x
  {
    var visited := Visited(engineers, scenarios, b);
    var order := PageOrder(engineers, scenarios, b, known);
    assert order[..0] == [];
    GatherNext(visited, IsIn(known), 0);
    SameFirst(visited, Fresh(IsIn(known), []), IsIn(known));
  }

  lemma {:induction false} SameFirst(s: seq<string>, q: string -> bool, r: string -> bool)
    requires forall x :: q(x) <==> r(x)
    ensures FirstOf(s, q) == FirstOf(s, r)
  {
    if s != [] { SameFirst(s[..|s| - 1], q, r); }
  }

  /** One unavailable scenario that ranks two actors, so that nobody is in a top five. */
  function Ranking(first: string, second: string): seq<Scenario> {
    [Scenario(false, [Position(0, first), Position(1, second)])]
  }

  lemma RankingVisits(byActor: map<string, Engineer>, first: string, second: string, cap: nat)
    requires first in byActor && second in byActor
    ensures var scenarios := Ranking(first, second);
            Contributions(byActor, AllTops(scenarios) + AllActors(scenarios), cap)
              == Prefix(Featured(byActor[first]), cap) + Prefix(Featured(byActor[second]), cap)
  {
    var scenarios := Ranking(first, second);
    assert scenarios[..0] == [] && AllTops(scenarios) == [];
    assert AllActors(scenarios) == [first, second];
    assert AllTops(scenarios) + AllActors(scenarios) == [first, second];
    TwoContributions(byActor, first, second, cap);
  }

  lemma FirstFeatured(s: seq<string>, cap: nat, q: string -> bool, k: nat)
    requires k < cap && k < |s| && q(s[k]) && forall i :: 0 <= i < k ==> !q(s[i])
    ensures FirstOf(Prefix(s, cap), q) == Some(s[k])
  {
    assert forall i :: 0 <= i <= k ==> Prefix(s, cap)[i] == s[i];
    FirstOfAt(Prefix(s, cap), q, k);
  }

  lemma NoneFeatured(s: seq<string>, cap: nat, q: string -> bool)
    requires forall i :: 0 <= i < |s| && i < cap ==> !q(s[i])
    ensures FirstOf(Prefix(s, cap), q).None?
  {
    forall x | x in Prefix(s, cap) ensures !q(x) {
      var i :| 0 <= i < |Prefix(s, cap)| && Prefix(s, cap)[i] == x;
      assert s[i] == x;
    }
    NoneOf(Prefix(s, cap), q);
  }

  lemma WitnessFirsts(first: seq<string>, second: seq<string>, m: nat, n: nat, j: nat, k: nat)
    requires OvertakesAt(first, second, m, n, j, k) && Distinct(first) && Distinct(second)
    ensures var q := IsIn({first[j], second[k]});
            && FirstOf(Prefix(first, m) + Prefix(second, m), q) == Some(second[k])
            && FirstOf(Prefix(first, n) + Prefix(second, n), q) == Some(first[j])
  {
    var q := IsIn({first[j], second[k]});
    forall i | 0 <= i < j ensures !q(first[i]) { assert first[..j][i] == first[i]; }
    forall i | 0 <= i < k ensures !q(second[i]) { assert second[..k][i] == second[i]; }
    FirstFeatured(first, n, q, j);
    FirstFeatured(second, m, q, k);
    NoneFeatured(first, m, q);
    FirstOfAppend(Prefix(first, m), Prefix(second, m), q);
    FirstOfAppend(Prefix(first, n), Prefix(second, n), q);
  }

  lemma FeaturedDistinct(e: Engineer)
    ensures Distinct(Featured(e))
  {
    GatherDistinct([], [e.strongest] + (e.tops + (e.current + e.foundational)), Truthy);
  }

  lemma OvertakingBreaksOrder(engineers: seq<Engineer>, a: Budget, b: Budget, e: Engineer, f: Engineer)
      returns (scenarios: seq<Scenario>, known: set<string>)
    requires e in ByActor(engineers).Values && f in ByActor(engineers).Values && Overtakes(e, f, a.featured, b.featured)
    ensures !(PageOrder(engineers, scenarios, a, known) <= PageOrder(engineers, scenarios, b, known))
  {
    var byActor, m, n := ByActor(engineers), a.featured, b.featured;
    var j: nat, k: nat :| OvertakesAt(Featured(e), Featured(f), m, n, j, k);
    var x, y := Featured(f)[k], Featured(e)[j];
    var first :| first in byActor && byActor[first] == e;
    var second :| second in byActor && byActor[second] == f;
    scenarios, known := Ranking(first, second), {y, x};
    FeaturedDistinct(e);
    FeaturedDistinct(f);
    WitnessFirsts(Featured(e), Featured(f), m, n, j, k);
    RankingVisits(byActor, first, second, m);
    RankingVisits(byActor, first, second, n);
    FirstPage(engineers, scenarios, a, known, x);
    FirstPage(engineers, scenarios, b, known, y);
  }

  /** Every page survives, at every page cap, for these rankings and these known episodes. */
  ghost predicate KeepsEveryPage(engineers: seq<Engineer>, scenarios: seq<Scenario>, a: Budget, b: Budget,
      known: set<string>) {
    forall p: nat ::
      Elements(PageIds(engineers, scenarios, a.(pages := p), known))
        <= Elements(PageIds(engineers, scenarios, b.(pages := p), known))
  }

  /**
   Raising the `featured` cap, and any other cap with it, keeps every page for all rankings, all known
   episodes and all page caps if and only if no engineer's profile overtakes another's between the two caps.
   */
  lemma MoreFeaturedIsSafeExactly(engineers: seq<Engineer>, a: Budget, b: Budget)
    requires a.featured <= b.featured
    ensures (forall scenarios, known :: KeepsEveryPage(engineers, scenarios, a, b, known))
            <==> NobodyOvertakes(engineers, a.featured, b.featured)
  {
    if NobodyOvertakes(engineers, a.featured, b.featured) {
      forall scenarios, known ensures KeepsEveryPage(engineers, scenarios, a, b, known) {
        NobodyOvertakesIsSafe(engineers, scenarios, a, b, known);
        PagesMonotoneExactly(engineers, scenarios, a, b, known);
      }
    } else {
      var e, f :| e in ByActor(engineers).Values && f in ByActor(engineers).Values
        && Overtakes(e, f, a.featured, b.featured);
      var scenarios, known := OvertakingBreaksOrder(engineers, a, b, e, f);
      PagesMonotoneExactly(engineers, scenarios, a, b, known);
      assert !KeepsEveryPage(engineers, scenarios, a, b, known);
    }
  }
}
