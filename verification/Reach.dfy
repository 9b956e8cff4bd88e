/**
 Bounded reachability over the import graph (src/impact/graph/build.py, and the same loop inlined in
 src/impact/features/blast_radius.py), and graph transposition.
 */
module Reach {

  /** Missing nodes have no successors. */
  type Graph = map<string, set<string>>

  function Successors(g: Graph, n: string): set<string> { if n in g then g[n] else {} }

  // ----- the simple form: walks of bounded length -----

  ghost predicate IsWalk(g: Graph, p: seq<string>) {
    p != [] && forall i :: 0 <= i < |p| - 1 ==> p[i + 1] in Successors(g, p[i])
  }

  /** Some walk of at most `d` steps leads from a seed to `x`. */
  ghost predicate Within(g: Graph, seeds: set<string>, d: int, x: string) {
    exists p :: IsWalk(g, p) && p[0] in seeds && p[|p| - 1] == x && |p| - 1 <= (if d < 0 then 0 else d)
  }

  function Neighbours(g: Graph, some: set<string>): set<string> {
    set n, m | n in some && m in Successors(g, n) :: m
  }

  /** Everything within `d` steps, by brute force. */
  function Ball(g: Graph, seeds: set<string>, d: nat): set<string> {
    if d == 0 then seeds else Ball(g, seeds, d - 1) + Neighbours(g, Ball(g, seeds, d - 1))
  }

  lemma {:induction false} BallHasWalk(g: Graph, seeds: set<string>, d: nat, x: string) returns (p: seq<string>)
    requires x in Ball(g, seeds, d)
    ensures IsWalk(g, p) && p[0] in seeds && p[|p| - 1] == x && |p| - 1 <= d
  {
    if d == 0 {
      p := [x];
    } else if x in Ball(g, seeds, d - 1) {
      p := BallHasWalk(g, seeds, d - 1, x);
    } else {
      var n :| n in Ball(g, seeds, d - 1) && x in Successors(g, n);
      p := BallHasWalk(g, seeds, d - 1, n);
      p := p + [x];
    }
  }

  lemma {:induction false} WalkStaysInBall(g: Graph, seeds: set<string>, d: nat, p: seq<string>)
    requires IsWalk(g, p) && p[0] in seeds && |p| - 1 <= d
    ensures p[|p| - 1] in Ball(g, seeds, d)
  {
    if d > 0 {
      if |p| == 1 {
        WalkStaysInBall(g, seeds, d - 1, p);
      } else {
        var q := p[..|p| - 1];
        WalkStaysInBall(g, seeds, d - 1, q);
        assert p[|p| - 2 + 1] in Successors(g, q[|q| - 1]);
      }
    }
  }

  lemma BallIsWithin(g: Graph, seeds: set<string>, d: int, x: string)
    ensures x in Ball(g, seeds, if d < 0 then 0 else d) <==> Within(g, seeds, d, x)
  {
    var n := if d < 0 then 0 else d;
    if x in Ball(g, seeds, n) { var p := BallHasWalk(g, seeds, n, x); }
    if Within(g, seeds, d, x) {
      var p :| IsWalk(g, p) && p[0] in seeds && p[|p| - 1] == x && |p| - 1 <= n;
      WalkStaysInBall(g, seeds, n, p);
    }
  }

  lemma {:induction false} BallStops(g: Graph, seeds: set<string>, k: nat, d: nat)
    requires k <= d && Neighbours(g, Ball(g, seeds, k)) <= Ball(g, seeds, k)
    ensures Ball(g, seeds, d) == Ball(g, seeds, k)
  {
    if k < d { BallStops(g, seeds, k, d - 1); }
  }

  // ----- the fast form: only the newest level is expanded -----

  /** `seen` is the ball of radius `k`, and what is not in the frontier has been expanded already. */
  ghost predicate Searching(g: Graph, seeds: set<string>, k: nat, seen: set<string>, frontier: set<string>) {
    && seen == Ball(g, seeds, k) && frontier <= seen
    && Neighbours(g, seen - frontier) <= seen
  }

  lemma NextLevel(g: Graph, seeds: set<string>, k: nat, seen: set<string>, frontier: set<string>, next: set<string>)
    requires Searching(g, seeds, k, seen, frontier) && next == Neighbours(g, frontier) - seen
    ensures Searching(g, seeds, k + 1, seen + next, next)
    ensures next == {} ==> Neighbours(g, seen) <= seen
  {
    forall m | m in Neighbours(g, seen) ensures m in seen + next {
      var n :| n in seen && m in Successors(g, n);
      if n !in frontier { assert m in Neighbours(g, seen - frontier); }
    }
    assert seen + next == Ball(g, seeds, k + 1);
    assert seen + next - next <= seen;
  }

  method Expand(g: Graph, frontier: set<string>, seen: set<string>) returns (next: set<string>)
    ensures next == Neighbours(g, frontier) - seen
  {
    next := {};
    var rest := frontier;
    while rest != {}
      invariant rest <= frontier && next == Neighbours(g, frontier - rest) - seen
      decreases rest
    {
      var node :| node in rest;
      rest := rest - {node};
      next := next + (Successors(g, node) - seen);
    }
    assert frontier - rest == frontier;
  }

  /** `reachable` finds exactly what some walk of at most `maxDepth` steps reaches from a non-empty seed. */
  method Reachable(seeds: set<string>, g: Graph, maxDepth: int) returns (seen: set<string>)
    ensures forall x :: x in seen <==> Within(g, seeds - {""}, maxDepth, x)
  {
    var start := seeds - {""};
    var frontier := start;
    seen := start;
    var depth := 0;
    var done := false;
    while depth < maxDepth && !done
      invariant 0 <= depth && (maxDepth >= 0 ==> depth <= maxDepth) && (maxDepth < 0 ==> depth == 0)
      invariant Searching(g, start, depth, seen, frontier)
      invariant done ==> Neighbours(g, seen) <= seen
      decreases maxDepth - depth, !done
    {
      var next := Expand(g, frontier, seen);
      NextLevel(g, start, depth, seen, frontier, next);
      if next == {} {
        done := true;
      } else {
        seen := seen + next;
        frontier := next;
        depth := depth + 1;
      }
    }
    var limit := if maxDepth < 0 then 0 else maxDepth;
    if done { BallStops(g, start, depth, limit); }
    forall x ensures x in seen <==> Within(g, start, maxDepth, x) { BallIsWithin(g, start, maxDepth, x); }
  }

  // ----- transposition -----

  /** `r` has the edges of `g` turned round. */
  ghost predicate IsReverse(g: Graph, r: Graph) {
    forall s, t :: s in Successors(r, t) <==> t in Successors(g, s)
  }

  method AddSource(r: Graph, source: string, targets: set<string>) returns (r': Graph)
    ensures forall s, t :: s in Successors(r', t) <==> s in Successors(r, t) || (s == source && t in targets)
  {
    r' := r;
    var rest := targets;
    while rest != {}
      invariant rest <= targets
      invariant forall s, t :: s in Successors(r', t) <==> s in Successors(r, t) || (s == source && t in targets - rest)
      decreases rest
    {
      var target :| target in rest;
      ghost var was, done := r', targets - rest;
      rest := rest - {target};
      r' := r'[target := Successors(r', target) + {source}];
      assert targets - rest == done + {target};
      forall s, t
        ensures s in Successors(r', t) <==> s in Successors(was, t) || (s == source && t == target)
      {
      }
    }
  }

  method ReverseAdjacency(g: Graph) returns (r: Graph)
    ensures IsReverse(g, r)
  {
    r := map[];
    var rest := g.Keys;
    while rest != {}
      invariant rest <= g.Keys
      invariant forall s, t :: s in Successors(r, t) <==> s !in rest && t in Successors(g, s)
      decreases rest
    {
      var source :| source in rest;
      rest := rest - {source};
      r := AddSource(r, source, g[source]);
    }
  }

  lemma ReversedWalk(g: Graph, r: Graph, p: seq<string>) returns (q: seq<string>)
    requires IsReverse(g, r) && IsWalk(g, p)
    ensures IsWalk(r, q) && q[0] == p[|p| - 1] && q[|q| - 1] == p[0] && |q| == |p|
  {
    q := seq(|p|, i requires 0 <= i < |p| => p[|p| - 1 - i]);
    forall i | 0 <= i < |q| - 1 ensures q[i + 1] in Successors(r, q[i]) {
      var j := |p| - 2 - i;
      assert p[j + 1] in Successors(g, p[j]);
    }
  }

  /** The files a change in `y` can disturb within `d` hops are exactly those that import `y` within `d` hops. */
  lemma ReverseReachability(g: Graph, r: Graph, x: string, y: string, d: int)
    requires IsReverse(g, r)
    ensures Within(r, {y}, d, x) <==> Within(g, {x}, d, y)
  {
    var n := if d < 0 then 0 else d;
    if Within(g, {x}, d, y) {
      var p :| IsWalk(g, p) && p[0] in {x} && p[|p| - 1] == y && |p| - 1 <= n;
      var q := ReversedWalk(g, r, p);
    }
    if Within(r, {y}, d, x) {
      var p :| IsWalk(r, p) && p[0] in {y} && p[|p| - 1] == x && |p| - 1 <= n;
      assert IsReverse(r, g);
      var q := ReversedWalk(r, g, p);
    }
  }
}
