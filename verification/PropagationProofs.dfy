/** What every walk keeps: witness chains, the balance of its books, and completeness. */
module PropagationProofs {
  import opened Collections
  import opened Ordering
  import opened Propagation

  /** A walk's fixed surroundings: the episode's sources and its own PRs. */
  datatype Origin = Origin(sources: map<Path, Source>, members: set<Pr>)

  /** `e` starts at a source path, at depth 1. */
  predicate FromSource(o: Origin, e: Event) {
    e.depth == 1 && e.path in o.sources && o.sources[e.path] == Source(Some(e.availableAt), e.weight)
  }

  /** `e` carries on from the adoption `before`, one generation earlier. */
  predicate CarriesOn(before: Event, e: Event) {
    && before.depth == e.depth - 1
    && before.importer == e.path
    && before.adoptedAt == e.availableAt
    && before.contribution == e.weight
  }

  ghost predicate EventOk(c: Config, g: Graph, o: Origin, log: seq<Event>, i: nat)
    requires i < |log|
  {
    var e := log[i];
    && e.depth >= 1
    && IsAdoption(g, e.path, Adoption(e.importer, e.pr, e.adoptedAt))
    && e.availableAt < e.adoptedAt
    && e.pr !in o.members
    && e.contribution == e.weight * c.decay((e.adoptedAt - e.availableAt) as real / 86400.0)
    && (if e.parent == -1 then FromSource(o, e) else 0 <= e.parent < i && CarriesOn(log[e.parent], e))
  }

  ghost predicate LogOk(c: Config, g: Graph, o: Origin, log: seq<Event>) {
    && (forall i :: 0 <= i < |log| ==> EventOk(c, g, o, log, i))
    && (forall i, j :: 0 <= i < j < |log| ==> log[i].pr != log[j].pr)
  }

  /** A path waiting at `depth` is a source, or the importer of an event one generation back. */
  ghost predicate Waiting(o: Origin, log: seq<Event>, p: Path, entry: Entry, depth: int) {
    if entry.parent == -1 then depth == 1 && p in o.sources && o.sources[p] == Source(entry.at, entry.weight)
    else
      && 0 <= entry.parent < |log|
      && log[entry.parent].depth == depth - 1
      && log[entry.parent].importer == p
      && entry.at == Some(log[entry.parent].adoptedAt)
      && entry.weight == log[entry.parent].contribution
  }

  ghost predicate FrontierOk(o: Origin, log: seq<Event>, frontier: map<Path, Entry>, depth: int) {
    forall p :: p in frontier ==> Waiting(o, log, p, frontier[p], depth)
  }

  ghost function PrsOf(log: seq<Event>): set<Pr> { set e | e in log :: e.pr }

  ghost predicate WalkOk(c: Config, g: Graph, o: Origin, depth: int, w: Walk) {
    && LogOk(c, g, o, w.log)
    && FrontierOk(o, w.log, w.next, depth + 1)
    && w.visitedPrs == o.members + PrsOf(w.log)
    && (forall i :: 0 <= i < |w.log| ==> w.log[i].depth <= depth)
  }

  lemma FrontierOkGrows(o: Origin, log: seq<Event>, log': seq<Event>, frontier: map<Path, Entry>, depth: int)
    requires FrontierOk(o, log, frontier, depth) && log <= log'
    ensures FrontierOk(o, log', frontier, depth)
  {
    forall p | p in frontier ensures Waiting(o, log', p, frontier[p], depth) {
      assert Waiting(o, log, p, frontier[p], depth);
    }
  }

  lemma PrsOfAppend(log: seq<Event>, e: Event)
    ensures PrsOf(log + [e]) == PrsOf(log) + {e.pr}
  {
    forall pr ensures pr in PrsOf(log + [e]) <==> pr in PrsOf(log) + {e.pr} {
      if pr in PrsOf(log) {
        var x :| x in log && x.pr == pr;
        assert x in log + [e];
      }
      if pr == e.pr { assert e in log + [e]; }
    }
  }

  lemma LogOkAppend(c: Config, g: Graph, o: Origin, log: seq<Event>, e: Event)
    requires LogOk(c, g, o, log) && EventOk(c, g, o, log + [e], |log|) && e.pr !in PrsOf(log)
    ensures LogOk(c, g, o, log + [e])
  {
    var log' := log + [e];
    forall i | 0 <= i < |log'| ensures EventOk(c, g, o, log', i) {
      if i < |log| { assert EventOk(c, g, o, log, i); }
    }
    forall i, j | 0 <= i < j < |log'| ensures log'[i].pr != log'[j].pr {
      if j == |log| { assert log[i] in log; }
    }
  }

  /** Adopting keeps the walk in order. */
  lemma AdoptKeeps(c: Config, g: Graph, o: Origin, depth: int, path: Path, entry: Entry, a: Adoption, w: Walk, w': Walk)
    requires depth >= 1 && WalkOk(c, g, o, depth, w)
    requires entry.at.Some? && Waiting(o, w.log, path, entry, depth)
    requires IsAdoption(g, path, a) && !Skips(entry.at.value, a, w)
    requires w' == Adopt(w, EventOf(c, depth, path, entry, a))
    ensures WalkOk(c, g, o, depth, w') && Waiting(o, w'.log, path, entry, depth)
  {
    var e := EventOf(c, depth, path, entry, a);
    LogOkAppend(c, g, o, w.log, e);
    PrsOfAppend(w.log, e);
    FrontierOkGrows(o, w.log, w'.log, w.next, depth + 1);
    assert w'.log[|w.log|] == e;
  }

  lemma {:induction false} ExamineKeeps(c: Config, g: Graph, o: Origin, depth: int, path: Path, entry: Entry,
      adopters: seq<Adoption>, w: Walk, w': Walk)
    requires depth >= 1 && WalkOk(c, g, o, depth, w)
    requires entry.at.Some? && Waiting(o, w.log, path, entry, depth)
    requires forall a :: a in adopters ==> IsAdoption(g, path, a)
    requires w' == Examine(c, depth, path, entry, adopters, w)
    ensures WalkOk(c, g, o, depth, w') && w.log <= w'.log
    decreases |adopters|
  {
    if adopters != [] {
      var a := adopters[0];
      if Skips(entry.at.value, a, w) {
        ExamineKeeps(c, g, o, depth, path, entry, adopters[1..], w, w');
      } else {
        var w1 := Adopt(w, EventOf(c, depth, path, entry, a));
        AdoptKeeps(c, g, o, depth, path, entry, a, w, w1);
        if !BudgetSpent(c, w1) { ExamineKeeps(c, g, o, depth, path, entry, adopters[1..], w1, w'); }
      }
    }
  }

  /** What the walk needs of its look-ups. */
  ghost predicate LookupOk(g: Graph, k: Lookup) {
    && (forall p, a :: a in k.adopters(p) <==> IsAdoption(g, p, a))
    && (forall s, p :: p in k.inOrder(s) <==> p in s)
    && (forall next, p :: p in k.strongest(next) ==> p in next && k.strongest(next)[p] == next[p])
  }

  lemma GraphLookupOk(c: Config, g: Graph)
    ensures LookupOk(g, GraphLookup(c, g))
  {
    var k := GraphLookup(c, g);
    forall p, a ensures a in k.adopters(p) <==> IsAdoption(g, p, a) { AdoptersExact(g, p); }
    forall s, p ensures p in k.inOrder(s) <==> p in s { SortedSetElements(s, StringLe); }
  }

  lemma ExpandPathKeeps(c: Config, g: Graph, k: Lookup, o: Origin, depth: int, path: Path, entry: Entry, w: Walk,
      w': Walk)
    requires LookupOk(g, k) && depth >= 1 && WalkOk(c, g, o, depth, w)
    requires entry.at.Some? && Waiting(o, w.log, path, entry, depth)
    requires w' == ExpandPath(c, k, depth, path, entry, w)
    ensures WalkOk(c, g, o, depth, w') && w.log <= w'.log
  {
    ExamineKeeps(c, g, o, depth, path, entry, k.adopters(path), w, Examine(c, depth, path, entry, k.adopters(path), w));
  }

  lemma {:induction false} ExpandAllKeeps(c: Config, g: Graph, k: Lookup, o: Origin, depth: int, paths: seq<Path>,
      frontier: map<Path, Entry>, w: Walk, w': Walk)
    requires LookupOk(g, k) && depth >= 1 && WalkOk(c, g, o, depth, w)
    requires FrontierOk(o, w.log, frontier, depth)
    requires w' == ExpandAll(c, k, depth, paths, frontier, w)
    ensures WalkOk(c, g, o, depth, w')
    decreases |paths|
  {
    if paths != [] {
      var p := paths[0];
      if p !in frontier || frontier[p].at.None? {
        ExpandAllKeeps(c, g, k, o, depth, paths[1..], frontier, w, w');
      } else {
        var w1 := ExpandPath(c, k, depth, p, frontier[p], w);
        ExpandPathKeeps(c, g, k, o, depth, p, frontier[p], w, w1);
        if !BudgetSpent(c, w1) {
          FrontierOkGrows(o, w.log, w1.log, frontier, depth);
          ExpandAllKeeps(c, g, k, o, depth, paths[1..], frontier, w1, w');
        }
      }
    }
  }

  /** The invariant at the head of the depth loop. */
  ghost predicate RoundOk(c: Config, g: Graph, o: Origin, depth: int, r: Round) {
    WalkOk(c, g, o, depth - 1, r.walk) && FrontierOk(o, r.walk.log, r.frontier, depth)
  }

  lemma NextRoundOk(c: Config, g: Graph, k: Lookup, o: Origin, depth: int, r: Round, w': Walk)
    requires LookupOk(g, k) && depth >= 1 && RoundOk(c, g, o, depth, r)
    requires w' == Generation(c, k, depth, r.frontier, r.walk)
    ensures RoundOk(c, g, o, depth + 1, Decide(c, k, w', r.truncated))
  {
    ExpandAllKeeps(c, g, k, o, depth, k.inOrder(r.frontier.Keys), r.frontier, r.walk.(next := map[]), w');
    var onward := Decide(c, k, w', r.truncated).frontier;
    forall p | p in onward ensures Waiting(o, w'.log, p, onward[p], depth + 1) {
      assert Waiting(o, w'.log, p, w'.next[p], depth + 1);
    }
  }

  /** What is left of the invariant when the walk is over. */
  ghost predicate Finished(c: Config, g: Graph, o: Origin, w: Walk) {
    && LogOk(c, g, o, w.log)
    && w.visitedPrs == o.members + PrsOf(w.log)
    && (forall i :: 0 <= i < |w.log| ==> w.log[i].depth <= c.maxDepth)
  }

  /** Whatever every generation keeps, from one head of the depth loop to the next, holds at the end. */
  lemma {:induction false} RoundsKeep(limit: int, body: (int, Round) -> Round, inv: (int, Round) -> bool, depth: int,
      r: Round)
      returns (last: int)
    requires inv(depth, r)
    requires forall d: int, s: Round :: depth <= d <= limit && s.going && inv(d, s) ==> inv(d + 1, body(d, s))
    ensures inv(last, Rounds(limit, body, depth, r))
    ensures depth <= last && (last == depth || last <= limit + 1)
    ensures last > limit || !Rounds(limit, body, depth, r).going
    decreases limit - depth
  {
    if depth > limit || !r.going {
      last := depth;
    } else {
      last := RoundsKeep(limit, body, inv, depth + 1, body(depth, r));
    }
  }

  lemma EveryRoundOk(c: Config, g: Graph, k: Lookup, o: Origin)
    requires LookupOk(g, k)
    ensures forall d: int, r: Round ::
      1 <= d && RoundOk(c, g, o, d, r) ==> RoundOk(c, g, o, d + 1, NextRound(c, k, d, r))
  {
    forall d: int, r: Round | 1 <= d && RoundOk(c, g, o, d, r) ensures RoundOk(c, g, o, d + 1, NextRound(c, k, d, r)) {
      NextRoundOk(c, g, k, o, d, r, Generation(c, k, d, r.frontier, r.walk));
    }
  }

  lemma LoopIsOk(c: Config, g: Graph, k: Lookup, o: Origin, first: Round)
    requires LookupOk(g, k) && RoundOk(c, g, o, 1, first) && first.walk.log == []
    ensures Finished(c, g, o, WalkWith(c, k, first).walk)
  {
    var body := Body(c, k);
    var inv := (d: int, r: Round) => RoundOk(c, g, o, d, r);
    EveryRoundOk(c, g, k, o);
    var last := RoundsKeep(c.maxDepth, body, inv, 1, first);
    assert RoundOk(c, g, o, last, Rounds(c.maxDepth, body, 1, first));
  }

  lemma WalkIsOk(c: Config, g: Graph, o: Origin)
    ensures Finished(c, g, o, WalkOf(c, g, o.sources, o.members).walk)
  {
    GraphLookupOk(c, g);
    LoopIsOk(c, g, GraphLookup(c, g), o, FirstRound(o.sources, o.members));
  }

  // ----- witness chains -----

  /** The indices of a chain of adoptions, from a source path to the event at its end. */
  ghost predicate IsChain(o: Origin, log: seq<Event>, chain: seq<nat>) {
    && chain != []
    && (forall k :: 0 <= k < |chain| ==> chain[k] < |log|)
    && FromSource(o, log[chain[0]])
    && (forall k :: 0 <= k < |chain| - 1 ==> chain[k] < chain[k + 1] && CarriesOn(log[chain[k]], log[chain[k + 1]]))
  }

  /** The product of the decay factors along a chain. */
  ghost function Decayed(c: Config, log: seq<Event>, chain: seq<nat>): real
    requires forall k :: 0 <= k < |chain| ==> chain[k] < |log|
  {
    if chain == [] then 1.0
    else
      var e := log[chain[|chain| - 1]];
      Decayed(c, log, chain[..|chain| - 1]) * c.decay(Days(e.availableAt, e.adoptedAt))
  }

  /** What `ChainOf` returns for event `i`. */
  ghost predicate Explains(c: Config, o: Origin, log: seq<Event>, i: nat, chain: seq<nat>)
    requires i < |log|
  {
    && IsChain(o, log, chain) && chain[|chain| - 1] == i && |chain| == log[i].depth
    && log[i].contribution == o.sources[log[chain[0]].path].weight * Decayed(c, log, chain)
  }

  lemma ChainStarts(c: Config, g: Graph, o: Origin, log: seq<Event>, i: nat)
    requires i < |log| && EventOk(c, g, o, log, i) && log[i].parent == -1
    ensures Explains(c, o, log, i, [i])
  {
    var e := log[i];
    assert [i][..0] == [] && Decayed(c, log, []) == 1.0;
    assert Decayed(c, log, [i]) == c.decay(Days(e.availableAt, e.adoptedAt));
  }

  lemma ChainExtends(c: Config, g: Graph, o: Origin, log: seq<Event>, i: nat, before: seq<nat>)
    requires i < |log| && EventOk(c, g, o, log, i) && log[i].parent != -1
    requires Explains(c, o, log, log[i].parent, before)
    ensures Explains(c, o, log, i, before + [i])
  {
    var e, chain := log[i], before + [i];
    assert chain[..|before|] == before && chain[0] == before[0];
    forall k | 0 <= k < |chain| - 1 ensures chain[k] < chain[k + 1] && CarriesOn(log[chain[k]], log[chain[k + 1]]) {
      if k < |before| - 1 { assert chain[k] == before[k] && chain[k + 1] == before[k + 1]; }
    }
    ContributionStep(o.sources[log[chain[0]].path].weight, Decayed(c, log, before),
      c.decay(Days(e.availableAt, e.adoptedAt)));
  }

  lemma {:induction false} ChainOf(c: Config, g: Graph, o: Origin, log: seq<Event>, i: nat) returns (chain: seq<nat>)
    requires LogOk(c, g, o, log) && i < |log|
    ensures Explains(c, o, log, i, chain)
    decreases i
  {
    assert EventOk(c, g, o, log, i);
    if log[i].parent == -1 {
      ChainStarts(c, g, o, log, i);
      chain := [i];
    } else {
      var before := ChainOf(c, g, o, log, log[i].parent);
      ChainExtends(c, g, o, log, i, before);
      chain := before + [i];
    }
  }

  lemma {:induction false} ChainRises(c: Config, g: Graph, o: Origin, log: seq<Event>, chain: seq<nat>, k: nat, m: nat)
    requires LogOk(c, g, o, log) && IsChain(o, log, chain) && k < m < |chain|
    ensures chain[k] < chain[m] && log[chain[k]].adoptedAt < log[chain[m]].adoptedAt
    decreases m
  {
    assert CarriesOn(log[chain[m - 1]], log[chain[m - 1 + 1]]);
    assert EventOk(c, g, o, log, chain[m]);
    if k < m - 1 { ChainRises(c, g, o, log, chain, k, m - 1); }
  }

  /**
   Every adoption at depth d has a chain of d import hops from an episode source; merge times rise
   strictly along it, its PRs are distinct and outside the episode, and its contribution is the
   source's weight times the decay factors.
   */
  lemma WitnessChain(c: Config, g: Graph, o: Origin, w: Walk, i: nat) returns (chain: seq<nat>)
    requires Finished(c, g, o, w) && i < |w.log|
    ensures IsChain(o, w.log, chain) && chain[|chain| - 1] == i && |chain| == w.log[i].depth <= c.maxDepth
    ensures forall k :: 0 <= k < |chain| ==>
              var e := w.log[chain[k]];
              && IsAdoption(g, e.path, Adoption(e.importer, e.pr, e.adoptedAt))
              && e.availableAt < e.adoptedAt && e.pr !in o.members
    ensures forall k, m :: 0 <= k < m < |chain| ==>
              w.log[chain[k]].adoptedAt < w.log[chain[m]].adoptedAt && w.log[chain[k]].pr != w.log[chain[m]].pr
    ensures w.log[i].contribution == o.sources[w.log[chain[0]].path].weight * Decayed(c, w.log, chain)
  {
    chain := ChainOf(c, g, o, w.log, i);
    forall k | 0 <= k < |chain| ensures EventOk(c, g, o, w.log, chain[k]) {}
    forall k, m | 0 <= k < m < |chain|
      ensures w.log[chain[k]].adoptedAt < w.log[chain[m]].adoptedAt && w.log[chain[k]].pr != w.log[chain[m]].pr
    {
      ChainRises(c, g, o, w.log, chain, k, m);
    }
    assert w.log[i] in w.log;
  }

  lemma ContributionStep(weight: real, decayed: real, factor: real)
    ensures (weight * decayed) * factor == weight * (decayed * factor)
  {
  }

  lemma {:induction false} DecayedIsAShare(c: Config, log: seq<Event>, chain: seq<nat>)
    requires ValidConfig(c) && forall k :: 0 <= k < |chain| ==> chain[k] < |log|
    ensures 0.0 <= Decayed(c, log, chain) <= 1.0
  {
    if chain != [] {
      DecayedIsAShare(c, log, chain[..|chain| - 1]);
      var e := log[chain[|chain| - 1]];
      ProductOfShares(Decayed(c, log, chain[..|chain| - 1]), c.decay(Days(e.availableAt, e.adoptedAt)));
    }
  }

  lemma ProductOfShares(a: real, b: real)
    requires 0.0 <= a <= 1.0 && 0.0 <= b <= 1.0
    ensures 0.0 <= a * b <= 1.0
  {
    ShareOfWeight(a, b);
  }

  lemma ShareOfWeight(weight: real, share: real)
    requires weight >= 0.0 && 0.0 <= share <= 1.0
    ensures 0.0 <= weight * share <= weight
  {
    assert weight * (1.0 - share) >= 0.0;
  }

  /** No adoption carries more than the weight of some source of the episode. */
  lemma ContributionBounded(c: Config, g: Graph, o: Origin, w: Walk, i: nat)
    requires ValidConfig(c) && Finished(c, g, o, w) && i < |w.log|
    requires forall p :: p in o.sources ==> o.sources[p].weight >= 0.0
    ensures exists p :: p in o.sources && 0.0 <= w.log[i].contribution <= o.sources[p].weight
  {
    var chain := WitnessChain(c, g, o, w, i);
    DecayedIsAShare(c, w.log, chain);
    var p := w.log[chain[0]].path;
    var weight, share := o.sources[p].weight, Decayed(c, w.log, chain);
    ShareOfWeight(weight, share);
    var contribution := w.log[i].contribution;
    assert contribution == weight * share;
    assert contribution <= weight;
    assert p in o.sources && 0.0 <= contribution <= o.sources[p].weight;
  }

  // ----- the books balance -----

  function DepthCount(log: seq<Event>, depth: int): nat {
    if log == [] then 0 else DepthCount(log[..|log| - 1], depth) + if log[|log| - 1].depth == depth then 1 else 0
  }

  lemma NewPr(front: seq<Event>, e: Event)
    requires forall i :: 0 <= i < |front| ==> front[i].pr != e.pr
    ensures e.pr !in PrsOf(front)
  {
  }

  lemma {:induction false} PrsCounted(log: seq<Event>)
    requires forall i, j :: 0 <= i < j < |log| ==> log[i].pr != log[j].pr
    ensures |PrsOf(log)| == |log|
  {
    if log == [] {
      assert PrsOf(log) == {};
    } else {
      var front, e := log[..|log| - 1], log[|log| - 1];
      PrsCounted(front);
      assert log == front + [e];
      PrsOfAppend(front, e);
      NewPr(front, e);
    }
  }

  /** Total of the histogram over depths 1 to `d`. */
  function HistogramSum(log: seq<Event>, d: nat): nat {
    if d == 0 then 0 else HistogramSum(log, d - 1) + DepthCount(log, d)
  }

  lemma {:induction false} HistogramSumAppend(log: seq<Event>, e: Event, d: nat)
    ensures HistogramSum(log + [e], d) == HistogramSum(log, d) + if 1 <= e.depth <= d then 1 else 0
  {
    assert (log + [e])[..|log|] == log;
    if d > 0 { HistogramSumAppend(log, e, d - 1); }
  }

  lemma {:induction false} NothingCounted(d: nat)
    ensures HistogramSum([], d) == 0
  {
    if d > 0 { NothingCounted(d - 1); }
  }

  lemma {:induction false} HistogramTotal(log: seq<Event>, d: nat)
    requires forall e :: e in log ==> 1 <= e.depth <= d
    ensures HistogramSum(log, d) == |log|
  {
    if log == [] {
      NothingCounted(d);
    } else {
      var front, e := log[..|log| - 1], log[|log| - 1];
      assert log == front + [e] && e in log;
      HistogramTotal(front, d);
      HistogramSumAppend(front, e, d);
    }
  }

  lemma {:induction false} DepthCountPositive(log: seq<Event>, depth: int)
    ensures DepthCount(log, depth) > 0 <==> exists i :: 0 <= i < |log| && log[i].depth == depth
  {
    if log != [] {
      var front := log[..|log| - 1];
      DepthCountPositive(front, depth);
      if i :| 0 <= i < |front| && front[i].depth == depth { assert log[i].depth == depth; }
      if i :| 0 <= i < |log| && log[i].depth == depth {
        if i < |front| { assert front[i].depth == depth; }
      }
    }
  }

  /** Depths occur without gaps: an event at depth d has ancestors at every smaller depth. */
  lemma {:induction false} NoDepthSkipped(c: Config, g: Graph, o: Origin, log: seq<Event>, i: nat, d: int)
    requires LogOk(c, g, o, log) && i < |log| && 1 <= d <= log[i].depth
    ensures exists j :: 0 <= j < |log| && log[j].depth == d
    decreases i
  {
    if log[i].depth > d {
      assert EventOk(c, g, o, log, i);
      NoDepthSkipped(c, g, o, log, log[i].parent, d);
    }
  }

  /**
   Adoption events are exactly the non-member PRs visited, each once, and exactly the histogram's
   total; the histogram's depths are 1, 2, ... up to some depth within the limit.
   */
  lemma BooksBalance(c: Config, g: Graph, o: Origin, w: Walk) returns (deepest: nat)
    requires Finished(c, g, o, w)
    ensures |w.log| == |w.visitedPrs - o.members|
    ensures forall i, j :: 0 <= i < j < |w.log| ==> w.log[i].pr != w.log[j].pr
    ensures deepest == 0 || deepest <= c.maxDepth
    ensures forall d :: DepthCount(w.log, d) > 0 <==> 1 <= d <= deepest
    ensures HistogramSum(w.log, deepest) == |w.log|
  {
    PrsCounted(w.log);
    assert w.visitedPrs - o.members == PrsOf(w.log) by {
      forall e | e in w.log ensures e.pr !in o.members {
        var i :| 0 <= i < |w.log| && w.log[i] == e;
        assert EventOk(c, g, o, w.log, i);
      }
    }
    deepest := Deepest(c, g, o, w.log);
    forall d ensures DepthCount(w.log, d) > 0 <==> 1 <= d <= deepest {
      DepthCountPositive(w.log, d);
      if 1 <= d <= deepest {
        var i :| 0 <= i < |w.log| && w.log[i].depth == deepest;
        NoDepthSkipped(c, g, o, w.log, i, d);
      }
      if i :| 0 <= i < |w.log| && w.log[i].depth == d { assert w.log[i] in w.log; assert EventOk(c, g, o, w.log, i); }
    }
    HistogramTotal(w.log, deepest);
  }

  lemma {:induction false} Deepest(c: Config, g: Graph, o: Origin, log: seq<Event>) returns (d: nat)
    requires LogOk(c, g, o, log)
    ensures forall e :: e in log ==> 1 <= e.depth <= d
    ensures d > 0 ==> exists i :: 0 <= i < |log| && log[i].depth == d
    ensures d == 0 ==> log == []
  {
    d := 0;
    for k := 0 to |log|
      invariant forall i :: 0 <= i < k ==> 1 <= log[i].depth <= d
      invariant d > 0 ==> exists i :: 0 <= i < k && log[i].depth == d
      invariant d == 0 ==> k == 0
    {
      assert EventOk(c, g, o, log, k);
      if log[k].depth > d { d := log[k].depth; }
    }
  }

  // ----- the event budget -----

  function Budget(c: Config): int { if c.maxEvents > 1 then c.maxEvents else 1 }

  /** Nothing is adopted once the budget is spent. */
  ghost predicate WithinBudget(c: Config, w: Walk) {
    |w.log| <= Budget(c) && (|w.log| < Budget(c) || BudgetSpent(c, w))
  }

  lemma {:induction false} ExamineWithinBudget(c: Config, depth: int, path: Path, entry: Entry,
      adopters: seq<Adoption>, w: Walk)
    requires entry.at.Some? && |w.log| < Budget(c)
    ensures WithinBudget(c, Examine(c, depth, path, entry, adopters, w))
    decreases |adopters|
  {
    if adopters != [] {
      var w1 := if Skips(entry.at.value, adopters[0], w) then w
        else Adopt(w, EventOf(c, depth, path, entry, adopters[0]));
      if w1 == w || !BudgetSpent(c, w1) { ExamineWithinBudget(c, depth, path, entry, adopters[1..], w1); }
    }
  }

  lemma {:induction false} ExpandAllWithinBudget(c: Config, k: Lookup, depth: int, paths: seq<Path>,
      frontier: map<Path, Entry>, w: Walk)
    requires |w.log| < Budget(c)
    ensures WithinBudget(c, ExpandAll(c, k, depth, paths, frontier, w))
    decreases |paths|
  {
    if paths != [] {
      var p := paths[0];
      if p !in frontier || frontier[p].at.None? {
        ExpandAllWithinBudget(c, k, depth, paths[1..], frontier, w);
      } else {
        ExamineWithinBudget(c, depth, p, frontier[p], k.adopters(p), w);
        var w1 := ExpandPath(c, k, depth, p, frontier[p], w);
        if !BudgetSpent(c, w1) { ExpandAllWithinBudget(c, k, depth, paths[1..], frontier, w1); }
      }
    }
  }

  ghost predicate RoundWithinBudget(c: Config, r: Round) {
    |r.walk.log| <= Budget(c) && (r.going ==> |r.walk.log| < Budget(c))
  }

  lemma NextRoundWithinBudget(c: Config, k: Lookup, depth: int, r: Round)
    requires r.going && RoundWithinBudget(c, r)
    ensures RoundWithinBudget(c, NextRound(c, k, depth, r))
  {
    ExpandAllWithinBudget(c, k, depth, k.inOrder(r.frontier.Keys), r.frontier, r.walk.(next := map[]));
  }

  /** The event budget bounds the walk; a budget below one still lets a single event through. */
  lemma EventsWithinBudget(c: Config, k: Lookup, first: Round)
    requires first.walk.log == []
    ensures |WalkWith(c, k, first).walk.log| <= Budget(c)
  {
    var body := Body(c, k);
    var inv := (d: int, r: Round) => RoundWithinBudget(c, r);
    forall d: int, r: Round | r.going && inv(d, r) ensures inv(d + 1, body(d, r)) { NextRoundWithinBudget(c, k, d, r); }
    var last := RoundsKeep(c.maxDepth, body, inv, 1, first);
    assert inv(last, Rounds(c.maxDepth, body, 1, first));
  }

  // ----- nothing is missed unless the walk says so -----

  /** Where the entry of an expanded or waiting path comes from: its time is a source's or an adoption's. */
  ghost predicate Known(o: Origin, log: seq<Event>, p: Path, entry: Entry) {
    if entry.parent == -1 then p in o.sources && o.sources[p].at == entry.at
    else 0 <= entry.parent < |log| && log[entry.parent].importer == p && entry.at == Some(log[entry.parent].adoptedAt)
  }

  ghost predicate AllKnown(o: Origin, log: seq<Event>, m: map<Path, Entry>) {
    forall p :: p in m ==> Known(o, log, p, m[p]) && (p in o.sources ==> m[p].parent == -1)
  }

  /** Every adopter of an expanded path, strictly after the path became available, has been visited. */
  ghost predicate Examined(k: Lookup, w: Walk) {
    && (forall p :: p in w.expanded ==> w.expanded[p].at.Some?)
    && (forall p, a :: p in w.expanded && a in k.adopters(p) && a.at > w.expanded[p].at.value ==> a.pr in w.visitedPrs)
  }

  lemma ExaminedGrows(k: Lookup, w: Walk, w': Walk)
    requires Examined(k, w) && w'.expanded == w.expanded && w.visitedPrs <= w'.visitedPrs
    ensures Examined(k, w')
  {
    forall p, a | p in w'.expanded && a in k.adopters(p)
      && a.at > w'.expanded[p].at.value ensures a.pr in w'.visitedPrs {
      assert p in w.expanded;
    }
  }

  predicate Timeless(o: Origin, p: Path) { p in o.sources && o.sources[p].at.None? }

  predicate Settled(o: Origin, w: Walk, p: Path) { p in w.expanded || Timeless(o, p) }

  /** How a walk grows within the generation of `depth`. */
  ghost predicate Extends(depth: int, w: Walk, w': Walk) {
    && w.log <= w'.log
    && (forall i :: |w.log| <= i < |w'.log| ==> w'.log[i].depth == depth && w'.log[i].importer in w'.visitedPaths)
    && w.visitedPrs <= w'.visitedPrs
    && w.visitedPaths <= w'.visitedPaths
    && w.next.Keys <= w'.next.Keys
    && w.expanded.Keys <= w'.expanded.Keys
    && (forall p :: p in w'.visitedPaths ==> p in w.visitedPaths || p in w'.next)
  }

  lemma ExtendsTransitive(depth: int, w: Walk, w1: Walk, w': Walk)
    requires Extends(depth, w, w1) && Extends(depth, w1, w')
    ensures Extends(depth, w, w')
  {
    forall i | |w.log| <= i < |w'.log| ensures w'.log[i].depth == depth && w'.log[i].importer in w'.visitedPaths {
      if i < |w1.log| { assert w'.log[i] == w1.log[i]; }
    }
  }

  lemma AllKnownGrows(o: Origin, log: seq<Event>, log': seq<Event>, m: map<Path, Entry>)
    requires AllKnown(o, log, m) && log <= log'
    ensures AllKnown(o, log', m)
  {
    forall p | p in m ensures Known(o, log', p, m[p]) && (p in o.sources ==> m[p].parent == -1) {
      assert Known(o, log, p, m[p]);
    }
  }

  /** The part of the invariant that concerns completeness, during a generation. */
  ghost predicate Tracked(k: Lookup, o: Origin, w: Walk) {
    && o.sources.Keys <= w.visitedPaths
    && AllKnown(o, w.log, w.next)
    && AllKnown(o, w.log, w.expanded)
    && Examined(k, w)
    && (forall p :: p in w.next ==> p !in o.sources)
  }

  lemma AdoptTracks(c: Config, k: Lookup, o: Origin, depth: int, path: Path, entry: Entry, a: Adoption, w: Walk,
      w': Walk)
    requires entry.at.Some? && Tracked(k, o, w)
    requires w' == Adopt(w, EventOf(c, depth, path, entry, a))
    ensures Tracked(k, o, w') && Extends(depth, w, w') && a.pr in w'.visitedPrs
  {
    AllKnownGrows(o, w.log, w'.log, w.next);
    AllKnownGrows(o, w.log, w'.log, w.expanded);
    ExaminedGrows(k, w, w');
    assert w'.log[|w.log|] == EventOf(c, depth, path, entry, a);
  }

  lemma {:induction false} ExamineTracks(c: Config, k: Lookup, o: Origin, depth: int, path: Path, entry: Entry,
      adopters: seq<Adoption>, w: Walk, w': Walk)
    requires entry.at.Some? && Tracked(k, o, w)
    requires w' == Examine(c, depth, path, entry, adopters, w)
    ensures Tracked(k, o, w') && Extends(depth, w, w') && w'.expanded == w.expanded
    ensures !BudgetSpent(c, w') ==> forall a :: a in adopters && a.at > entry.at.value ==> a.pr in w'.visitedPrs
    decreases |adopters|
  {
    if adopters != [] {
      var a := adopters[0];
      if Skips(entry.at.value, a, w) {
        ExamineTracks(c, k, o, depth, path, entry, adopters[1..], w, w');
      } else {
        var w1 := Adopt(w, EventOf(c, depth, path, entry, a));
        AdoptTracks(c, k, o, depth, path, entry, a, w, w1);
        if !BudgetSpent(c, w1) {
          ExamineTracks(c, k, o, depth, path, entry, adopters[1..], w1, w');
          ExtendsTransitive(depth, w, w1, w');
        }
      }
    }
  }

  lemma ExpandPathTracks(c: Config, k: Lookup, o: Origin, depth: int, path: Path, entry: Entry, w: Walk, w': Walk)
    requires entry.at.Some? && Tracked(k, o, w)
    requires Known(o, w.log, path, entry) && (path in o.sources ==> entry.parent == -1)
    requires w' == ExpandPath(c, k, depth, path, entry, w)
    ensures Tracked(k, o, w') && Extends(depth, w, w')
    ensures !BudgetSpent(c, w') ==> path in w'.expanded
  {
    var w1 := Examine(c, depth, path, entry, k.adopters(path), w);
    ExamineTracks(c, k, o, depth, path, entry, k.adopters(path), w, w1);
    if !BudgetSpent(c, w1) {
      forall p, a | p in w'.expanded && a in k.adopters(p)
        && a.at > w'.expanded[p].at.value ensures a.pr in w'.visitedPrs {
        assert p != path ==> p in w1.expanded;
      }
      AllKnownGrows(o, w.log, w1.log, map[path := entry]);
    }
  }

  lemma {:induction false} ExpandAllTracks(c: Config, k: Lookup, o: Origin, depth: int, paths: seq<Path>,
      frontier: map<Path, Entry>, w: Walk, w': Walk)
    requires Tracked(k, o, w) && AllKnown(o, w.log, frontier)
    requires w' == ExpandAll(c, k, depth, paths, frontier, w)
    ensures Tracked(k, o, w') && Extends(depth, w, w')
    ensures !BudgetSpent(c, w') ==> forall p :: p in paths && p in frontier ==> Settled(o, w', p)
    decreases |paths|
  {
    if paths != [] {
      var p := paths[0];
      if p !in frontier || frontier[p].at.None? {
        ExpandAllTracks(c, k, o, depth, paths[1..], frontier, w, w');
      } else {
        var w1 := ExpandPath(c, k, depth, p, frontier[p], w);
        ExpandPathTracks(c, k, o, depth, p, frontier[p], w, w1);
        if !BudgetSpent(c, w1) {
          AllKnownGrows(o, w.log, w1.log, frontier);
          ExpandAllTracks(c, k, o, depth, paths[1..], frontier, w1, w');
          ExtendsTransitive(depth, w, w1, w');
        }
      }
    }
  }

  /** At the head of the depth loop, as long as nothing has been cut. */
  ghost predicate RoundTracked(k: Lookup, o: Origin, depth: int, r: Round) {
    && Tracked(k, o, r.walk)
    && AllKnown(o, r.walk.log, r.frontier)
    && (!r.going ==> r.frontier == map[])
    && (depth > 1 ==> forall p :: p in r.frontier ==> p !in o.sources)
    && (forall p :: p in r.walk.visitedPaths ==> Settled(o, r.walk, p) || p in r.frontier)
    && (forall i :: 0 <= i < |r.walk.log| ==> r.walk.log[i].importer in r.walk.visitedPaths)
    && (forall i ::
      0 <= i < |r.walk.log| && r.walk.log[i].depth < depth - 1 ==> Settled(o, r.walk, r.walk.log[i].importer))
  }

  lemma NextRoundTracked(c: Config, g: Graph, k: Lookup, o: Origin, depth: int, r: Round, w': Walk)
    requires LookupOk(g, k) && depth >= 1 && r.going && !r.truncated && RoundTracked(k, o, depth, r)
    requires w' == Generation(c, k, depth, r.frontier, r.walk)
    ensures var r' := Decide(c, k, w', r.truncated); r'.truncated || RoundTracked(k, o, depth + 1, r')
  {
    var w := r.walk.(next := map[]);
    ExpandAllTracks(c, k, o, depth, k.inOrder(r.frontier.Keys), r.frontier, w, w');
    if !Decide(c, k, w', r.truncated).truncated {
      forall p | p in w.visitedPaths ensures Settled(o, w', p) {}
      forall i | 0 <= i < |w'.log|
        ensures w'.log[i].importer in w'.visitedPaths
        ensures w'.log[i].depth < depth ==> Settled(o, w', w'.log[i].importer)
      {
        if i < |w.log| { assert w'.log[i] == w.log[i]; }
      }
    }
  }

  /**
   If the walk does not report truncation, every source with a time was expanded, and so was every
   importer reached short of the last generation; and whatever touched an importer of an expanded
   path strictly after that path became available is counted, or belongs to the episode.
   */
  ghost predicate NothingMissed(c: Config, g: Graph, o: Origin, w: Walk) {
    && (forall p :: p in o.sources && o.sources[p].at.Some? ==> p in w.expanded && w.expanded[p].at == o.sources[p].at)
    && (forall i :: 0 <= i < |w.log| && w.log[i].depth < c.maxDepth ==> Settled(o, w, w.log[i].importer))
    && (forall p :: p in w.expanded ==> w.expanded[p].at.Some? && Known(o, w.log, p, w.expanded[p]))
    && (forall p, a :: p in w.expanded && IsAdoption(g, p, a) && a.at > w.expanded[p].at.value ==>
          a.pr in o.members || a.pr in PrsOf(w.log))
  }

  lemma TrackedToTheEnd(c: Config, g: Graph, k: Lookup, o: Origin, first: Round) returns (last: int)
    requires LookupOk(g, k) && RoundTracked(k, o, 1, first) && !first.truncated && first.going && c.maxDepth >= 1
    ensures var r := WalkWith(c, k, first);
            last >= 1 && (r.truncated || (RoundTracked(k, o, last, r) && (last > c.maxDepth || !r.going)))
  {
    var body := Body(c, k);
    var inv := (d: int, r: Round) => r.truncated || RoundTracked(k, o, d, r);
    forall d: int, r: Round | 1 <= d && r.going && inv(d, r) ensures inv(d + 1, body(d, r)) {
      if !r.truncated { NextRoundTracked(c, g, k, o, d, r, Generation(c, k, d, r.frontier, r.walk)); }
    }
    last := RoundsKeep(c.maxDepth, body, inv, 1, first);
    assert inv(last, Rounds(c.maxDepth, body, 1, first));
  }

  lemma TrackedMissesNothing(c: Config, g: Graph, k: Lookup, o: Origin, last: int, r: Round)
    requires LookupOk(g, k) && RoundTracked(k, o, last, r) && (last > c.maxDepth >= 1 || !r.going)
    requires r.walk.visitedPrs == o.members + PrsOf(r.walk.log)
    ensures NothingMissed(c, g, o, r.walk)
  {
    var w := r.walk;
    forall p, a | p in w.expanded && IsAdoption(g, p, a) && a.at > w.expanded[p].at.value
      ensures a.pr in o.members || a.pr in PrsOf(w.log)
    {
      assert a in k.adopters(p);
    }
    forall i | 0 <= i < |w.log| && w.log[i].depth < c.maxDepth ensures Settled(o, w, w.log[i].importer) {}
  }

  lemma FirstRoundTracked(k: Lookup, o: Origin)
    ensures RoundTracked(k, o, 1, FirstRound(o.sources, o.members))
  {
  }

  /** The walk of `propagate` misses nothing unless it reports truncation. */
  lemma WalkMissesNothing(c: Config, g: Graph, o: Origin)
    requires c.maxDepth >= 1
    ensures var r := WalkOf(c, g, o.sources, o.members); r.truncated || NothingMissed(c, g, o, r.walk)
  {
    var k, first := GraphLookup(c, g), FirstRound(o.sources, o.members);
    GraphLookupOk(c, g);
    WalkIsOk(c, g, o);
    FirstRoundTracked(k, o);
    MissesNothing(c, g, k, o, first);
  }

  lemma MissesNothing(c: Config, g: Graph, k: Lookup, o: Origin, first: Round)
    requires LookupOk(g, k) && RoundTracked(k, o, 1, first) && !first.truncated && first.going && c.maxDepth >= 1
    requires Finished(c, g, o, WalkWith(c, k, first).walk)
    ensures WalkWith(c, k, first).truncated || NothingMissed(c, g, o, WalkWith(c, k, first).walk)
  {
    var last := TrackedToTheEnd(c, g, k, o, first);
    var r := WalkWith(c, k, first);
    if !r.truncated { TrackedMissesNothing(c, g, k, o, last, r); }
  }

  // ----- the beam -----

  lemma BeamLeIsTotalOrder()
    ensures IsTotalOrder(BeamLe)
  {
    StringLeIsTotalOrder();
  }

  lemma {:induction false} KeysCounted(next: map<Path, Entry>, paths: set<Path>)
    requires paths <= next.Keys
    ensures |set p | p in paths :: BeamKey(next[p].weight, p)| == |paths|
  {
    if paths != {} {
      var p :| p in paths;
      KeysCounted(next, paths - {p});
      assert (set q | q in paths :: BeamKey(next[q].weight, q))
          == (set q | q in paths - {p} :: BeamKey(next[q].weight, q)) + {BeamKey(next[p].weight, p)};
    }
  }

  lemma BeamOrder(next: map<Path, Entry>) returns (order: seq<BeamKey>)
    ensures order == SortedSet(BeamKeys(next), BeamLe)
    ensures SortedBy(order, BeamLe) && Distinct(order) && |order| == |next|
    ensures forall key :: key in order <==> key in BeamKeys(next)
  {
    order := SortedSet(BeamKeys(next), BeamLe);
    BeamLeIsTotalOrder();
    SortedSetSorted(BeamKeys(next), BeamLe);
    SortedSetDistinct(BeamKeys(next), BeamLe);
    SortedSetElements(BeamKeys(next), BeamLe);
    KeysCounted(next, next.Keys);
    assert |multiset(order)| == |multiset(BeamKeys(next))|;
    assert BeamKeys(next) == set p | p in next.Keys :: BeamKey(next[p].weight, p);
    assert |next.Keys| == |next|;
  }

  /** The cap keeps as much as it may. */
  lemma BeamSize(next: map<Path, Entry>, k: nat)
    ensures |Strongest(next, k)| == if |next| <= k then |next| else k
  {
    var order := BeamOrder(next);
    var kept := if |order| <= k then order else order[..k];
    KeptCounted(next, kept);
    assert Strongest(next, k).Keys == PathsOf(next, kept);
    assert |Strongest(next, k).Keys| == |Strongest(next, k)|;
  }

  /** The cap drops nothing stronger than what it keeps. */
  lemma BeamKeepsStrongest(next: map<Path, Entry>, k: nat, p: Path, q: Path)
    requires p in Strongest(next, k) && q in next && q !in Strongest(next, k)
    ensures BeamLe(BeamKey(next[p].weight, p), BeamKey(next[q].weight, q))
    ensures next[p].weight >= next[q].weight
    ensures next[p].weight == next[q].weight ==> StringLe(p, q)
  {
    var order := BeamOrder(next);
    var kept := if |order| <= k then order else order[..k];
    var i :| 0 <= i < |kept| && kept[i] == BeamKey(next[p].weight, p);
    assert BeamKey(next[q].weight, q) in BeamKeys(next);
    var j :| 0 <= j < |order| && order[j] == BeamKey(next[q].weight, q);
    assert order[j] !in kept && forall x :: 0 <= x < |kept| ==> kept[x] == order[x];
    assert i < |kept| <= j && order[i] == kept[i];
  }

  ghost function PathsOf(next: map<Path, Entry>, keys: seq<BeamKey>): set<Path> {
    set p | p in next && BeamKey(next[p].weight, p) in keys
  }

  lemma OneMoreKept(next: map<Path, Entry>, front: seq<BeamKey>, last: BeamKey)
    requires last !in front && last in BeamKeys(next)
    ensures PathsOf(next, front + [last]) == PathsOf(next, front) + {last.path}
    ensures last.path !in PathsOf(next, front)
  {
    assert forall key :: key in front + [last] <==> key in front || key == last;
  }

  lemma {:induction false} KeptCounted(next: map<Path, Entry>, kept: seq<BeamKey>)
    requires Distinct(kept) && forall key :: key in kept ==> key in BeamKeys(next)
    ensures |PathsOf(next, kept)| == |kept|
  {
    if kept == [] {
      assert PathsOf(next, kept) == {};
    } else {
      var front, last := kept[..|kept| - 1], kept[|kept| - 1];
      assert kept == front + [last] && last in kept;
      KeptCounted(next, front);
      OneMoreKept(next, front, last);
    }
  }
}
