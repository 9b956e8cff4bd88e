/**
 `PropagationAnalyzer` as it runs: memoised adopter lists, nested loops with two levels of early
 exit, and running aggregates instead of a log. It computes exactly the walk of Propagation.
 */
module PropagationAnalyzer {
  import opened Collections
  import opened Ordering
  import opened EpisodeSources
  import opened Propagation
  import opened PropagationProofs

  // ----- the aggregates, as functions of the events -----

  function Mass(log: seq<Event>): real {
    if log == [] then 0.0 else Mass(log[..|log| - 1]) + log[|log| - 1].contribution
  }

  function Histogram(log: seq<Event>): map<int, nat> {
    if log == [] then map[] else Counted(Histogram(log[..|log| - 1]), log[|log| - 1].depth)
  }

  function Counted(m: map<int, nat>, d: int): map<int, nat> {
    m[d := (if d in m then m[d] else 0) + 1]
  }

  function Latest(log: seq<Event>): Option<int> {
    if log == [] then None else LaterOf(Latest(log[..|log| - 1]), log[|log| - 1].adoptedAt)
  }

  function LaterOf(a: Option<int>, b: int): Option<int> {
    if a.None? || b > a.value then Some(b) else a
  }

  /** `(days_between(...) or 1e9) <= window` */
  predicate IsRecent(c: Config, adoptedAt: int) {
    c.windowEnd.Some? &&
    var days := Days(adoptedAt, c.windowEnd.value);
    (if days == 0.0 then 1000000000.0 else days) <= c.persistenceDays
  }

  /**
   It differs from the plain window test for an adoption exactly at the window's end, whose distance of
   zero is falsy, and for no other. Adoptions after the window count.
   */
  lemma RecentExact(c: Config, adoptedAt: int)
    requires c.windowEnd.Some?
    ensures (IsRecent(c, adoptedAt) <==> Days(adoptedAt, c.windowEnd.value) <= c.persistenceDays)
            <==> !(adoptedAt == c.windowEnd.value && 0.0 <= c.persistenceDays < 1000000000.0)
    ensures adoptedAt > c.windowEnd.value && c.persistenceDays >= 0.0 ==> IsRecent(c, adoptedAt)
  {
  }

  function RecentCount(c: Config, log: seq<Event>): nat {
    if log == [] then 0
    else RecentCount(c, log[..|log| - 1]) + if IsRecent(c, log[|log| - 1].adoptedAt) then 1 else 0
  }

  ghost function ReachPaths(log: seq<Event>): set<Path> { set e | e in log :: e.importer }

  ghost function ReachComponents(g: Graph, log: seq<Event>): set<string> {
    set e | e in log && e.importer in g.componentOf && g.componentOf[e.importer] != "" :: g.componentOf[e.importer]
  }

  ghost function ReachAuthors(g: Graph, log: seq<Event>): set<string> {
    set e | e in log && e.pr in g.authorOf && g.authorOf[e.pr] != "" :: g.authorOf[e.pr]
  }

  function FirstRecorded(c: Config, log: seq<Event>): seq<Event> {
    if c.maxRecorded <= 0 then [] else if |log| <= c.maxRecorded then log else log[..c.maxRecorded]
  }

  datatype Summary = Summary(
    adoptionEvents: nat, edgesRecorded: nat, reachFiles: nat, reachPrs: nat,
    components: nat, authors: nat, maxPathDepth: int, depthHistogram: map<int, nat>,
    rawMass: real, massAfterCap: real, capApplied: bool,
    recentEvents: nat, persistent: bool, latest: Option<int>, truncated: bool)

  function EmptySummary(truncated: bool): Summary {
    Summary(0, 0, 0, 0, 0, 0, 0, map[], 0.0, 0.0, false, 0, false, None, truncated)
  }

  ghost function MaxDepth(log: seq<Event>): int {
    if log == [] then 0
    else var d := MaxDepth(log[..|log| - 1]); if log[|log| - 1].depth > d then log[|log| - 1].depth else d
  }

  /** What `_summarise_walk` reports for a walk that logged these events. */
  ghost function Summarised(c: Config, g: Graph, log: seq<Event>, truncated: bool): Summary {
    if log == [] then EmptySummary(truncated)
    else Summary(
      |log|, |FirstRecorded(c, log)|, |ReachPaths(log)|, |log|,
      |ReachComponents(g, log)|, |ReachAuthors(g, log)|, MaxDepth(log), Histogram(log),
      Mass(log), (if Mass(log) <= c.massCap then Mass(log) else c.massCap), Mass(log) > c.massCap,
      RecentCount(c, log), RecentCount(c, log) >= c.minPersistence, Latest(log), truncated)
  }

  // ----- the running state of the loops -----

  datatype Tally = Tally(
    events: nat, rawMass: real, reachPaths: set<Path>, components: set<string>, authors: set<string>,
    depthCounts: map<int, nat>, latest: Option<int>, recent: nat, edges: seq<Event>)

  datatype Running = Running(
    tally: Tally, visitedPaths: set<Path>, visitedPrs: set<Pr>, next: map<Path, Entry>)

  ghost predicate TallyOf(c: Config, g: Graph, t: Tally, log: seq<Event>) {
    CountersOf(c, t, log) && SetsOf(g, t, log)
  }

  ghost predicate CountersOf(c: Config, t: Tally, log: seq<Event>) {
    && t.events == |log|
    && t.rawMass == Mass(log)
    && t.depthCounts == Histogram(log)
    && t.latest == Latest(log)
    && t.recent == RecentCount(c, log)
    && t.edges == FirstRecorded(c, log)
  }

  ghost predicate SetsOf(g: Graph, t: Tally, log: seq<Event>) {
    && t.reachPaths == ReachPaths(log)
    && t.components == ReachComponents(g, log)
    && t.authors == ReachAuthors(g, log)
  }

  ghost predicate Represents(c: Config, g: Graph, s: Running, w: Walk) {
    && TallyOf(c, g, s.tally, w.log)
    && s.visitedPaths == w.visitedPaths
    && s.visitedPrs == w.visitedPrs
    && s.next == w.next
  }

  /** The body of the innermost loop, on the aggregates. */
  function Tallied(c: Config, g: Graph, t: Tally, e: Event): Tally {
    Tally(
      t.events + 1,
      t.rawMass + e.contribution,
      t.reachPaths + {e.importer},
      if e.importer in g.componentOf && g.componentOf[e.importer] != "" then t.components + {g.componentOf[e.importer]}
        else t.components,
      if e.pr in g.authorOf && g.authorOf[e.pr] != "" then t.authors + {g.authorOf[e.pr]} else t.authors,
      Counted(t.depthCounts, e.depth),
      LaterOf(t.latest, e.adoptedAt),
      t.recent + (if IsRecent(c, e.adoptedAt) then 1 else 0),
      if |t.edges| < c.maxRecorded then t.edges + [e] else t.edges)
  }

  lemma SetsGrow(g: Graph, log: seq<Event>, e: Event)
    ensures ReachPaths(log + [e]) == ReachPaths(log) + {e.importer}
    ensures ReachComponents(g, log + [e]) == ReachComponents(g, log) +
              if e.importer in g.componentOf && g.componentOf[e.importer] != "" then {g.componentOf[e.importer]} else {}
    ensures ReachAuthors(g, log + [e]) == ReachAuthors(g, log) +
              if e.pr in g.authorOf && g.authorOf[e.pr] != "" then {g.authorOf[e.pr]} else {}
  {
    assert forall x :: x in log + [e] <==> x in log || x == e;
  }

  lemma CountersGrow(c: Config, log: seq<Event>, e: Event)
    ensures Mass(log + [e]) == Mass(log) + e.contribution
    ensures Histogram(log + [e]) == Counted(Histogram(log), e.depth)
    ensures Latest(log + [e]) == LaterOf(Latest(log), e.adoptedAt)
    ensures RecentCount(c, log + [e]) == RecentCount(c, log) + if IsRecent(c, e.adoptedAt) then 1 else 0
    ensures MaxDepth(log + [e]) == if e.depth > MaxDepth(log) then e.depth else MaxDepth(log)
  {
    assert (log + [e])[..|log|] == log;
  }

  lemma RecordedGrow(c: Config, log: seq<Event>, e: Event)
    ensures var edges := FirstRecorded(c, log);
            FirstRecorded(c, log + [e]) == if |edges| < c.maxRecorded then edges + [e] else edges
  {
    if 0 < c.maxRecorded <= |log| { assert (log + [e])[..c.maxRecorded] == log[..c.maxRecorded]; }
  }

  lemma TalliedCounters(c: Config, g: Graph, t: Tally, log: seq<Event>, e: Event)
    requires CountersOf(c, t, log)
    ensures CountersOf(c, Tallied(c, g, t, e), log + [e])
  {
    CountersGrow(c, log, e);
    RecordedGrow(c, log, e);
  }

  lemma TalliedSets(c: Config, g: Graph, t: Tally, log: seq<Event>, e: Event)
    requires SetsOf(g, t, log)
    ensures SetsOf(g, Tallied(c, g, t, e), log + [e])
  {
    SetsGrow(g, log, e);
  }

  lemma TalliedIsTheTally(c: Config, g: Graph, t: Tally, log: seq<Event>, e: Event)
    requires TallyOf(c, g, t, log)
    ensures TallyOf(c, g, Tallied(c, g, t, e), log + [e])
  {
    TalliedCounters(c, g, t, log, e);
    TalliedSets(c, g, t, log, e);
  }

  lemma TalliedRepresents(c: Config, g: Graph, s: Running, w: Walk, e: Event, s': Running)
    requires Represents(c, g, s, w)
    requires s' == Running(Tallied(c, g, s.tally, e), s.visitedPaths + {e.importer}, s.visitedPrs + {e.pr},
                     if e.importer in s.visitedPaths then s.next
                     else s.next[e.importer := Entry(Some(e.adoptedAt), e.contribution, s.tally.events)])
    ensures Represents(c, g, s', Adopt(w, e))
  {
    TalliedIsTheTally(c, g, s.tally, w.log, e);
  }

  // ----- the analyzer -----

  class Analyzer {
    const config: Config
    const graph: Graph
    var adoptersCache: map<Path, seq<Adoption>>

    /** The cache never disagrees with the graph. */
    ghost predicate Valid()
      reads this
    {
      forall p :: p in adoptersCache ==> adoptersCache[p] == Adopters(graph, p)
    }

    constructor (config: Config, graph: Graph)
      ensures Valid() && this.config == config && this.graph == graph && adoptersCache == map[]
    {
      this.config := config;
      this.graph := graph;
      adoptersCache := map[];
    }

    method TouchesOf(importer: Path) returns (out: seq<Adoption>)
      ensures out == MergedTouches(graph, importer, Touches(graph, importer))
    {
      out := [];
      var touches := Touches(graph, importer);
      for j := 0 to |touches|
        invariant out == MergedTouches(graph, importer, touches[..j])
      {
        assert touches[..j + 1][..j] == touches[..j];
        var when := MergeTime(graph, touches[j]);
        if when.Some? { out := out + [Adoption(importer, touches[j], when.value)]; }
      }
      assert touches[..|touches|] == touches;
    }

    method CollectAdopters(path: Path) returns (out: seq<Adoption>)
      ensures out == Adopters(graph, path)
    {
      StringLeIsTotalOrder();
      var importers := SortSet(Importers(graph, path), StringLe);
      out := [];
      for i := 0 to |importers|
        invariant out == AllTouches(graph, importers[..i])
      {
        var more := TouchesOf(importers[i]);
        NextTouches(graph, importers, i);
        out := out + more;
      }
      assert importers[..|importers|] == importers;
      out := Sort(out, AdoptionLe);
    }

    /** Served from the cache when the path was asked for before, and always the same list. */
    method AdoptersOf(path: Path) returns (out: seq<Adoption>)
      requires Valid()
      modifies this
      ensures Valid() && out == Adopters(graph, path)
      ensures adoptersCache == old(adoptersCache)[path := out]
    {
      if path in adoptersCache {
        out := adoptersCache[path];
        assert adoptersCache == adoptersCache[path := out];
      } else {
        out := CollectAdopters(path);
        adoptersCache := adoptersCache[path := out];
      }
    }

    /** The innermost loop: one path's adopters, until the event budget is spent. */
    method ExamineAdopters(depth: int, path: Path, entry: Entry, adopters: seq<Adoption>, start: Running,
        ghost w0: Walk)
      returns (s: Running)
      requires entry.at.Some? && Represents(config, graph, start, w0)
      ensures Represents(config, graph, s, Examine(config, depth, path, entry, adopters, w0))
    {
      s := start;
      ghost var w := w0;
      var i := 0;
      while i < |adopters|
        invariant 0 <= i <= |adopters|
        invariant Represents(config, graph, s, w)
        invariant Examine(config, depth, path, entry, adopters[i..], w)
          == Examine(config, depth, path, entry, adopters, w0)
      {
        var a := adopters[i];
        assert adopters[i..][0] == a && adopters[i..][1..] == adopters[i + 1..];
        i := i + 1;
        if a.pr in s.visitedPrs || a.at <= entry.at.value {
          continue;
        }
        var e := EventOf(config, depth, path, entry, a);
        var tally := Tallied(config, graph, s.tally, e);
        ghost var before := s;
        s := Running(tally, s.visitedPaths + {a.importer}, s.visitedPrs + {a.pr},
               if a.importer in s.visitedPaths then s.next
               else s.next[a.importer := Entry(Some(a.at), e.contribution, s.tally.events)]);
        TalliedRepresents(config, graph, before, w, e, s);
        w := Adopt(w, e);
        if s.tally.events >= config.maxEvents {
          return;
        }
      }
    }

    /** The middle loop: the frontier's paths in order, with the second early exit. */
    method ExpandFrontier(depth: int, paths: seq<Path>, frontier: map<Path, Entry>, start: Running, ghost w0: Walk)
      returns (s: Running, ghost w: Walk)
      requires Valid() && Represents(config, graph, start, w0)
      requires forall p :: p in paths ==> p in frontier
      modifies this
      ensures Valid() && w == ExpandAll(config, GraphLookup(config, graph), depth, paths, frontier, w0)
      ensures Represents(config, graph, s, w)
    {
      ghost var k := GraphLookup(config, graph);
      s, w := start, w0;
      var i := 0;
      while i < |paths|
        invariant 0 <= i <= |paths| && Valid()
        invariant Represents(config, graph, s, w)
        invariant ExpandAll(config, k, depth, paths[i..], frontier, w)
          == ExpandAll(config, k, depth, paths, frontier, w0)
      {
        var path := paths[i];
        assert paths[i..][0] == path && paths[i..][1..] == paths[i + 1..];
        i := i + 1;
        var entry := frontier[path];
        if entry.at.None? {
          continue;
        }
        var adopters := AdoptersOf(path);
        s := ExamineAdopters(depth, path, entry, adopters, s, w);
        w := ExpandPath(config, k, depth, path, entry, w);
        if s.tally.events >= config.maxEvents {
          return;
        }
      }
    }

    /** `dict(sorted(next_frontier.items(), key=...)[:max_frontier])` */
    method CutToBeam(next: map<Path, Entry>) returns (kept: map<Path, Entry>)
      ensures kept == Strongest(next, config.maxFrontier)
    {
      BeamLeIsTotalOrder();
      var order := SortSet(BeamKeys(next), BeamLe);
      var top := if |order| <= config.maxFrontier then order else order[..config.maxFrontier];
      kept := map p | p in next && BeamKey(next[p].weight, p) in top :: next[p];
    }

    /** One generation: the frontier expanded, then the budget, the dead end and the beam. */
    method OneGeneration(depth: int, frontier: map<Path, Entry>, start: Running, ghost w0: Walk, cut: bool)
      returns (next: map<Path, Entry>, s: Running, ghost w: Walk, truncated: bool, going: bool)
      requires Valid() && Represents(config, graph, start, w0)
      modifies this
      ensures Valid() && Represents(config, graph, s, w)
      ensures Round(next, w, truncated, going)
        == NextRound(config, GraphLookup(config, graph), depth, Round(frontier, w0, cut, true))
    {
      StringLeIsTotalOrder();
      var paths := SortSet(frontier.Keys, StringLe);
      SortedSetElements(frontier.Keys, StringLe);
      s, w := ExpandFrontier(depth, paths, frontier, start.(next := map[]), w0.(next := map[]));
      next, truncated, going := map[], cut, false;
      if s.tally.events >= config.maxEvents {
        truncated := true;
      } else if s.next != map[] {
        next, going := s.next, true;
        if |s.next| > config.maxFrontier {
          next := CutToBeam(s.next);
          truncated := true;
        }
      }
    }

    /** The depth loop. */
    method WalkGenerations(sources: map<Path, Source>, members: set<Pr>)
        returns (tally: Tally, truncated: bool, ghost log: seq<Event>)
      requires Valid()
      modifies this
      ensures Valid()
      ensures truncated == WalkOf(config, graph, sources, members).truncated
      ensures log == WalkOf(config, graph, sources, members).walk.log && TallyOf(config, graph, tally, log)
    {
      ghost var w := Start(sources, members);
      var s := Running(Tally(0, 0.0, {}, {}, {}, map[], None, 0, []), sources.Keys, members, map[]);
      s, truncated, w := WalkFrom(FirstFrontier(sources), s, w, Body(config, GraphLookup(config, graph)));
      tally, log := s.tally, w.log;
    }

    /** The depth loop, from any frontier. */
    method WalkFrom(first: map<Path, Entry>, start: Running, ghost w0: Walk, ghost body: (int, Round) -> Round)
      returns (s: Running, truncated: bool, ghost w: Walk)
      requires Valid() && Represents(config, graph, start, w0) && body == Body(config, GraphLookup(config, graph))
      modifies this
      ensures Valid() && Represents(config, graph, s, w)
      ensures var r := Rounds(config.maxDepth, body, 1, Round(first, w0, false, true)); r.walk == w && r.truncated == truncated
    {
      ghost var target := Rounds(config.maxDepth, body, 1, Round(first, w0, false, true));
      var frontier := first;
      s, w, truncated := start, w0, false;
      var depth := 1;
      var going := true;
      while depth <= config.maxDepth && going
        invariant Valid() && Represents(config, graph, s, w)
        invariant Rounds(config.maxDepth, body, depth, Round(frontier, w, truncated, going)) == target
        decreases config.maxDepth - depth
      {
        ghost var r := Round(frontier, w, truncated, true);
        frontier, s, w, truncated, going := OneGeneration(depth, frontier, s, w, truncated);
        assert body(depth, r) == Round(frontier, w, truncated, going);
        depth := depth + 1;
      }
    }

    /** `max(depth_counts)` */
    method Deepest(depthCounts: map<int, nat>, ghost log: seq<Event>) returns (deepest: int)
      requires log != [] && depthCounts == Histogram(log) && forall i :: 0 <= i < |log| ==> log[i].depth >= 1
      ensures deepest == MaxDepth(log)
    {
      DeepestKey(log);
      assert IsTotalOrder(IntLe);
      var depths := SortSet(depthCounts.Keys, IntLe);
      SortedSetSorted(depthCounts.Keys, IntLe);
      SortedSetElements(depthCounts.Keys, IntLe);
      LastIsLargest(depths, MaxDepth(log), IntLe);
      deepest := depths[|depths| - 1];
    }

    /** `_summarise_walk` */
    method SummariseWalk(t: Tally, truncated: bool, ghost log: seq<Event>) returns (summary: Summary)
      requires TallyOf(config, graph, t, log) && forall i :: 0 <= i < |log| ==> log[i].depth >= 1
      ensures summary == Summarised(config, graph, log, truncated)
    {
      if t.events == 0 {
        return Summary(0, 0, 0, 0, 0, 0, 0, map[], 0.0, 0.0, false, 0, false, None, truncated);
      }
      var deepest := Deepest(t.depthCounts, log);
      summary := Summary(
        t.events, |t.edges|, |t.reachPaths|, t.events, |t.components|, |t.authors|, deepest, t.depthCounts,
        t.rawMass, (if t.rawMass <= config.massCap then t.rawMass else config.massCap), t.rawMass > config.massCap,
        t.recent, t.recent >= config.minPersistence, t.latest, truncated);
    }

    /** `propagate`, for the pull requests of an episode. */
    method Propagate(inp: Inputs, numbers: seq<Pr>, episodeEnd: Option<int>)
      returns (edges: seq<Event>, summary: Summary, ghost files: seq<SourceFile>)
      requires Valid()
      modifies this
      ensures Valid() && AreSources(Offers(graph, inp, numbers), inp.maxPaths, files)
      ensures files == [] ==> edges == [] && summary == EmptySummary(false)
      ensures files != [] ==>
                var r := WalkOf(config, graph, SourceMap(files, episodeEnd), set n | n in numbers);
                edges == FirstRecorded(config, r.walk.log)
                  && summary == Summarised(config, graph, r.walk.log, r.truncated)
    {
      var members := set n | n in numbers;
      var sources := Collect(graph, inp, numbers);
      files := sources;
      if sources == [] {
        return [], Summary(0, 0, 0, 0, 0, 0, 0, map[], 0.0, 0.0, false, 0, false, None, false), sources;
      }
      var t, truncated, log := WalkGenerations(SourceMap(sources, episodeEnd), members);
      edges := t.edges;
      DepthsPositive(config, graph, Origin(SourceMap(sources, episodeEnd), members), log);
      summary := SummariseWalk(t, truncated, log);
    }
  }

  lemma NextTouches(g: Graph, importers: seq<Path>, i: nat)
    requires i < |importers|
    ensures AllTouches(g, importers[..i + 1])
      == AllTouches(g, importers[..i]) + MergedTouches(g, importers[i], Touches(g, importers[i]))
  {
    assert importers[..i + 1][..i] == importers[..i];
  }

  lemma DeepestKey(log: seq<Event>)
    requires log != [] && forall i :: 0 <= i < |log| ==> log[i].depth >= 1
    ensures MaxDepth(log) in Histogram(log) && forall d :: d in Histogram(log) ==> d <= MaxDepth(log)
  {
    HistogramExact(log);
    DeepestIsCounted(log);
  }

  lemma DepthsPositive(c: Config, g: Graph, o: Origin, log: seq<Event>)
    requires log == WalkOf(c, g, o.sources, o.members).walk.log
    ensures forall i :: 0 <= i < |log| ==> log[i].depth >= 1
  {
    WalkIsOk(c, g, o);
    forall i | 0 <= i < |log| ensures log[i].depth >= 1 { assert EventOk(c, g, o, log, i); }
  }

  // ----- from files to the first frontier -----

  /** The first frontier: a source without a merge time is available from the episode's end. */
  function SourceMap(files: seq<SourceFile>, episodeEnd: Option<int>): map<Path, Source> {
    if files == [] then map[]
    else
      var f := files[|files| - 1];
      var before := SourceMap(files[..|files| - 1], episodeEnd);
      before[f.path := Source(if f.time.Some? then f.time else episodeEnd, f.weight)]
  }

  ghost predicate PathsOnce(files: seq<SourceFile>) {
    forall i, j :: 0 <= i < j < |files| ==> files[i].path != files[j].path
  }

  /** The file is available from `t`: its own merge time or, if it has none, the episode's end. */
  predicate AvailableFrom(f: SourceFile, episodeEnd: Option<int>, t: int) {
    f.time == Some(t) || (f.time == None && episodeEnd == Some(t))
  }

  lemma {:induction false} SourceMapAt(files: seq<SourceFile>, episodeEnd: Option<int>, i: nat)
    requires PathsOnce(files) && i < |files|
    ensures files[i].path in SourceMap(files, episodeEnd)
    ensures SourceMap(files, episodeEnd)[files[i].path].weight == files[i].weight
    ensures forall t ::
      SourceMap(files, episodeEnd)[files[i].path].at == Some(t) <==> AvailableFrom(files[i], episodeEnd, t)
  {
    var n := |files| - 1;
    if i < n { SourceMapAt(files[..n], episodeEnd, i); }
  }

  lemma {:induction false} SourceMapKeys(files: seq<SourceFile>, episodeEnd: Option<int>, p: Path)
    ensures p in SourceMap(files, episodeEnd) ==> exists i :: 0 <= i < |files| && files[i].path == p
  {
    if p in SourceMap(files, episodeEnd) {
      var n := |files| - 1;
      if files[n].path != p {
        SourceMapKeys(files[..n], episodeEnd, p);
        var i :| 0 <= i < n && files[..n][i].path == p;
        assert files[i].path == p;
      }
    }
  }

  /** The frontier holds exactly the files' paths, each with its own weight and from its own time. */
  lemma FirstFrontierExact(files: seq<SourceFile>, episodeEnd: Option<int>)
    requires PathsOnce(files)
    ensures var first := FirstFrontier(SourceMap(files, episodeEnd));
            && (forall p :: p in first ==> exists i :: 0 <= i < |files| && files[i].path == p)
            && (forall i ::
              0 <= i < |files| ==> files[i].path in first && first[files[i].path].weight == files[i].weight)
            && (forall i, t ::
              0 <= i < |files| ==> (first[files[i].path].at == Some(t) <==> AvailableFrom(files[i], episodeEnd, t)))
  {
    forall p ensures p in SourceMap(files, episodeEnd) ==> exists i :: 0 <= i < |files| && files[i].path == p {
      SourceMapKeys(files, episodeEnd, p);
    }
    forall i | 0 <= i < |files|
      ensures files[i].path in SourceMap(files, episodeEnd)
        && SourceMap(files, episodeEnd)[files[i].path].weight == files[i].weight
      ensures forall t ::
        SourceMap(files, episodeEnd)[files[i].path].at == Some(t) <==> AvailableFrom(files[i], episodeEnd, t)
    {
      SourceMapAt(files, episodeEnd, i);
    }
  }

  /**
   Completeness in terms of the episode's files: unless the walk reports truncation, every merged pull request
   that touches an importer of a file strictly after that file became available is counted, or is a member.
   */
  lemma EpisodeMissesNothing(c: Config, g: Graph, files: seq<SourceFile>, episodeEnd: Option<int>, members: set<Pr>)
    requires PathsOnce(files) && c.maxDepth >= 1
    ensures var r := WalkOf(c, g, SourceMap(files, episodeEnd), members);
            r.truncated || forall i, t, a :: 0 <= i < |files| && AvailableFrom(files[i], episodeEnd, t)
                                             && IsAdoption(g, files[i].path, a) && a.at > t ==>
                                               a.pr in members || a.pr in PrsOf(r.walk.log)
  {
    var o := Origin(SourceMap(files, episodeEnd), members);
    var r := WalkOf(c, g, o.sources, members);
    WalkMissesNothing(c, g, o);
    FirstFrontierExact(files, episodeEnd);
    if !r.truncated {
      forall i, t, a | 0 <= i < |files| && AvailableFrom(files[i], episodeEnd, t) && IsAdoption(g, files[i].path, a)
        && a.at > t
        ensures a.pr in members || a.pr in PrsOf(r.walk.log)
      {
        var p := files[i].path;
        assert FirstFrontier(o.sources)[p].at == Some(t);
        assert p in r.walk.expanded && r.walk.expanded[p].at == Some(t);
      }
    }
  }

  /** Every adoption of the first generation starts at a file of the episode, with its weight and from its time. */
  lemma ChainsStartAtFiles(c: Config, g: Graph, files: seq<SourceFile>, episodeEnd: Option<int>,
      members: set<Pr>, k: nat)
    requires PathsOnce(files)
    requires var log := WalkOf(c, g, SourceMap(files, episodeEnd), members).walk.log; k < |log| && log[k].depth == 1
    ensures var e := WalkOf(c, g, SourceMap(files, episodeEnd), members).walk.log[k];
            exists i :: 0 <= i < |files| && files[i].path == e.path && files[i].weight == e.weight
                        && AvailableFrom(files[i], episodeEnd, e.availableAt) && e.adoptedAt > e.availableAt
  {
    var o := Origin(SourceMap(files, episodeEnd), members);
    var log := WalkOf(c, g, o.sources, members).walk.log;
    WalkIsOk(c, g, o);
    FirstFrontierExact(files, episodeEnd);
    var e := log[k];
    forall i | 0 <= i < |log| ensures log[i].depth >= 1 { assert EventOk(c, g, o, log, i); }
    assert EventOk(c, g, o, log, k);
    assert e.path in FirstFrontier(o.sources) && FirstFrontier(o.sources)[e.path].at == Some(e.availableAt);
  }

  // ----- what the summary's numbers mean -----

  lemma {:induction false} HistogramExact(log: seq<Event>)
    ensures forall d :: d in Histogram(log) <==> DepthCount(log, d) > 0
    ensures forall d :: d in Histogram(log) ==> Histogram(log)[d] == DepthCount(log, d)
  {
    if log != [] { HistogramExact(log[..|log| - 1]); }
  }

  lemma {:induction false} DeepestIsCounted(log: seq<Event>)
    requires log != [] && forall i :: 0 <= i < |log| ==> log[i].depth >= 1
    ensures DepthCount(log, MaxDepth(log)) > 0
    ensures forall d :: DepthCount(log, d) > 0 ==> d <= MaxDepth(log)
  {
    var front := log[..|log| - 1];
    if front != [] { DeepestIsCounted(front); }
  }

  /** The latest adoption is one of the events', and none is later. */
  lemma {:induction false} LatestExact(log: seq<Event>)
    ensures Latest(log).None? <==> log == []
    ensures log != [] ==> (exists e :: e in log && e.adoptedAt == Latest(log).value) && forall e :: e in log ==> e.adoptedAt <= Latest(log).value
  {
    if log != [] {
      var n := |log| - 1;
      LatestExact(log[..n]);
      assert log == log[..n] + [log[n]];
      assert forall e :: e in log <==> e in log[..n] || e == log[n];
      assert log[n] in log;
      if Latest(log[..n]).Some? {
        var e :| e in log[..n] && e.adoptedAt == Latest(log[..n]).value;
        assert e in log;
      }
    }
  }

  lemma {:induction false} ReachFilesBounded(log: seq<Event>)
    ensures |ReachPaths(log)| <= |log|
  {
    if log != [] {
      var front, e := log[..|log| - 1], log[|log| - 1];
      ReachFilesBounded(front);
      assert log == front + [e];
      SetsGrow(Graph(map[], map[], map[], map[], map[]), front, e);
    }
  }

  /**
   The published numbers agree with each other: adoption events are the distinct PRs reached outside
   the episode and the histogram's total; its depths are exactly 1 to the reported maximum, within
   the configured limit; and events, recorded edges and capped mass respect their caps.
   */
  lemma {:induction false} SummaryBalances(c: Config, g: Graph, o: Origin, r: Round, s: Summary)
    requires r == WalkOf(c, g, o.sources, o.members) && s == Summarised(c, g, r.walk.log, r.truncated)
    ensures s.adoptionEvents == s.reachPrs == |PrsOf(r.walk.log)| <= Budget(c)
    ensures PrsOf(r.walk.log) !! o.members
    ensures forall d :: d in s.depthHistogram <==> 1 <= d <= s.maxPathDepth
    ensures 0 <= s.maxPathDepth && HistogramSum(r.walk.log, s.maxPathDepth) == s.adoptionEvents
    ensures forall d :: d in s.depthHistogram ==> s.depthHistogram[d] == DepthCount(r.walk.log, d)
    ensures s.maxPathDepth == 0 || s.maxPathDepth <= c.maxDepth
    ensures s.edgesRecorded <= s.adoptionEvents && s.reachFiles <= s.adoptionEvents
    ensures s.edgesRecorded == 0 || s.edgesRecorded <= c.maxRecorded
    ensures c.massCap >= 0.0 ==> s.massAfterCap <= c.massCap
    ensures s.latest.None? <==> r.walk.log == []
    ensures s.latest.Some? ==> exists e :: e in r.walk.log && e.adoptedAt == s.latest.value
    ensures s.latest.Some? ==> forall e :: e in r.walk.log ==> e.adoptedAt <= s.latest.value
  {
    LatestExact(r.walk.log);
    WalkIsOk(c, g, o);
    EventsWithinBudget(c, GraphLookup(c, g), FirstRound(o.sources, o.members));
    SummaryOfFinished(c, g, o, r.walk, r.truncated, s);
  }

  lemma SummaryOfFinished(c: Config, g: Graph, o: Origin, w: Walk, truncated: bool, s: Summary)
    requires Finished(c, g, o, w) && s == Summarised(c, g, w.log, truncated)
    ensures s.adoptionEvents == s.reachPrs == |PrsOf(w.log)| == |w.log| && PrsOf(w.log) !! o.members
    ensures forall d :: d in s.depthHistogram <==> 1 <= d <= s.maxPathDepth
    ensures 0 <= s.maxPathDepth && HistogramSum(w.log, s.maxPathDepth) == s.adoptionEvents
    ensures forall d :: d in s.depthHistogram ==> s.depthHistogram[d] == DepthCount(w.log, d)
    ensures s.maxPathDepth == 0 || s.maxPathDepth <= c.maxDepth
    ensures s.edgesRecorded <= s.adoptionEvents && s.reachFiles <= s.adoptionEvents
    ensures s.edgesRecorded == 0 || s.edgesRecorded <= c.maxRecorded
    ensures c.massCap >= 0.0 ==> s.massAfterCap <= c.massCap
  {
    DeepestIsMax(c, g, o, w);
    OutsidersCounted(c, g, o, w);
    ReachFilesBounded(w.log);
    HistogramExact(w.log);
  }

  lemma OutsidersCounted(c: Config, g: Graph, o: Origin, w: Walk)
    requires Finished(c, g, o, w)
    ensures |PrsOf(w.log)| == |w.log| && PrsOf(w.log) !! o.members
  {
    var deepest := BooksBalance(c, g, o, w);
    PrsCounted(w.log);
    forall i | 0 <= i < |w.log| ensures w.log[i].pr !in o.members { assert EventOk(c, g, o, w.log, i); }
  }

  lemma DeepestIsMax(c: Config, g: Graph, o: Origin, w: Walk)
    requires Finished(c, g, o, w)
    ensures 0 <= MaxDepth(w.log) && (MaxDepth(w.log) == 0 || MaxDepth(w.log) <= c.maxDepth)
    ensures forall d :: DepthCount(w.log, d) > 0 <==> 1 <= d <= MaxDepth(w.log)
    ensures HistogramSum(w.log, MaxDepth(w.log)) == |w.log|
  {
    var deepest := BooksBalance(c, g, o, w);
    forall i | 0 <= i < |w.log| ensures w.log[i].depth >= 1 { assert EventOk(c, g, o, w.log, i); }
    if w.log != [] { DeepestIsCounted(w.log); }
    assert MaxDepth(w.log) == deepest;
  }
}
