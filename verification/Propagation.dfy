/**
 The time-respecting propagation walk (src/impact2/analytics/propagation.py). Times are seconds,
 weights are exact reals, and the decay function is a parameter with values in [0, 1].
 */
module Propagation {
  import opened Collections
  import opened Ordering

  type Path = string
  type Pr = int

  /** The import graph and the merge history, as the constructor indexes them. */
  datatype Graph = Graph(
    importersOf: map<Path, set<Path>>,
    touchedBy: map<Path, seq<Pr>>,
    mergedAt: map<Pr, Option<int>>,
    componentOf: map<Path, string>,
    authorOf: map<Pr, string>)

  datatype Config = Config(
    maxDepth: int,
    maxEvents: int,
    maxRecorded: int,
    maxFrontier: nat,
    massCap: real,
    persistenceDays: real,
    minPersistence: int,
    windowEnd: Option<int>,
    decay: real -> real)

  /** Decay factors lie in [0, 1]. */
  ghost predicate ValidConfig(c: Config) {
    forall age :: 0.0 <= c.decay(age) <= 1.0
  }

  /** One (importing path, PR, merge time) of `adopters_of`. */
  datatype Adoption = Adoption(importer: Path, pr: Pr, at: int)

  /** A source path of the episode: when it became available, and its damped weight. */
  datatype Source = Source(at: Option<int>, weight: real)

  /**
   A frontier entry: when the path became available and the weight it carries. `parent` is history:
   the number of the adoption that brought the path in, or -1 for a source.
   */
  datatype Entry = Entry(at: Option<int>, weight: real, parent: int)

  /** One adoption event of the walk, and (history) the event it carries on from. */
  datatype Event = Event(
    depth: int, path: Path, importer: Path, pr: Pr,
    availableAt: int, adoptedAt: int, weight: real, contribution: real, parent: int)

  // ----- adopters_of -----

  predicate AdoptionLe(a: Adoption, b: Adoption) {
    || a.at < b.at
    || (a.at == b.at && a.pr < b.pr)
    || (a.at == b.at && a.pr == b.pr && StringLe(a.importer, b.importer))
  }

  lemma AdoptionLeIsTotalOrder()
    ensures IsTotalOrder(AdoptionLe)
  {
    StringLeIsTotalOrder();
  }

  function Importers(g: Graph, path: Path): set<Path> {
    if path in g.importersOf then g.importersOf[path] else {}
  }

  function Touches(g: Graph, path: Path): seq<Pr> {
    if path in g.touchedBy then g.touchedBy[path] else []
  }

  function MergeTime(g: Graph, pr: Pr): Option<int> {
    if pr in g.mergedAt then g.mergedAt[pr] else None
  }

  /** `pr`, touching `importer` which imports `path`, was merged at `at`. */
  ghost predicate IsAdoption(g: Graph, path: Path, a: Adoption) {
    && path in g.importersOf && a.importer in g.importersOf[path]
    && a.importer in g.touchedBy && a.pr in g.touchedBy[a.importer]
    && a.pr in g.mergedAt && g.mergedAt[a.pr] == Some(a.at)
  }

  function MergedTouches(g: Graph, importer: Path, prs: seq<Pr>): (r: seq<Adoption>)
    ensures forall a :: a in r <==> a.importer == importer && a.pr in prs && MergeTime(g, a.pr) == Some(a.at)
  {
    if prs == [] then []
    else
      var rest := MergedTouches(g, importer, prs[..|prs| - 1]);
      var pr := prs[|prs| - 1];
      assert prs == prs[..|prs| - 1] + [pr];
      match MergeTime(g, pr)
      case None => rest
      case Some(at) => rest + [Adoption(importer, pr, at)]
  }

  function AllTouches(g: Graph, importers: seq<Path>): (r: seq<Adoption>)
    ensures forall a ::
      a in r <==> a.importer in importers && a.pr in Touches(g, a.importer) && MergeTime(g, a.pr) == Some(a.at)
  {
    if importers == [] then []
    else
      var last := importers[|importers| - 1];
      assert importers == importers[..|importers| - 1] + [last];
      AllTouches(g, importers[..|importers| - 1]) + MergedTouches(g, last, Touches(g, last))
  }

  ghost function Adopters(g: Graph, path: Path): seq<Adoption> {
    Sort(AllTouches(g, SortedSet(Importers(g, path), StringLe)), AdoptionLe)
  }

  /** Earlier merges first, of equal times the smaller PR, and then the importers by name. */
  ghost predicate ComesFirst(a: Adoption, b: Adoption) {
    && a.at <= b.at
    && (a.at == b.at ==> a.pr <= b.pr)
    && (a.at == b.at && a.pr == b.pr ==> StringLe(a.importer, b.importer))
  }

  /** The adopter list holds exactly the merged touches of importers, in time order. */
  lemma AdoptersExact(g: Graph, path: Path)
    ensures forall a :: a in Adopters(g, path) <==> IsAdoption(g, path, a)
    ensures forall i, j :: 0 <= i < j < |Adopters(g, path)| ==> ComesFirst(Adopters(g, path)[i], Adopters(g, path)[j])
  {
    var all := AllTouches(g, SortedSet(Importers(g, path), StringLe));
    SortedSetElements(Importers(g, path), StringLe);
    SameElements(Adopters(g, path), all);
    AdoptionLeIsTotalOrder();
    SortSorted(all, AdoptionLe);
    forall i, j | 0 <= i < j < |Adopters(g, path)| ensures ComesFirst(Adopters(g, path)[i], Adopters(g, path)[j]) {
      assert AdoptionLe(Adopters(g, path)[i], Adopters(g, path)[j]);
    }
  }

  // ----- the walk, as a function of the events it logs -----

  /**
   The walk so far. `expanded` is history: the paths whose adopters have all been examined, with the
   frontier entry they were examined from.
   */
  datatype Walk = Walk(
    log: seq<Event>, visitedPaths: set<Path>, visitedPrs: set<Pr>,
    next: map<Path, Entry>, expanded: map<Path, Entry>)

  function Days(a: int, b: int): real { (b - a) as real / 86400.0 }

  predicate Skips(availableAt: int, a: Adoption, w: Walk) {
    a.pr in w.visitedPrs || a.at <= availableAt
  }

  function EventOf(c: Config, depth: int, path: Path, entry: Entry, a: Adoption): Event
    requires entry.at.Some?
  {
    var t := entry.at.value;
    Event(depth, path, a.importer, a.pr, t, a.at, entry.weight, entry.weight * c.decay(Days(t, a.at)), entry.parent)
  }

  function Adopt(w: Walk, e: Event): Walk {
    w.(log := w.log + [e],
       visitedPrs := w.visitedPrs + {e.pr},
       visitedPaths := w.visitedPaths + {e.importer},
       next := if e.importer in w.visitedPaths then w.next
               else w.next[e.importer := Entry(Some(e.adoptedAt), e.contribution, |w.log|)])
  }

  predicate BudgetSpent(c: Config, w: Walk) { |w.log| >= c.maxEvents }

  /** The adopters of one path, in order, until the event budget is spent. */
  function Examine(c: Config, depth: int, path: Path, entry: Entry, adopters: seq<Adoption>, w: Walk): Walk
    requires entry.at.Some?
  {
    if adopters == [] then w
    else if Skips(entry.at.value, adopters[0], w) then Examine(c, depth, path, entry, adopters[1..], w)
    else
      var w' := Adopt(w, EventOf(c, depth, path, entry, adopters[0]));
      if BudgetSpent(c, w') then w' else Examine(c, depth, path, entry, adopters[1..], w')
  }

  /**
   The three look-ups the walk relies on: a path's adopters in order, a set of paths in order, and
   the strongest entries of a frontier. GraphLookup below says what they are.
   */
  datatype Lookup = Lookup(
    adopters: Path -> seq<Adoption>,
    inOrder: set<Path> -> seq<Path>,
    strongest: map<Path, Entry> -> map<Path, Entry>)

  function ExpandPath(c: Config, k: Lookup, depth: int, path: Path, entry: Entry, w: Walk): Walk
    requires entry.at.Some?
  {
    var w' := Examine(c, depth, path, entry, k.adopters(path), w);
    if BudgetSpent(c, w') then w' else w'.(expanded := w'.expanded[path := entry])
  }

  /** One generation. A path without a time is passed over, without looking at the budget. */
  function ExpandAll(c: Config, k: Lookup, depth: int, paths: seq<Path>, frontier: map<Path, Entry>, w: Walk): Walk {
    if paths == [] then w
    else if paths[0] !in frontier || frontier[paths[0]].at.None? then
      ExpandAll(c, k, depth, paths[1..], frontier, w)
    else
      var w' := ExpandPath(c, k, depth, paths[0], frontier[paths[0]], w);
      if BudgetSpent(c, w') then w' else ExpandAll(c, k, depth, paths[1..], frontier, w')
  }

  datatype BeamKey = BeamKey(weight: real, path: Path)

  /** Strongest first, then by path. */
  predicate BeamLe(a: BeamKey, b: BeamKey) {
    a.weight > b.weight || (a.weight == b.weight && StringLe(a.path, b.path))
  }

  function BeamKeys(next: map<Path, Entry>): set<BeamKey> {
    set p | p in next :: BeamKey(next[p].weight, p)
  }

  ghost function Strongest(next: map<Path, Entry>, k: nat): map<Path, Entry> {
    var order := SortedSet(BeamKeys(next), BeamLe);
    var kept := if |order| <= k then order else order[..k];
    map p | p in next && BeamKey(next[p].weight, p) in kept :: next[p]
  }

  ghost function GraphLookup(c: Config, g: Graph): Lookup {
    Lookup(
      (p: Path) => Adopters(g, p),
      (s: set<Path>) => SortedSet(s, StringLe),
      (next: map<Path, Entry>) => Strongest(next, c.maxFrontier))
  }

  /** One whole generation, from the frontier of `depth` to the walk waiting at `depth + 1`. */
  function Generation(c: Config, k: Lookup, depth: int, frontier: map<Path, Entry>, w: Walk): Walk {
    ExpandAll(c, k, depth, k.inOrder(frontier.Keys), frontier, w.(next := map[]))
  }

  /** The state at the head of the depth loop; `going` is false once the loop has been left. */
  datatype Round = Round(frontier: map<Path, Entry>, walk: Walk, truncated: bool, going: bool)

  /** What the end of a generation decides: leave the loop, or go on with a frontier cut to the beam. */
  function Decide(c: Config, k: Lookup, w: Walk, truncated: bool): Round {
    if BudgetSpent(c, w) then Round(map[], w, true, false)
    else if w.next == map[] then Round(map[], w, truncated, false)
    else if |w.next| > c.maxFrontier then Round(k.strongest(w.next), w, true, true)
    else Round(w.next, w, truncated, true)
  }

  function NextRound(c: Config, k: Lookup, depth: int, r: Round): Round {
    Decide(c, k, Generation(c, k, depth, r.frontier, r.walk), r.truncated)
  }

  /** The depth loop, for any loop body. */
  function Rounds(limit: int, body: (int, Round) -> Round, depth: int, r: Round): Round
    decreases limit - depth
  {
    if depth > limit || !r.going then r else Rounds(limit, body, depth + 1, body(depth, r))
  }

  function FirstFrontier(sources: map<Path, Source>): map<Path, Entry> {
    map p | p in sources :: Entry(sources[p].at, sources[p].weight, -1)
  }

  function Start(sources: map<Path, Source>, members: set<Pr>): Walk {
    Walk([], sources.Keys, members, map[], map[])
  }

  function FirstRound(sources: map<Path, Source>, members: set<Pr>): Round {
    Round(FirstFrontier(sources), Start(sources, members), false, true)
  }

  function Body(c: Config, k: Lookup): (int, Round) -> Round {
    (depth: int, r: Round) => NextRound(c, k, depth, r)
  }

  function WalkWith(c: Config, k: Lookup, first: Round): Round {
    Rounds(c.maxDepth, Body(c, k), 1, first)
  }

  ghost function WalkOf(c: Config, g: Graph, sources: map<Path, Source>, members: set<Pr>): Round {
    WalkWith(c, GraphLookup(c, g), FirstRound(sources, members))
  }
}
