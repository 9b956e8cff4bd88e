/**
 Where a propagation walk starts (src/impact2/analytics/propagation.py, `episode_sources`): the files an
 episode changed, each with its strongest damped weight, and only the strongest of them.
 */
module EpisodeSources {
  import opened Collections
  import opened Ordering
  import opened Propagation

  /** A file row of a pull request: was the file introduced, and is the change more than mechanical? */
  datatype FileRow = FileRow(path: Path, introduced: bool, substantive: bool)

  /** The tables and settings `episode_sources` reads. */
  datatype Inputs = Inputs(
    filesOf: map<Pr, seq<FileRow>>, fanIn: map<Path, int>, fanInCut: real, introduced: real,
    modified: real, damping: int -> real, maxPaths: nat)

  /** A source: its path, when its pull request merged, and its damped weight. */
  datatype SourceFile = SourceFile(path: Path, time: Option<int>, weight: real)

  function FanIn(inp: Inputs, path: Path): int { if path in inp.fanIn then inp.fanIn[path] else 0 }

  /** Neither mechanical, nor nameless, nor a hub. */
  predicate Counts(inp: Inputs, row: FileRow) {
    row.substantive && row.path != "" && FanIn(inp, row.path) as real <= inp.fanInCut
  }

  function Offer(g: Graph, inp: Inputs, pr: Pr, row: FileRow): SourceFile {
    SourceFile(row.path, MergeTime(g, pr),
      (if row.introduced then inp.introduced else inp.modified) * inp.damping(FanIn(inp, row.path)))
  }

  function OffersIn(g: Graph, inp: Inputs, pr: Pr, rows: seq<FileRow>): seq<SourceFile> {
    if rows == [] then []
    else
      var row := rows[|rows| - 1];
      OffersIn(g, inp, pr, rows[..|rows| - 1]) + if Counts(inp, row) then [Offer(g, inp, pr, row)] else []
  }

  function RowsOf(inp: Inputs, pr: Pr): seq<FileRow> { if pr in inp.filesOf then inp.filesOf[pr] else [] }

  /** What the rows of the episode offer, in the order they are read. */
  function Offers(g: Graph, inp: Inputs, numbers: seq<Pr>): seq<SourceFile> {
    if numbers == [] then []
    else
      var pr := numbers[|numbers| - 1];
      Offers(g, inp, numbers[..|numbers| - 1]) + OffersIn(g, inp, pr, RowsOf(inp, pr))
  }

  /** The row is an eligible one of a pull request of the episode, and the source is what it says. */
  ghost predicate Comes(g: Graph, inp: Inputs, pr: Pr, row: FileRow, s: SourceFile) {
    && pr in inp.filesOf && row in inp.filesOf[pr] && s.path == row.path
    && row.substantive && row.path != "" && (row.path in inp.fanIn ==> inp.fanIn[row.path] as real <= inp.fanInCut)
    && (row.path !in inp.fanIn ==> 0.0 <= inp.fanInCut)
    && s.weight == (if row.introduced then inp.introduced else inp.modified)
                   * inp.damping(if row.path in inp.fanIn then inp.fanIn[row.path] else 0)
    && (if pr in g.mergedAt then s.time == g.mergedAt[pr] else s.time.None?)
  }

  lemma {:induction false} OffersInExact(g: Graph, inp: Inputs, pr: Pr, rows: seq<FileRow>, s: SourceFile)
    requires pr in inp.filesOf && forall row :: row in rows ==> row in inp.filesOf[pr]
    ensures s in OffersIn(g, inp, pr, rows) <==> exists row :: row in rows && Comes(g, inp, pr, row, s)
  {
    if rows != [] {
      var n := |rows| - 1;
      assert rows == rows[..n] + [rows[n]];
      OffersInExact(g, inp, pr, rows[..n], s);
      assert Counts(inp, rows[n]) && s == Offer(g, inp, pr, rows[n]) <==> Comes(g, inp, pr, rows[n], s);
    }
  }

  /** An offer is exactly what some eligible row of some pull request of the episode says. */
  lemma {:induction false} OffersExact(g: Graph, inp: Inputs, numbers: seq<Pr>, s: SourceFile)
    ensures s in Offers(g, inp, numbers) <==> exists pr, row :: pr in numbers && Comes(g, inp, pr, row, s)
  {
    if numbers != [] {
      var n := |numbers| - 1;
      var pr := numbers[n];
      assert numbers == numbers[..n] + [pr];
      OffersExact(g, inp, numbers[..n], s);
      if pr in inp.filesOf { OffersInExact(g, inp, pr, inp.filesOf[pr], s); }
    }
  }

  // ----- the strongest offer of each path -----

  /** The first of the strongest offers of its path. */
  ghost predicate Leads(offers: seq<SourceFile>, i: nat)
    requires i < |offers|
  {
    forall j :: 0 <= j < |offers| && offers[j].path == offers[i].path ==>
      offers[j].weight <= offers[i].weight && (j < i ==> offers[j].weight < offers[i].weight)
  }

  ghost predicate IsLeader(offers: seq<SourceFile>, s: SourceFile) {
    exists i :: 0 <= i < |offers| && offers[i] == s && Leads(offers, i)
  }

  ghost predicate IsSeen(offers: seq<SourceFile>, seen: map<Path, SourceFile>, order: seq<Path>) {
    && (forall p :: p in seen ==> seen[p].path == p && IsLeader(offers, seen[p]))
    && (forall o :: o in offers ==> o.path in seen)
    && Distinct(order) && (forall p :: p in order <==> p in seen)
  }

  lemma LeaderIsStrongest(offers: seq<SourceFile>, s: SourceFile, o: SourceFile)
    requires IsLeader(offers, s) && o in offers && o.path == s.path
    ensures o.weight <= s.weight
  {
    var i :| 0 <= i < |offers| && offers[i] == s && Leads(offers, i);
    var j :| 0 <= j < |offers| && offers[j] == o;
    assert offers[j].path == offers[i].path;
  }

  lemma StaysLeader(offers: seq<SourceFile>, s: SourceFile, o: SourceFile)
    requires IsLeader(offers, s) && (s.path != o.path || o.weight <= s.weight)
    ensures IsLeader(offers + [o], s)
  {
    var i :| 0 <= i < |offers| && offers[i] == s && Leads(offers, i);
    assert (offers + [o])[i] == s && Leads(offers + [o], i);
  }

  lemma BecomesLeader(offers: seq<SourceFile>, o: SourceFile)
    requires forall s :: s in offers && s.path == o.path ==> s.weight < o.weight
    ensures IsLeader(offers + [o], o)
  {
    var more := offers + [o];
    assert forall j :: 0 <= j < |offers| ==> more[j] == offers[j] && offers[j] in offers;
    assert more[|offers|] == o && Leads(more, |offers|);
  }

  lemma SeenNext(offers: seq<SourceFile>, seen: map<Path, SourceFile>, order: seq<Path>, o: SourceFile, better: bool)
    requires IsSeen(offers, seen, order) && better == (o.path !in seen || o.weight > seen[o.path].weight)
    ensures IsSeen(offers + [o], if better then seen[o.path := o] else seen, if o.path in seen then order
      else order + [o.path])
  {
    var seen' := if better then seen[o.path := o] else seen;
    forall p | p in seen' ensures seen'[p].path == p && IsLeader(offers + [o], seen'[p]) {
      if p == o.path && better {
        forall s | s in offers && s.path == o.path ensures s.weight < o.weight { LeaderIsStrongest(offers, seen[o.path], s); }
        BecomesLeader(offers, o);
      } else {
        StaysLeader(offers, seen[p], o);
      }
    }
  }

  lemma NextRow(g: Graph, inp: Inputs, pr: Pr, before: seq<SourceFile>, rows: seq<FileRow>, j: nat)
    requires j < |rows|
    ensures var offers := before + OffersIn(g, inp, pr, rows[..j]);
            before + OffersIn(g, inp, pr, rows[..j + 1]) == if Counts(inp, rows[j])
              then offers + [Offer(g, inp, pr, rows[j])] else offers
  {
    assert rows[..j + 1][..j] == rows[..j];
  }

  /** An offer replaces the best one of its path so far only if it is heavier. */
  method Compare(offer: SourceFile, ghost offers: seq<SourceFile>, seen: map<Path, SourceFile>, order: seq<Path>)
      returns (seen': map<Path, SourceFile>, order': seq<Path>)
    requires IsSeen(offers, seen, order)
    ensures IsSeen(offers + [offer], seen', order')
  {
    var better := offer.path !in seen || offer.weight > seen[offer.path].weight;
    SeenNext(offers, seen, order, offer, better);
    order' := if offer.path in seen then order else order + [offer.path];
    seen' := if better then seen[offer.path := offer] else seen;
  }

  /** The body of the row loop. */
  method ReadRow(g: Graph, inp: Inputs, pr: Pr, when: Option<int>, row: FileRow, ghost offers: seq<SourceFile>,
      seen: map<Path, SourceFile>, order: seq<Path>)
      returns (seen': map<Path, SourceFile>, order': seq<Path>)
    requires IsSeen(offers, seen, order) && when == MergeTime(g, pr)
    ensures IsSeen(if Counts(inp, row) then offers + [Offer(g, inp, pr, row)] else offers, seen', order')
  {
    seen', order' := seen, order;
    if !row.substantive || row.path == "" { return; }
    var fanIn := if row.path in inp.fanIn then inp.fanIn[row.path] else 0;
    if fanIn as real > inp.fanInCut { return; }
    var base := if row.introduced then inp.introduced else inp.modified;
    var offer := SourceFile(row.path, when, base * inp.damping(fanIn));
    assert offer == Offer(g, inp, pr, row);
    seen', order' := Compare(offer, offers, seen, order);
  }

  /** The row loop for one pull request. */
  method ReadRows(g: Graph, inp: Inputs, pr: Pr, ghost before: seq<SourceFile>, seen: map<Path, SourceFile>,
      order: seq<Path>)
      returns (seen': map<Path, SourceFile>, order': seq<Path>)
    requires IsSeen(before, seen, order)
    ensures IsSeen(before + OffersIn(g, inp, pr, RowsOf(inp, pr)), seen', order')
  {
    var rows := if pr in inp.filesOf then inp.filesOf[pr] else [];
    var when := if pr in g.mergedAt then g.mergedAt[pr] else None;
    seen', order' := seen, order;
    assert before + [] == before;
    for j := 0 to |rows|
      invariant IsSeen(before + OffersIn(g, inp, pr, rows[..j]), seen', order')
    {
      NextRow(g, inp, pr, before, rows, j);
      seen', order' := ReadRow(g, inp, pr, when, rows[j], before + OffersIn(g, inp, pr, rows[..j]), seen', order');
    }
    assert rows[..|rows|] == rows;
  }

  /** Heaviest first, then by path. */
  predicate SourceLe(a: SourceFile, b: SourceFile) {
    a.weight > b.weight || (a.weight == b.weight && StringLe(a.path, b.path))
  }

  lemma SourceLeIsPreorder()
    ensures IsPreorder(SourceLe)
  {
    StringLeIsTotalOrder();
  }

  /** Heavier sources come first, and of equals the smaller name. */
  ghost predicate InOrder(a: SourceFile, b: SourceFile) {
    a.weight >= b.weight && (a.weight == b.weight ==> StringLe(a.path, b.path))
  }

  /**
   Each path once, with the first of its strongest offers; heaviest first; and a path that is left out is no
   heavier than any that is kept, of which there are then as many as allowed.
   */
  ghost predicate AreSources(offers: seq<SourceFile>, maxPaths: nat, sources: seq<SourceFile>) {
    && |sources| <= maxPaths
    && (forall i, j :: 0 <= i < j < |sources| ==> sources[i].path != sources[j].path)
    && (forall i, j :: 0 <= i < j < |sources| ==> InOrder(sources[i], sources[j]))
    && (forall s :: s in sources ==> IsLeader(offers, s))
    && (forall o :: o in offers ==>
          || (exists s :: s in sources && s.path == o.path)
          || (|sources| == maxPaths && forall s :: s in sources ==> s.weight >= o.weight))
  }

  lemma SortedValues(offers: seq<SourceFile>, seen: map<Path, SourceFile>, order: seq<Path>, values: seq<SourceFile>)
    requires IsSeen(offers, seen, order)
    requires |values| == |order| && forall i :: 0 <= i < |order| ==> order[i] in seen && values[i] == seen[order[i]]
    ensures var sorted := Sort(values, SourceLe);
            && (forall i, j ::
              0 <= i < j < |sorted| ==> sorted[i].path != sorted[j].path && InOrder(sorted[i], sorted[j]))
            && (forall s :: s in sorted <==> s.path in seen && seen[s.path] == s)
  {
    var sorted := Sort(values, SourceLe);
    SourceLeIsPreorder();
    SortSorted(values, SourceLe);
    SameElements(sorted, values);
    forall s ensures s in values <==> s.path in seen && seen[s.path] == s {
      if s.path in seen && seen[s.path] == s {
        var i :| 0 <= i < |order| && order[i] == s.path;
        assert values[i] == s;
      }
    }
    DistinctPaths(values, sorted);
    forall i, j | 0 <= i < j < |sorted| ensures InOrder(sorted[i], sorted[j]) { assert SourceLe(sorted[i], sorted[j]); }
  }

  lemma DistinctPaths(a: seq<SourceFile>, b: seq<SourceFile>)
    requires multiset(a) == multiset(b) && forall i, j :: 0 <= i < j < |a| ==> a[i].path != a[j].path
    ensures forall i, j :: 0 <= i < j < |b| ==> b[i].path != b[j].path
  {
    forall i, j | 0 <= i < j < |b| ensures b[i].path != b[j].path {
      SameElements(a, b);
      assert b[i] in a && b[j] in a;
      if b[i] == b[j] {
        TwiceCounts(b, i, j);
        OnceInDistinct(a, b[i]);
      }
    }
  }

  lemma {:induction false} OnceInDistinct(a: seq<SourceFile>, s: SourceFile)
    requires forall i, j :: 0 <= i < j < |a| ==> a[i].path != a[j].path
    ensures multiset(a)[s] <= 1
  {
    if a != [] {
      OnceInDistinct(a[1..], s);
      assert a == [a[0]] + a[1..];
    }
  }

  lemma KeepsTheHeaviest(offers: seq<SourceFile>, maxPaths: nat, seen: map<Path, SourceFile>, order: seq<Path>,
      sorted: seq<SourceFile>)
    requires IsSeen(offers, seen, order)
    requires forall i, j :: 0 <= i < j < |sorted| ==> sorted[i].path != sorted[j].path && InOrder(sorted[i], sorted[j])
    requires forall s :: s in sorted <==> s.path in seen && seen[s.path] == s
    ensures AreSources(offers, maxPaths, Prefix(sorted, maxPaths))
  {
    var kept := Prefix(sorted, maxPaths);
    forall s | s in kept ensures IsLeader(offers, s) { assert s in sorted; }
    forall o | o in offers
      ensures (exists s :: s in kept && s.path == o.path)
        || (|kept| == maxPaths && forall s :: s in kept ==> s.weight >= o.weight)
    {
      var lead := seen[o.path];
      assert lead in sorted;
      LeaderIsStrongest(offers, lead, o);
      var k :| 0 <= k < |sorted| && sorted[k] == lead;
      if k < |kept| { assert kept[k] == lead; }
    }
  }

  /** `sorted(seen.values(), key=...)[:max_paths]` */
  method Rank(ghost offers: seq<SourceFile>, maxPaths: nat, seen: map<Path, SourceFile>, order: seq<Path>)
      returns (sources: seq<SourceFile>)
    requires IsSeen(offers, seen, order)
    ensures AreSources(offers, maxPaths, sources)
  {
    var values := seq(|order|, i requires 0 <= i < |order| && order[i] in seen => seen[order[i]]);
    var sorted := Sort(values, SourceLe);
    SortedValues(offers, seen, order, values);
    KeepsTheHeaviest(offers, maxPaths, seen, order, sorted);
    sources := Prefix(sorted, maxPaths);
  }

  /** `episode_sources` */
  method Collect(g: Graph, inp: Inputs, numbers: seq<Pr>) returns (sources: seq<SourceFile>)
    ensures AreSources(Offers(g, inp, numbers), inp.maxPaths, sources)
  {
    var seen: map<Path, SourceFile> := map[];
    var order: seq<Path> := [];
    for i := 0 to |numbers|
      invariant IsSeen(Offers(g, inp, numbers[..i]), seen, order)
    {
      assert numbers[..i + 1][..i] == numbers[..i];
      seen, order := ReadRows(g, inp, numbers[i], Offers(g, inp, numbers[..i]), seen, order);
    }
    assert numbers[..|numbers|] == numbers;
    sources := Rank(Offers(g, inp, numbers), inp.maxPaths, seen, order);
  }
}
