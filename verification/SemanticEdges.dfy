/**
 Emitting the semantic candidate edges (src/impact2/graph/semantic.py, `build_semantic_edges`): each
 pull request in ascending order keeps its best few unseen partners.
 */
module SemanticEdges {
  import opened Collections
  import opened Ordering
  import opened SemanticIndex

  type Pair = (nat, nat)

  /** The default `max_postings` of `candidates`. */
  const MAX_POSTINGS: nat := 400

  datatype Setup = Setup(
    index: Index, merged: map<nat, Option<real>>, components: map<nat, set<string>>, corroborated: set<Pair>,
    minSimilarity: real, maxDays: real, cap: nat, overlap: bool)

  datatype Edge = Edge(pair: Pair, similarity: real, usable: bool)

  function PairOf(a: nat, b: nat): Pair { if a < b then (a, b) else (b, a) }

  function MergedAt(setup: Setup, n: nat): Option<real> { if n in setup.merged then setup.merged[n] else None }

  function ComponentsOf(setup: Setup, n: nat): set<string> {
    if n in setup.components then setup.components[n] else {}
  }

  function Distance(x: real, y: real): real { if x < y then y - x else x - y }

  predicate CloseInTime(setup: Setup, a: nat, b: nat) {
    var x, y := MergedAt(setup, a), MergedAt(setup, b);
    x.Some? && y.Some? && Distance(x.value, y.value) <= setup.maxDays
  }

  /** The date test and the component test. */
  predicate Passes(setup: Setup, a: nat, b: nat) {
    CloseInTime(setup, a, b) && (setup.overlap ==> ComponentsOf(setup, a) * ComponentsOf(setup, b) != {})
  }

  /**
   What the two tests mean: both dates are known and at most `maxDays` apart either way, and, if overlap is
   required, some component is shared.
   */
  ghost predicate Comparable(setup: Setup, a: nat, b: nat) {
    && a in setup.merged && setup.merged[a].Some? && b in setup.merged && setup.merged[b].Some?
    && -setup.maxDays <= setup.merged[a].value - setup.merged[b].value <= setup.maxDays
    && (setup.overlap ==> exists c ::
      a in setup.components && b in setup.components && c in setup.components[a] && c in setup.components[b])
  }

  lemma PassesExactly(setup: Setup, a: nat, b: nat)
    ensures Passes(setup, a, b) <==> Comparable(setup, a, b)
  {
    var shared := ComponentsOf(setup, a) * ComponentsOf(setup, b);
    if shared != {} {
      var c :| c in shared;
      assert a in setup.components && b in setup.components && c in setup.components[a] && c in setup.components[b];
    }
    if c :| a in setup.components && b in setup.components && c in setup.components[a] && c in setup.components[b] {
      assert c in shared;
    }
  }

  function VectorFor(setup: Setup, n: nat): Vector { if n in setup.index.vectors then setup.index.vectors[n] else map[] }

  ghost function Score(setup: Setup, a: nat, b: nat): real { Similarity(VectorFor(setup, a), VectorFor(setup, b)) }

  /** The pairs the module is looking for. */
  ghost predicate Qualifies(setup: Setup, a: nat, b: nat) {
    b in Candidates(setup.index, a, MAX_POSTINGS) && Passes(setup, a, b) && Score(setup, a, b) >= setup.minSimilarity
  }

  // ----- one pull request's turn -----

  type Item = (real, nat)

  /** Best score first, then the smaller number. */
  predicate ItemLe(x: Item, y: Item) { x.0 > y.0 || (x.0 == y.0 && x.1 <= y.1) }

  ghost function Open(setup: Setup, n: nat, seen: set<Pair>): set<Item> {
    set o | o in Candidates(setup.index, n, MAX_POSTINGS) && PairOf(n, o) !in seen && Qualifies(setup, n, o) ::
      (Score(setup, n, o), o)
  }

  ghost function Chosen(setup: Setup, n: nat, seen: set<Pair>): seq<Item> {
    Prefix(SortedSet(Open(setup, n, seen), ItemLe), setup.cap)
  }

  /** What a pull request takes, given the pairs already seen. */
  type Picker = (nat, set<Pair>) -> seq<Item>

  ghost function PickerOf(setup: Setup): Picker { (n: nat, seen: set<Pair>) => Chosen(setup, n, seen) }

  datatype Turn = Turn(number: nat, chosen: seq<Item>)

  function PairsOf(turn: Turn): set<Pair> { set i | 0 <= i < |turn.chosen| :: PairOf(turn.number, turn.chosen[i].1) }

  function Seen(turns: seq<Turn>): set<Pair> {
    if turns == [] then {} else Seen(turns[..|turns| - 1]) + PairsOf(turns[|turns| - 1])
  }

  /** The turns of the first `k` pull requests. */
  ghost function Turns(pick: Picker, numbers: seq<nat>, k: nat): (r: seq<Turn>)
    requires k <= |numbers|
    ensures |r| == k
  {
    if k == 0 then []
    else
      var before := Turns(pick, numbers, k - 1);
      before + [Turn(numbers[k - 1], pick(numbers[k - 1], Seen(before)))]
  }

  function EdgeOf(setup: Setup, n: nat, item: Item): Edge {
    Edge(PairOf(n, item.1), item.0, PairOf(n, item.1) in setup.corroborated)
  }

  function EdgesOf(setup: Setup, turn: Turn): seq<Edge> {
    seq(|turn.chosen|, i requires 0 <= i < |turn.chosen| => EdgeOf(setup, turn.number, turn.chosen[i]))
  }

  function Flatten(setup: Setup, turns: seq<Turn>): seq<Edge> {
    if turns == [] then [] else Flatten(setup, turns[..|turns| - 1]) + EdgesOf(setup, turns[|turns| - 1])
  }

  ghost function Numbers(setup: Setup): seq<nat> { SortedSet(setup.index.vectors.Keys, NatLe) }

  ghost function AllTurns(setup: Setup): seq<Turn> { Turns(PickerOf(setup), Numbers(setup), |Numbers(setup)|) }

  ghost function EdgesFor(setup: Setup): seq<Edge> { Flatten(setup, AllTurns(setup)) }

  // ----- what a turn chooses -----

  lemma ItemLeIsTotalOrder()
    ensures IsTotalOrder(ItemLe)
  {
  }

  lemma ChosenAreOpen(setup: Setup, n: nat, seen: set<Pair>)
    ensures forall i :: 0 <= i < |Chosen(setup, n, seen)| ==> Chosen(setup, n, seen)[i] in Open(setup, n, seen)
    ensures Distinct(Chosen(setup, n, seen))
  {
    var open := Open(setup, n, seen);
    var ranked, chosen := SortedSet(open, ItemLe), Chosen(setup, n, seen);
    SortedSetElements(open, ItemLe);
    SortedSetDistinct(open, ItemLe);
    forall i | 0 <= i < |chosen| ensures chosen[i] in open {
      assert chosen[i] == ranked[i] && ranked[i] in ranked;
    }
  }

  /**
   The item scores no more than the other, and at the same score its number is not smaller: the better partner
   comes first.
   */
  ghost predicate NoBetter(item: Item, kept: Item) {
    kept.0 >= item.0 && (kept.0 == item.0 ==> kept.1 <= item.1)
  }

  /** An open partner is passed over only when the turn is full of partners none of which is worse. */
  lemma PassedOver(setup: Setup, n: nat, seen: set<Pair>, item: Item)
    requires item in Open(setup, n, seen) && item !in Chosen(setup, n, seen)
    ensures |Chosen(setup, n, seen)| == setup.cap
    ensures forall i :: 0 <= i < |Chosen(setup, n, seen)| ==> NoBetter(item, Chosen(setup, n, seen)[i])
  {
    var open := Open(setup, n, seen);
    var ranked := SortedSet(open, ItemLe);
    ItemLeIsTotalOrder();
    SortedSetSorted(open, ItemLe);
    SortedSetElements(open, ItemLe);
    PrefixMisses(ranked, setup.cap, item);
  }

  /** A turn emits its partners best first. */
  lemma BestFirst(setup: Setup, n: nat, seen: set<Pair>, i: nat, j: nat)
    requires i < j < |Chosen(setup, n, seen)|
    ensures NoBetter(Chosen(setup, n, seen)[j], Chosen(setup, n, seen)[i])
  {
    ItemLeIsTotalOrder();
    SortedSetSorted(Open(setup, n, seen), ItemLe);
  }

  lemma PrefixMisses(ranked: seq<Item>, cap: nat, item: Item)
    requires SortedBy(ranked, ItemLe) && item in ranked && item !in Prefix(ranked, cap)
    ensures |Prefix(ranked, cap)| == cap
    ensures forall i :: 0 <= i < cap ==> ItemLe(Prefix(ranked, cap)[i], item)
  {
    var k :| 0 <= k < |ranked| && ranked[k] == item;
    KeptByPrefix(ranked, cap, k);
  }

  lemma KeptByPrefix(ranked: seq<Item>, cap: nat, k: nat)
    requires k < |ranked|
    ensures k < |Prefix(ranked, cap)| ==> ranked[k] in Prefix(ranked, cap)
  {
    assert k < |Prefix(ranked, cap)| ==> Prefix(ranked, cap)[k] == ranked[k];
  }

  lemma PairOfInjective(n: nat, a: nat, b: nat)
    ensures PairOf(n, a) == PairOf(n, b) ==> a == b
    ensures PairOf(n, a) == PairOf(a, n)
  {
  }

  /** What every edge says: its pair is new in this turn, qualifies, and carries its score. */
  ghost predicate Sound(setup: Setup, n: nat, seen: set<Pair>, item: Item) {
    PairOf(n, item.1) !in seen && Qualifies(setup, n, item.1) && item.0 == Score(setup, n, item.1)
  }

  /** The pairs of a turn are new, and no two of them are equal. */
  lemma TurnPairs(setup: Setup, n: nat, seen: set<Pair>)
    ensures forall i :: 0 <= i < |Chosen(setup, n, seen)| ==> Sound(setup, n, seen, Chosen(setup, n, seen)[i])
    ensures forall i, j :: 0 <= i < j < |Chosen(setup, n, seen)| ==>
              PairOf(n, Chosen(setup, n, seen)[i].1) != PairOf(n, Chosen(setup, n, seen)[j].1)
  {
    var chosen := Chosen(setup, n, seen);
    ChosenAreOpen(setup, n, seen);
    forall i | 0 <= i < |chosen| ensures Sound(setup, n, seen, chosen[i]) {}
    forall i, j | 0 <= i < j < |chosen| ensures PairOf(n, chosen[i].1) != PairOf(n, chosen[j].1) {
      PairOfInjective(n, chosen[i].1, chosen[j].1);
      assert chosen[i] != chosen[j] && chosen[i] in Open(setup, n, seen) && chosen[j] in Open(setup, n, seen);
    }
  }

  // ----- all turns -----

  lemma SeenNext(turns: seq<Turn>, turn: Turn)
    ensures Seen(turns + [turn]) == Seen(turns) + PairsOf(turn)
  {
    assert (turns + [turn])[..|turns|] == turns;
  }

  lemma TurnsNext(pick: Picker, numbers: seq<nat>, k: nat, before: seq<Turn>, turn: Turn)
    requires k < |numbers| && before == Turns(pick, numbers, k)
      && turn == Turn(numbers[k], pick(numbers[k], Seen(before)))
    ensures Turns(pick, numbers, k + 1) == before + [turn]
    ensures Seen(Turns(pick, numbers, k + 1)) == Seen(before) + PairsOf(turn)
  {
    SeenNext(before, turn);
  }

  lemma {:induction false} TurnIs(pick: Picker, numbers: seq<nat>, k: nat, i: nat)
    requires i < k <= |numbers|
    ensures Turns(pick, numbers, k)[i] == Turn(numbers[i], pick(numbers[i], Seen(Turns(pick, numbers, i))))
  {
    if i < k - 1 { TurnIs(pick, numbers, k - 1, i); }
  }

  lemma {:induction false} ChainGrows(f: nat -> set<Pair>, i: nat, k: nat)
    requires i <= k && forall j :: 0 <= j < k ==> f(j) <= f(j + 1)
    ensures f(i) <= f(k)
    decreases k
  {
    if i < k { ChainGrows(f, i, k - 1); }
  }

  lemma {:induction false} SeenGrows(pick: Picker, numbers: seq<nat>, i: nat, k: nat)
    requires i <= k <= |numbers|
    ensures Seen(Turns(pick, numbers, i)) <= Seen(Turns(pick, numbers, k))
  {
    var f := (j: nat) => if j <= |numbers| then Seen(Turns(pick, numbers, j)) else {};
    forall j | 0 <= j < k ensures f(j) <= f(j + 1) { SeenStep(pick, numbers, j); }
    ChainGrows(f, i, k);
  }

  lemma SeenStep(pick: Picker, numbers: seq<nat>, k: nat)
    requires k < |numbers|
    ensures Seen(Turns(pick, numbers, k)) <= Seen(Turns(pick, numbers, k + 1))
    ensures PairsOf(Turns(pick, numbers, k + 1)[k]) <= Seen(Turns(pick, numbers, k + 1))
  {
    var before := Turns(pick, numbers, k);
    TurnsNext(pick, numbers, k, before, Turn(numbers[k], pick(numbers[k], Seen(before))));
  }

  lemma TurnSeen(pick: Picker, numbers: seq<nat>, k: nat, i: nat)
    requires i < k <= |numbers|
    ensures PairsOf(Turns(pick, numbers, k)[i]) <= Seen(Turns(pick, numbers, k))
  {
    SeenStep(pick, numbers, i);
    SeenGrows(pick, numbers, i + 1, k);
    TurnIs(pick, numbers, k, i);
    TurnIs(pick, numbers, i + 1, i);
  }

  ghost predicate PairsOnce(edges: seq<Edge>) {
    forall i, j :: 0 <= i < j < |edges| ==> edges[i].pair != edges[j].pair
  }

  ghost function PairSet(edges: seq<Edge>): set<Pair> { set i | 0 <= i < |edges| :: edges[i].pair }

  /** One number is a candidate of the other, the pair is comparable, and the edge carries a high enough score. */
  ghost predicate FoundFrom(setup: Setup, e: Edge, a: nat, b: nat) {
    && b in Candidates(setup.index, a, MAX_POSTINGS) && Comparable(setup, a, b)
    && e.similarity == Similarity(VectorFor(setup, a), VectorFor(setup, b)) && e.similarity >= setup.minSimilarity
  }

  /** An edge's pair is in order and was found from one side at least. */
  ghost predicate EdgeSound(setup: Setup, e: Edge) {
    && e.pair.0 <= e.pair.1
    && (e.usable <==> e.pair in setup.corroborated)
    && (FoundFrom(setup, e, e.pair.0, e.pair.1) || FoundFrom(setup, e, e.pair.1, e.pair.0))
  }

  lemma TurnEdges(setup: Setup, n: nat, seen: set<Pair>)
    ensures var turn := Turn(n, Chosen(setup, n, seen)); var edges := EdgesOf(setup, turn);
            && PairsOnce(edges) && PairSet(edges) == PairsOf(turn) && PairSet(edges) !! seen
            && forall i :: 0 <= i < |edges| ==> EdgeSound(setup, edges[i])
  {
    TurnPairs(setup, n, seen);
    var turn := Turn(n, Chosen(setup, n, seen));
    var edges := EdgesOf(setup, turn);
    forall i | 0 <= i < |edges| ensures EdgeSound(setup, edges[i]) && edges[i].pair !in seen {
      assert Sound(setup, n, seen, turn.chosen[i]);
      PassesExactly(setup, n, turn.chosen[i].1);
    }
    forall i, j | 0 <= i < j < |edges| ensures edges[i].pair != edges[j].pair {
      assert edges[i].pair == PairOf(n, turn.chosen[i].1) && edges[j].pair == PairOf(n, turn.chosen[j].1);
    }
    assert forall i :: 0 <= i < |edges| ==> edges[i].pair == PairOf(n, turn.chosen[i].1);
  }

  lemma Appended(setup: Setup, a: seq<Edge>, b: seq<Edge>)
    requires PairsOnce(a) && PairsOnce(b) && PairSet(a) !! PairSet(b)
    ensures PairsOnce(a + b) && PairSet(a + b) == PairSet(a) + PairSet(b)
  {
    var r := a + b;
    forall i, j | 0 <= i < j < |r| ensures r[i].pair != r[j].pair {
      if i < |a| <= j { assert r[i].pair in PairSet(a) && r[j].pair in PairSet(b); }
    }
    forall p ensures p in PairSet(r) <==> p in PairSet(a) || p in PairSet(b) {
      if p in PairSet(a) {
        var i :| 0 <= i < |a| && a[i].pair == p;
        assert r[i].pair == p;
      }
      if p in PairSet(b) {
        var i :| 0 <= i < |b| && b[i].pair == p;
        assert r[|a| + i].pair == p;
      }
    }
  }

  /** What every prefix of the turns has emitted. */
  ghost predicate EmittedWell(setup: Setup, turns: seq<Turn>) {
    && PairsOnce(Flatten(setup, turns)) && PairSet(Flatten(setup, turns)) == Seen(turns)
    && forall i :: 0 <= i < |Flatten(setup, turns)| ==> EdgeSound(setup, Flatten(setup, turns)[i])
  }

  lemma EmittedNext(setup: Setup, before: seq<Turn>, n: nat)
    requires EmittedWell(setup, before)
    ensures EmittedWell(setup, before + [Turn(n, Chosen(setup, n, Seen(before)))])
  {
    var turn := Turn(n, Chosen(setup, n, Seen(before)));
    TurnEdges(setup, n, Seen(before));
    SeenNext(before, turn);
    FlattenNext(setup, before, turn);
    Appended(setup, Flatten(setup, before), EdgesOf(setup, turn));
  }

  lemma {:induction false} EdgesOnce(setup: Setup, numbers: seq<nat>, k: nat)
    requires k <= |numbers|
    ensures EmittedWell(setup, Turns(PickerOf(setup), numbers, k))
  {
    if k > 0 {
      EdgesOnce(setup, numbers, k - 1);
      EmittedNext(setup, Turns(PickerOf(setup), numbers, k - 1), numbers[k - 1]);
    }
  }

  /** Each pair is emitted at most once, from a candidate that passes every test. */
  lemma EveryEdgeIsSoundAndSingle(setup: Setup)
    ensures PairsOnce(EdgesFor(setup))
    ensures forall i :: 0 <= i < |EdgesFor(setup)| ==> EdgeSound(setup, EdgesFor(setup)[i])
  {
    EdgesOnce(setup, Numbers(setup), |Numbers(setup)|);
  }

  // ----- what is missing -----

  lemma QualifiesMutual(setup: Setup, a: nat, b: nat)
    requires ArePostings(setup.index.vectors, setup.index.postings)
    requires a in setup.index.vectors && b in setup.index.vectors
    ensures Qualifies(setup, a, b) <==> Qualifies(setup, b, a)
    ensures Score(setup, a, b) == Score(setup, b, a)
  {
    CandidatesMutual(setup.index, MAX_POSTINGS, a, b);
    SimilarityIsShared(VectorFor(setup, a), VectorFor(setup, b));
    SimilarityIsShared(VectorFor(setup, b), VectorFor(setup, a));
    var shared := VectorFor(setup, a).Keys * VectorFor(setup, b).Keys;
    DotSymmetric(shared, VectorFor(setup, a), VectorFor(setup, b));
    assert VectorFor(setup, b).Keys * VectorFor(setup, a).Keys == shared;
    assert ComponentsOf(setup, a) * ComponentsOf(setup, b) == ComponentsOf(setup, b) * ComponentsOf(setup, a);
  }

  /** A partner that `a` took scores at least as much as `b` and, at the same score, has no larger number. */
  ghost predicate TakenBefore(setup: Setup, a: nat, item: Item, b: nat) {
    && item.0 == Score(setup, a, item.1)
    && Score(setup, a, item.1) >= Score(setup, a, b)
    && (Score(setup, a, item.1) == Score(setup, a, b) ==> item.1 <= b)
  }

  /** `a`'s turn is full, of partners that all come before `b`. */
  ghost predicate CrowdedOut(setup: Setup, turns: seq<Turn>, a: nat, b: nat) {
    exists i :: 0 <= i < |turns| && turns[i].number == a && |turns[i].chosen| == setup.cap
                && forall j :: 0 <= j < |turns[i].chosen| ==> TakenBefore(setup, a, turns[i].chosen[j], b)
  }

  lemma {:induction false} AbsentFromTurn(setup: Setup, numbers: seq<nat>, a: nat, b: nat)
    requires a in numbers && Qualifies(setup, a, b)
    requires PairOf(a, b) !in Seen(Turns(PickerOf(setup), numbers, |numbers|))
    ensures CrowdedOut(setup, Turns(PickerOf(setup), numbers, |numbers|), a, b)
  {
    var turns := Turns(PickerOf(setup), numbers, |numbers|);
    var i :| 0 <= i < |numbers| && numbers[i] == a;
    TurnIs(PickerOf(setup), numbers, |numbers|, i);
    TurnSeen(PickerOf(setup), numbers, |numbers|, i);
    SeenGrows(PickerOf(setup), numbers, i, |numbers|);
    var seen, item := Seen(Turns(PickerOf(setup), numbers, i)), (Score(setup, a, b), b);
    assert item in Open(setup, a, seen);
    ChosenPair(turns[i], item);
    PassedOver(setup, a, seen, item);
    ChosenAreOpen(setup, a, seen);
    forall j | 0 <= j < |turns[i].chosen| ensures TakenBefore(setup, a, turns[i].chosen[j], b) {
      assert NoBetter(item, turns[i].chosen[j]);
    }
  }

  lemma ChosenPair(turn: Turn, item: Item)
    ensures item in turn.chosen ==> PairOf(turn.number, item.1) in PairsOf(turn)
  {
  }

  /**
   A candidate pair that passes the tests and scores high enough is absent from the edges only if both of its
   pull requests filled their caps, each with partners that score at least as high as the other and, at the
   same score, have no larger number.
   */
  lemma AbsentPairWasCrowdedOut(setup: Setup, a: nat, b: nat)
    requires ArePostings(setup.index.vectors, setup.index.postings)
    requires a in setup.index.vectors && b in setup.index.vectors
    requires b in Candidates(setup.index, a, MAX_POSTINGS) && Comparable(setup, a, b)
      && Score(setup, a, b) >= setup.minSimilarity
    ensures (if a < b then (a, b) else (b, a)) in PairSet(EdgesFor(setup))
      || (CrowdedOut(setup, AllTurns(setup), a, b) && CrowdedOut(setup, AllTurns(setup), b, a))
  {
    var numbers := Numbers(setup);
    SortedSetElements(setup.index.vectors.Keys, NatLe);
    EdgesOnce(setup, numbers, |numbers|);
    PassesExactly(setup, a, b);
    QualifiesMutual(setup, a, b);
    PairOfInjective(a, b, b);
    if PairOf(a, b) !in Seen(AllTurns(setup)) {
      AbsentFromTurn(setup, numbers, a, b);
      AbsentFromTurn(setup, numbers, b, a);
    }
  }

  /** Room for everybody: no turn can choose `cap` partners and still pass one over. */
  lemma {:induction false} RoomForAll(setup: Setup, k: nat, numbers: seq<nat>, i: nat, b: nat)
    requires numbers == Numbers(setup) && i < k <= |numbers|
    requires ArePostings(setup.index.vectors, setup.index.postings)
    requires setup.cap >= |setup.index.vectors| && numbers[i] in setup.index.vectors
    ensures |Turns(PickerOf(setup), numbers, k)[i].chosen| < setup.cap
  {
    TurnIs(PickerOf(setup), numbers, k, i);
    var seen, n := Seen(Turns(PickerOf(setup), numbers, i)), numbers[i];
    var ranked, partners := SortedSet(Open(setup, n, seen), ItemLe), Candidates(setup.index, n, MAX_POSTINGS);
    assert |multiset(ranked)| == |ranked| && |multiset(Open(setup, n, seen))| == |Open(setup, n, seen)|;
    OpenSize(setup, n, seen, partners);
    CandidatesKnown(setup.index, MAX_POSTINGS, n);
    SubsetSize(partners, setup.index.vectors.Keys - {n});
  }

  lemma {:induction false} ItemsSize(items: set<Item>, partners: set<nat>)
    requires forall x :: x in items ==> x.1 in partners
    requires forall x, y :: x in items && y in items && x.1 == y.1 ==> x == y
    ensures |items| <= |partners|
    decreases items
  {
    if items != {} {
      var x :| x in items;
      ItemsSize(items - {x}, partners - {x.1});
    }
  }

  lemma OpenSize(setup: Setup, n: nat, seen: set<Pair>, partners: set<nat>)
    requires partners == Candidates(setup.index, n, MAX_POSTINGS)
    ensures |Open(setup, n, seen)| <= |partners|
  {
    ItemsSize(Open(setup, n, seen), partners);
  }

  lemma SoundEitherWay(setup: Setup, e: Edge, a: nat, b: nat)
    requires EdgeSound(setup, e) && e.pair == (a, b) && Score(setup, a, b) == Score(setup, b, a)
    ensures Comparable(setup, a, b) && Score(setup, a, b) >= setup.minSimilarity
  {
  }

  /**
   The fast form equals the simple one. When no posting list is skipped, scores must be positive and the
   cap cannot bind, the emitted pairs are exactly those that pass the tests and score high enough.
   */
  lemma SameAsAllPairs(setup: Setup, docs: map<nat, Document>, maxDf: nat, weigh: Weighing, root: real -> real,
      a: nat, b: nat)
    requires IsIndex(docs, maxDf, weigh, root, setup.index) && maxDf <= MAX_POSTINGS
    requires setup.minSimilarity > 0.0 && setup.cap >= |docs|
    requires a in docs && b in docs && a < b
    ensures (a, b) in PairSet(EdgesFor(setup)) <==> Comparable(setup, a, b) && Score(setup, a, b) >= setup.minSimilarity
  {
    var numbers := Numbers(setup);
    SortedSetElements(setup.index.vectors.Keys, NatLe);
    SortedSetDistinct(setup.index.vectors.Keys, NatLe);
    QualifiesMutual(setup, a, b);
    if (a, b) in PairSet(EdgesFor(setup)) {
      EveryEdgeIsSoundAndSingle(setup);
      var i :| 0 <= i < |EdgesFor(setup)| && EdgesFor(setup)[i].pair == (a, b);
      SoundEitherWay(setup, EdgesFor(setup)[i], a, b);
    } else if Comparable(setup, a, b) && Score(setup, a, b) >= setup.minSimilarity {
      SimilarAreCandidates(docs, maxDf, weigh, root, setup.index, MAX_POSTINGS, a, b);
      AbsentPairWasCrowdedOut(setup, a, b);
      NobodyCrowded(setup, a, b);
    }
  }

  lemma NobodyCrowded(setup: Setup, a: nat, b: nat)
    requires ArePostings(setup.index.vectors, setup.index.postings)
    requires setup.cap >= |setup.index.vectors|
    ensures !CrowdedOut(setup, AllTurns(setup), a, b)
  {
    var numbers := Numbers(setup);
    SortedSetElements(setup.index.vectors.Keys, NatLe);
    forall i | 0 <= i < |numbers| ensures |AllTurns(setup)[i].chosen| < setup.cap {
      assert numbers[i] in numbers;
      RoomForAll(setup, |numbers|, numbers, i, b);
    }
  }

  // ----- build_semantic_edges -----

  ghost function OpenAmong(setup: Setup, n: nat, seen: set<Pair>, some: set<nat>): set<Item> {
    set o | o in some && PairOf(n, o) !in seen && Qualifies(setup, n, o) :: (Score(setup, n, o), o)
  }

  lemma OneMorePartner(setup: Setup, n: nat, seen: set<Pair>, some: set<nat>, o: nat)
    requires o !in some
    ensures OpenAmong(setup, n, seen, some + {o}) == OpenAmong(setup, n, seen, some)
              + if PairOf(n, o) !in seen && Qualifies(setup, n, o) then {(Score(setup, n, o), o)} else {}
    ensures (Score(setup, n, o), o) !in OpenAmong(setup, n, seen, some)
  {
  }

  /** The tests on one candidate, cheapest first. */
  method Judge(setup: Setup, number: nat, other: nat, seen: set<Pair>) returns (kept: bool, item: Item)
    requires other in Candidates(setup.index, number, MAX_POSTINGS)
    ensures kept <==> PairOf(number, other) !in seen && Qualifies(setup, number, other)
    ensures kept ==> item == (Score(setup, number, other), other)
  {
    kept, item := false, (0.0, other);
    if PairOf(number, other) in seen { return; }
    if !CloseInTime(setup, number, other) { return; }
    if setup.overlap && ComponentsOf(setup, number) * ComponentsOf(setup, other) == {} { return; }
    var score := ComputeSimilarity(VectorFor(setup, number), VectorFor(setup, other));
    kept, item := score >= setup.minSimilarity, (score, other);
  }

  lemma OneMoreItem(scored: seq<Item>, found: set<Item>, item: Item)
    requires multiset(scored) == multiset(found) && item !in found
    ensures multiset(scored + [item]) == multiset(found + {item})
  {
  }

  lemma ScoredNext(setup: Setup, n: nat, seen: set<Pair>, candidates: set<nat>, rest: set<nat>, other: nat,
                   scored: seq<Item>, kept: bool, item: Item)
    requires rest <= candidates && other in rest
      && multiset(scored) == multiset(OpenAmong(setup, n, seen, candidates - rest))
    requires kept <==> PairOf(n, other) !in seen && Qualifies(setup, n, other)
    requires kept ==> item == (Score(setup, n, other), other)
    ensures multiset(if kept then scored + [item] else scored)
      == multiset(OpenAmong(setup, n, seen, candidates - (rest - {other})))
  {
    var done := candidates - rest;
    assert candidates - (rest - {other}) == done + {other};
    OneMorePartner(setup, n, seen, done, other);
    if kept { OneMoreItem(scored, OpenAmong(setup, n, seen, done), item); }
  }

  /** The inner loop over candidates. */
  method ScorePartners(setup: Setup, number: nat, seen: set<Pair>) returns (scored: seq<Item>)
    ensures multiset(scored) == multiset(Open(setup, number, seen))
  {
    scored := [];
    var candidates := FindCandidates(setup.index, number, MAX_POSTINGS);
    var rest := candidates;
    while rest != {}
      invariant rest <= candidates
      invariant multiset(scored) == multiset(OpenAmong(setup, number, seen, candidates - rest))
      decreases rest
    {
      var other :| other in rest;
      var kept, item := Judge(setup, number, other, seen);
      ScoredNext(setup, number, seen, candidates, rest, other, scored, kept, item);
      rest := rest - {other};
      if kept { scored := scored + [item]; }
    }
    assert OpenAmong(setup, number, seen, candidates - rest) == Open(setup, number, seen);
  }

  method RankPartners(setup: Setup, number: nat, seen: set<Pair>) returns (ranked: seq<Item>)
    ensures ranked == SortedSet(Open(setup, number, seen), ItemLe)
  {
    var scored := ScorePartners(setup, number, seen);
    ItemLeIsTotalOrder();
    SortSorted(scored, ItemLe);
    SortedSetSorted(Open(setup, number, seen), ItemLe);
    ranked := Sort(scored, ItemLe);
    SortedUnique(ranked, SortedSet(Open(setup, number, seen), ItemLe), ItemLe);
  }

  /** The emitting loop: `seen` is consulted once more before each edge, and never fires. */
  method Emit(setup: Setup, number: nat, chosen: seq<Item>, seen: set<Pair>, edges: seq<Edge>)
      returns (seen': set<Pair>, edges': seq<Edge>)
    requires forall i :: 0 <= i < |chosen| ==> PairOf(number, chosen[i].1) !in seen
    requires forall i, j :: 0 <= i < j < |chosen| ==> PairOf(number, chosen[i].1) != PairOf(number, chosen[j].1)
    ensures seen' == seen + PairsOf(Turn(number, chosen)) && edges' == edges + EdgesOf(setup, Turn(number, chosen))
  {
    seen', edges' := seen, edges;
    for i := 0 to |chosen|
      invariant seen' == seen + PairsOf(Turn(number, chosen[..i]))
      invariant edges' == edges + EdgesOf(setup, Turn(number, chosen[..i]))
    {
      var pair := PairOf(number, chosen[i].1);
      if pair in seen' {
        assert false;
      }
      PairsNext(number, chosen, i);
      EdgesNext(setup, number, chosen, i);
      seen' := seen' + {pair};
      edges' := edges' + [Edge(pair, chosen[i].0, pair in setup.corroborated)];
    }
    assert chosen[..|chosen|] == chosen;
  }

  lemma EdgesNext(setup: Setup, n: nat, chosen: seq<Item>, i: nat)
    requires i < |chosen|
    ensures EdgesOf(setup, Turn(n, chosen[..i + 1]))
      == EdgesOf(setup, Turn(n, chosen[..i])) + [EdgeOf(setup, n, chosen[i])]
  {
  }

  /** `scored[:max_candidates]` */
  method Choose(setup: Setup, number: nat, seen: set<Pair>) returns (chosen: seq<Item>)
    ensures chosen == Chosen(setup, number, seen)
    ensures forall i :: 0 <= i < |chosen| ==> PairOf(number, chosen[i].1) !in seen
    ensures forall i, j :: 0 <= i < j < |chosen| ==> PairOf(number, chosen[i].1) != PairOf(number, chosen[j].1)
  {
    var ranked := RankPartners(setup, number, seen);
    chosen := Prefix(ranked, setup.cap);
    TurnFresh(setup, number, seen, chosen);
  }

  lemma TurnFresh(setup: Setup, n: nat, seen: set<Pair>, chosen: seq<Item>)
    requires chosen == Chosen(setup, n, seen)
    ensures forall i :: 0 <= i < |chosen| ==> PairOf(n, chosen[i].1) !in seen
    ensures forall i, j :: 0 <= i < j < |chosen| ==> PairOf(n, chosen[i].1) != PairOf(n, chosen[j].1)
  {
    TurnPairs(setup, n, seen);
    forall i | 0 <= i < |chosen| ensures PairOf(n, chosen[i].1) !in seen {
      assert Sound(setup, n, seen, Chosen(setup, n, seen)[i]);
    }
    forall i, j | 0 <= i < j < |chosen| ensures PairOf(n, chosen[i].1) != PairOf(n, chosen[j].1) {
      assert chosen[i] == Chosen(setup, n, seen)[i] && chosen[j] == Chosen(setup, n, seen)[j];
    }
  }

  /** One round of the outer loop. */
  method TakeTurn(setup: Setup, number: nat, seen: set<Pair>, edges: seq<Edge>)
      returns (seen': set<Pair>, edges': seq<Edge>)
    ensures var turn := Turn(number, Chosen(setup, number, seen));
            seen' == seen + PairsOf(turn) && edges' == edges + EdgesOf(setup, turn)
  {
    var chosen := Choose(setup, number, seen);
    seen', edges' := Emit(setup, number, chosen, seen, edges);
  }

  lemma PairsNext(n: nat, chosen: seq<Item>, i: nat)
    requires i < |chosen|
    ensures PairsOf(Turn(n, chosen[..i + 1])) == PairsOf(Turn(n, chosen[..i])) + {PairOf(n, chosen[i].1)}
  {
    var before, after := Turn(n, chosen[..i]), Turn(n, chosen[..i + 1]);
    forall p ensures p in PairsOf(after) <==> p in PairsOf(before) || p == PairOf(n, chosen[i].1) {
      if p in PairsOf(before) {
        var k :| 0 <= k < i && PairOf(n, before.chosen[k].1) == p;
        assert PairOf(n, after.chosen[k].1) == p;
      }
      if p in PairsOf(after) {
        var k :| 0 <= k < i + 1 && PairOf(n, after.chosen[k].1) == p;
        if k < i { assert PairOf(n, before.chosen[k].1) == p; }
      }
      assert after.chosen[i] == chosen[i];
    }
  }

  lemma FlattenNext(setup: Setup, turns: seq<Turn>, turn: Turn)
    ensures Flatten(setup, turns + [turn]) == Flatten(setup, turns) + EdgesOf(setup, turn)
  {
    assert (turns + [turn])[..|turns|] == turns;
  }

  method BuildSemanticEdges(setup: Setup) returns (edges: seq<Edge>)
    ensures edges == EdgesFor(setup)
  {
    assert IsTotalOrder(NatLe);
    var numbers := SortSet(setup.index.vectors.Keys, NatLe);
    edges := [];
    var seen: set<Pair> := {};
    for i := 0 to |numbers|
      invariant seen == Seen(Turns(PickerOf(setup), numbers, i))
        && edges == Flatten(setup, Turns(PickerOf(setup), numbers, i))
    {
      ghost var before := Turns(PickerOf(setup), numbers, i);
      ghost var turn := Turn(numbers[i], Chosen(setup, numbers[i], seen));
      TurnsNext(PickerOf(setup), numbers, i, before, turn);
      FlattenNext(setup, before, turn);
      seen, edges := TakeTurn(setup, numbers[i], seen, edges);
    }
  }
}
