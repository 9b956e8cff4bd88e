/**
 What the bootstrap draws (src/impact2/rank/sensitivity.py): for each actor, as many episodes as the actor
 has, from those and with replacement. Which ids let every such resample keep its tables joined, and its
 pairs unique.
 */
module Bootstrap {
  import opened Ordering
  import opened Resample

  // ----- episodes_by_actor -----

  /** The episodes of an actor's rows that count. */
  function PoolOf(participants: seq<Participant>, counts: Participant -> bool, actor: string): seq<string> {
    if participants == [] then []
    else
      var n := |participants| - 1;
      PoolOf(participants[..n], counts, actor)
        + if participants[n].actor == actor && counts(participants[n]) then [participants[n].row.id] else []
  }

  type Pools = map<string, seq<string>>

  function Pool(pools: Pools, actor: string): seq<string> { if actor in pools then pools[actor] else [] }

  method EpisodesByActor(participants: seq<Participant>, counts: Participant -> bool) returns (pools: Pools)
    ensures forall actor :: Pool(pools, actor) == PoolOf(participants, counts, actor)
    ensures forall actor :: actor in pools ==> pools[actor] != []
  {
    pools := map[];
    for i := 0 to |participants|
      invariant forall actor :: Pool(pools, actor) == PoolOf(participants[..i], counts, actor)
      invariant forall actor :: actor in pools ==> pools[actor] != []
    {
      assert participants[..i + 1][..i] == participants[..i];
      var p := participants[i];
      if counts(p) {
        pools := pools[p.actor := Pool(pools, p.actor) + [p.row.id]];
      }
    }
    assert participants[..|participants|] == participants;
  }

  lemma {:induction false} PoolMembers(participants: seq<Participant>, counts: Participant -> bool, actor: string)
    ensures forall id :: id in PoolOf(participants, counts, actor) ==> (actor, id) in Keyed(participants)
  {
    if participants != [] { PoolMembers(participants[..|participants| - 1], counts, actor); }
  }

  lemma {:induction false} NotInPool(participants: seq<Participant>, counts: Participant -> bool, actor: string,
      id: string)
    requires forall p :: p in participants ==> (p.actor, p.row.id) != (actor, id)
    ensures id !in PoolOf(participants, counts, actor)
  {
    if participants != [] { NotInPool(participants[..|participants| - 1], counts, actor, id); }
  }

  lemma {:induction false} PoolDistinct(participants: seq<Participant>, counts: Participant -> bool, actor: string)
    requires PairsUnique(participants)
    ensures Distinct(PoolOf(participants, counts, actor))
  {
    if participants != [] {
      var n := |participants| - 1;
      PoolDistinct(participants[..n], counts, actor);
      NotInPool(participants[..n], counts, participants[n].actor, participants[n].row.id);
    }
  }

  /** Every actor with a pool is listed once, and a pool holds episodes of the actor, each once. */
  ghost predicate Fair(byKey: ByKey, actors: seq<string>, pools: Pools) {
    && Distinct(actors) && (forall a :: a in actors <==> a in pools)
    && (forall a :: a in pools ==> IsPool(byKey, a, pools[a]))
  }

  ghost predicate IsPool(byKey: ByKey, actor: string, pool: seq<string>) {
    pool != [] && Distinct(pool) && forall id :: id in pool ==> (actor, id) in byKey
  }

  /** So are the pools that the pipeline collects, since no actor has two rows for an episode. */
  lemma CollectedPoolsAreFair(participants: seq<Participant>, counts: Participant -> bool, actors: seq<string>,
      pools: Pools)
    requires PairsUnique(participants) && Distinct(actors) && forall a :: a in actors <==> a in pools
    requires forall a :: Pool(pools, a) == PoolOf(participants, counts, a)
    requires forall a :: a in pools ==> pools[a] != []
    ensures Fair(Keyed(participants), actors, pools)
  {
    forall a | a in pools ensures IsPool(Keyed(participants), a, pools[a]) {
      assert Pool(pools, a) == pools[a];
      PoolDistinct(participants, counts, a);
      PoolMembers(participants, counts, a);
    }
  }

  // ----- one resample -----

  ghost predicate DrawsFrom(pool: seq<string>, ids: seq<string>) {
    |ids| == |pool| && forall id :: id in ids ==> id in pool
  }

  ghost predicate IsBootstrap(actors: seq<string>, pools: Pools, sample: seq<Draws>) {
    && |sample| == |actors|
    && forall i ::
      0 <= i < |sample| ==> sample[i].actor == actors[i] && DrawsFrom(Pool(pools, actors[i]), sample[i].ids)
  }

  /** One round of `bootstrap_stability`. Which episode `rng.choice` gives is open. */
  method DrawSample(actors: seq<string>, pools: Pools) returns (sample: seq<Draws>)
    requires forall a :: a in actors ==> a in pools && pools[a] != []
    ensures IsBootstrap(actors, pools, sample)
  {
    sample := [];
    for i := 0 to |actors|
      invariant IsBootstrap(actors[..i], pools, sample)
    {
      var pool, ids := pools[actors[i]], [];
      for j := 0 to |pool|
        invariant |ids| == j && forall id :: id in ids ==> id in pool
      {
        assert 0 < |pool|;
        var choice: nat :| choice < |pool|;
        ids := ids + [pool[choice]];
      }
      sample := sample + [Draws(actors[i], ids)];
    }
    assert actors[..|actors|] == actors;
  }

  /** Distinct episodes share an actor's draws. */
  lemma {:induction false} OccurrencesShare(ids: seq<string>, e: string, f: string)
    requires e != f
    ensures Occurrences(ids, e) + Occurrences(ids, f) <= |ids|
    ensures Occurrences(ids, e) > 0 ==> e in ids
  {
    if ids != [] {
      var n := |ids| - 1;
      OccurrencesShare(ids[..n], e, f);
    }
  }

  /** With actor `a` drawing one episode of its own, actor `b` can draw this one `k` times. */
  predicate CanDraw(pools: Pools, a: string, b: string, e: string, k: nat) {
    e in Pool(pools, b) && k + (if a == b then 1 else 0) <= |Pool(pools, b)|
  }

  lemma DrawnWithin(actors: seq<string>, pools: Pools, sample: seq<Draws>, i: nat, j: nat, e: string, f: string, k: nat)
    requires IsBootstrap(actors, pools, sample) && Distinct(actors) && i < |sample| && j < |sample| && e != f
    requires Occurrences(sample[i].ids, f) > 0 && 1 < k <= Occurrences(sample[j].ids, e)
    ensures f in Pool(pools, actors[i]) && k <= |Pool(pools, actors[j])| && CanDraw(pools, actors[i], actors[j], e, k)
  {
    OccurrencesShare(sample[i].ids, f, e);
    OccurrencesShare(sample[j].ids, e, f);
  }

  // ----- choosing a resample -----

  /** Every actor draws one episode throughout. */
  function Uniform(actors: seq<string>, pools: Pools, pick: string -> string): seq<Draws> {
    seq(|actors|, i requires 0 <= i < |actors| => Draws(actors[i], Repeated(pick(actors[i]), |Pool(pools, actors[i])|)))
  }

  lemma {:induction false} RepeatedIsConstant(id: string, k: nat)
    ensures |Repeated(id, k)| == k && forall x :: x in Repeated(id, k) ==> x == id
  {
    if k > 0 { RepeatedIsConstant(id, k - 1); }
  }

  lemma UniformIsBootstrap(actors: seq<string>, pools: Pools, pick: string -> string)
    requires forall a :: a in actors ==> pick(a) in Pool(pools, a)
    ensures IsBootstrap(actors, pools, Uniform(actors, pools, pick))
  {
    var sample := Uniform(actors, pools, pick);
    forall i | 0 <= i < |sample| ensures DrawsFrom(Pool(pools, actors[i]), sample[i].ids) {
      RepeatedIsConstant(pick(actors[i]), |Pool(pools, actors[i])|);
    }
  }

  /** The draws of an actor who takes one episode once and another one otherwise. */
  function OneAndRest(one: string, rest: string, n: nat): seq<string>
    requires n > 0
  {
    Repeated(rest, n - 1) + [one]
  }

  lemma OneAndRestDraws(pool: seq<string>, one: string, rest: string)
    requires pool != [] && one in pool && rest in pool && one != rest
    ensures var ids := OneAndRest(one, rest, |pool|);
            DrawsFrom(pool, ids) && Occurrences(ids, one) == 1 && Occurrences(ids, rest) == |pool| - 1
  {
    RepeatedIsConstant(rest, |pool| - 1);
    OccurrencesRepeated(rest, |pool| - 1, one);
    OccurrencesRepeated(rest, |pool| - 1, rest);
    OccurrencesNext(Repeated(rest, |pool| - 1), one, one);
    OccurrencesNext(Repeated(rest, |pool| - 1), one, rest);
  }

  // ----- exactly when the tables stay joined -----

  ghost predicate SampleJoined(dimensions: seq<Row>, episodes: seq<Row>, sample: seq<Draws>) {
    forall i, id, k ::
      0 <= i < |sample| && 1 <= k <= Occurrences(sample[i].ids, id) ==> DrawJoined(dimensions, episodes, sample, id, k)
  }

  /**
   The episode has a row; no dimension row sits under an alias that the actor's draws can make of it; and it is
   no alias of an episode with dimension rows that somebody can draw that often beside it.
   */
  ghost predicate Compatible(dimensions: seq<Row>, episodes: seq<Row>, pools: Pools, a: string, id: string) {
    && RowsOf(episodes, id) != []
    && (forall k: nat :: 1 < k <= |Pool(pools, a)| ==> RowsOf(dimensions, Alias(id, k)) == [])
    && (forall b, e, k: nat :: 1 < k && id == Alias(e, k) && CanDraw(pools, a, b, e, k) ==> RowsOf(dimensions, e) == [])
  }

  ghost predicate AllCompatible(dimensions: seq<Row>, episodes: seq<Row>, pools: Pools) {
    forall a, id :: id in Pool(pools, a) ==> Compatible(dimensions, episodes, pools, a, id)
  }

  /** The first draw of an episode whose id is an alias: nobody's repeats add rows to it. */
  lemma AliasLikeJoined(dimensions: seq<Row>, episodes: seq<Row>, actors: seq<string>, pools: Pools,
      sample: seq<Draws>, i: nat, e: string, k: nat)
    requires IsBootstrap(actors, pools, sample) && Distinct(actors) && i < |sample| && k > 1
    requires Occurrences(sample[i].ids, Alias(e, k)) > 0
      && Compatible(dimensions, episodes, pools, actors[i], Alias(e, k))
    ensures DrawJoined(dimensions, episodes, sample, Alias(e, k), 1)
  {
    var id := Alias(e, k);
    SameUnderOwnId(dimensions, id);
    LabelRows(episodes, sample, Listed(episodes), LastOf(episodes), e, k);
    LabelRows(dimensions, sample, Anything, CopiesOf(dimensions), e, k);
    if IsRepeat(sample, e, k) {
      var j :| 0 <= j < |sample| && 1 < k <= Occurrences(sample[j].ids, e);
      assert |id| > |e|;
      DrawnWithin(actors, pools, sample, i, j, e, id, k);
    }
  }

  lemma CompatibleJoins(dimensions: seq<Row>, episodes: seq<Row>, actors: seq<string>, pools: Pools,
      sample: seq<Draws>, i: nat, id: string, k: nat)
    requires IsBootstrap(actors, pools, sample) && Distinct(actors) && AllCompatible(dimensions, episodes, pools)
    requires i < |sample| && 1 <= k <= Occurrences(sample[i].ids, id)
    ensures DrawJoined(dimensions, episodes, sample, id, k)
  {
    assert Alias(id, 2) != id by { assert |Alias(id, 2)| > |id|; }
    OccurrencesShare(sample[i].ids, id, Alias(id, 2));
    assert Compatible(dimensions, episodes, pools, actors[i], id);
    if k > 1 {
      assert IsRepeat(sample, id, k);
      LabelRows(episodes, sample, Listed(episodes), LastOf(episodes), id, k);
      LabelRows(dimensions, sample, Anything, CopiesOf(dimensions), id, k);
    } else if e, j: nat :| j > 1 && id == Alias(e, j) {
      AliasLikeJoined(dimensions, episodes, actors, pools, sample, i, e, j);
    } else {
      SameUnderOwnId(dimensions, id);
      OriginalRows(episodes, sample, Listed(episodes), LastOf(episodes), id);
      OriginalRows(dimensions, sample, Anything, CopiesOf(dimensions), id);
    }
  }

  // ----- choosing a resample that breaks them -----

  lemma EntryOf(byKey: ByKey, actors: seq<string>, pools: Pools, a: string) returns (i: nat)
    requires Fair(byKey, actors, pools) && Pool(pools, a) != []
    ensures i < |actors| && actors[i] == a
  {
    assert a in actors;
    i :| i < |actors| && actors[i] == a;
  }

  /** An episode of the pool that is not `e`, if there is one. */
  function Other(pool: seq<string>, e: string): string {
    if pool == [] then "" else if pool[0] == e && |pool| > 1 then pool[1] else pool[0]
  }

  function Avoiding(pools: Pools, e: string): string -> string { a => Other(Pool(pools, a), e) }

  function With(pick: string -> string, a: string, id: string): string -> string { x => if x == a then id else pick(x) }

  ghost predicate Picks(pools: Pools, pick: string -> string) {
    forall a :: a in pools ==> pick(a) in pools[a]
  }

  lemma WithPicks(pools: Pools, pick: string -> string, a: string, id: string)
    requires Picks(pools, pick) && id in Pool(pools, a)
    ensures Picks(pools, With(pick, a, id))
  {
  }

  lemma WithBootstrap(byKey: ByKey, actors: seq<string>, pools: Pools, pick: string -> string, a: string, id: string)
      returns (i: nat)
    requires Fair(byKey, actors, pools) && id in Pool(pools, a) && Picks(pools, pick)
    ensures IsBootstrap(actors, pools, Uniform(actors, pools, With(pick, a, id)))
    ensures i < |actors| && actors[i] == a
    ensures Uniform(actors, pools, With(pick, a, id))[i] == Draws(a, Repeated(id, |Pool(pools, a)|))
    ensures Occurrences(Repeated(id, |Pool(pools, a)|), id) == |Pool(pools, a)|
  {
    WithPicks(pools, pick, a, id);
    i := EntryOf(byKey, actors, pools, a);
    UniformIsBootstrap(actors, pools, With(pick, a, id));
    OccurrencesRepeated(id, |Pool(pools, a)|, id);
  }

  lemma AvoidingPicks(byKey: ByKey, actors: seq<string>, pools: Pools, e: string)
    requires Fair(byKey, actors, pools)
    ensures Picks(pools, Avoiding(pools, e))
  {
    forall a | a in pools ensures Avoiding(pools, e)(a) in pools[a] {
      assert IsPool(byKey, a, pools[a]);
    }
  }

  lemma Avoids(byKey: ByKey, pools: Pools, a: string, e: string)
    requires a in pools && IsPool(byKey, a, pools[a])
    ensures |Pool(pools, a)| <= 1 || Avoiding(pools, e)(a) != e
  {
  }

  lemma AvoidedRarely(byKey: ByKey, actors: seq<string>, pools: Pools, a: string, id: string, e: string, k: nat)
    requires Fair(byKey, actors, pools) && id in Pool(pools, a) && id != e && k > 1
    ensures !IsRepeat(Uniform(actors, pools, With(Avoiding(pools, e), a, id)), e, k)
  {
    var sample := Uniform(actors, pools, With(Avoiding(pools, e), a, id));
    forall i | 0 <= i < |sample| ensures Occurrences(sample[i].ids, e) <= 1 {
      assert actors[i] in actors;
      Avoids(byKey, pools, actors[i], e);
      OccurrencesRepeated(With(Avoiding(pools, e), a, id)(actors[i]), |Pool(pools, actors[i])|, e);
    }
  }

  /** If everybody avoids the episode that it would be an alias of, an unlisted episode gets no row. */
  lemma UnlistedResample(dimensions: seq<Row>, episodes: seq<Row>, byKey: ByKey, actors: seq<string>, pools: Pools,
      a: string, id: string)
      returns (sample: seq<Draws>)
    requires Fair(byKey, actors, pools) && id in Pool(pools, a) && RowsOf(episodes, id) == []
    ensures IsBootstrap(actors, pools, sample) && !SampleJoined(dimensions, episodes, sample)
  {
    var i;
    if e, k: nat :| k > 1 && id == Alias(e, k) {
      assert |id| > |e|;
      AvoidingPicks(byKey, actors, pools, e);
      i := WithBootstrap(byKey, actors, pools, Avoiding(pools, e), a, id);
      sample := Uniform(actors, pools, With(Avoiding(pools, e), a, id));
      AvoidedRarely(byKey, actors, pools, a, id, e, k);
      LabelRows(episodes, sample, Listed(episodes), LastOf(episodes), e, k);
    } else {
      AvoidingPicks(byKey, actors, pools, id);
      i := WithBootstrap(byKey, actors, pools, Avoiding(pools, id), a, id);
      sample := Uniform(actors, pools, With(Avoiding(pools, id), a, id));
      OriginalRows(episodes, sample, Listed(episodes), LastOf(episodes), id);
    }
    assert !DrawJoined(dimensions, episodes, sample, id, 1);
    assert 1 <= Occurrences(sample[i].ids, id);
  }

  lemma AliasRowsResample(dimensions: seq<Row>, episodes: seq<Row>, byKey: ByKey, actors: seq<string>, pools: Pools,
      a: string, id: string, k: nat)
      returns (sample: seq<Draws>)
    requires Fair(byKey, actors, pools) && id in Pool(pools, a)
    requires 1 < k <= |Pool(pools, a)| && RowsOf(dimensions, Alias(id, k)) != []
    ensures IsBootstrap(actors, pools, sample) && !SampleJoined(dimensions, episodes, sample)
  {
    AvoidingPicks(byKey, actors, pools, id);
    var i := WithBootstrap(byKey, actors, pools, Avoiding(pools, id), a, id);
    sample := Uniform(actors, pools, With(Avoiding(pools, id), a, id));
    assert IsRepeat(sample, id, k);
    LabelRows(dimensions, sample, Anything, CopiesOf(dimensions), id, k);
    assert !DrawJoined(dimensions, episodes, sample, id, k);
  }

  lemma OtherDraws(actors: seq<string>, pools: Pools, sample: seq<Draws>, i: nat, ids: seq<string>)
    requires IsBootstrap(actors, pools, sample) && i < |sample| && DrawsFrom(Pool(pools, actors[i]), ids)
    ensures IsBootstrap(actors, pools, sample[i := Draws(actors[i], ids)])
  {
  }

  /** One actor takes `one` once and `rest` otherwise. */
  lemma MixedBootstrap(byKey: ByKey, actors: seq<string>, pools: Pools, a: string, one: string, rest: string)
      returns (sample: seq<Draws>, i: nat)
    requires Fair(byKey, actors, pools) && one in Pool(pools, a) && rest in Pool(pools, a) && one != rest
    ensures IsBootstrap(actors, pools, sample) && i < |sample|
      && sample[i] == Draws(a, OneAndRest(one, rest, |Pool(pools, a)|))
  {
    AvoidingPicks(byKey, actors, pools, rest);
    i := WithBootstrap(byKey, actors, pools, Avoiding(pools, rest), a, rest);
    OneAndRestDraws(Pool(pools, a), one, rest);
    sample := Uniform(actors, pools, With(Avoiding(pools, rest), a, rest));
    OtherDraws(actors, pools, sample, i, OneAndRest(one, rest, |Pool(pools, a)|));
    sample := sample[i := Draws(a, OneAndRest(one, rest, |Pool(pools, a)|))];
  }

  lemma DrawApart(byKey: ByKey, actors: seq<string>, pools: Pools, a: string, id: string, b: string, e: string)
      returns (sample: seq<Draws>, i: nat, j: nat)
    requires Fair(byKey, actors, pools) && id in Pool(pools, a) && e in Pool(pools, b) && a != b
    ensures IsBootstrap(actors, pools, sample) && i < |sample| && sample[i] == Draws(a, Repeated(id, |Pool(pools, a)|))
    ensures j < |sample| && sample[j] == Draws(b, Repeated(e, |Pool(pools, b)|))
  {
    AvoidingPicks(byKey, actors, pools, e);
    var pick := With(Avoiding(pools, e), b, e);
    WithPicks(pools, Avoiding(pools, e), b, e);
    i := WithBootstrap(byKey, actors, pools, pick, a, id);
    j := EntryOf(byKey, actors, pools, b);
    assert With(pick, a, id)(b) == e;
    sample := Uniform(actors, pools, With(pick, a, id));
  }

  /** Actor `a` draws `id`, and actor `b` draws `e` at least `k` times. */
  lemma DrawBoth(byKey: ByKey, actors: seq<string>, pools: Pools, a: string, id: string, b: string, e: string, k: nat)
      returns (sample: seq<Draws>, i: nat)
    requires Fair(byKey, actors, pools) && id in Pool(pools, a) && id != e && CanDraw(pools, a, b, e, k) && k > 1
    ensures IsBootstrap(actors, pools, sample) && i < |sample| && sample[i].actor == a
      && 1 <= Occurrences(sample[i].ids, id)
    ensures IsRepeat(sample, e, k)
  {
    var j;
    if a == b {
      sample, i := MixedBootstrap(byKey, actors, pools, a, id, e);
      j := i;
      OneAndRestDraws(Pool(pools, a), id, e);
    } else {
      sample, i, j := DrawApart(byKey, actors, pools, a, id, b, e);
      OccurrencesRepeated(id, |Pool(pools, a)|, id);
      OccurrencesRepeated(e, |Pool(pools, b)|, e);
    }
    assert k <= Occurrences(sample[j].ids, e);
  }

  lemma AliasIdResample(dimensions: seq<Row>, episodes: seq<Row>, byKey: ByKey, actors: seq<string>, pools: Pools,
      a: string, b: string, e: string, k: nat)
      returns (sample: seq<Draws>)
    requires Fair(byKey, actors, pools) && Alias(e, k) in Pool(pools, a)
    requires k > 1 && CanDraw(pools, a, b, e, k) && RowsOf(dimensions, e) != []
    ensures IsBootstrap(actors, pools, sample) && !SampleJoined(dimensions, episodes, sample)
  {
    var i;
    assert |Alias(e, k)| > |e|;
    sample, i := DrawBoth(byKey, actors, pools, a, Alias(e, k), b, e, k);
    LabelRows(dimensions, sample, Anything, CopiesOf(dimensions), e, k);
    assert !DrawJoined(dimensions, episodes, sample, Alias(e, k), 1);
  }

  lemma IncompatibleBreaks(dimensions: seq<Row>, episodes: seq<Row>, byKey: ByKey, actors: seq<string>, pools: Pools,
      a: string, id: string)
      returns (sample: seq<Draws>)
    requires Fair(byKey, actors, pools) && id in Pool(pools, a) && !Compatible(dimensions, episodes, pools, a, id)
    ensures IsBootstrap(actors, pools, sample) && !SampleJoined(dimensions, episodes, sample)
  {
    if RowsOf(episodes, id) == [] {
      sample := UnlistedResample(dimensions, episodes, byKey, actors, pools, a, id);
    } else if k: nat :| 1 < k <= |Pool(pools, a)| && RowsOf(dimensions, Alias(id, k)) != [] {
      sample := AliasRowsResample(dimensions, episodes, byKey, actors, pools, a, id, k);
    } else {
      var b, e, k: nat :| 1 < k && id == Alias(e, k) && CanDraw(pools, a, b, e, k) && RowsOf(dimensions, e) != [];
      sample := AliasIdResample(dimensions, episodes, byKey, actors, pools, a, b, e, k);
    }
  }

  /** The three tables of every resample the bootstrap can draw stay joined if and only if each drawable episode is compatible. */
  lemma BootstrapJoinExact(dimensions: seq<Row>, episodes: seq<Row>, byKey: ByKey, actors: seq<string>, pools: Pools)
    requires Fair(byKey, actors, pools)
    ensures (forall sample :: IsBootstrap(actors, pools, sample) ==> SampleJoined(dimensions, episodes, sample))
       <==> AllCompatible(dimensions, episodes, pools)
  {
    if AllCompatible(dimensions, episodes, pools) {
      forall sample: seq<Draws>, i, id, k: nat | IsBootstrap(actors, pools, sample) && 0 <= i < |sample|
        && 1 <= k <= Occurrences(sample[i].ids, id)
        ensures DrawJoined(dimensions, episodes, sample, id, k)
      {
        CompatibleJoins(dimensions, episodes, actors, pools, sample, i, id, k);
      }
    } else {
      var a, id :| id in Pool(pools, a) && !Compatible(dimensions, episodes, pools, a, id);
      var sample := IncompatibleBreaks(dimensions, episodes, byKey, actors, pools, a, id);
    }
  }

  // ----- exactly when the pairs stay unique -----

  /** No actor can draw an episode `k` times and then the one that is its `k`-th alias. */
  ghost predicate Collisionless(pools: Pools) {
    forall a, e, k: nat :: 1 < k < |Pool(pools, a)| && e in Pool(pools, a) ==> Alias(e, k) !in Pool(pools, a)
  }

  lemma {:induction false} DrawnIsPart(byKey: ByKey, sample: seq<Draws>, i: nat)
    requires i < |sample| && PairsUnique(ParticipantsFor(byKey, sample))
    ensures PairsUnique(Drawn(byKey, sample[i].actor, sample[i].ids))
  {
    var n := |sample| - 1;
    var front, back := ParticipantsFor(byKey, sample[..n]), Drawn(byKey, sample[n].actor, sample[n].ids);
    if i < n {
      forall u, v | 0 <= u < v < |front|
        ensures (front[u].actor, front[u].row.id) != (front[v].actor, front[v].row.id)
      {
        assert front[u] == (front + back)[u] && front[v] == (front + back)[v];
      }
      DrawnIsPart(byKey, sample[..n], i);
    } else {
      forall u, v | 0 <= u < v < |back| ensures (back[u].actor, back[u].row.id) != (back[v].actor, back[v].row.id) {
        assert back[u] == (front + back)[|front| + u] && back[v] == (front + back)[|front| + v];
      }
    }
  }

  lemma CollisionlessUnique(byKey: ByKey, actors: seq<string>, pools: Pools, sample: seq<Draws>)
    requires Fair(byKey, actors, pools) && Collisionless(pools) && IsBootstrap(actors, pools, sample)
    requires forall key :: key in byKey ==> HasKey(byKey, key)
    ensures PairsUnique(ParticipantsFor(byKey, sample))
  {
    forall i | 0 <= i < |sample| ensures Separable(byKey, sample[i].actor, sample[i].ids) {
      forall e, k | 1 < k <= Occurrences(sample[i].ids, e) ensures Occurrences(sample[i].ids, Alias(e, k)) == 0 {
        assert |Alias(e, k)| > |e|;
        OccurrencesShare(sample[i].ids, e, Alias(e, k));
        OccurrencesShare(sample[i].ids, Alias(e, k), e);
      }
    }
    ParticipantsUnique(byKey, sample);
  }

  lemma RepeatedEntry(byKey: ByKey, sample: seq<Draws>, i: nat, e: string, k: nat, m: nat)
    requires i < |sample| && 1 < k <= m && sample[i].ids == OneAndRest(Alias(e, k), e, m + 1)
    requires (sample[i].actor, e) in byKey && (sample[i].actor, Alias(e, k)) in byKey
    requires forall key :: key in byKey ==> HasKey(byKey, key)
    ensures !PairsUnique(ParticipantsFor(byKey, sample))
  {
    AliasLikeIdCollides(byKey, sample[i].actor, e, k, m);
    if PairsUnique(ParticipantsFor(byKey, sample)) { DrawnIsPart(byKey, sample, i); }
  }

  lemma CollisionBreaks(byKey: ByKey, actors: seq<string>, pools: Pools, a: string, e: string, k: nat)
      returns (sample: seq<Draws>)
    requires Fair(byKey, actors, pools) && forall key :: key in byKey ==> HasKey(byKey, key)
    requires 1 < k < |Pool(pools, a)| && e in Pool(pools, a) && Alias(e, k) in Pool(pools, a)
    ensures IsBootstrap(actors, pools, sample) && !PairsUnique(ParticipantsFor(byKey, sample))
  {
    var i;
    assert |Alias(e, k)| > |e|;
    sample, i := MixedBootstrap(byKey, actors, pools, a, Alias(e, k), e);
    assert IsPool(byKey, a, pools[a]);
    RepeatedEntry(byKey, sample, i, e, k, |Pool(pools, a)| - 1);
  }

  /** No actor ever holds the same labelled episode twice in a resample if and only if the pools are collisionless. */
  lemma BootstrapUniqueExact(byKey: ByKey, actors: seq<string>, pools: Pools)
    requires Fair(byKey, actors, pools) && forall key :: key in byKey ==> HasKey(byKey, key)
    ensures (forall sample :: IsBootstrap(actors, pools, sample) ==> PairsUnique(ParticipantsFor(byKey, sample)))
      <==> Collisionless(pools)
  {
    if Collisionless(pools) {
      forall sample | IsBootstrap(actors, pools, sample) ensures PairsUnique(ParticipantsFor(byKey, sample)) {
        CollisionlessUnique(byKey, actors, pools, sample);
      }
    } else {
      var a, e, k: nat :| 1 < k < |Pool(pools, a)| && e in Pool(pools, a) && Alias(e, k) in Pool(pools, a);
      var sample := CollisionBreaks(byKey, actors, pools, a, e, k);
    }
  }
}
