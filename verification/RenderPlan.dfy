/**
 The render plan (src/impact2/render_plan.py): which episodes get a page, which only appear in a listing,
 and what the exported package therefore holds. Ids are strings, the empty one standing for a missing one.
 */
module RenderPlan {
  import opened Collections
  import opened Ordering

  datatype Budget = Budget(pages: nat, featured: nat, current: nat, foundational: nat, other: nat)

  datatype Engineer = Engineer(
    actor: string, strongest: string, tops: seq<string>, current: seq<string>, foundational: seq<string>,
      episodes: seq<string>)

  datatype Position = Position(position: int, actor: string)

  datatype Scenario = Scenario(available: bool, positions: seq<Position>)

  datatype Plan = Plan(pageIds: seq<string>, truncated: nat, episodeIds: set<string>)

  // ----- ordered collecting -----

  /** Appends to `order` each element of `s` that is kept and not there yet. */
  function Gather(order: seq<string>, s: seq<string>, keep: string -> bool): (r: seq<string>)
    ensures forall x :: x in r <==> x in order || (x in s && keep(x))
  {
    if s == [] then order
    else
      var n := |s| - 1;
      var r := Gather(order, s[..n], keep);
      assert forall x :: x in s <==> x in s[..n] || x == s[n];
      if keep(s[n]) && s[n] !in r then r + [s[n]] else r
  }

  lemma {:induction false} GatherAppend(order: seq<string>, s: seq<string>, t: seq<string>, keep: string -> bool)
    ensures Gather(order, s + t, keep) == Gather(Gather(order, s, keep), t, keep)
  {
    if t == [] {
      assert s + t == s;
    } else {
      var n := |t| - 1;
      assert (s + t)[..|s + t| - 1] == s + t[..n];
      GatherAppend(order, s, t[..n], keep);
    }
  }

  lemma {:induction false} GatherDistinct(order: seq<string>, s: seq<string>, keep: string -> bool)
    requires Distinct(order)
    ensures Distinct(Gather(order, s, keep))
  {
    if s != [] { GatherDistinct(order, s[..|s| - 1], keep); }
  }

  lemma {:induction false} GatherSame(order: seq<string>, s: seq<string>, keep: string -> bool, keep': string -> bool)
    requires forall x :: x in s ==> keep(x) == keep'(x)
    ensures Gather(order, s, keep) == Gather(order, s, keep')
  {
    if s != [] {
      assert forall x :: x in s[..|s| - 1] ==> x in s;
      GatherSame(order, s[..|s| - 1], keep, keep');
    }
  }

  method GatherInto(order: seq<string>, s: seq<string>, keep: string -> bool) returns (r: seq<string>)
    ensures r == Gather(order, s, keep)
  {
    r := order;
    for i := 0 to |s|
      invariant r == Gather(order, s[..i], keep)
    {
      assert s[..i + 1][..i] == s[..i];
      if keep(s[i]) && s[i] !in r { r := r + [s[i]]; }
    }
    assert s[..|s|] == s;
  }

  // ----- featured_episode_ids and listing_ids -----

  predicate Truthy(s: string) { s != "" }

  predicate Always(s: string) { true }

  /** The episodes a profile leads with, in the profile's order, without repeats. */
  function Featured(e: Engineer): seq<string> {
    Gather([], [e.strongest] + (e.tops + (e.current + e.foundational)), Truthy)
  }

  method FeaturedEpisodeIds(e: Engineer) returns (out: seq<string>)
    ensures out == Featured(e)
  {
    out := GatherInto([], [e.strongest], Truthy);
    out := GatherInto(out, e.tops, Truthy);
    out := GatherInto(out, e.current, Truthy);
    out := GatherInto(out, e.foundational, Truthy);
    GatherAppend([], [e.strongest], e.tops + (e.current + e.foundational), Truthy);
    GatherAppend(Gather([], [e.strongest], Truthy), e.tops, e.current + e.foundational, Truthy);
    GatherAppend(Gather(Gather([], [e.strongest], Truthy), e.tops, Truthy), e.current, e.foundational, Truthy);
  }

  /** A profile leads with each of its four sources' ids once, and with nothing else. */
  lemma FeaturedExact(e: Engineer, x: string)
    ensures x in Featured(e) <==> x != "" && (x == e.strongest || x in e.tops || x in e.current || x in e.foundational)
    ensures Distinct(Featured(e))
  {
    var all := [e.strongest] + (e.tops + (e.current + e.foundational));
    GatherDistinct([], all, Truthy);
    assert x in all <==> x == e.strongest || x in e.tops || x in e.current || x in e.foundational;
  }

  function Without(s: seq<string>, gone: set<string>): (r: seq<string>)
    ensures forall x :: x in r <==> x in s && x !in gone
  {
    if s == [] then []
    else
      var n := |s| - 1;
      assert s == s[..n] + [s[n]];
      Without(s[..n], gone) + if s[n] in gone then [] else [s[n]]
  }

  function Elements(s: seq<string>): (r: set<string>)
    ensures forall x :: x in r <==> x in s
  {
    set x | x in s
  }

  /** The four lists of a profile, each cut at its own cap. */
  function Lists(e: Engineer, b: Budget): seq<string> {
    Prefix(Featured(e), b.featured) + (Prefix(e.current, b.current) + (Prefix(e.foundational, b.foundational)
      + Prefix(Without(e.episodes, Elements(Featured(e))), b.other)))
  }

  function ListingIds(e: Engineer, b: Budget): seq<string> { Gather([], Lists(e, b), Always) }

  /** The listing holds each id once: the first of each of the four lists, the last of which leaves out what is featured. */
  lemma ListingExact(e: Engineer, b: Budget, x: string)
    ensures Distinct(ListingIds(e, b))
    ensures x in ListingIds(e, b) <==>
              || x in Prefix(Featured(e), b.featured) || x in Prefix(e.current, b.current)
                || x in Prefix(e.foundational, b.foundational)
              || x in Prefix(Without(e.episodes, set y | y in Featured(e)), b.other)
  {
    GatherDistinct([], Lists(e, b), Always);
    assert Elements(Featured(e)) == set y | y in Featured(e);
    var others := Prefix(Without(e.episodes, Elements(Featured(e))), b.other);
    assert Lists(e, b) == Prefix(Featured(e), b.featured)
      + (Prefix(e.current, b.current) + (Prefix(e.foundational, b.foundational) + others));
  }

  /** `listing_ids` */
  method Listing(e: Engineer, b: Budget) returns (out: seq<string>)
    ensures out == ListingIds(e, b)
  {
    var featured := FeaturedEpisodeIds(e);
    var others := Others(e.episodes, set x | x in featured);
    assert Elements(Featured(e)) == set x | x in featured;
    out := GatherInto([], Prefix(featured, b.featured) + (Prefix(e.current, b.current)
      + (Prefix(e.foundational, b.foundational) + Prefix(others, b.other))), _ => true);
    GatherSame([], Lists(e, b), _ => true, Always);
  }

  /** `[i for i in ids if i not in gone]` */
  method Others(ids: seq<string>, gone: set<string>) returns (out: seq<string>)
    ensures out == Without(ids, gone)
  {
    out := [];
    for i := 0 to |ids|
      invariant out == Without(ids[..i], gone)
    {
      assert ids[..i + 1][..i] == ids[..i];
      if ids[i] !in gone { out := out + [ids[i]]; }
    }
    assert ids[..|ids|] == ids;
  }

  // ----- episode_page_order -----

  /** `{str(e.actor_cluster_id): e for e in engineers}`: the last engineer of an actor wins. */
  function ByActor(engineers: seq<Engineer>): (r: map<string, Engineer>)
    ensures forall a :: a in r ==> r[a] in engineers
  {
    if engineers == [] then map[]
    else
      var n := |engineers| - 1;
      ByActor(engineers[..n])[engineers[n].actor := engineers[n]]
  }

  predicate PositionLe(a: Position, b: Position) { a.position <= b.position }

  function ActorsOf(positions: seq<Position>): seq<string> {
    seq(|positions|, i requires 0 <= i < |positions| => positions[i].actor)
  }

  function TopFive(scenario: Scenario): seq<string> {
    if scenario.available then ActorsOf(Prefix(Sort(scenario.positions, PositionLe), 5)) else []
  }

  /** The positions in this list come no later than any other of the scenario. */
  ghost predicate ComeFirst(positions: seq<Position>, top: seq<Position>) {
    && multiset(top) <= multiset(positions)
    && (forall i, j :: 0 <= i < j < |top| ==> top[i].position <= top[j].position)
    && (forall p: Position, t: Position ::
      p in multiset(positions) - multiset(top) && t in top ==> t.position <= p.position)
  }

  lemma PrefixComesFirst(sorted: seq<Position>, top: seq<Position>, rest: seq<Position>)
    requires SortedBy(sorted, PositionLe) && sorted == top + rest
    ensures ComeFirst(sorted, top)
  {
    assert multiset(sorted) - multiset(top) == multiset(rest);
    forall p: Position, t: Position | p in multiset(rest) && t in top ensures t.position <= p.position {
      assert p in rest;
      var i :| 0 <= i < |top| && top[i] == t;
      var j :| 0 <= j < |rest| && rest[j] == p;
      assert sorted[i] == t && sorted[|top| + j] == p;
    }
    forall i, j | 0 <= i < j < |top| ensures top[i].position <= top[j].position {
      assert sorted[i] == top[i] && sorted[j] == top[j];
    }
  }

  lemma ComeFirstAnyway(a: seq<Position>, b: seq<Position>, top: seq<Position>)
    requires multiset(a) == multiset(b) && ComeFirst(a, top)
    ensures ComeFirst(b, top)
  {
  }

  /** The first five of an available scenario are five, or all if there are fewer, that come first. */
  lemma TopFiveExact(scenario: Scenario) returns (top: seq<Position>)
    ensures TopFive(scenario) == ActorsOf(top)
    ensures if scenario.available then |top| == (if |scenario.positions| < 5 then |scenario.positions| else 5)
      else top == []
    ensures ComeFirst(scenario.positions, top)
  {
    top := [];
    if scenario.available {
      var sorted := Sort(scenario.positions, PositionLe);
      top := Prefix(sorted, 5);
      SortSorted(scenario.positions, PositionLe);
      PrefixComesFirst(sorted, top, sorted[|top|..]);
      ComeFirstAnyway(sorted, scenario.positions, top);
    }
  }

  function AllTops(scenarios: seq<Scenario>): seq<string> {
    if scenarios == [] then [] else AllTops(scenarios[..|scenarios| - 1]) + TopFive(scenarios[|scenarios| - 1])
  }

  function AllActors(scenarios: seq<Scenario>): seq<string> {
    if scenarios == [] then [] else AllActors(scenarios[..|scenarios| - 1]) + ActorsOf(scenarios[|scenarios| - 1].positions)
  }

  /** What one ranked actor contributes. */
  function Contribution(byActor: map<string, Engineer>, actor: string, cap: nat): seq<string> {
    if actor in byActor then Prefix(Featured(byActor[actor]), cap) else []
  }

  function Contributions(byActor: map<string, Engineer>, actors: seq<string>, cap: nat): seq<string> {
    if actors == [] then []
    else Contributions(byActor, actors[..|actors| - 1], cap) + Contribution(byActor, actors[|actors| - 1], cap)
  }

  /** All candidates in visiting order, repeats included. */
  function Visited(engineers: seq<Engineer>, scenarios: seq<Scenario>, b: Budget): seq<string> {
    Contributions(ByActor(engineers), AllTops(scenarios) + AllActors(scenarios), b.featured)
  }

  function IsIn(known: set<string>): string -> bool { x => x in known }

  function PageOrder(engineers: seq<Engineer>, scenarios: seq<Scenario>, b: Budget, known: set<string>): seq<string> {
    Gather([], Visited(engineers, scenarios, b), IsIn(known))
  }

  /** `add_for`, over a list of actors. */
  method AddFor(byActor: map<string, Engineer>, actors: seq<string>, cap: nat, keep: string -> bool, order: seq<string>)
      returns (order': seq<string>)
    ensures order' == Gather(order, Contributions(byActor, actors, cap), keep)
  {
    order' := order;
    for i := 0 to |actors|
      invariant order' == Gather(order, Contributions(byActor, actors[..i], cap), keep)
    {
      assert actors[..i + 1][..i] == actors[..i];
      GatherAppend(order, Contributions(byActor, actors[..i], cap), Contribution(byActor, actors[i], cap), keep);
      if actors[i] !in byActor { continue; }
      var featured := FeaturedEpisodeIds(byActor[actors[i]]);
      order' := GatherInto(order', Prefix(featured, cap), keep);
    }
    assert actors[..|actors|] == actors;
  }

  lemma {:induction false} ContributionsAppend(byActor: map<string, Engineer>, a: seq<string>, b: seq<string>, cap: nat)
    ensures Contributions(byActor, a + b, cap) == Contributions(byActor, a, cap) + Contributions(byActor, b, cap)
  {
    if b == [] {
      assert a + b == a;
    } else {
      var n := |b| - 1;
      assert (a + b)[..|a + b| - 1] == a + b[..n];
      ContributionsAppend(byActor, a, b[..n], cap);
    }
  }

  method IndexByActor(engineers: seq<Engineer>) returns (byActor: map<string, Engineer>)
    ensures byActor == ByActor(engineers)
  {
    byActor := map[];
    for i := 0 to |engineers|
      invariant byActor == ByActor(engineers[..i])
    {
      assert engineers[..i + 1][..i] == engineers[..i];
      byActor := byActor[engineers[i].actor := engineers[i]];
    }
    assert engineers[..|engineers|] == engineers;
  }

  lemma {:induction false} NextVisit(byActor: map<string, Engineer>, done: seq<string>, more: seq<string>, cap: nat,
      keep: string -> bool, order: seq<string>)
    requires order == Gather([], Contributions(byActor, done, cap), keep)
    ensures Gather(order, Contributions(byActor, more, cap), keep)
      == Gather([], Contributions(byActor, done + more, cap), keep)
  {
    ContributionsAppend(byActor, done, more, cap);
    GatherAppend([], Contributions(byActor, done, cap), Contributions(byActor, more, cap), keep);
  }

  lemma NextTops(scenarios: seq<Scenario>, i: nat)
    requires i < |scenarios|
    ensures AllTops(scenarios[..i + 1])
         == if scenarios[i].available then AllTops(scenarios[..i]) + TopFive(scenarios[i]) else AllTops(scenarios[..i])
  {
    assert scenarios[..i + 1][..i] == scenarios[..i];
    assert AllTops(scenarios[..i]) + [] == AllTops(scenarios[..i]);
  }

  /** First the top five of every available scenario. */
  method VisitTops(byActor: map<string, Engineer>, scenarios: seq<Scenario>, cap: nat, keep: string -> bool)
      returns (order: seq<string>)
    ensures order == Gather([], Contributions(byActor, AllTops(scenarios), cap), keep)
  {
    order := [];
    for i := 0 to |scenarios|
      invariant order == Gather([], Contributions(byActor, AllTops(scenarios[..i]), cap), keep)
    {
      NextTops(scenarios, i);
      NextVisit(byActor, AllTops(scenarios[..i]), TopFive(scenarios[i]), cap, keep, order);
      if !scenarios[i].available {
        continue;
      }
      var positions := Sort(scenarios[i].positions, PositionLe);
      order := AddFor(byActor, ActorsOf(Prefix(positions, 5)), cap, keep, order);
    }
    assert scenarios[..|scenarios|] == scenarios;
  }

  /** Then everyone else who appears in a ranking at all. */
  method VisitRest(byActor: map<string, Engineer>, scenarios: seq<Scenario>, cap: nat, keep: string -> bool,
      tops: seq<string>) returns (order: seq<string>)
    requires tops == Gather([], Contributions(byActor, AllTops(scenarios), cap), keep)
    ensures order == Gather([], Contributions(byActor, AllTops(scenarios) + AllActors(scenarios), cap), keep)
  {
    ghost var first := AllTops(scenarios);
    assert first + [] == first;
    order := tops;
    for i := 0 to |scenarios|
      invariant order == Gather([], Contributions(byActor, first + AllActors(scenarios[..i]), cap), keep)
    {
      assert scenarios[..i + 1][..i] == scenarios[..i];
      var actors := ActorsOf(scenarios[i].positions);
      NextVisit(byActor, first + AllActors(scenarios[..i]), actors, cap, keep, order);
      Regroup(first, AllActors(scenarios[..i]), actors);
      order := AddFor(byActor, actors, cap, keep, order);
    }
    assert scenarios[..|scenarios|] == scenarios;
  }

  method EpisodePageOrder(engineers: seq<Engineer>, scenarios: seq<Scenario>, b: Budget, known: set<string>)
      returns (order: seq<string>)
    ensures order == PageOrder(engineers, scenarios, b, known)
  {
    var byActor := IndexByActor(engineers);
    var tops := VisitTops(byActor, scenarios, b.featured, IsIn(known));
    order := VisitRest(byActor, scenarios, b.featured, IsIn(known), tops);
  }

  // ----- build -----

  function Listed(engineers: seq<Engineer>, b: Budget, known: set<string>): (r: set<string>)
    ensures forall x :: x in r <==> x in known && exists e :: e in engineers && x in ListingIds(e, b)
  {
    if engineers == [] then {}
    else
      var n := |engineers| - 1;
      assert forall e :: e in engineers <==> e in engineers[..n] || e == engineers[n];
      Listed(engineers[..n], b, known) + set x | x in ListingIds(engineers[n], b) && x in known
  }

  function PageIds(engineers: seq<Engineer>, scenarios: seq<Scenario>, b: Budget, known: set<string>): seq<string> {
    Prefix(PageOrder(engineers, scenarios, b, known), b.pages)
  }

  function PlanOf(engineers: seq<Engineer>, scenarios: seq<Scenario>, b: Budget, known: set<string>): Plan {
    var order, pages := PageOrder(engineers, scenarios, b, known), PageIds(engineers, scenarios, b, known);
    Plan(pages, if |order| > b.pages then |order| - b.pages else 0, Elements(pages) + Listed(engineers, b, known))
  }

  lemma ListedNext(engineers: seq<Engineer>, b: Budget, known: set<string>, i: nat)
    requires i < |engineers|
    ensures Listed(engineers[..i + 1], b, known)
      == Listed(engineers[..i], b, known) + set x | x in ListingIds(engineers[i], b) && x in known
  {
    var upTo := engineers[..i + 1];
    assert upTo != [] && upTo[..|upTo| - 1] == engineers[..i] && upTo[|upTo| - 1] == engineers[i];
  }

  /** Adds everything the profiles list. */
  method IncludeListed(engineers: seq<Engineer>, b: Budget, known: set<string>, pages: set<string>)
      returns (included: set<string>)
    ensures included == pages + Listed(engineers, b, known)
  {
    included := pages;
    for i := 0 to |engineers|
      invariant included == pages + Listed(engineers[..i], b, known)
    {
      ListedNext(engineers, b, known, i);
      var listed := Listing(engineers[i], b);
      included := included + set x | x in listed && x in known;
    }
    assert engineers[..|engineers|] == engineers;
  }

  method Build(engineers: seq<Engineer>, scenarios: seq<Scenario>, b: Budget, known: set<string>) returns (plan: Plan)
    ensures plan == PlanOf(engineers, scenarios, b, known)
  {
    var order := EpisodePageOrder(engineers, scenarios, b, known);
    var pages := Prefix(order, b.pages);
    var included := IncludeListed(engineers, b, known, Elements(pages));
    plan := Plan(pages, if |order| > b.pages then |order| - b.pages else 0, included);
  }

  // ----- what the plan guarantees -----

  lemma {:induction false} ContributionSource(byActor: map<string, Engineer>, actors: seq<string>, cap: nat, x: string)
    requires x in Contributions(byActor, actors, cap)
    ensures exists a :: a in byActor && x in Prefix(Featured(byActor[a]), cap)
  {
    var n := |actors| - 1;
    if x in Contributions(byActor, actors[..n], cap) {
      ContributionSource(byActor, actors[..n], cap, x);
    } else {
      assert x in Contribution(byActor, actors[n], cap);
      assert actors[n] in byActor;
    }
  }

  lemma FeaturedIsListed(e: Engineer, b: Budget, x: string)
    requires x in Prefix(Featured(e), b.featured)
    ensures x in ListingIds(e, b)
  {
    var i :| 0 <= i < |Prefix(Featured(e), b.featured)| && Prefix(Featured(e), b.featured)[i] == x;
    assert Lists(e, b)[i] == x;
  }

  /** Every candidate page, cut or not, is in somebody's listing, so the package holds it. */
  lemma CandidatesAreListed(engineers: seq<Engineer>, scenarios: seq<Scenario>, b: Budget, known: set<string>,
      x: string)
    requires x in PageOrder(engineers, scenarios, b, known)
    ensures x in Listed(engineers, b, known)
  {
    var byActor := ByActor(engineers);
    ContributionSource(byActor, AllTops(scenarios) + AllActors(scenarios), b.featured, x);
    var a :| a in byActor && x in Prefix(Featured(byActor[a]), b.featured);
    FeaturedIsListed(byActor[a], b, x);
  }

  lemma PrefixElements<T>(s: seq<T>, n: nat)
    ensures forall x :: x in Prefix(s, n) ==> x in s
  {
  }

  /** So the shipped ids are the listings alone: the page cap decides pages, never membership. */
  lemma EpisodeIdsAreTheListings(engineers: seq<Engineer>, scenarios: seq<Scenario>, b: Budget, known: set<string>)
    ensures PlanOf(engineers, scenarios, b, known).episodeIds == Listed(engineers, b, known)
    ensures Listed(engineers, b, known) <= known
  {
    var order := PageOrder(engineers, scenarios, b, known);
    PrefixElements(order, b.pages);
    forall x | x in order ensures x in Listed(engineers, b, known) {
      CandidatesAreListed(engineers, scenarios, b, known, x);
    }
  }

  /** Pages are distinct known candidates; pages and the truncated count together account for all of them. */
  lemma PagesAccountForCandidates(engineers: seq<Engineer>, scenarios: seq<Scenario>, b: Budget, known: set<string>)
    ensures var plan := PlanOf(engineers, scenarios, b, known); var order := PageOrder(engineers, scenarios, b, known);
            && Distinct(order) && plan.pageIds <= order && |plan.pageIds| <= b.pages
            && |plan.pageIds| + plan.truncated == |order|
            && forall x :: x in plan.pageIds ==> x in known && x in plan.episodeIds
  {
    var order := PageOrder(engineers, scenarios, b, known);
    GatherDistinct([], Visited(engineers, scenarios, b), IsIn(known));
    PrefixElements(order, b.pages);
  }

  /** The plan is a fixpoint: rebuilt from its own ids as the known ones, it is the same plan. */
  lemma {:induction false} PlanIsAFixpoint(engineers: seq<Engineer>, scenarios: seq<Scenario>, b: Budget,
      known: set<string>)
    ensures var plan := PlanOf(engineers, scenarios, b, known);
            PlanOf(engineers, scenarios, b, plan.episodeIds) == plan
  {
    var plan := PlanOf(engineers, scenarios, b, known);
    var visited := Visited(engineers, scenarios, b);
    EpisodeIdsAreTheListings(engineers, scenarios, b, known);
    EpisodeIdsAreTheListings(engineers, scenarios, b, plan.episodeIds);
    var keep, keep' := IsIn(known), IsIn(plan.episodeIds);
    var order := Gather([], visited, keep);
    forall x | x in visited ensures keep(x) == keep'(x) {
      if x in known {
        assert x in order;
        CandidatesAreListed(engineers, scenarios, b, known, x);
      }
    }
    GatherSame([], visited, keep, keep');
    assert Listed(engineers, b, plan.episodeIds) == Listed(engineers, b, known);
  }

  predicate Within(a: Budget, b: Budget) {
    a.pages <= b.pages && a.featured <= b.featured && a.current <= b.current && a.foundational <= b.foundational
      && a.other <= b.other
  }

  lemma PrefixGrows<T>(s: seq<T>, m: nat, n: nat)
    requires m <= n
    ensures forall x :: x in Prefix(s, m) ==> x in Prefix(s, n)
  {
    forall x | x in Prefix(s, m) ensures x in Prefix(s, n) {
      var i :| 0 <= i < |Prefix(s, m)| && Prefix(s, m)[i] == x;
      assert Prefix(s, n)[i] == x;
    }
  }

  lemma ListingGrows(e: Engineer, a: Budget, b: Budget)
    requires Within(a, b)
    ensures forall x :: x in ListingIds(e, a) ==> x in ListingIds(e, b)
  {
    PrefixGrows(Featured(e), a.featured, b.featured);
    PrefixGrows(e.current, a.current, b.current);
    PrefixGrows(e.foundational, a.foundational, b.foundational);
    PrefixGrows(Without(e.episodes, Elements(Featured(e))), a.other, b.other);
  }

  /** Raising any cap never drops an episode from the package. */
  lemma EpisodeIdsGrowWithBudget(engineers: seq<Engineer>, scenarios: seq<Scenario>, a: Budget, b: Budget,
      known: set<string>)
    requires Within(a, b)
    ensures PlanOf(engineers, scenarios, a, known).episodeIds <= PlanOf(engineers, scenarios, b, known).episodeIds
  {
    EpisodeIdsAreTheListings(engineers, scenarios, a, known);
    EpisodeIdsAreTheListings(engineers, scenarios, b, known);
    forall e | e in engineers ensures forall x :: x in ListingIds(e, a) ==> x in ListingIds(e, b) { ListingGrows(e, a, b); }
  }

  /** Raising the page cap alone only appends pages. */
  lemma MorePagesOnlyAppend(engineers: seq<Engineer>, scenarios: seq<Scenario>, b: Budget, pages: nat,
      known: set<string>)
    requires b.pages <= pages
    ensures PageIds(engineers, scenarios, b, known) <= PageIds(engineers, scenarios, b.(pages := pages), known)
  {
    assert Visited(engineers, scenarios, b) == Visited(engineers, scenarios, b.(pages := pages));
  }

  lemma {:induction false} ContributionsGrow(byActor: map<string, Engineer>, actors: seq<string>, m: nat, n: nat)
    requires m <= n
    ensures forall x :: x in Contributions(byActor, actors, m) ==> x in Contributions(byActor, actors, n)
  {
    if actors != [] {
      var k := |actors| - 1;
      ContributionsGrow(byActor, actors[..k], m, n);
      if actors[k] in byActor { PrefixGrows(Featured(byActor[actors[k]]), m, n); }
    }
  }

  /** Raising the other caps keeps every page as long as the larger plan truncates nothing. */
  lemma {:induction false} PagesKeptWhenNothingIsTruncated(engineers: seq<Engineer>, scenarios: seq<Scenario>,
      a: Budget, b: Budget, known: set<string>)
    requires Within(a, b) && PlanOf(engineers, scenarios, b, known).truncated == 0
    ensures forall x :: x in PageIds(engineers, scenarios, a, known) ==> x in PageIds(engineers, scenarios, b, known)
  {
    ContributionsGrow(ByActor(engineers), AllTops(scenarios) + AllActors(scenarios), a.featured, b.featured);
    PrefixElements(PageOrder(engineers, scenarios, a, known), a.pages);
  }

  ghost predicate KeepsPages(small: seq<string>, large: seq<string>) {
    forall p: nat :: Elements(Prefix(small, p)) <= Elements(Prefix(large, p))
  }

  lemma PrefixKeepsPages(small: seq<string>, large: seq<string>)
    requires small <= large
    ensures KeepsPages(small, large)
  {
    forall p: nat ensures Elements(Prefix(small, p)) <= Elements(Prefix(large, p)) {
      forall x | x in Prefix(small, p) ensures x in Prefix(large, p) {
        var i :| 0 <= i < |Prefix(small, p)| && Prefix(small, p)[i] == x;
        assert Prefix(large, p)[i] == x;
      }
    }
  }

  /** The first `n` elements agree: the new one must be in the longer list's first `n`, and only one is left. */
  lemma {:induction false} SameStart(small: seq<string>, large: seq<string>, n: nat)
    requires Distinct(small) && KeepsPages(small, large) && n <= |small|
    ensures n <= |large| && small[..n] == large[..n]
  {
    if n > 0 {
      SameStart(small, large, n - 1);
      var x := small[n - 1];
      assert Prefix(small, n)[n - 1] == x;
      assert x in Elements(Prefix(small, n)) && Elements(Prefix(small, n)) <= Elements(Prefix(large, n));
      var k :| 0 <= k < |Prefix(large, n)| && Prefix(large, n)[k] == x;
      forall i | 0 <= i < n - 1 ensures small[i] == large[i] { assert small[..n - 1][i] == large[..n - 1][i]; }
      assert small[..n] == small[..n - 1] + [x] && large[..n] == large[..n - 1] + [x];
    }
  }

  lemma PagesArePrefix(engineers: seq<Engineer>, scenarios: seq<Scenario>, b: Budget, known: set<string>, p: nat)
    ensures PageIds(engineers, scenarios, b.(pages := p), known) == Prefix(PageOrder(engineers, scenarios, b, known), p)
  {
    assert Visited(engineers, scenarios, b.(pages := p)) == Visited(engineers, scenarios, b);
  }

  lemma KeepsPagesExactly(small: seq<string>, large: seq<string>)
    requires Distinct(small)
    ensures KeepsPages(small, large) <==> small <= large
  {
    if KeepsPages(small, large) { SameStart(small, large, |small|); }
    if small <= large { PrefixKeepsPages(small, large); }
  }

  /**
   Exactly when raising the other caps is safe: every page survives at every page cap if and only if the
   larger candidate order only appends to the smaller one.
   */
  lemma PagesMonotoneExactly(engineers: seq<Engineer>, scenarios: seq<Scenario>, a: Budget, b: Budget,
      known: set<string>)
    ensures (forall p: nat ::
              Elements(PageIds(engineers, scenarios, a.(pages := p), known))
                <= Elements(PageIds(engineers, scenarios, b.(pages := p), known)))
            <==> PageOrder(engineers, scenarios, a, known) <= PageOrder(engineers, scenarios, b, known)
  {
    var small, large := PageOrder(engineers, scenarios, a, known), PageOrder(engineers, scenarios, b, known);
    GatherDistinct([], Visited(engineers, scenarios, a), IsIn(known));
    KeepsPagesExactly(small, large);
    SamePages(engineers, scenarios, a, b, known, small, large);
  }

  lemma SamePages(engineers: seq<Engineer>, scenarios: seq<Scenario>, a: Budget, b: Budget, known: set<string>,
                  small: seq<string>, large: seq<string>)
    requires small == PageOrder(engineers, scenarios, a, known) && large == PageOrder(engineers, scenarios, b, known)
    ensures KeepsPages(small, large) <==> forall p: nat ::
              Elements(PageIds(engineers, scenarios, a.(pages := p), known))
                <= Elements(PageIds(engineers, scenarios, b.(pages := p), known))
  {
    forall p: nat
      ensures PageIds(engineers, scenarios, a.(pages := p), known) == Prefix(small, p)
      ensures PageIds(engineers, scenarios, b.(pages := p), known) == Prefix(large, p)
    {
      PagesArePrefix(engineers, scenarios, a, known, p);
      PagesArePrefix(engineers, scenarios, b, known, p);
    }
  }

  lemma {:induction false} GatherAll(s: seq<string>, keep: string -> bool)
    requires Distinct(s) && forall x :: x in s ==> keep(x)
    ensures Gather([], s, keep) == s
  {
    if s != [] {
      var n := |s| - 1;
      var t := s[..n];
      forall x | x in t ensures keep(x) { assert x in s; }
      GatherAll(t, keep);
      assert s[n] in s && s[n] !in t;
      assert t + [s[n]] == s;
    }
  }

  /** With truncation it fails: a second featured episode of the first engineer takes the second's page. */
  lemma MoreFeaturedCanDropAPage(first: Engineer, second: Engineer, scenarios: seq<Scenario>, b: Budget,
      known: set<string>, f: seq<string>, g: seq<string>)
    requires f == Featured(first) && g == Featured(second) && |f| == 2 && |g| == 1 && g[0] !in f
    requires forall x :: x in f + g ==> x in known
    requires first.actor != second.actor && AllTops(scenarios) + AllActors(scenarios) == [first.actor, second.actor]
    requires b.featured == 1 && b.pages == 2
    ensures PageIds([first, second], scenarios, b, known) == [f[0], g[0]]
    ensures PageIds([first, second], scenarios, b.(featured := 2), known) == f
  {
    GatherDistinct([], [first.strongest] + (first.tops + (first.current + first.foundational)), Truthy);
    TwoOrders(f, g, known);
    TwoEngineers(first, second, scenarios, b, known, f, g, [f[0], g[0]]);
    TwoEngineers(first, second, scenarios, b.(featured := 2), known, f, g, f + g);
  }

  lemma TwoOrders(f: seq<string>, g: seq<string>, known: set<string>)
    requires |f| == 2 && |g| == 1 && g[0] !in f && Distinct(f)
    requires forall x :: x in f + g ==> x in known
    ensures Prefix(f, 1) + Prefix(g, 1) == [f[0], g[0]] && Prefix(f, 2) + Prefix(g, 2) == f + g
    ensures Distinct([f[0], g[0]]) && Distinct(f + g)
    ensures forall x :: x in [f[0], g[0]] ==> x in known
    ensures Prefix([f[0], g[0]], 2) == [f[0], g[0]] && Prefix(f + g, 2) == f
  {
    assert f == [f[0], f[1]] && g == [g[0]];
    assert f[0] in f + g && g[0] in f + g;
  }

  /** With two ranked engineers the page order is what the first contributes and then the second. */
  lemma TwoEngineers(first: Engineer, second: Engineer, scenarios: seq<Scenario>, b: Budget, known: set<string>,
                     f: seq<string>, g: seq<string>, order: seq<string>)
    requires first.actor != second.actor && AllTops(scenarios) + AllActors(scenarios) == [first.actor, second.actor]
    requires f == Featured(first) && g == Featured(second) && order == Prefix(f, b.featured) + Prefix(g, b.featured)
    requires Distinct(order) && forall x :: x in order ==> x in known
    ensures PageIds([first, second], scenarios, b, known) == Prefix(order, b.pages)
  {
    var byActor := ByActor([first, second]);
    TwoByActor(first, second);
    TwoContributions(byActor, first.actor, second.actor, b.featured);
    GatherAll(order, IsIn(known));
  }

  lemma TwoByActor(first: Engineer, second: Engineer)
    ensures ByActor([first, second]) == map[first.actor := first][second.actor := second]
  {
    assert [first, second][..1] == [first] && [first][..0] == [];
  }

  lemma TwoContributions(byActor: map<string, Engineer>, a: string, b: string, cap: nat)
    ensures Contributions(byActor, [a, b], cap) == Contribution(byActor, a, cap) + Contribution(byActor, b, cap)
  {
    OneContribution(byActor, a, cap);
    OneContribution(byActor, b, cap);
    ContributionsAppend(byActor, [a], [b], cap);
    assert [a] + [b] == [a, b];
  }

  lemma OneContribution(byActor: map<string, Engineer>, a: string, cap: nat)
    ensures Contributions(byActor, [a], cap) == Contribution(byActor, a, cap)
  {
    assert [a][..0] == [];
    assert [] + Contribution(byActor, a, cap) == Contribution(byActor, a, cap);
  }
}
