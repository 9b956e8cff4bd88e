/**
 Episodes (src/impact/features/episodes.py): the strongest-edge table of `build_edges` and the
 union-find of `build_episodes`, against connectivity by paths.
 */
module Episodes {
  import opened Collections
  import opened Forests
  import opened Ordering

  datatype Strength = Strong | Medium | Weak

  datatype Edge = Edge(
    source: nat, targetKind: string, target: Option<nat>, inDataset: bool, edgeType: string, strength: Strength)

  const GROUPING_EDGE_TYPES: set<string> :=
    {"follow_up", "part_of", "stacked_on", "reverts", "reapplies", "supersedes"}

  /** An edge that is allowed to merge two pull requests into one episode. */
  predicate Joins(e: Edge) {
    && e.targetKind == "pull_request" && e.strength != Weak && e.edgeType in GROUPING_EDGE_TYPES
    && e.inDataset && e.target.Some?
  }

  // ----- what an episode is: connectivity -----

  ghost predicate Linked(edges: seq<Edge>, a: nat, b: nat) {
    exists e ::
      e in edges && Joins(e) && ((e.source == a && e.target.value == b) || (e.source == b && e.target.value == a))
  }

  ghost predicate IsPath(edges: seq<Edge>, p: seq<nat>) {
    p != [] && forall i :: 0 <= i < |p| - 1 ==> Linked(edges, p[i], p[i + 1])
  }

  ghost predicate Connected(edges: seq<Edge>, a: nat, b: nat) {
    exists p :: IsPath(edges, p) && p[0] == a && p[|p| - 1] == b
  }

  ghost function Nodes(edges: seq<Edge>): set<nat> {
    (set e | e in edges && Joins(e) :: e.source) + (set e | e in edges && Joins(e) :: e.target.value)
  }

  ghost function ClassOf(edges: seq<Edge>, x: nat): set<nat> {
    set y | y in Nodes(edges) && Connected(edges, x, y)
  }

  ghost predicate IsSmallest(edges: seq<Edge>, x: nat) {
    forall y :: y in ClassOf(edges, x) ==> x <= y
  }

  ghost function Smallest(edges: seq<Edge>): set<nat> {
    set x | x in Nodes(edges) && IsSmallest(edges, x)
  }

  ghost function TypesIn(edges: seq<Edge>, members: set<nat>): set<string> {
    set e | e in edges && Joins(e) && e.source in members :: e.edgeType
  }

  datatype Episode = Episode(root: nat, members: seq<nat>, edgeTypes: seq<string>)

  ghost function EpisodeOf(edges: seq<Edge>, root: nat): Episode {
    var members := ClassOf(edges, root);
    Episode(root, SortedSet(members, NatLe), SortedSet(TypesIn(edges, members), StringLe))
  }

  ghost function Picked(roots: seq<nat>, keep: nat -> bool, row: nat -> Episode): seq<Episode> {
    if roots == [] then []
    else
      var n := |roots| - 1;
      Picked(roots[..n], keep, row) + if keep(roots[n]) then [row(roots[n])] else []
  }

  ghost function IsShared(edges: seq<Edge>): nat -> bool { (x: nat) => |ClassOf(edges, x)| >= 2 }

  ghost function RowFor(edges: seq<Edge>): nat -> Episode { (x: nat) => EpisodeOf(edges, x) }

  /** The episodes of the given smallest members, leaving out the lone ones. */
  ghost function Listed(edges: seq<Edge>, roots: seq<nat>): seq<Episode> { Picked(roots, IsShared(edges), RowFor(edges)) }

  /** The reference answer, which mentions no forest and no edge order. */
  ghost function EpisodesOf(edges: seq<Edge>): seq<Episode> {
    Listed(edges, SortedSet(Smallest(edges), NatLe))
  }

  // ----- connectivity is an equivalence -----

  lemma Reflexive(edges: seq<Edge>, a: nat)
    ensures Connected(edges, a, a)
  {
    assert IsPath(edges, [a]);
  }

  lemma Symmetric(edges: seq<Edge>, a: nat, b: nat)
    requires Connected(edges, a, b)
    ensures Connected(edges, b, a)
  {
    var p :| IsPath(edges, p) && p[0] == a && p[|p| - 1] == b;
    var q := seq(|p|, i requires 0 <= i < |p| => p[|p| - 1 - i]);
    forall i | 0 <= i < |q| - 1 ensures Linked(edges, q[i], q[i + 1]) {
      var j := |p| - 2 - i;
      assert Linked(edges, p[j], p[j + 1]);
    }
    assert IsPath(edges, q);
  }

  lemma Transitive(edges: seq<Edge>, a: nat, b: nat, c: nat)
    requires Connected(edges, a, b) && Connected(edges, b, c)
    ensures Connected(edges, a, c)
  {
    var p :| IsPath(edges, p) && p[0] == a && p[|p| - 1] == b;
    var q :| IsPath(edges, q) && q[0] == b && q[|q| - 1] == c;
    var r := p + q[1..];
    forall i | 0 <= i < |r| - 1 ensures Linked(edges, r[i], r[i + 1]) {
      if i < |p| - 1 {
        assert Linked(edges, p[i], p[i + 1]);
      } else {
        var j := i - (|p| - 1);
        assert Linked(edges, q[j], q[j + 1]);
      }
    }
    assert IsPath(edges, r);
  }

  lemma MoreEdges(fewer: seq<Edge>, more: seq<Edge>, a: nat, b: nat)
    requires forall e :: e in fewer && Joins(e) ==> e in more
    requires Connected(fewer, a, b)
    ensures Connected(more, a, b)
  {
    var p :| IsPath(fewer, p) && p[0] == a && p[|p| - 1] == b;
    forall i | 0 <= i < |p| - 1 ensures Linked(more, p[i], p[i + 1]) {
      assert Linked(fewer, p[i], p[i + 1]);
    }
    assert IsPath(more, p);
  }

  lemma EdgeConnects(edges: seq<Edge>, e: Edge)
    requires e in edges && Joins(e)
    ensures Connected(edges, e.source, e.target.value)
  {
    assert IsPath(edges, [e.source, e.target.value]);
  }

  // ----- the union-find -----

  /** Pointing a node at its grandparent keeps every representative. */
  lemma Halve(parent: map<nat, nat>, rep: map<nat, nat>, x: nat)
    requires IsForest(NatLe, parent, rep) && x in parent
    ensures parent[x] in parent && (parent[x] == x <==> rep[x] == x)
    ensures parent[parent[x]] in parent && rep[parent[parent[x]]] == rep[x]
    ensures IsForest(NatLe, parent[x := parent[parent[x]]], rep)
    ensures parent[x] != x ==> parent[parent[x]] < x
  {
    assert Fits(NatLe, parent, rep, x);
    assert Fits(NatLe, parent, rep, parent[x]);
    Repoint(NatLe, parent, rep, x, parent[parent[x]]);
  }

  class DisjointSets {
    var parent: map<nat, nat>
    ghost var rep: map<nat, nat>

    ghost predicate Valid()
      reads this
    {
      IsForest(NatLe, parent, rep)
    }

    constructor ()
      ensures Valid() && parent == map[] && rep == map[]
    {
      parent, rep := map[], map[];
    }

    /** `find`: registers an unseen number, then walks up to the representative, halving the path. */
    method Find(number: nat) returns (r: nat)
      requires Valid()
      modifies this
      ensures Valid() && rep == WithNode(old(rep), number) && r == rep[number]
    {
      var x := number;
      if x !in parent {
        NewNode(NatLe, parent, rep, x);
        parent, rep := parent[x := x], rep[x := x];
      }
      while parent[x] != x
        invariant Valid() && x in parent && rep == WithNode(old(rep), number) && rep[x] == rep[number]
        decreases x
      {
        Halve(parent, rep, x);
        parent := parent[x := parent[parent[x]]];
        x := parent[x];
        Halve(parent, rep, x);
      }
      Halve(parent, rep, x);
      r := x;
    }

    /** `union`: the smaller of the two roots becomes the parent of the other. */
    method Union(a: nat, b: nat)
      requires Valid()
      modifies this
      ensures Valid() && rep == Merged(NatLe, WithNode(WithNode(old(rep), a), b), a, b)
    {
      var ra := Find(a);
      var rb := Find(b);
      if ra != rb {
        var lo, hi := if ra < rb then ra else rb, if ra < rb then rb else ra;
        Hang(NatLe, parent, rep, a, b, lo, hi);
        parent, rep := parent[hi := lo], Merged(NatLe, rep, a, b);
      } else {
        MergedWithItself(NatLe, rep, a, b);
      }
    }
  }

  // ----- the forest and the edges read so far say the same -----

  ghost predicate Represents(rep: map<nat, nat>, edges: seq<Edge>) {
    && IsRepresentation(NatLe, rep) && rep.Keys == Nodes(edges)
    && (forall e :: e in edges && Joins(e) ==> rep[e.source] == rep[e.target.value])
    && (forall x {:trigger rep[x]} :: x in rep ==> Connected(edges, x, rep[x]))
  }

  lemma {:induction false} PathKeepsRep(rep: map<nat, nat>, edges: seq<Edge>, p: seq<nat>)
    requires Represents(rep, edges) && IsPath(edges, p) && p[0] in rep
    ensures p[|p| - 1] in rep && rep[p[|p| - 1]] == rep[p[0]]
    decreases |p|
  {
    if |p| > 1 {
      assert Linked(edges, p[0], p[1]);
      var q := p[1..];
      forall i | 0 <= i < |q| - 1 ensures Linked(edges, q[i], q[i + 1]) {
        assert Linked(edges, p[i + 1], p[i + 2]);
      }
      PathKeepsRep(rep, edges, q);
    }
  }

  /** Two numbers have the same representative exactly when accepted edges connect them. */
  lemma SameRepIffConnected(rep: map<nat, nat>, edges: seq<Edge>, a: nat, b: nat)
    requires Represents(rep, edges) && a in rep && b in rep
    ensures rep[a] == rep[b] <==> Connected(edges, a, b)
  {
    if Connected(edges, a, b) {
      var p :| IsPath(edges, p) && p[0] == a && p[|p| - 1] == b;
      PathKeepsRep(rep, edges, p);
    }
    if rep[a] == rep[b] {
      Symmetric(edges, b, rep[b]);
      Transitive(edges, a, rep[a], b);
    }
  }

  ghost function Members(rep: map<nat, nat>, r: nat): set<nat> { set y | y in rep && rep[y] == r }

  ghost function Roots(rep: map<nat, nat>): set<nat> { set r | r in rep && rep[r] == r }

  lemma MembersAreTheClass(rep: map<nat, nat>, edges: seq<Edge>, r: nat)
    requires Represents(rep, edges) && r in rep && rep[r] == r
    ensures Members(rep, r) == ClassOf(edges, r)
  {
    forall y | y in rep ensures rep[y] == r <==> Connected(edges, r, y) {
      SameRepIffConnected(rep, edges, r, y);
    }
  }

  lemma RepIsSmallest(rep: map<nat, nat>, edges: seq<Edge>, x: nat)
    requires Represents(rep, edges) && x in rep
    ensures rep[x] == x <==> IsSmallest(edges, x)
  {
    assert Settled(NatLe, rep, x);
    if rep[x] == x {
      MembersAreTheClass(rep, edges, x);
      forall y | y in ClassOf(edges, x) ensures x <= y {
        assert y in Members(rep, x);
        assert Settled(NatLe, rep, y);
      }
    } else {
      assert rep[x] in ClassOf(edges, x);
    }
  }

  /** The representatives are exactly the smallest members of the classes. */
  lemma RootsAreSmallest(rep: map<nat, nat>, edges: seq<Edge>)
    requires Represents(rep, edges)
    ensures Roots(rep) == Smallest(edges)
  {
    forall x | x in rep ensures rep[x] == x <==> IsSmallest(edges, x) { RepIsSmallest(rep, edges, x); }
  }

  ghost function RepOr(rep: map<nat, nat>, x: nat): nat { if x in rep then rep[x] else x }

  lemma MoreNodes(edges: seq<Edge>, e: Edge)
    requires Joins(e)
    ensures Nodes(edges + [e]) == Nodes(edges) + {e.source, e.target.value}
  {
    var more := edges + [e];
    assert forall d :: d in more <==> d in edges || d == e;
  }

  /** Every number is still connected to its old representative, in both directions. */
  lemma StillConnected(rep: map<nat, nat>, edges: seq<Edge>, e: Edge, x: nat)
    requires Represents(rep, edges) && Joins(e)
    ensures Connected(edges + [e], x, RepOr(rep, x)) && Connected(edges + [e], RepOr(rep, x), x)
  {
    if x in rep { MoreEdges(edges, edges + [e], x, rep[x]); } else { Reflexive(edges + [e], x); }
    Symmetric(edges + [e], x, RepOr(rep, x));
  }

  lemma EndsConnected(rep: map<nat, nat>, edges: seq<Edge>, e: Edge)
    requires Represents(rep, edges) && Joins(e)
    ensures Connected(edges + [e], RepOr(rep, e.source), RepOr(rep, e.target.value))
    ensures Connected(edges + [e], RepOr(rep, e.target.value), RepOr(rep, e.source))
  {
    var a, b, more := e.source, e.target.value, edges + [e];
    StillConnected(rep, edges, e, a);
    StillConnected(rep, edges, e, b);
    EdgeConnects(more, e);
    Transitive(more, RepOr(rep, a), a, b);
    Transitive(more, RepOr(rep, a), b, RepOr(rep, b));
    Symmetric(more, RepOr(rep, a), RepOr(rep, b));
  }

  ghost function Joined(rep: map<nat, nat>, a: nat, b: nat): map<nat, nat> {
    Merged(NatLe, WithNode(WithNode(rep, a), b), a, b)
  }

  /** Merging moves a number only from one end's representative to the other's. */
  ghost predicate Moves(rep: map<nat, nat>, a: nat, b: nat, rep': map<nat, nat>) {
    && rep'.Keys == rep.Keys + {a, b} && rep'[a] == rep'[b]
    && (forall x {:trigger rep'[x]} :: x in rep' ==>
          || rep'[x] == RepOr(rep, x)
          || (RepOr(rep, x) == RepOr(rep, a) && rep'[x] == RepOr(rep, b))
          || (RepOr(rep, x) == RepOr(rep, b) && rep'[x] == RepOr(rep, a)))
    && (forall x, y {:trigger rep'[x], rep'[y]} :: x in rep && y in rep && rep[x] == rep[y] ==> rep'[x] == rep'[y])
  }

  lemma WideIs(rep: map<nat, nat>, a: nat, b: nat, wide: map<nat, nat>)
    requires wide == WithNode(WithNode(rep, a), b)
    ensures wide.Keys == rep.Keys + {a, b}
    ensures forall x {:trigger wide[x]} :: x in wide ==> wide[x] == RepOr(rep, x)
  {
  }

  lemma JoinedMoves(rep: map<nat, nat>, a: nat, b: nat)
    requires IsRepresentation(NatLe, rep)
    ensures Moves(rep, a, b, Joined(rep, a, b)) && IsRepresentation(NatLe, Joined(rep, a, b))
  {
    var wide := WithNode(WithNode(rep, a), b);
    WideIs(rep, a, b, wide);
    WithNodeIs(NatLe, rep, a);
    WithNodeIs(NatLe, WithNode(rep, a), b);
    MergedRepresents(NatLe, wide, a, b);
    MergedMoves(rep, a, b, wide, Merged(NatLe, wide, a, b));
  }

  lemma MergedMoves(rep: map<nat, nat>, a: nat, b: nat, wide: map<nat, nat>, merged: map<nat, nat>)
    requires wide.Keys == rep.Keys + {a, b} && merged == Merged(NatLe, wide, a, b)
    requires forall x {:trigger wide[x]} :: x in wide ==> wide[x] == RepOr(rep, x)
    ensures Moves(rep, a, b, merged)
  {
    assert wide[a] == RepOr(rep, a) && wide[b] == RepOr(rep, b);
    forall x | x in merged ensures
      || merged[x] == RepOr(rep, x)
      || (RepOr(rep, x) == RepOr(rep, a) && merged[x] == RepOr(rep, b))
      || (RepOr(rep, x) == RepOr(rep, b) && merged[x] == RepOr(rep, a))
    {
      assert wide[x] == RepOr(rep, x);
    }
    forall x, y | x in rep && y in rep && rep[x] == rep[y] ensures merged[x] == merged[y] {
      assert wide[x] == RepOr(rep, x) && wide[y] == RepOr(rep, y);
    }
  }

  lemma MovedStillConnected(rep: map<nat, nat>, edges: seq<Edge>, e: Edge, rep': map<nat, nat>, x: nat)
    requires Represents(rep, edges) && Joins(e)
    requires Moves(rep, e.source, e.target.value, rep') && x in rep'
    ensures Connected(edges + [e], x, rep'[x])
  {
    StillConnected(rep, edges, e, x);
    EndsConnected(rep, edges, e);
    if rep'[x] != RepOr(rep, x) { Transitive(edges + [e], x, RepOr(rep, x), rep'[x]); }
  }

  lemma UnionRepresents(rep: map<nat, nat>, edges: seq<Edge>, e: Edge, rep': map<nat, nat>)
    requires Represents(rep, edges) && Joins(e)
    requires Moves(rep, e.source, e.target.value, rep') && IsRepresentation(NatLe, rep')
    ensures Represents(rep', edges + [e])
  {
    MoreNodes(edges, e);
    forall d | d in edges + [e] && Joins(d) ensures rep'[d.source] == rep'[d.target.value] {
      if d in edges { assert rep[d.source] == rep[d.target.value]; }
    }
    forall x | x in rep' ensures Connected(edges + [e], x, rep'[x]) {
      MovedStillConnected(rep, edges, e, rep', x);
    }
  }

  lemma SkipRepresents(rep: map<nat, nat>, edges: seq<Edge>, e: Edge)
    requires Represents(rep, edges) && !Joins(e)
    ensures Represents(rep, edges + [e])
  {
    assert forall d :: d in edges + [e] <==> d in edges || d == e;
    forall x | x in rep ensures Connected(edges + [e], x, rep[x]) {
      MoreEdges(edges, edges + [e], x, rep[x]);
    }
  }

  // ----- build_episodes -----

  /** The first loop: read the edges, keeping those that group. */
  method ReadEdges(edges: seq<Edge>) returns (forest: DisjointSets, used: seq<Edge>)
    ensures fresh(forest) && forest.Valid() && Represents(forest.rep, edges)
    ensures forall e :: e in used <==> e in edges && Joins(e)
  {
    forest := new DisjointSets();
    used := [];
    assert Nodes([]) == {};
    for i := 0 to |edges|
      invariant fresh(forest) && forest.Valid() && Represents(forest.rep, edges[..i])
      invariant forall e :: e in used <==> e in edges[..i] && Joins(e)
    {
      var edge := edges[i];
      assert edges[..i + 1] == edges[..i] + [edge];
      ghost var before := forest.rep;
      if edge.targetKind != "pull_request" || edge.strength == Weak || edge.edgeType !in GROUPING_EDGE_TYPES
        || !edge.inDataset || edge.target.None?
      {
        SkipRepresents(before, edges[..i], edge);
        continue;
      }
      forest.Union(edge.source, edge.target.value);
      JoinedMoves(before, edge.source, edge.target.value);
      UnionRepresents(before, edges[..i], edge, forest.rep);
      used := used + [edge];
    }
    assert edges[..|edges|] == edges;
  }

  /** The second loop: `groups[find(number)].add(number)`, halving as it goes. */
  method Group(forest: DisjointSets) returns (groups: map<nat, set<nat>>)
    requires forest.Valid()
    modifies forest
    ensures forest.Valid() && forest.rep == old(forest.rep)
    ensures groups.Keys == Roots(forest.rep)
    ensures forall r :: r in groups ==> groups[r] == Members(forest.rep, r)
  {
    groups := map[];
    var rest := forest.parent.Keys;
    ghost var rep := forest.rep;
    while rest != {}
      invariant forest.Valid() && forest.rep == rep && rest <= rep.Keys
      invariant forall r :: r in groups ==> r in rep && rep[r] == r
      invariant forall r :: r in groups ==> groups[r] == Members(rep, r) - rest
      invariant forall y :: y in rep && y !in rest ==> rep[y] in groups
      decreases rest
    {
      var number :| number in rest;
      var root := forest.Find(number);
      assert Settled(NatLe, rep, number);
      var group := if root in groups then groups[root] else {};
      assert root !in groups ==> Members(rep, root) - rest == {};
      groups := groups[root := group + {number}];
      rest := rest - {number};
    }
  }

  method Classes(edges: seq<Edge>) returns (groups: map<nat, set<nat>>, used: seq<Edge>)
    ensures groups.Keys == Smallest(edges)
    ensures forall r :: r in groups ==> groups[r] == ClassOf(edges, r)
    ensures forall e :: e in used <==> e in edges && Joins(e)
  {
    var forest;
    forest, used := ReadEdges(edges);
    groups := Group(forest);
    RootsAreSmallest(forest.rep, edges);
    forall r | r in groups ensures groups[r] == ClassOf(edges, r) {
      MembersAreTheClass(forest.rep, edges, r);
    }
  }

  /** One row of the result. */
  method MakeEpisode(edges: seq<Edge>, used: seq<Edge>, root: nat, members: set<nat>) returns (episode: Episode)
    requires members == ClassOf(edges, root)
    requires forall e :: e in used <==> e in edges && Joins(e)
    ensures episode == EpisodeOf(edges, root)
  {
    NatLeIsTotalOrder();
    StringLeIsTotalOrder();
    var types := set e | e in used && e.source in members :: e.edgeType;
    assert types == TypesIn(edges, members);
    var memberList := SortSet(members, NatLe);
    var typeList := SortSet(types, StringLe);
    episode := Episode(root, memberList, typeList);
  }

  lemma ListedNext(edges: seq<Edge>, roots: seq<nat>, i: nat)
    requires i < |roots|
    ensures Listed(edges, roots[..i + 1])
         == Listed(edges, roots[..i]) + if |ClassOf(edges, roots[i])| < 2 then [] else [EpisodeOf(edges, roots[i])]
  {
    assert roots[..i + 1][..i] == roots[..i];
  }

  method BuildEpisodes(edges: seq<Edge>) returns (out: seq<Episode>)
    ensures out == EpisodesOf(edges)
  {
    var groups, used := Classes(edges);
    NatLeIsTotalOrder();
    var roots := SortSet(groups.Keys, NatLe);
    SortedSetElements(groups.Keys, NatLe);
    out := [];
    for i := 0 to |roots|
      invariant out == Listed(edges, roots[..i])
    {
      var root := roots[i];
      ListedNext(edges, roots, i);
      assert root in roots;
      var members := groups[root];
      if |members| < 2 {
        continue;
      }
      var episode := MakeEpisode(edges, used, root, members);
      out := out + [episode];
    }
    assert roots[..|roots|] == roots;
  }

  lemma NatLeIsTotalOrder()
    ensures IsTotalOrder(NatLe)
  {
  }

  // ----- what the episodes are -----

  /** Its smallest member comes first, and its members are exactly what that member is connected to. */
  ghost predicate IsEpisode(edges: seq<Edge>, ep: Episode) {
    && |ep.members| >= 2 && ep.members[0] == ep.root
    && SortedBy(ep.members, NatLe) && Distinct(ep.members)
    && (forall y :: y in ep.members <==> Connected(edges, ep.root, y))
    && SortedBy(ep.edgeTypes, StringLe) && Distinct(ep.edgeTypes)
    && (forall t ::
      t in ep.edgeTypes <==> exists e :: e in edges && Joins(e) && e.source in ep.members && e.edgeType == t)
  }

  lemma {:induction false} PathNodes(edges: seq<Edge>, p: seq<nat>)
    requires IsPath(edges, p) && p[0] in Nodes(edges)
    ensures p[|p| - 1] in Nodes(edges)
  {
    if |p| > 1 {
      var n := |p| - 2;
      assert Linked(edges, p[n], p[n + 1]);
    }
  }

  lemma ConnectedNodes(edges: seq<Edge>, a: nat, b: nat)
    requires Connected(edges, a, b)
    ensures a in Nodes(edges) ==> b in Nodes(edges)
    ensures a != b ==> a in Nodes(edges)
  {
    var p :| IsPath(edges, p) && p[0] == a && p[|p| - 1] == b;
    if a in Nodes(edges) { PathNodes(edges, p); }
    if a != b { assert Linked(edges, p[0], p[1]); }
  }

  lemma {:induction false} PickedAre(roots: seq<nat>, keep: nat -> bool, row: nat -> Episode)
    ensures forall ep :: ep in Picked(roots, keep, row) ==> exists r :: r in roots && keep(r) && ep == row(r)
    ensures forall r :: r in roots && keep(r) ==> row(r) in Picked(roots, keep, row)
  {
    if roots != [] {
      var n := |roots| - 1;
      PickedAre(roots[..n], keep, row);
      assert forall r :: r in roots <==> r in roots[..n] || r == roots[n];
    }
  }

  lemma {:induction false} PickedAscend(roots: seq<nat>, keep: nat -> bool, row: nat -> Episode)
    requires SortedBy(roots, NatLe) && Distinct(roots) && forall r :: row(r).root == r
    ensures forall i, j :: 0 <= i < j < |Picked(roots, keep, row)| ==>
              Picked(roots, keep, row)[i].root < Picked(roots, keep, row)[j].root
  {
    if roots != [] {
      var n := |roots| - 1;
      var shorter := Picked(roots[..n], keep, row);
      PickedAscend(roots[..n], keep, row);
      PickedAre(roots[..n], keep, row);
      forall i | 0 <= i < |shorter| ensures shorter[i].root < roots[n] {
        assert shorter[i] in shorter;
        var r :| r in roots[..n] && keep(r) && shorter[i] == row(r);
        var k :| 0 <= k < n && roots[k] == r;
        assert NatLe(roots[k], roots[n]) && roots[k] != roots[n];
      }
    }
  }

  lemma ListedAre(edges: seq<Edge>, roots: seq<nat>)
    ensures forall ep :: ep in Listed(edges, roots) ==>
              ep.root in roots && |ClassOf(edges, ep.root)| >= 2 && ep == EpisodeOf(edges, ep.root)
    ensures forall r :: r in roots && |ClassOf(edges, r)| >= 2 ==> EpisodeOf(edges, r) in Listed(edges, roots)
  {
    PickedAre(roots, IsShared(edges), RowFor(edges));
    forall ep | ep in Listed(edges, roots)
      ensures ep.root in roots && |ClassOf(edges, ep.root)| >= 2 && ep == EpisodeOf(edges, ep.root)
    {
      var r :| r in roots && IsShared(edges)(r) && ep == RowFor(edges)(r);
    }
    forall r | r in roots && |ClassOf(edges, r)| >= 2 ensures EpisodeOf(edges, r) in Listed(edges, roots) {
      assert IsShared(edges)(r) && RowFor(edges)(r) == EpisodeOf(edges, r);
    }
  }

  lemma ListedAscend(edges: seq<Edge>, roots: seq<nat>)
    requires SortedBy(roots, NatLe) && Distinct(roots)
    ensures forall i, j ::
      0 <= i < j < |Listed(edges, roots)| ==> Listed(edges, roots)[i].root < Listed(edges, roots)[j].root
  {
    PickedAscend(roots, IsShared(edges), RowFor(edges));
  }

  lemma SortedSetIs<T(!new)>(s: set<T>, le: (T, T) -> bool)
    requires IsTotalOrder(le)
    ensures var r := SortedSet(s, le); SortedBy(r, le) && Distinct(r) && |r| == |s| && forall x :: x in r <==> x in s
  {
    SortedSetSorted(s, le);
    SortedSetElements(s, le);
    SortedSetDistinct(s, le);
    MultisetSize(s, SortedSet(s, le));
  }

  lemma SmallestFirst(s: set<nat>, r: nat)
    requires r in s && forall y :: y in s ==> r <= y
    ensures SortedSet(s, NatLe) != [] && SortedSet(s, NatLe)[0] == r
  {
    NatLeIsTotalOrder();
    SortedSetIs(s, NatLe);
    var list := SortedSet(s, NatLe);
    var k :| 0 <= k < |list| && list[k] == r;
    assert list[0] in s && (k > 0 ==> NatLe(list[0], list[k]));
  }

  lemma EpisodeOfIsEpisode(edges: seq<Edge>, r: nat)
    requires r in Smallest(edges) && |ClassOf(edges, r)| >= 2
    ensures IsEpisode(edges, EpisodeOf(edges, r))
  {
    var members, ep := ClassOf(edges, r), EpisodeOf(edges, r);
    NatLeIsTotalOrder();
    StringLeIsTotalOrder();
    SortedSetIs(members, NatLe);
    SortedSetIs(TypesIn(edges, members), StringLe);
    forall y ensures y in ep.members <==> Connected(edges, r, y) {
      if Connected(edges, r, y) { ConnectedNodes(edges, r, y); }
    }
    Reflexive(edges, r);
    SmallestFirst(members, r);
  }

  lemma MultisetSize<T>(s: set<T>, r: seq<T>)
    requires multiset(r) == multiset(s)
    ensures |r| == |s|
  {
    assert |multiset(r)| == |r| && |multiset(s)| == |s|;
  }

  lemma {:induction false} SmallestExists(edges: seq<Edge>, s: set<nat>) returns (m: nat)
    requires s != {}
    ensures m in s && forall y :: y in s ==> m <= y
  {
    m :| m in s;
    var rest := s - {m};
    if rest != {} {
      var k := SmallestExists(edges, rest);
      assert forall y :: y in s ==> y == m || y in rest;
      if k < m { m := k; }
    } else {
      assert s == {m} + rest;
    }
  }

  lemma RootOfClass(edges: seq<Edge>, a: nat) returns (r: nat)
    requires a in Nodes(edges)
    ensures r in Smallest(edges) && Connected(edges, r, a)
  {
    Reflexive(edges, a);
    assert a in ClassOf(edges, a);
    r := SmallestExists(edges, ClassOf(edges, a));
    Symmetric(edges, a, r);
    forall y | y in ClassOf(edges, r) ensures r <= y {
      Transitive(edges, a, r, y);
      assert y in ClassOf(edges, a);
    }
  }

  /**
   The returned episodes are exactly the classes, of two or more, of the equivalence that the accepted
   edges generate: every row is one, any two distinct connected numbers share a row, and rows are
   disjoint and in ascending order of their smallest member.
   */
  lemma EpisodesAreClasses(edges: seq<Edge>)
    ensures forall ep :: ep in EpisodesOf(edges) ==> IsEpisode(edges, ep)
    ensures forall a, b :: a != b && Connected(edges, a, b) ==>
              exists ep :: ep in EpisodesOf(edges) && a in ep.members && b in ep.members
    ensures forall i, j :: 0 <= i < j < |EpisodesOf(edges)| ==>
              EpisodesOf(edges)[i].root < EpisodesOf(edges)[j].root
    ensures forall c, d, y ::
      c in EpisodesOf(edges) && d in EpisodesOf(edges) && y in c.members && y in d.members ==> c == d
  {
    var roots, rows := SortedSet(Smallest(edges), NatLe), EpisodesOf(edges);
    NatLeIsTotalOrder();
    SortedSetSorted(Smallest(edges), NatLe);
    SortedSetDistinct(Smallest(edges), NatLe);
    SortedSetElements(Smallest(edges), NatLe);
    ListedAre(edges, roots);
    ListedAscend(edges, roots);
    forall ep | ep in rows ensures IsEpisode(edges, ep) { EpisodeOfIsEpisode(edges, ep.root); }
    forall a, b | a != b && Connected(edges, a, b)
      ensures exists ep :: ep in rows && a in ep.members && b in ep.members
    {
      SharedRow(edges, roots, a, b);
    }
    forall c, d, y | c in rows && d in rows && y in c.members && y in d.members ensures c == d {
      SmallestAgree(edges, c.root, d.root, y);
    }
  }

  lemma SharedRow(edges: seq<Edge>, roots: seq<nat>, a: nat, b: nat)
    requires a != b && Connected(edges, a, b)
    requires forall r :: r in Smallest(edges) ==> r in roots
    requires forall r :: r in roots && |ClassOf(edges, r)| >= 2 ==> EpisodeOf(edges, r) in Listed(edges, roots)
    ensures exists ep :: ep in Listed(edges, roots) && a in ep.members && b in ep.members
  {
    ConnectedNodes(edges, a, b);
    var r := RootOfClass(edges, a);
    Transitive(edges, r, a, b);
    var members := ClassOf(edges, r);
    assert {a, b} <= members;
    SubsetSize({a, b}, members);
    SortedSetElements(members, NatLe);
    assert EpisodeOf(edges, r) in Listed(edges, roots);
  }

  lemma SmallestAgree(edges: seq<Edge>, c: nat, d: nat, y: nat)
    requires c in Smallest(edges) && d in Smallest(edges) && Connected(edges, c, y) && Connected(edges, d, y)
    ensures c == d
  {
    Symmetric(edges, c, y);
    Symmetric(edges, d, y);
    Transitive(edges, c, y, d);
    Transitive(edges, d, y, c);
    assert d in ClassOf(edges, c) && c in ClassOf(edges, d);
  }

  // ----- which edges matter -----

  /** Every accepted edge of `a` has one in `b` with the same ends and type. */
  ghost predicate Covers(b: seq<Edge>, a: seq<Edge>) {
    forall e {:trigger HasLike(b, e)} :: e in a && Joins(e) ==> HasLike(b, e)
  }

  ghost predicate HasLike(edges: seq<Edge>, e: Edge) {
    exists d :: d in edges && Joins(d) && d.source == e.source && d.target == e.target && d.edgeType == e.edgeType
  }

  lemma CoveredLinked(a: seq<Edge>, b: seq<Edge>, x: nat, y: nat)
    requires Covers(b, a) && Linked(a, x, y)
    ensures Linked(b, x, y)
  {
    var e :| e in a && Joins(e) && ((e.source == x && e.target.value == y) || (e.source == y && e.target.value == x));
    assert HasLike(b, e);
  }

  lemma CoveredConnected(a: seq<Edge>, b: seq<Edge>, x: nat, y: nat)
    requires Covers(b, a) && Connected(a, x, y)
    ensures Connected(b, x, y)
  {
    var p :| IsPath(a, p) && p[0] == x && p[|p| - 1] == y;
    forall i | 0 <= i < |p| - 1 ensures Linked(b, p[i], p[i + 1]) {
      CoveredLinked(a, b, p[i], p[i + 1]);
    }
    assert IsPath(b, p);
  }

  lemma CoveredSets(a: seq<Edge>, b: seq<Edge>, members: set<nat>)
    requires Covers(b, a)
    ensures Nodes(a) <= Nodes(b) && TypesIn(a, members) <= TypesIn(b, members)
  {
    forall e | e in a && Joins(e)
      ensures e.source in Nodes(b) && e.target.value in Nodes(b)
      ensures e.source in members ==> e.edgeType in TypesIn(b, members)
    {
      assert HasLike(b, e);
    }
  }

  lemma SameClass(a: seq<Edge>, b: seq<Edge>, x: nat)
    requires Covers(a, b) && Covers(b, a)
    ensures ClassOf(a, x) == ClassOf(b, x)
  {
    CoveredSets(a, b, {});
    CoveredSets(b, a, {});
    forall y ensures Connected(a, x, y) <==> Connected(b, x, y) {
      if Connected(a, x, y) { CoveredConnected(a, b, x, y); }
      if Connected(b, x, y) { CoveredConnected(b, a, x, y); }
    }
  }

  lemma SameSmallest(a: seq<Edge>, b: seq<Edge>)
    requires Covers(a, b) && Covers(b, a)
    ensures Smallest(a) == Smallest(b)
  {
    CoveredSets(a, b, {});
    CoveredSets(b, a, {});
    forall x ensures IsSmallest(a, x) <==> IsSmallest(b, x) {
      SameClass(a, b, x);
    }
  }

  lemma {:induction false} SameListed(a: seq<Edge>, b: seq<Edge>, roots: seq<nat>)
    requires Covers(a, b) && Covers(b, a)
    ensures Listed(a, roots) == Listed(b, roots)
  {
    if roots != [] {
      var n := |roots| - 1;
      SameListed(a, b, roots[..n]);
      SameClass(a, b, roots[n]);
      CoveredSets(a, b, ClassOf(a, roots[n]));
      CoveredSets(b, a, ClassOf(a, roots[n]));
      assert TypesIn(a, ClassOf(a, roots[n])) == TypesIn(b, ClassOf(a, roots[n]));
    }
  }

  lemma SameEpisodes(a: seq<Edge>, b: seq<Edge>)
    requires Covers(a, b) && Covers(b, a)
    ensures EpisodesOf(a) == EpisodesOf(b)
  {
    SameSmallest(a, b);
    SameListed(a, b, SortedSet(Smallest(a), NatLe));
  }

  /** The episodes do not depend on the order, or the repetition, of the edges. */
  lemma EpisodesOrderFree(a: seq<Edge>, b: seq<Edge>)
    requires forall e :: e in a <==> e in b
    ensures EpisodesOf(a) == EpisodesOf(b)
  {
    forall e | e in a && Joins(e) ensures HasLike(a, e) && HasLike(b, e) {}
    SameEpisodes(a, b);
  }

  // ----- the strongest-edge table of build_edges -----

  datatype Key = Key(source: nat, kind: string, target: Option<nat>, edgeType: string)

  function KeyOf(e: Edge): Key { Key(e.source, e.targetKind, e.target, e.edgeType) }

  function Rank(s: Strength): nat { match s case Strong => 0 case Medium => 1 case Weak => 2 }

  /** `e` is the first of the strongest edges with its key. */
  ghost predicate IsBest(edges: seq<Edge>, e: Edge) {
    exists i :: 0 <= i < |edges| && edges[i] == e && BestAt(edges, i)
  }

  ghost predicate BestAt(edges: seq<Edge>, i: nat)
    requires i < |edges|
  {
    forall j :: 0 <= j < |edges| && KeyOf(edges[j]) == KeyOf(edges[i]) ==>
      Rank(edges[i].strength) <= Rank(edges[j].strength)
        && (j < i ==> Rank(edges[i].strength) < Rank(edges[j].strength))
  }

  ghost predicate IsBestTable(edges: seq<Edge>, best: map<Key, Edge>) {
    && (forall k :: k in best ==> KeyOf(best[k]) == k && IsBest(edges, best[k]))
    && (forall e :: e in edges ==> KeyOf(e) in best)
  }

  /** An old best edge stays best when the new edge has another key, or is not stronger. */
  lemma StaysBest(edges: seq<Edge>, d: Edge, e: Edge)
    requires IsBest(edges, d) && (KeyOf(d) != KeyOf(e) || Rank(d.strength) <= Rank(e.strength))
    ensures IsBest(edges + [e], d)
  {
    var i :| 0 <= i < |edges| && edges[i] == d && BestAt(edges, i);
    assert (edges + [e])[i] == d && BestAt(edges + [e], i);
  }

  /** The new edge is best when it is the first of its key, or stronger than the best so far. */
  lemma BecomesBest(edges: seq<Edge>, e: Edge)
    requires forall d :: d in edges && KeyOf(d) == KeyOf(e) ==> Rank(e.strength) < Rank(d.strength)
    ensures IsBest(edges + [e], e)
  {
    var more := edges + [e];
    assert forall j :: 0 <= j < |edges| ==> more[j] == edges[j] && edges[j] in edges;
    assert more[|edges|] == e && BestAt(more, |edges|);
  }

  lemma BestIsStrongest(edges: seq<Edge>, d: Edge, other: Edge)
    requires IsBest(edges, d) && other in edges && KeyOf(other) == KeyOf(d)
    ensures Rank(d.strength) <= Rank(other.strength)
  {
    var i :| 0 <= i < |edges| && edges[i] == d && BestAt(edges, i);
    var j :| 0 <= j < |edges| && edges[j] == other;
    assert KeyOf(edges[j]) == KeyOf(edges[i]);
  }

  lemma TableStep(edges: seq<Edge>, best: map<Key, Edge>, e: Edge, best': map<Key, Edge>)
    requires IsBestTable(edges, best)
    requires best' == if KeyOf(e) !in best || Rank(e.strength) < Rank(best[KeyOf(e)].strength) then best[KeyOf(e) := e]
      else best
    ensures IsBestTable(edges + [e], best')
  {
    forall k | k in best' ensures KeyOf(best'[k]) == k && IsBest(edges + [e], best'[k]) {
      if k == KeyOf(e) && best' != best {
        forall d | d in edges && KeyOf(d) == k ensures Rank(e.strength) < Rank(d.strength) {
          BestIsStrongest(edges, best[k], d);
        }
        BecomesBest(edges, e);
      } else {
        StaysBest(edges, best[k], e);
      }
    }
  }

  /** The order `sorted` puts the edges in. */
  predicate EdgeLe(a: Edge, b: Edge) {
    a.source < b.source
    || (a.source == b.source && a.edgeType != b.edgeType && StringLe(a.edgeType, b.edgeType))
    || (a.source == b.source && a.edgeType == b.edgeType && TargetOrZero(a) <= TargetOrZero(b))
  }

  lemma EdgeLeIsPreorder()
    ensures IsPreorder(EdgeLe)
  {
    forall a, b ensures EdgeLe(a, b) || EdgeLe(b, a) { StringLeTotal(a.edgeType, b.edgeType); }
    forall a, b, c | EdgeLe(a, b) && EdgeLe(b, c) ensures EdgeLe(a, c) {
      if a.source == b.source == c.source && StringLe(a.edgeType, b.edgeType) && StringLe(b.edgeType, c.edgeType) {
        StringLeTransitive(a.edgeType, b.edgeType, c.edgeType);
        StringLeTotal(a.edgeType, b.edgeType);
      }
    }
  }

  function TargetOrZero(e: Edge): nat { if e.target.Some? then e.target.value else 0 }

  lemma BestUnique(edges: seq<Edge>, d: Edge, e: Edge)
    requires IsBest(edges, d) && IsBest(edges, e) && KeyOf(d) == KeyOf(e)
    ensures d == e
  {
    var i :| 0 <= i < |edges| && edges[i] == d && BestAt(edges, i);
    var j :| 0 <= j < |edges| && edges[j] == e && BestAt(edges, j);
    assert KeyOf(edges[i]) == KeyOf(edges[j]);
  }

  lemma BestAreUnique(edges: seq<Edge>, best: map<Key, Edge>, order: seq<Key>, values: seq<Edge>)
    requires IsBestTable(edges, best) && Distinct(order) && forall k :: k in order <==> k in best
    requires |values| == |order| && forall i :: 0 <= i < |order| ==> values[i] == best[order[i]]
    ensures forall e :: e in values <==> IsBest(edges, e)
    ensures forall i, j :: 0 <= i < j < |values| ==> KeyOf(values[i]) != KeyOf(values[j])
  {
    forall e | IsBest(edges, e) ensures e in values {
      assert e in edges;
      BestUnique(edges, e, best[KeyOf(e)]);
      var i :| 0 <= i < |order| && order[i] == KeyOf(e);
      assert values[i] == e;
    }
  }

  /** Different keys throughout survive any reordering. */
  lemma DistinctKeys(a: seq<Edge>, b: seq<Edge>)
    requires multiset(a) == multiset(b)
    requires forall i, j :: 0 <= i < j < |a| ==> KeyOf(a[i]) != KeyOf(a[j])
    ensures forall i, j :: 0 <= i < j < |b| ==> KeyOf(b[i]) != KeyOf(b[j])
  {
    forall i, j | 0 <= i < j < |b| ensures KeyOf(b[i]) != KeyOf(b[j]) {
      SameElements(a, b);
      assert b[i] in a && b[j] in a;
      if KeyOf(b[i]) == KeyOf(b[j]) {
        TwiceCounts(b, i, j);
        OnceEach(a, b[i]);
      }
    }
  }

  lemma {:induction false} OnceEach(a: seq<Edge>, e: Edge)
    requires forall i, j :: 0 <= i < j < |a| ==> a[i] != a[j]
    ensures multiset(a)[e] <= 1
  {
    if a != [] {
      OnceEach(a[1..], e);
      assert a == [a[0]] + a[1..];
    }
  }

  /** The dictionary `best`, and the keys in the order they were first inserted. */
  method StrongestEdges(edges: seq<Edge>) returns (out: seq<Edge>)
    ensures forall e :: e in out <==> IsBest(edges, e)
    ensures forall i, j :: 0 <= i < j < |out| ==> KeyOf(out[i]) != KeyOf(out[j])
    ensures forall e :: e in edges ==> exists d :: d in out && KeyOf(d) == KeyOf(e)
    ensures SortedBy(out, EdgeLe)
  {
    var best: map<Key, Edge> := map[];
    var order: seq<Key> := [];
    for i := 0 to |edges|
      invariant IsBestTable(edges[..i], best)
      invariant Distinct(order) && forall k :: k in order <==> k in best
    {
      var edge := edges[i];
      assert edges[..i + 1] == edges[..i] + [edge];
      var key := KeyOf(edge);
      ghost var before := best;
      if key !in best || Rank(edge.strength) < Rank(best[key].strength) {
        if key !in best { order := order + [key]; }
        best := best[key := edge];
      }
      TableStep(edges[..i], before, edge, best);
    }
    assert edges[..|edges|] == edges;
    var values := seq(|order|, i requires 0 <= i < |order| && order[i] in best => best[order[i]]);
    out := Sort(values, EdgeLe);
    EdgeLeIsPreorder();
    SortSorted(values, EdgeLe);
    SameElements(out, values);
    BestAreUnique(edges, best, order, values);
    DistinctKeys(values, out);
  }

  /** Two edges say the same thing of the same pair. */
  predicate SameClaim(d: Edge, e: Edge) {
    d.source == e.source && d.targetKind == e.targetKind && d.target == e.target && d.edgeType == e.edgeType
  }

  /** The edge kept is strong if any with its claim is, and otherwise medium if any is; of equals it is the first. */
  lemma StrongestIsKept(edges: seq<Edge>, d: Edge)
    requires IsBest(edges, d)
    ensures (exists e :: e in edges && SameClaim(d, e) && e.strength == Strong) ==> d.strength == Strong
    ensures (exists e :: e in edges && SameClaim(d, e) && e.strength == Medium) ==> d.strength != Weak
    ensures exists i :: 0 <= i < |edges| && edges[i] == d
              && forall j :: 0 <= j < i && SameClaim(d, edges[j]) ==> edges[j].strength != d.strength
  {
    var i :| 0 <= i < |edges| && edges[i] == d && BestAt(edges, i);
    forall e | e in edges && SameClaim(d, e) ensures Rank(d.strength) <= Rank(e.strength) { BestIsStrongest(edges, d, e); }
    assert forall j :: 0 <= j < i && SameClaim(d, edges[j]) ==> KeyOf(edges[j]) == KeyOf(edges[i]);
  }

  /** The list goes by source, then by type, then by target, a missing one counting as 0. */
  lemma EdgeOrder(out: seq<Edge>, i: nat, j: nat)
    requires SortedBy(out, EdgeLe) && i < j < |out|
    ensures out[i].source <= out[j].source
    ensures out[i].source == out[j].source ==> StringLe(out[i].edgeType, out[j].edgeType)
    ensures out[i].source == out[j].source && out[i].edgeType == out[j].edgeType && out[i].target.Some? ==>
              out[i].target.value <= if out[j].target.Some? then out[j].target.value else 0
  {
    assert EdgeLe(out[i], out[j]);
    StringLeTotal(out[i].edgeType, out[j].edgeType);
  }

  /** Edges of one run agree on whether a target is a known pull request. */
  ghost predicate OneDataset(edges: seq<Edge>) {
    forall d, e :: d in edges && e in edges && KeyOf(d) == KeyOf(e) ==> d.inDataset == e.inDataset
  }

  /** Keeping only the strongest edge of each key loses no episode. */
  lemma StrongestEdgesSuffice(edges: seq<Edge>, out: seq<Edge>)
    requires OneDataset(edges)
    requires forall e :: e in out <==> IsBest(edges, e)
    requires forall e :: e in edges ==> exists d :: d in out && KeyOf(d) == KeyOf(e)
    ensures EpisodesOf(out) == EpisodesOf(edges)
  {
    forall e | e in edges && Joins(e)
      ensures HasLike(out, e)
    {
      var d :| d in out && KeyOf(d) == KeyOf(e);
      var i :| 0 <= i < |edges| && edges[i] == d && BestAt(edges, i);
      var j :| 0 <= j < |edges| && edges[j] == e;
      assert Rank(edges[i].strength) <= Rank(edges[j].strength);
      assert d in edges;
    }
    forall e | e in out && Joins(e) ensures HasLike(edges, e) {
      assert e in edges;
    }
    SameEpisodes(out, edges);
  }
}
