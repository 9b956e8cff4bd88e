/**
 Discovery and batching (src/impact/ingest/github_source.py): recursive date bisection under the search
 cap, and inclusive date slices.
 Days are day numbers. The server answers every query from one unchanging list of items.
 */
module Discovery {
  import opened Collections

  const SEARCH_PAGE_CAP: nat := 1000
  const PAGE: nat := 100

  datatype Item = Item(number: nat, day: int)

  // ----- the server -----

  /** The items whose day lies in `lo..hi`, in the server's order. */
  function Matching(items: seq<Item>, lo: int, hi: int): seq<Item> {
    if items == [] then []
    else
      var rest := Matching(items[1..], lo, hi);
      if lo <= items[0].day <= hi then [items[0]] + rest else rest
  }

  datatype SearchPage = SearchPage(issueCount: nat, nodes: seq<Item>, hasNext: bool)

  /** The page that starts after the first `from` results. */
  function Search(items: seq<Item>, lo: int, hi: int, from: nat): SearchPage {
    var all := Matching(items, lo, hi);
    SearchPage(|all|, if from <= |all| then Prefix(all[from..], PAGE) else [], from + PAGE < |all|)
  }

  // ----- _search_slice -----

  /** Day by day, at most the cap: what bisection can reach. */
  function Reachable(items: seq<Item>, lo: int, hi: int): multiset<Item>
    decreases hi - lo
  {
    if lo > hi then multiset{}
    else Reachable(items, lo, hi - 1) + multiset(Prefix(Matching(items, hi, hi), SEARCH_PAGE_CAP))
  }

  /** The paging loop: pages are read until the server has no more or the cap is reached. */
  method ReadPages(items: seq<Item>, lo: int, hi: int, first: SearchPage) returns (nodes: seq<Item>)
    requires first == Search(items, lo, hi, 0)
    ensures nodes == Prefix(Matching(items, lo, hi), SEARCH_PAGE_CAP)
  {
    ghost var all := Matching(items, lo, hi);
    nodes := first.nodes;
    var page, hasNext := 1, first.hasNext;
    while hasNext && page * PAGE < SEARCH_PAGE_CAP
      invariant 1 <= page <= 10
      invariant nodes == Prefix(all, page * PAGE) && hasNext == (page * PAGE < |all|)
      decreases SEARCH_PAGE_CAP - page * PAGE
    {
      var search := Search(items, lo, hi, page * PAGE);
      NextPage(all, page * PAGE);
      nodes := nodes + search.nodes;
      hasNext := search.hasNext;
      page := page + 1;
    }
  }

  lemma NextPage(all: seq<Item>, from: nat)
    requires from < |all|
    ensures Prefix(all, from) + Prefix(all[from..], PAGE) == Prefix(all, from + PAGE)
  {
  }

  method SearchSlice(items: seq<Item>, lo: int, hi: int) returns (nodes: seq<Item>)
    ensures multiset(nodes) == Reachable(items, lo, hi)
    decreases hi - lo
  {
    var search := Search(items, lo, hi, 0);
    var total := search.issueCount;
    if total > SEARCH_PAGE_CAP && lo < hi {
      var mid := lo + (hi - lo) / 2;
      var left := SearchSlice(items, lo, mid);
      var right := SearchSlice(items, mid + 1, hi);
      Joined(items, lo, mid, hi, left, right);
      return left + right;
    }
    nodes := ReadPages(items, lo, hi, search);
    LeafSlice(items, lo, hi);
  }

  lemma Joined(items: seq<Item>, lo: int, mid: int, hi: int, left: seq<Item>, right: seq<Item>)
    requires lo <= mid <= hi
    requires multiset(left) == Reachable(items, lo, mid) && multiset(right) == Reachable(items, mid + 1, hi)
    ensures multiset(left + right) == Reachable(items, lo, hi)
  {
    ReachableSplit(items, lo, mid, hi);
  }

  lemma LeafSlice(items: seq<Item>, lo: int, hi: int)
    requires |Matching(items, lo, hi)| <= SEARCH_PAGE_CAP || lo >= hi
    ensures multiset(Prefix(Matching(items, lo, hi), SEARCH_PAGE_CAP)) == Reachable(items, lo, hi)
  {
    if lo > hi {
      NothingBackwards(items, lo, hi);
    } else if lo == hi {
      assert Reachable(items, lo, hi - 1) == multiset{};
    } else {
      SmallSliceIsReachable(items, lo, hi);
    }
  }

  lemma {:induction false} NothingBackwards(items: seq<Item>, lo: int, hi: int)
    requires lo > hi
    ensures Matching(items, lo, hi) == []
  {
    if items != [] { NothingBackwards(items[1..], lo, hi); }
  }

  lemma DayAtATime(items: seq<Item>, lo: int, hi: int)
    requires lo <= hi
    ensures Reachable(items, lo, hi)
      == Reachable(items, lo, hi - 1) + multiset(Prefix(Matching(items, hi, hi), SEARCH_PAGE_CAP))
  {
  }

  lemma {:induction false} ReachableSplit(items: seq<Item>, lo: int, mid: int, hi: int)
    requires lo <= mid + 1 && mid <= hi
    ensures Reachable(items, lo, hi) == Reachable(items, lo, mid) + Reachable(items, mid + 1, hi)
    decreases hi - mid
  {
    if mid < hi {
      ReachableSplit(items, lo, mid, hi - 1);
      DayAtATime(items, lo, hi);
      DayAtATime(items, mid + 1, hi);
    } else {
      assert Reachable(items, mid + 1, hi) == multiset{};
    }
  }

  lemma {:induction false} MatchingSplit(items: seq<Item>, lo: int, hi: int)
    requires lo <= hi
    ensures multiset(Matching(items, lo, hi))
      == multiset(Matching(items, lo, hi - 1)) + multiset(Matching(items, hi, hi))
    ensures |Matching(items, lo, hi)| == |Matching(items, lo, hi - 1)| + |Matching(items, hi, hi)|
  {
    if items != [] { MatchingSplit(items[1..], lo, hi); }
  }

  /** A slice within the cap is read whole, and so is each of its days. */
  lemma {:induction false} SmallSliceIsReachable(items: seq<Item>, lo: int, hi: int)
    requires |Matching(items, lo, hi)| <= SEARCH_PAGE_CAP
    ensures Reachable(items, lo, hi) == multiset(Matching(items, lo, hi))
    decreases hi - lo
  {
    if lo > hi {
      NothingBackwards(items, lo, hi);
    } else {
      MatchingSplit(items, lo, hi);
      SmallSliceIsReachable(items, lo, hi - 1);
    }
  }

  ghost predicate EveryDayFits(items: seq<Item>, lo: int, hi: int) {
    forall d :: lo <= d <= hi ==> |Matching(items, d, d)| <= SEARCH_PAGE_CAP
  }

  lemma EveryDayFitsSplit(items: seq<Item>, lo: int, hi: int)
    requires lo <= hi
    ensures EveryDayFits(items, lo, hi) <==>
              EveryDayFits(items, lo, hi - 1) && |Matching(items, hi, hi)| <= SEARCH_PAGE_CAP
  {
  }

  lemma {:induction false} ReachableSize(items: seq<Item>, lo: int, hi: int)
    ensures Reachable(items, lo, hi) <= multiset(Matching(items, lo, hi))
    ensures Reachable(items, lo, hi) == multiset(Matching(items, lo, hi)) <==> EveryDayFits(items, lo, hi)
    decreases hi - lo
  {
    if lo > hi {
      NothingBackwards(items, lo, hi);
    } else {
      ReachableSize(items, lo, hi - 1);
      MatchingSplit(items, lo, hi);
      EveryDayFitsSplit(items, lo, hi);
      var day := Matching(items, hi, hi);
      PrefixPart(day, SEARCH_PAGE_CAP);
      TwoParts(Reachable(items, lo, hi - 1), multiset(Matching(items, lo, hi - 1)),
        multiset(Prefix(day, SEARCH_PAGE_CAP)), multiset(day));
    }
  }

  lemma TwoParts<T>(a: multiset<T>, b: multiset<T>, c: multiset<T>, d: multiset<T>)
    requires a <= b && c <= d
    ensures a + c <= b + d && (a + c == b + d <==> a == b && c == d)
  {
    if a + c == b + d {
      forall x ensures a[x] == b[x] && c[x] == d[x] {
        assert (a + c)[x] == (b + d)[x];
      }
      assert a == b && c == d;
    }
  }

  lemma PrefixPart<T>(s: seq<T>, n: nat)
    ensures multiset(Prefix(s, n)) <= multiset(s)
    ensures multiset(Prefix(s, n)) == multiset(s) <==> |s| <= n
  {
    if n < |s| {
      assert s == s[..n] + s[n..];
      assert |multiset(s[..n])| < |multiset(s)|;
    }
  }

  /**
   Bisection returns every item of the window exactly once if and only if no single day of it holds more
   than the cap. Otherwise what is missing is the overflow of those days, and nothing else.
   */
  lemma BisectionExact(items: seq<Item>, lo: int, hi: int)
    ensures Reachable(items, lo, hi) == multiset(Matching(items, lo, hi)) <==> EveryDayFits(items, lo, hi)
    ensures Reachable(items, lo, hi) <= multiset(Matching(items, lo, hi))
  {
    ReachableSize(items, lo, hi);
  }

  // ----- _date_slices -----

  /** The slices follow one another without gap or overlap, from `start` to `end`. */
  ghost predicate Tiles(slices: seq<(int, int)>, start: int, end: int, days: nat) {
    && (slices == [] <==> start > end)
    && (forall i :: 0 <= i < |slices| ==> slices[i].0 <= slices[i].1 < slices[i].0 + days)
    && (forall i ::
      0 <= i < |slices| - 1 ==> slices[i].1 + 1 == slices[i + 1].0 && slices[i].1 - slices[i].0 + 1 == days)
    && (slices != [] ==> slices[0].0 == start && slices[|slices| - 1].1 == end)
  }

  /** A slice length below one day would never advance the cursor. */
  method DateSlices(start: int, end: int, days: nat) returns (out: seq<(int, int)>)
    requires days >= 1
    ensures Tiles(out, start, end, days)
  {
    out := [];
    var cursor := start;
    while cursor <= end
      invariant out == [] <==> cursor == start
      invariant out != [] ==> out[0].0 == start && cursor == out[|out| - 1].1 + 1 && out[|out| - 1].1 <= end
      invariant forall i :: 0 <= i < |out| ==> out[i].0 <= out[i].1 < out[i].0 + days
      invariant forall i :: 0 <= i < |out| - 1 ==> out[i].1 + 1 == out[i + 1].0
      invariant forall i :: 0 <= i < |out| ==> out[i].1 == end || out[i].1 - out[i].0 + 1 == days
      decreases end - cursor
    {
      var stop := if cursor + days - 1 < end then cursor + days - 1 else end;
      out := out + [(cursor, stop)];
      cursor := stop + 1;
    }
    if out != [] {
      forall i | 0 <= i < |out| - 1 ensures out[i].1 - out[i].0 + 1 == days {
        StopsIncrease(out, i, |out| - 1);
      }
    }
  }

  lemma {:induction false} StopsIncrease(slices: seq<(int, int)>, i: nat, j: nat)
    requires i < j < |slices|
    requires forall k :: 0 <= k < |slices| ==> slices[k].0 <= slices[k].1
    requires forall k :: 0 <= k < |slices| - 1 ==> slices[k].1 + 1 == slices[k + 1].0
    ensures slices[i].1 < slices[j].0 <= slices[j].1
    decreases j
  {
    if i + 1 < j { StopsIncrease(slices, i, j - 1); }
    assert slices[j - 1].1 + 1 == slices[j - 1 + 1].0;
  }

  lemma TileStarts(slices: seq<(int, int)>, start: int, end: int, days: nat, n: nat)
    requires Tiles(slices, start, end, days) && n < |slices|
    ensures slices[n].0 == (if n == 0 then start else slices[n - 1].1 + 1) && slices[n].0 <= slices[n].1
  {
    if n > 0 { assert slices[n - 1].1 + 1 == slices[n - 1 + 1].0; }
  }

  /** What the first slices hold together, for any way of counting what a slice holds. */
  function SumOf(reach: (int, int) -> multiset<Item>, slices: seq<(int, int)>): multiset<Item> {
    if slices == [] then multiset{}
    else
      var n := |slices| - 1;
      SumOf(reach, slices[..n]) + reach(slices[n].0, slices[n].1)
  }

  lemma SumNext(reach: (int, int) -> multiset<Item>, slices: seq<(int, int)>, n: nat)
    requires n < |slices|
    ensures SumOf(reach, slices[..n + 1]) == SumOf(reach, slices[..n]) + reach(slices[n].0, slices[n].1)
  {
    assert slices[..n + 1][..n] == slices[..n];
  }

  /** What two adjoining windows hold is what they hold together. */
  ghost predicate Adds(reach: (int, int) -> multiset<Item>) {
    forall lo, mid, hi :: lo <= mid + 1 && mid <= hi ==> reach(lo, hi) == reach(lo, mid) + reach(mid + 1, hi)
  }

  lemma {:induction false} TilesSum(reach: (int, int) -> multiset<Item>, slices: seq<(int, int)>, start: int, end: int,
      days: nat, n: nat)
    requires Tiles(slices, start, end, days) && 0 < n <= |slices| && Adds(reach)
    ensures reach(start, slices[n - 1].1) == SumOf(reach, slices[..n])
    ensures start <= slices[n - 1].1
  {
    TileStarts(slices, start, end, days, n - 1);
    SumNext(reach, slices, n - 1);
    if n > 1 {
      TilesSum(reach, slices, start, end, days, n - 1);
      var lo, mid, hi := start, slices[n - 2].1, slices[n - 1].1;
      assert reach(lo, hi) == reach(lo, mid) + reach(mid + 1, hi);
    }
  }

  function Reaching(items: seq<Item>): (int, int) -> multiset<Item> {
    (lo, hi) => Reachable(items, lo, hi)
  }

  lemma TilesReach(items: seq<Item>, slices: seq<(int, int)>, start: int, end: int, days: nat)
    requires Tiles(slices, start, end, days)
    ensures Reachable(items, start, end) == SumOf(Reaching(items), slices)
  {
    var reach := Reaching(items);
    if slices != [] {
      forall lo, mid, hi | lo <= mid + 1 && mid <= hi ensures reach(lo, hi) == reach(lo, mid) + reach(mid + 1, hi) {
        ReachableSplit(items, lo, mid, hi);
      }
      TilesSum(reach, slices, start, end, days, |slices|);
      assert slices[..|slices|] == slices;
    }
  }

  // ----- discover: slices already completed are read back -----

  type Slice = (int, int)

  /** The shard files of a cohort, and the checkpoint's `completed_slices`. */
  datatype Saved = Saved(raw: map<Slice, seq<Item>>, done: set<Slice>)

  predicate Completed(saved: Saved, s: Slice) { s in saved.done && s in saved.raw }

  /** What a slice contributes: its shard if it is completed, otherwise what searching it now can reach. */
  ghost function Contribution(saved: Saved, items: seq<Item>): (int, int) -> multiset<Item> {
    (lo, hi) => if Completed(saved, (lo, hi)) then multiset(saved.raw[(lo, hi)]) else Reachable(items, lo, hi)
  }

  /** The shard is written first, and the checkpoint saved after it. */
  function Written(saved: Saved, s: Slice, found: seq<Item>): Saved { saved.(raw := saved.raw[s := found]) }

  function Marked(saved: Saved, s: Slice): Saved { saved.(done := saved.done + {s}) }

  /** The first slices are completed, each with its contribution, and the other shards are as before. */
  ghost predicate Progressed(before: Saved, items: seq<Item>, slices: seq<Slice>, after: Saved) {
    && (forall s ::
      s in slices ==> Completed(after, s) && multiset(after.raw[s]) == Contribution(before, items)(s.0, s.1))
    && (forall s :: s !in slices ==> (Completed(after, s) <==> Completed(before, s)))
    && (forall s :: Completed(before, s) ==> Completed(after, s) && after.raw[s] == before.raw[s])
  }

  /** One slice: read back if it is completed, otherwise searched, written and marked. */
  ghost predicate SliceStep(items: seq<Item>, mid: Saved, s: Slice, found: seq<Item>, after: Saved) {
    if Completed(mid, s) then found == mid.raw[s] && after == mid
    else multiset(found) == Reachable(items, s.0, s.1) && after == Marked(Written(mid, s, found), s)
  }

  lemma SliceProgress(before: Saved, items: seq<Item>, slices: seq<Slice>, i: nat, mid: Saved, found: seq<Item>,
      after: Saved)
    requires i < |slices| && slices[i] !in slices[..i] && Progressed(before, items, slices[..i], mid)
    requires SliceStep(items, mid, slices[i], found, after)
    ensures multiset(found) == Contribution(before, items)(slices[i].0, slices[i].1)
    ensures Progressed(before, items, slices[..i + 1], after)
  {
    var s, prior, more := slices[i], slices[..i], slices[..i + 1];
    assert Completed(mid, s) <==> Completed(before, s);
    assert more == prior + [s];
    forall x | x in more ensures Completed(after, x)
      && multiset(after.raw[x]) == Contribution(before, items)(x.0, x.1) {
      if x != s { assert x in prior; }
    }
    forall x | x !in more ensures Completed(after, x) <==> Completed(before, x) { assert x !in prior && x != s; }
  }

  method DiscoverSlice(items: seq<Item>, mid: Saved, s: Slice) returns (found: seq<Item>, after: Saved)
    ensures SliceStep(items, mid, s, found, after)
  {
    after := mid;
    if s in mid.done && s in mid.raw {
      found := mid.raw[s];
    } else {
      found := SearchSlice(items, s.0, s.1);
      after := Marked(Written(mid, s, found), s);
    }
  }

  /** Discovery of one cohort: the slices of the window, each read back or searched in turn. */
  method DiscoverCohort(items: seq<Item>, start: int, end: int, days: nat, before: Saved)
      returns (nodes: seq<Item>, after: Saved, ghost slices: seq<Slice>)
    requires days >= 1
    ensures Tiles(slices, start, end, days)
    ensures multiset(nodes) == SumOf(Contribution(before, items), slices) && Progressed(before, items, slices, after)
  {
    var todo := DateSlices(start, end, days);
    nodes, after, slices := [], before, todo;
    for i := 0 to |todo|
      invariant multiset(nodes) == SumOf(Contribution(before, items), todo[..i])
      invariant Progressed(before, items, todo[..i], after)
    {
      ghost var mid := after;
      var found;
      found, after := DiscoverSlice(items, after, todo[i]);
      FreshSlice(todo, start, end, days, i);
      SliceProgress(before, items, todo, i, mid, found, after);
      SumNext(Contribution(before, items), todo, i);
      nodes := nodes + found;
    }
    assert todo[..|todo|] == todo;
  }

  lemma FreshSlice(slices: seq<Slice>, start: int, end: int, days: nat, i: nat)
    requires Tiles(slices, start, end, days) && i < |slices|
    ensures slices[i] !in slices[..i]
  {
    forall j | 0 <= j < i ensures slices[j] != slices[i] { StopsIncrease(slices, j, i); }
  }

  /** Every completed shard is what searching its slice reaches. */
  ghost predicate Honest(saved: Saved, items: seq<Item>) {
    forall s :: Completed(saved, s) ==> multiset(saved.raw[s]) == Reachable(items, s.0, s.1)
  }

  /** Interrupted at any point, even between writing a shard and saving the checkpoint, a run leaves honest files. */
  lemma InterruptionsAreHonest(saved: Saved, items: seq<Item>, s: Slice, found: seq<Item>)
    requires Honest(saved, items) && multiset(found) == Reachable(items, s.0, s.1)
    ensures Honest(Written(saved, s, found), items) && Honest(Marked(Written(saved, s, found), s), items)
  {
  }

  lemma {:induction false} SumOfSame(f: (int, int) -> multiset<Item>, g: (int, int) -> multiset<Item>,
      slices: seq<Slice>)
    requires forall s :: s in slices ==> f(s.0, s.1) == g(s.0, s.1)
    ensures SumOf(f, slices) == SumOf(g, slices)
  {
    if slices != [] {
      var n := |slices| - 1;
      assert slices[n] in slices;
      SumOfSame(f, g, slices[..n]);
    }
  }

  /**
   Resumed from honest files, discovery returns the whole window exactly once under the same condition as
   an uninterrupted search.
   */
  lemma ResumedDiscoveryExact(items: seq<Item>, slices: seq<Slice>, start: int, end: int, days: nat, before: Saved)
    requires Tiles(slices, start, end, days) && Honest(before, items)
    ensures SumOf(Contribution(before, items), slices) == Reachable(items, start, end)
    ensures SumOf(Contribution(before, items), slices) == multiset(Matching(items, start, end))
      <==> EveryDayFits(items, start, end)
  {
    SumOfSame(Contribution(before, items), Reaching(items), slices);
    TilesReach(items, slices, start, end, days);
    BisectionExact(items, start, end);
  }

  /** A finished window is never searched again: whatever the server holds by then, the nodes are those of the first run. */
  lemma FinishedWindowIsFrozen(items: seq<Item>, later: seq<Item>, slices: seq<Slice>, before: Saved, after: Saved)
    requires Progressed(before, items, slices, after)
    ensures SumOf(Contribution(after, later), slices) == SumOf(Contribution(before, items), slices)
  {
    SumOfSame(Contribution(after, later), Contribution(before, items), slices);
  }
}
