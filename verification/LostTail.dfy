/**
 How much of the ledger a crash can forget (src/impact/ingest/github_client.py, `_record_page` and
 `flush_ledger`): a bound, runs that attain it, and when nothing is ever forgotten.
 */
module LostTail {
  import opened Collections
  import opened Ledger
  import opened Client
  import opened Decimal

  /** Recorded requests whose latest row is not what the disk ledger says. */
  ghost function Missing(s: State): set<string> {
    set row | row in s.rows && Lookup(s.rows, row.hash) != Lookup(s.disk, row.hash) :: row.hash
  }

  /** The state just after a successful request's flush check, the moment `graphql` returns. */
  ghost predicate JustChecked(p: Params, t: State) {
    exists s, w :: Reachable(p, s) && Enabled(p, s, FlushCheck(w)) && t == Apply(p, s, FlushCheck(w))
  }

  lemma JustCheckedReachable(p: Params, t: State)
    requires JustChecked(p, t)
    ensures Reachable(p, t)
  {
    var s, w :| Reachable(p, s) && Enabled(p, s, FlushCheck(w)) && t == Apply(p, s, FlushCheck(w));
    StepReachable(p, s, FlushCheck(w));
  }

  lemma MissingIsPending(p: Params, s: State)
    requires Bodies(p, s) && Books(p, s) && p.workers > 0
    ensures |Missing(s)| <= s.pending + p.workers - 1
  {
    assert Missing(s) <= s.dirty;
    SubsetSize(Missing(s), s.dirty);
  }

  /**
   Just after a successful request's flush check, a crash would forget at most LEDGER_FLUSH_EVERY - 1
   recorded requests plus one for every other worker, and nothing about any other request.
   */
  lemma LostTailIsBounded(p: Params, t: State)
    requires JustChecked(p, t) && p.flushEvery > 0 && p.workers > 0
    ensures |Missing(t)| <= p.flushEvery - 1 + (p.workers - 1)
    ensures forall h :: h != "" && h !in Missing(t) ==>
              Lookup(Restarted(p, t).rows, h) == Lookup(t.rows, h)
  {
    CheckedPending(p, t);
    JustCheckedReachable(p, t);
    ReachableInvariant(p, t);
    MissingIsPending(p, t);
    RestartKeepsTheRest(p, t);
  }

  lemma CheckedPending(p: Params, t: State)
    requires JustChecked(p, t) && p.flushEvery > 0
    ensures t.pending < p.flushEvery
  {
  }

  lemma RestartKeepsTheRest(p: Params, t: State)
    requires Books(p, t)
    ensures forall h :: h != "" && h !in Missing(t) ==> Lookup(Restarted(p, t).rows, h) == Lookup(t.rows, h)
  {
    forall h | h != "" && h !in Missing(t) ensures Lookup(t.disk, h) == Lookup(t.rows, h) {
      if Lookup(t.rows, h).Some? { LookupIsARow(t.rows, h); }
    }
  }

  // ----- runs that lose as much as possible -----

  /** The row and reply of the n-th page of such a run. */
  function Page(n: nat): Row { Row(Show(n), "", Ok) }
  function PageReply(n: nat): Reply { Body(Show(n), "") }

  function Pages(n: nat): (r: seq<Row>)
    ensures |r| == n && forall i :: 0 <= i < n ==> r[i] == Page(i)
  {
    if n == 0 then [] else Pages(n - 1) + [Page(n - 1)]
  }

  function Names(m: nat, n: nat): set<string>
    requires m <= n
  {
    if m == n then {} else Names(m, n - 1) + {Show(n - 1)}
  }

  lemma {:induction false} InNames(m: nat, n: nat, h: string)
    requires m <= n
    ensures h in Names(m, n) <==> exists i :: m <= i < n && Pages(n)[i].hash == h
  {
    if m < n {
      InNames(m, n - 1, h);
      assert Pages(n)[n - 1].hash == Show(n - 1);
      if h in Names(m, n - 1) {
        var i :| m <= i < n - 1 && Pages(n - 1)[i].hash == h;
        assert Pages(n)[i].hash == h;
      }
      if i :| m <= i < n && Pages(n)[i].hash == h {
        assert i < n - 1 ==> Pages(n - 1)[i].hash == h;
      }
    }
  }

  lemma {:induction false} NamesSize(m: nat, n: nat)
    requires m <= n
    ensures |Names(m, n)| == n - m
  {
    if m < n {
      NamesSize(m, n - 1);
      InNames(m, n - 1, Show(n - 1));
      if Show(n - 1) in Names(m, n - 1) {
        var i :| m <= i < n - 1 && Pages(n - 1)[i].hash == Show(n - 1);
        ShowInjective(i, n - 1);
      }
    }
  }

  lemma PageAt(n: nat, i: nat)
    ensures IndexOf(Pages(n), Show(i)) == if i < n then Some(i) else None
  {
    var r := IndexOf(Pages(n), Show(i));
    if r.Some? { ShowInjective(r.value, i); }
    if i < n { assert Pages(n)[i].hash == Show(i); }
  }

  lemma PageIsNew(n: nat)
    ensures Recorded(Pages(n), Page(n)) == Pages(n + 1)
  {
    PageAt(n, n);
  }

  /** When the first `m` pages are on disk, the later ones are missing. */
  lemma PagesMissing(s: State, m: nat, n: nat)
    requires m <= n && s.rows == Pages(n) && s.disk == Pages(m)
    ensures Missing(s) == Names(m, n) && |Missing(s)| == n - m
  {
    NamesSize(m, n);
    forall i: nat | i < n ensures Lookup(s.rows, Show(i)) != Lookup(s.disk, Show(i)) <==> m <= i {
      PageAt(n, i);
      PageAt(m, i);
    }
    forall h ensures h in Missing(s) <==> h in Names(m, n) {
      InNames(m, n, h);
      MissingPage(s, n, h);
    }
  }

  lemma MissingPage(s: State, n: nat, h: string)
    requires s.rows == Pages(n)
    ensures h in Missing(s) <==> exists i ::
      0 <= i < n && Pages(n)[i].hash == h && Lookup(s.rows, h) != Lookup(s.disk, h)
  {
    if h in Missing(s) {
      var row :| row in s.rows && row.hash == h;
      var i :| 0 <= i < n && Pages(n)[i] == row;
    }
    if i :| 0 <= i < n && Pages(n)[i].hash == h && Lookup(s.rows, h) != Lookup(s.disk, h) {
      assert s.rows[i] in s.rows;
    }
  }

  /** An idle worker fetches, stores and counts a page nobody has recorded, up to its second lock. */
  lemma FetchPage(p: Params, s: State, w: nat, n: nat) returns (t: State)
    requires !p.offline && Reachable(p, s) && w < |s.workers| && s.workers[w] == Idle
    requires IndexOf(s.rows, Show(n)).None?
    ensures Reachable(p, t)
    ensures t.workers == s.workers[w := Recording(Page(n), PageReply(n))]
    ensures t.rows == s.rows && t.disk == s.disk && t.pending == s.pending + 1
  {
    var stored := StorePage(p, s, w, n);
    StepReachable(p, stored, Bump(w));
    t := Apply(p, stored, Bump(w));
  }

  lemma StorePage(p: Params, s: State, w: nat, n: nat) returns (t: State)
    requires !p.offline && Reachable(p, s) && w < |s.workers| && s.workers[w] == Idle
    requires IndexOf(s.rows, Show(n)).None?
    ensures Reachable(p, t)
    ensures t.workers == s.workers[w := Bumping(Page(n), PageReply(n))]
    ensures t.rows == s.rows && t.disk == s.disk && t.pending == s.pending
  {
    var begin := Begin(w, "", Show(n), false);
    StepReachable(p, s, begin);
    var s1 := Apply(p, s, begin);
    assert s1.workers == s.workers[w := Fetching("", Show(n))];
    StepReachable(p, s1, ServerOk(w, ""));
    var s2 := Apply(p, s1, ServerOk(w, ""));
    assert s2.workers == s.workers[w := Fetched("", Show(n), "")];
    StepReachable(p, s2, OpenFile(w));
    var s3 := Apply(p, s2, OpenFile(w));
    assert s3.workers == s.workers[w := Storing("", Show(n), "")];
    StepReachable(p, s3, CloseFile(w, true));
    t := Apply(p, s3, CloseFile(w, true));
  }

  lemma RecordNext(p: Params, s: State, w: nat, n: nat) returns (t: State)
    requires Reachable(p, s) && w < |s.workers| && s.workers[w] == Recording(Page(n), PageReply(n))
      && s.rows == Pages(n)
    ensures Reachable(p, t) && t.workers == s.workers[w := Checking(Page(n), PageReply(n))]
    ensures t.rows == Pages(n + 1) && t.disk == s.disk && t.pending == s.pending
  {
    StepReachable(p, s, Record(w));
    PageIsNew(n);
    t := Apply(p, s, Record(w));
  }

  predicate HasReturned(s: State, i: nat) { (Show(i), "") in s.returned }

  /** One of these pages has been returned. */
  ghost predicate ReturnedOne(s: State, m: nat, n: nat) {
    exists i :: m <= i < n && HasReturned(s, i)
  }

  lemma CheckPage(p: Params, s: State, w: nat, n: nat) returns (t: State)
    requires Reachable(p, s) && w < |s.workers| && s.workers[w] == Checking(Page(n), PageReply(n))
    ensures JustChecked(p, t) && Reachable(p, t) && t.workers == s.workers[w := Idle] && t.rows == s.rows
    ensures t.disk == (if s.pending < p.flushEvery then s.disk else s.rows)
    ensures t.pending == (if s.pending < p.flushEvery then s.pending else 0)
    ensures HasReturned(t, n)
  {
    StepReachable(p, s, FlushCheck(w));
    t := Apply(p, s, FlushCheck(w));
  }

  /** How many pages worker 0 fetches until a flush is due, while every other worker stands between its locks. */
  function Padding(p: Params): nat {
    if p.flushEvery >= p.workers > 0 then p.flushEvery - (p.workers - 1) else 1
  }

  /**
   Worker 0 is idle. Of the others, each with its own page, the first `j` have recorded it and those up to
   `k` are about to. The ledger holds the first `rows` pages, of which the first `disk` are flushed.
   */
  ghost predicate Lined(p: Params, s: State, j: nat, k: nat, rows: nat, disk: nat) {
    && |s.workers| == p.workers && j <= k < p.workers && s.workers[0] == Idle
    && (forall i {:trigger s.workers[i]} ::
      1 <= i <= j ==> s.workers[i] == Checking(Page(Padding(p) + i - 1), PageReply(Padding(p) + i - 1)))
    && (forall i {:trigger s.workers[i]} ::
      j < i <= k ==> s.workers[i] == Recording(Page(Padding(p) + i - 1), PageReply(Padding(p) + i - 1)))
    && (forall i {:trigger s.workers[i]} :: k < i < p.workers ==> s.workers[i] == Idle)
    && s.rows == Pages(rows) && s.disk == Pages(disk)
  }

  lemma {:induction false} LineUp(p: Params, k: nat) returns (s: State)
    requires !p.offline && k < p.workers
    ensures Reachable(p, s) && Lined(p, s, 0, k, 0, 0) && s.pending == k
  {
    if k == 0 {
      s := State(map[], {}, [], [], 0, seq(p.workers, _ => Idle), {}, {}, {}, {}, {}, 0, 0);
      InitReachable(p, s);
    } else {
      var was := LineUp(p, k - 1);
      s := FetchPage(p, was, k, Padding(p) + k - 1);
    }
  }

  /** Worker 0 records one more page and comes to its flush check. */
  lemma RecordPage(p: Params, s: State, rows: nat) returns (t: State)
    requires !p.offline && Reachable(p, s) && |s.workers| > 0 && s.workers[0] == Idle && s.rows == Pages(rows)
    ensures Reachable(p, t) && t.workers == s.workers[0 := Checking(Page(rows), PageReply(rows))]
    ensures t.rows == Pages(rows + 1) && t.disk == s.disk && t.pending == s.pending + 1
  {
    PageAt(rows, rows);
    var fetched := FetchPage(p, s, 0, rows);
    t := RecordNext(p, fetched, 0, rows);
  }

  /** Until a flush is due, worker 0 fetches pages and nothing is flushed. */
  lemma {:induction false} Pad(p: Params, m: nat) returns (s: State)
    requires !p.offline && p.workers > 0 && m < Padding(p)
    ensures Reachable(p, s) && Lined(p, s, 0, p.workers - 1, m, 0) && s.pending == p.workers - 1 + m
  {
    if m == 0 {
      s := LineUp(p, p.workers - 1);
    } else {
      var was := Pad(p, m - 1);
      s := FetchOne(p, was, m - 1);
      JustCheckedReachable(p, s);
    }
  }

  /** The check of its last page flushes, and resets the counter, while the others have counted but not recorded. */
  lemma FlushBetweenLocks(p: Params) returns (s: State)
    requires !p.offline && p.workers > 0 && p.flushEvery > 0
    ensures JustChecked(p, s) && Lined(p, s, 0, p.workers - 1, Padding(p), Padding(p)) && s.pending == 0
  {
    var m := Padding(p) - 1;
    var was := Pad(p, m);
    var t := RecordPage(p, was, m);
    s := CheckPage(p, t, 0, m);
  }

  lemma LineMoves(p: Params, was: State, s: State, j: nat, rows: nat, disk: nat)
    requires 0 < j < p.workers && Lined(p, was, j - 1, p.workers - 1, rows, disk)
    requires s.workers == was.workers[j := Checking(Page(Padding(p) + j - 1), PageReply(Padding(p) + j - 1))]
    requires s.rows == Pages(rows + 1) && s.disk == was.disk
    ensures Lined(p, s, j, p.workers - 1, rows + 1, disk)
  {
  }

  /** The next of the others records its page. */
  lemma RecordOne(p: Params, was: State, j: nat, n: nat) returns (s: State)
    requires Reachable(p, was) && 0 < j < p.workers && n == Padding(p) + j - 1
    requires Lined(p, was, j - 1, p.workers - 1, n, Padding(p))
    ensures Reachable(p, s) && Lined(p, s, j, p.workers - 1, n + 1, Padding(p)) && s.pending == was.pending
  {
    assert was.workers[j] == Recording(Page(n), PageReply(n));
    s := RecordNext(p, was, j, n);
    LineMoves(p, was, s, j, n, Padding(p));
  }

  lemma {:induction false} RecordLine(p: Params, j: nat) returns (s: State)
    requires !p.offline && j < p.workers && p.flushEvery > 0
    ensures Reachable(p, s) && Lined(p, s, j, p.workers - 1, Padding(p) + j, Padding(p)) && s.pending == 0
    ensures j == 0 ==> JustChecked(p, s)
  {
    if j == 0 {
      s := FlushBetweenLocks(p);
      JustCheckedReachable(p, s);
    } else {
      var was := RecordLine(p, j - 1);
      s := RecordOne(p, was, j, Padding(p) + j - 1);
    }
  }

  /** Of the pages recorded, those after the first `disk` are not flushed, and one of them has been returned. */
  ghost predicate Unflushed(s: State, disk: nat, rows: nat) {
    s.rows == Pages(rows) && s.disk == Pages(disk) && (disk < rows ==> ReturnedOne(s, disk, rows))
  }

  /** With every page of the line recorded, one of its workers returns, unless worker 0 is alone. */
  lemma ReturnFirst(p: Params) returns (s: State)
    requires !p.offline && p.workers > 0 && p.flushEvery > 0
    ensures JustChecked(p, s) && |s.workers| == p.workers && s.workers[0] == Idle && s.pending == 0
    ensures Unflushed(s, Padding(p), Padding(p) + p.workers - 1)
  {
    var was := RecordLine(p, p.workers - 1);
    if p.workers == 1 {
      s := was;
    } else {
      assert was.workers[1] == Checking(Page(Padding(p)), PageReply(Padding(p)));
      s := CheckPage(p, was, 1, Padding(p));
    }
  }

  lemma FetchOne(p: Params, s: State, n: nat) returns (t: State)
    requires !p.offline && Reachable(p, s) && |s.workers| > 0 && s.workers[0] == Idle && s.rows == Pages(n)
    requires s.pending + 1 < p.flushEvery
    ensures JustChecked(p, t) && t.workers == s.workers && t.rows == Pages(n + 1) && t.disk == s.disk
    ensures t.pending == s.pending + 1 && HasReturned(t, n)
  {
    var recorded := RecordPage(p, s, n);
    t := CheckPage(p, recorded, 0, n);
  }

  lemma FetchAnother(p: Params, s: State, disk: nat, rows: nat) returns (t: State)
    requires !p.offline && JustChecked(p, s) && |s.workers| > 0 && s.workers[0] == Idle && s.pending + 1 < p.flushEvery
    requires disk <= rows && Unflushed(s, disk, rows)
    ensures JustChecked(p, t) && t.workers == s.workers && t.pending == s.pending + 1 && Unflushed(t, disk, rows + 1)
  {
    JustCheckedReachable(p, s);
    t := FetchOne(p, s, rows);
    assert HasReturned(t, rows);
  }

  /** After that, worker 0 returns from `m` further pages before the next flush is due. */
  lemma {:induction false} FetchMore(p: Params, m: nat) returns (s: State)
    requires !p.offline && p.workers > 0 && m < p.flushEvery
    ensures JustChecked(p, s) && |s.workers| == p.workers && s.workers[0] == Idle && s.pending == m
    ensures Unflushed(s, Padding(p), Padding(p) + p.workers - 1 + m)
  {
    if m == 0 {
      s := ReturnFirst(p);
    } else {
      var was := FetchMore(p, m - 1);
      s := FetchAnother(p, was, Padding(p), Padding(p) + p.workers - 1 + m - 1);
    }
  }

  /** The bound is attained, with a page among the missing that `graphql` has already returned. */
  lemma LostTailIsAttained(p: Params)
    requires !p.offline && p.workers > 0 && p.flushEvery > 0
    ensures exists t :: JustChecked(p, t) && |Missing(t)| == p.flushEvery - 1 + (p.workers - 1)
              && (|Missing(t)| > 0 ==> exists h, b :: (h, b) in t.returned && h in Missing(t))
  {
    var t := FetchMore(p, p.flushEvery - 1);
    var m := Padding(p);
    var n := m + p.workers - 1 + p.flushEvery - 1;
    PagesMissing(t, m, n);
    if n > m { ReturnedIsMissing(t, m, n); }
  }

  lemma ReturnedIsMissing(t: State, m: nat, n: nat)
    requires m <= n && Missing(t) == Names(m, n) && ReturnedOne(t, m, n)
    ensures exists h, b :: (h, b) in t.returned && h in Missing(t)
  {
    var i :| m <= i < n && HasReturned(t, i);
    InNames(m, n, Show(i));
    assert Pages(n)[i].hash == Show(i);
  }

  /** A flush is due at every check, or a single worker has one due at each of its pages. */
  predicate FlushesEveryPage(p: Params) {
    p.flushEvery == 0 || (p.flushEvery == 1 && p.workers == 1)
  }

  lemma NothingMissingThen(p: Params, t: State)
    requires JustChecked(p, t) && p.workers > 0 && FlushesEveryPage(p)
    ensures Missing(t) == {}
  {
    if p.flushEvery > 0 { LostTailIsBounded(p, t); }
  }

  /**
   The ledger is flushed before every caller advances exactly when every page is flushed: with any other
   interval or worker count some crash forgets a page that was already returned.
   */
  lemma NothingMissingExactly(p: Params)
    requires !p.offline && p.workers > 0
    ensures (forall t :: JustChecked(p, t) ==> Missing(t) == {}) <==> FlushesEveryPage(p)
    ensures (forall t, h, b :: JustChecked(p, t) && (h, b) in t.returned ==> h !in Missing(t)) <==> FlushesEveryPage(p)
  {
    if FlushesEveryPage(p) {
      forall t | JustChecked(p, t) ensures Missing(t) == {} { NothingMissingThen(p, t); }
    } else {
      LostTailIsAttained(p);
    }
  }
}
