/**
 When a recorded response stays loadable. Whether a new request may tear a recorded response is
 decided at the moment the request begins (src/impact/ingest/github_client.py, `graphql` and `rest`).
 */
module Refetching {
  import opened Collections
  import opened Ledger
  import opened Client

  /** A response file: a directory and a request hash. */
  type Key = (string, string)

  ghost predicate Intact(s: State, k: Key) {
    k in s.files && s.files[k].Good?
  }

  /** Some ledger, in memory or on disk, marks a response in this file ok. */
  ghost predicate Claimed(s: State, k: Key) {
    exists row :: (row in s.rows || row in s.disk) && Claims(row, k)
  }

  predicate Claims(row: Row, k: Key) {
    row.status == Ok && row.entity == k.0 && row.hash == k.1
  }

  /** Every ok row's file holds a complete body. */
  ghost predicate Loadable(s: State) {
    forall k :: Claimed(s, k) ==> Intact(s, k)
  }

  /** The worker is on its way to reading this file, writing it, or recording it as ok. */
  predicate Busy(pc: Pc, k: Key) {
    match pc
    case Idle => false
    case Loading(e, h) => (e, h) == k
    case Fetching(e, h) => (e, h) == k
    case Fetched(e, h, _) => (e, h) == k
    case Storing(e, h, _) => (e, h) == k
    case Bumping(row, _) => Claims(row, k)
    case Recording(row, _) => Claims(row, k)
    case Checking(_, _) => false
  }

  predicate Writing(pc: Pc) {
    pc.Fetching? || pc.Fetched? || pc.Storing?
  }

  /** It may still write the file: it is fetching, or its cached file will turn out unusable. */
  ghost predicate MayWrite(p: Params, s: State, pc: Pc, k: Key) {
    Busy(pc, k) && (Writing(pc) || (pc.Loading? && !p.offline && !Intact(s, k)))
  }

  /** Where a request begun now goes. */
  function Target(p: Params, s: State, step: Step): Pc
    requires step.Begin?
  {
    if !step.force && Succeeds(s.rows, step.hash) then Loading(step.entity, step.hash)
    else if p.offline then Idle // raises
    else Fetching(step.entity, step.hash)
  }

  /** One of two workers busy with the same file may write it. */
  ghost predicate Contend(p: Params, s: State, a: Pc, b: Pc, k: Key) {
    Busy(a, k) && Busy(b, k) && (MayWrite(p, s, a, k) || MayWrite(p, s, b, k))
  }

  /**
   What can be seen when a request begins: it may write a file that some ledger marks ok, or
   it shares a file with a busy worker and one of the two may write it.
   */
  ghost predicate Clash(p: Params, s: State, step: Step) {
    step.Begin? &&
    var k, pc := (step.entity, step.hash), Target(p, s, step);
    || (MayWrite(p, s, pc, k) && Claimed(s, k))
    || (exists v :: 0 <= v < |s.workers| && v != step.w && Contend(p, s, pc, s.workers[v], k))
  }

  // ----- runs that avoid some requests -----

  /** One step, but no request that is to be avoided. */
  ghost predicate AvoidingNext(p: Params, avoid: (State, Step) -> bool, s: State, s': State) {
    exists step :: Enabled(p, s, step) && !(step.Begin? && avoid(s, step)) && s' == Apply(p, s, step)
  }

  ghost predicate IsAvoiding(p: Params, avoid: (State, Step) -> bool, run: seq<State>) {
    run != [] && forall i :: 0 <= i < |run| - 1 ==> AvoidingNext(p, avoid, run[i], run[i + 1])
  }

  ghost predicate IsAvoidingRun(p: Params, avoid: (State, Step) -> bool, run: seq<State>) {
    IsAvoiding(p, avoid, run) && Init(p, run[0])
  }

  /** `t` can follow `s` without any request that is to be avoided in between. */
  ghost predicate Leads(p: Params, avoid: (State, Step) -> bool, s: State, t: State) {
    exists run :: IsAvoiding(p, avoid, run) && run[0] == s && run[|run| - 1] == t
  }

  lemma LeadsNow(p: Params, avoid: (State, Step) -> bool, s: State)
    ensures Leads(p, avoid, s, s)
  {
    assert IsAvoiding(p, avoid, [s]) && [s][0] == s;
  }

  lemma LeadsLater(p: Params, avoid: (State, Step) -> bool, s: State, step: Step, t: State)
    requires Enabled(p, s, step) && !(step.Begin? && avoid(s, step)) && Leads(p, avoid, Apply(p, s, step), t)
    ensures Leads(p, avoid, s, t)
  {
    var run :| IsAvoiding(p, avoid, run) && run[0] == Apply(p, s, step) && run[|run| - 1] == t;
    var longer := [s] + run;
    forall i | 0 <= i < |longer| - 1 ensures AvoidingNext(p, avoid, longer[i], longer[i + 1]) {
      if i > 0 { assert AvoidingNext(p, avoid, run[i - 1], run[i - 1 + 1]); }
    }
    assert IsAvoiding(p, avoid, longer) && longer[0] == s && longer[|longer| - 1] == t;
  }

  /** Avoiding more leads to less. */
  lemma LeadsMore(p: Params, avoid: (State, Step) -> bool, fewer: (State, Step) -> bool, s: State, t: State)
    requires Leads(p, avoid, s, t) && forall x: State, step: Step :: step.Begin? && fewer(x, step) ==> avoid(x, step)
    ensures Leads(p, fewer, s, t)
  {
    var run :| IsAvoiding(p, avoid, run) && run[0] == s && run[|run| - 1] == t;
    forall i | 0 <= i < |run| - 1 ensures AvoidingNext(p, fewer, run[i], run[i + 1]) {
      assert AvoidingNext(p, avoid, run[i], run[i + 1]);
    }
    assert IsAvoiding(p, fewer, run);
  }

  lemma AvoidingRunIsRun(p: Params, avoid: (State, Step) -> bool, run: seq<State>)
    requires IsAvoidingRun(p, avoid, run)
    ensures IsRun(p, run)
  {
    forall i | 0 <= i < |run| - 1 ensures Next(p, run[i], run[i + 1]) {
      assert AvoidingNext(p, avoid, run[i], run[i + 1]);
    }
  }

  ghost function Clashing(p: Params): (State, Step) -> bool {
    (s, step) => Clash(p, s, step)
  }

  // ----- what such runs keep -----

  /** A worker is done with the file once it is closed, and writes none that a ledger marks ok. */
  ghost predicate PcOrderly(p: Params, s: State, pc: Pc) {
    forall k :: Busy(pc, k) ==>
      && (MayWrite(p, s, pc, k) ==> !Claimed(s, k))
      && (pc.Bumping? || pc.Recording? ==> Intact(s, k))
  }

  ghost predicate Separate(p: Params, s: State) {
    forall v, w, k :: 0 <= v < w < |s.workers| ==> !Contend(p, s, s.workers[v], s.workers[w], k)
  }

  ghost predicate Orderly(p: Params, s: State) {
    && Loadable(s) && s.mixed == {}
    && (forall w :: 0 <= w < |s.workers| ==> PcOrderly(p, s, s.workers[w]))
    && Separate(p, s)
  }

  lemma Apart(p: Params, s: State, v: nat, w: nat, k: Key)
    requires Separate(p, s) && v < |s.workers| && w < |s.workers| && v != w
    ensures !Contend(p, s, s.workers[v], s.workers[w], k)
  {
    if w < v { assert !Contend(p, s, s.workers[w], s.workers[v], k); }
  }

  /**
   One worker moves on. Files it was not writing are as intact as before, and the ledgers claim
   nothing new but a file it was busy with and that is intact.
   */
  ghost predicate MovesOn(p: Params, s: State, s': State, w: nat, pc: Pc) {
    && w < |s.workers| && s'.workers == s.workers[w := pc] && s'.mixed <= s.mixed
    && (forall k :: MayWrite(p, s, s.workers[w], k) || (Intact(s', k) <==> Intact(s, k)))
    && (forall k :: Claimed(s', k) ==> Claimed(s, k) || (Busy(s.workers[w], k) && Intact(s', k)))
    && (forall k :: Busy(pc, k) ==> Busy(s.workers[w], k) && (pc.Bumping? || pc.Recording? ==> Intact(s', k)))
    && (forall k :: MayWrite(p, s', pc, k) ==> MayWrite(p, s, s.workers[w], k) && !Claimed(s', k))
  }

  lemma BystanderOrderly(p: Params, s: State, s': State, w: nat, pc: Pc, v: nat, k: Key)
    requires Orderly(p, s) && MovesOn(p, s, s', w, pc)
    requires v < |s.workers| && v != w && Busy(s.workers[v], k)
    ensures MayWrite(p, s', s.workers[v], k) ==> !Claimed(s', k) && MayWrite(p, s, s.workers[v], k)
    ensures s.workers[v].Bumping? || s.workers[v].Recording? ==> Intact(s', k)
  {
    Apart(p, s, v, w, k);
    assert PcOrderly(p, s, s.workers[v]);
    assert MayWrite(p, s, s.workers[w], k) || (Intact(s', k) <==> Intact(s, k));
  }

  lemma OrderlyMove(p: Params, s: State, s': State, w: nat, pc: Pc)
    requires Orderly(p, s) && MovesOn(p, s, s', w, pc)
    ensures Orderly(p, s')
  {
    assert PcOrderly(p, s, s.workers[w]);
    forall v, k | 0 <= v < |s'.workers| && v != w && Busy(s.workers[v], k)
      ensures MayWrite(p, s', s.workers[v], k) ==> !Claimed(s', k) && MayWrite(p, s, s.workers[v], k)
      ensures s.workers[v].Bumping? || s.workers[v].Recording? ==> Intact(s', k)
    {
      BystanderOrderly(p, s, s', w, pc, v, k);
    }
    forall v | 0 <= v < |s'.workers| ensures PcOrderly(p, s', s'.workers[v]) {
    }
    forall u, v, k | 0 <= u < v < |s'.workers| ensures !Contend(p, s', s'.workers[u], s'.workers[v], k) {
      Apart(p, s, u, v, k);
    }
  }

  lemma RecordedRows(rows: seq<Row>, row: Row)
    ensures row in Recorded(rows, row)
    ensures forall r :: r in Recorded(rows, row) ==> r in rows || r == row
  {
    var r := Recorded(rows, row);
    assert r[if row.hash != "" && IndexOf(rows, row.hash).Some? then IndexOf(rows, row.hash).value else |rows|] == row;
  }

  lemma OrderlyRecord(p: Params, s: State, w: nat)
    requires Orderly(p, s) && Enabled(p, s, Record(w))
    ensures Orderly(p, Apply(p, s, Record(w)))
  {
    var s', row := Apply(p, s, Record(w)), s.workers[w].row;
    RecordedRows(s.rows, row);
    assert PcOrderly(p, s, s.workers[w]);
    forall k | Claimed(s', k) ensures Claimed(s, k) || (Busy(s.workers[w], k) && Intact(s', k)) {
      var r :| (r in s'.rows || r in s'.disk) && Claims(r, k);
      if r == row { assert Busy(s.workers[w], k); }
    }
    OrderlyMove(p, s, s', w, s'.workers[w]);
  }

  predicate IsWork(step: Step) {
    !step.Begin? && !step.Record? && !step.FlushCheck? && !step.ForceFlush? && !step.Crash?
  }

  /** Steps of one worker that leave the ledgers alone. */
  lemma OrderlyWork(p: Params, s: State, step: Step)
    requires Orderly(p, s) && Enabled(p, s, step)
    requires IsWork(step)
    ensures Orderly(p, Apply(p, s, step))
  {
    var s', w := Apply(p, s, step), step.w;
    assert PcOrderly(p, s, s.workers[w]);
    assert forall k :: Claimed(s', k) ==> Claimed(s, k);
    if step.OpenFile? && AnotherStoring(s, w, s.workers[w].entity, s.workers[w].hash) {
      var e, h := s.workers[w].entity, s.workers[w].hash;
      var v :| 0 <= v < |s.workers| && v != w && s.workers[v].Storing? && s.workers[v].entity == e
        && s.workers[v].hash == h;
      Apart(p, s, v, w, (e, h));
    }
    OrderlyMove(p, s, s', w, s'.workers[w]);
  }

  lemma OrderlyBegin(p: Params, s: State, step: Step)
    requires Orderly(p, s) && step.Begin? && Enabled(p, s, step) && !Clash(p, s, step)
    ensures Orderly(p, Apply(p, s, step))
  {
    var s', w, pc := Apply(p, s, step), step.w, Target(p, s, step);
    assert s'.workers == s.workers[w := pc];
    assert forall k :: Claimed(s', k) <==> Claimed(s, k);
    assert forall v :: 0 <= v < |s.workers| ==> PcOrderly(p, s, s.workers[v]);
    forall u, v, k | 0 <= u < v < |s'.workers| ensures !Contend(p, s', s'.workers[u], s'.workers[v], k) {
      Apart(p, s, u, v, k);
    }
  }

  lemma OrderlyFlush(p: Params, s: State)
    requires Orderly(p, s)
    ensures Orderly(p, Flushed(s))
  {
    var s' := Flushed(s);
    assert forall k :: Claimed(s', k) ==> Claimed(s, k);
    assert forall v :: 0 <= v < |s.workers| ==> PcOrderly(p, s, s.workers[v]);
    forall u, v, k | 0 <= u < v < |s'.workers| ensures !Contend(p, s', s'.workers[u], s'.workers[v], k) {
      Apart(p, s, u, v, k);
    }
  }

  lemma OrderlyReturn(p: Params, s: State, w: nat, reply: Reply)
    requires Orderly(p, s) && w < |s.workers|
    ensures Orderly(p, Return(s, w, reply))
  {
    assert forall k :: Claimed(Return(s, w, reply), k) <==> Claimed(s, k);
    OrderlyMove(p, s, Return(s, w, reply), w, Idle);
  }

  lemma OrderlyCrash(p: Params, s: State)
    requires Orderly(p, s)
    ensures Orderly(p, Restarted(p, s))
  {
    assert forall k :: Claimed(Restarted(p, s), k) ==> Claimed(s, k);
  }

  lemma OrderlyStep(p: Params, s: State, step: Step)
    requires Orderly(p, s) && Enabled(p, s, step) && !Clash(p, s, step)
    ensures Orderly(p, Apply(p, s, step))
  {
    match step
    case Begin(_, _, _, _) => OrderlyBegin(p, s, step);
    case Record(w) => OrderlyRecord(p, s, w);
    case FlushCheck(w) =>
      OrderlyReturn(p, s, w, s.workers[w].reply);
      OrderlyFlush(p, Return(s, w, s.workers[w].reply));
    case ForceFlush => OrderlyFlush(p, s);
    case Crash => OrderlyCrash(p, s);
    case _ => OrderlyWork(p, s, step);
  }

  lemma {:induction false} PoliteKeepsOrderly(p: Params, run: seq<State>, n: nat)
    requires IsAvoiding(p, Clashing(p), run) && Orderly(p, run[0]) && n < |run|
    ensures Orderly(p, run[n])
  {
    if n > 0 {
      PoliteKeepsOrderly(p, run, n - 1);
      assert AvoidingNext(p, Clashing(p), run[n - 1], run[n - 1 + 1]);
      var step :| Enabled(p, run[n - 1], step) && !(step.Begin? && Clash(p, run[n - 1], step))
        && run[n] == Apply(p, run[n - 1], step);
      OrderlyStep(p, run[n - 1], step);
    }
  }

  lemma InitOrderly(p: Params, s: State)
    requires Init(p, s)
    ensures Orderly(p, s)
  {
  }

  /** While no request clashes, every ok row, in memory or flushed, keeps its complete response. */
  lemma PoliteRunKeepsLoadable(p: Params, run: seq<State>, n: nat)
    requires IsAvoidingRun(p, Clashing(p), run) && n < |run|
    ensures Orderly(p, run[n]) && Loadable(run[n])
  {
    InitOrderly(p, run[0]);
    PoliteKeepsOrderly(p, run, n);
  }

  // ----- what a clashing request can lead to -----

  /** The request a worker is busy with. */
  function HashOf(pc: Pc): string {
    match pc
    case Idle => ""
    case Loading(_, h) => h
    case Fetching(_, h) => h
    case Fetched(_, h, _) => h
    case Storing(_, h, _) => h
    case Bumping(row, _) => row.hash
    case Recording(row, _) => row.hash
    case Checking(_, _) => ""
  }

  /** An unforced request that no ledger row and no worker knows of. */
  ghost predicate Unheard(s: State, step: Step) {
    && step.Begin? && !step.force
    && (forall row :: row in s.rows || row in s.disk ==> row.hash != step.hash)
    && (forall v :: 0 <= v < |s.workers| ==> HashOf(s.workers[v]) != step.hash)
  }

  ghost function Heard(): (State, Step) -> bool {
    (s, step) => !Unheard(s, step)
  }

  lemma UnheardIsHarmless(p: Params, s: State, step: Step)
    requires Unheard(s, step)
    ensures !Clash(p, s, step)
  {
  }

  /** `t` can follow `s` with no further requests but unheard ones. */
  ghost predicate Quietly(p: Params, s: State, t: State) {
    Leads(p, Heard(), s, t)
  }

  lemma QuietlyLater(p: Params, s: State, step: Step, t: State)
    requires Enabled(p, s, step) && (step.Begin? ==> Unheard(s, step)) && Quietly(p, Apply(p, s, step), t)
    ensures Quietly(p, s, t)
  {
    LeadsLater(p, Heard(), s, step, t);
  }

  lemma QuietlyLeads(p: Params, s: State, t: State)
    requires Quietly(p, s, t)
    ensures Leads(p, Clashing(p), s, t)
  {
    forall x: State, step: Step | step.Begin? && Clash(p, x, step) ensures !Unheard(x, step) {
      if Unheard(x, step) { UnheardIsHarmless(p, x, step); }
    }
    LeadsMore(p, Heard(), Clashing(p), s, t);
  }

  lemma {:induction false} Longest(rows: seq<Row>) returns (n: nat)
    ensures forall row :: row in rows ==> |row.hash| <= n
  {
    if rows == [] {
      n := 0;
    } else {
      n := Longest(rows[1..]);
      if |rows[0].hash| > n { n := |rows[0].hash|; }
      assert forall row :: row in rows <==> row == rows[0] || row in rows[1..];
    }
  }

  lemma {:induction false} LongestBusy(ws: seq<Pc>) returns (n: nat)
    ensures forall v :: 0 <= v < |ws| ==> |HashOf(ws[v])| <= n
  {
    if ws == [] {
      n := 0;
    } else {
      n := LongestBusy(ws[1..]);
      assert forall v :: 0 < v < |ws| ==> ws[v] == ws[1..][v - 1];
      if |HashOf(ws[0])| > n { n := |HashOf(ws[0])|; }
    }
  }

  lemma SomethingUnheard(s: State, v: nat) returns (step: Step)
    ensures step.Begin? && step.w == v && step.hash != "" && Unheard(s, step)
  {
    var a := Longest(s.rows);
    var b := Longest(s.disk);
    var c := LongestBusy(s.workers);
    var h := seq(a + b + c + 1, _ => 'x');
    assert |h| > a && |h| > b && |h| > c;
    step := Begin(v, "", h, false);
  }

  ghost predicate OnDisk(s: State, k: Key) {
    exists row :: row in s.disk && Claims(row, k)
  }

  ghost predicate InMemory(s: State, k: Key) {
    exists row :: row in s.rows && Claims(row, k)
  }

  /** Every ok row on disk has its body: what a restart relies on. */
  ghost predicate DiskLoadable(s: State) {
    forall k :: OnDisk(s, k) ==> Intact(s, k)
  }

  /** Quietly, some ok row can lose its body: in memory or on disk, or on disk alone. */
  ghost predicate CanTear(p: Params, s: State) {
    exists t :: Quietly(p, s, t) && !Loadable(t)
  }

  ghost predicate CanTearDisk(p: Params, s: State) {
    exists t :: Quietly(p, s, t) && !DiskLoadable(t)
  }

  lemma TearLater(p: Params, s: State, step: Step)
    requires Enabled(p, s, step) && (step.Begin? ==> Unheard(s, step)) && CanTearDisk(p, Apply(p, s, step))
    ensures CanTearDisk(p, s)
  {
    var t :| Quietly(p, Apply(p, s, step), t) && !DiskLoadable(t);
    QuietlyLater(p, s, step, t);
  }

  lemma DiskTearsToo(p: Params, s: State)
    requires CanTearDisk(p, s)
    ensures CanTear(p, s)
  {
    var t :| Quietly(p, s, t) && !DiskLoadable(t);
    assert forall k :: OnDisk(t, k) ==> Claimed(t, k);
  }

  /** How many steps a worker is from recording its response. */
  function Distance(pc: Pc): nat {
    match pc
    case Fetching(_, _) => 4
    case Fetched(_, _, _) => 3
    case Storing(_, _, _) => 2
    case Bumping(_, _) => 1
    case _ => 0
  }

  /** The next step of a worker on its way to recording a complete response. */
  function Forward(pc: Pc, w: nat): Step {
    match pc
    case Fetching(_, _) => ServerOk(w, "")
    case Fetched(_, _, _) => OpenFile(w)
    case Storing(_, _, _) => CloseFile(w, true)
    case Bumping(_, _) => Bump(w)
    case _ => Record(w)
  }

  /** One such step: the worker stays busy with the file, or has just recorded it and comes to its check. */
  lemma ForwardStep(p: Params, s: State, w: nat, k: Key)
    requires w < |s.workers| && Busy(s.workers[w], k) && !s.workers[w].Loading?
    ensures Enabled(p, s, Forward(s.workers[w], w))
    ensures var s' := Apply(p, s, Forward(s.workers[w], w));
            && s'.workers == s.workers[w := s'.workers[w]]
            && (if s.workers[w].Recording? then InMemory(s', k) && s'.workers[w].Checking?
                else Busy(s'.workers[w], k) && !s'.workers[w].Loading? && Distance(s'.workers[w]) < Distance(s.workers[w]))
  {
    if s.workers[w].Recording? { RecordedRows(s.rows, s.workers[w].row); }
  }

  /** Starting to write leaves the ledgers alone, and no body behind. */
  lemma WriteStep(p: Params, s: State, w: nat, k: Key)
    requires w < |s.workers| && Busy(s.workers[w], k) && Writing(s.workers[w])
    ensures var step := if s.workers[w].Storing? then Scribble(w) else Forward(s.workers[w], w);
            && Enabled(p, s, step)
            && var s' := Apply(p, s, step);
               && s'.rows == s.rows && s'.disk == s.disk
               && s'.workers == s.workers[w := s'.workers[w]]
               && Busy(s'.workers[w], k) && Writing(s'.workers[w])
               && (if s.workers[w].Fetching? then s'.workers[w].Fetched? && s'.files == s.files else !Intact(s', k))
  {
  }

  /** A writing worker can leave its file without a body. */
  lemma WriterOpens(p: Params, s: State, w: nat, k: Key) returns (t: State)
    requires w < |s.workers| && Busy(s.workers[w], k) && Writing(s.workers[w])
    ensures Quietly(p, s, t) && t.rows == s.rows && t.disk == s.disk && !Intact(t, k)
    decreases Distance(s.workers[w])
  {
    var step := if s.workers[w].Storing? then Scribble(w) else Forward(s.workers[w], w);
    WriteStep(p, s, w, k);
    var s' := Apply(p, s, step);
    if s.workers[w].Fetching? {
      t := WriterOpens(p, s', w, k);
    } else {
      t := s';
      LeadsNow(p, Heard(), t);
    }
    QuietlyLater(p, s, step, t);
  }

  lemma WriterTears(p: Params, s: State, w: nat, k: Key)
    requires w < |s.workers| && Busy(s.workers[w], k) && Writing(s.workers[w]) && OnDisk(s, k)
    ensures CanTearDisk(p, s)
  {
    var t := WriterOpens(p, s, w, k);
    assert OnDisk(t, k);
  }

  // ----- getting a row flushed while another worker writes its file -----

  /** Idle, fetching a page for another request, or on the way to its flush check. */
  predicate Paging(pc: Pc, h: string) {
    match pc
    case Idle => true
    case Loading(_, _) => false
    case Fetching(_, g) => g != h
    case Fetched(_, g, _) => g != h
    case Storing(_, g, _) => g != h
    case Bumping(row, _) => row.hash != h && row.status == Ok
    case Recording(row, _) => row.hash != h && row.status == Ok
    case Checking(_, _) => true
  }

  function Stage(pc: Pc): nat {
    match pc
    case Idle => 6
    case Loading(_, _) => 7
    case Fetching(_, _) => 5
    case Fetched(_, _, _) => 4
    case Storing(_, _, _) => 3
    case Bumping(_, _) => 2
    case Recording(_, _) => 1
    case Checking(_, _) => 0
  }

  /** Pages still to come before the counter is high enough, besides the one being fetched. */
  predicate Suffices(p: Params, s: State, pc: Pc, n: nat) {
    p.flushEvery <= s.pending + n + if pc.Recording? || pc.Checking? then 0 else 1
  }

  predicate IsNextPageStep(pc: Pc, v: nat, step: Step) {
    if pc.Idle? then step.Begin? && step.w == v && !step.force && step.hash != ""
    else step == if pc.Checking? then FlushCheck(v) else Forward(pc, v)
  }

  lemma RecordedKeeps(rows: seq<Row>, row: Row, r: Row)
    requires r in rows && r.hash != row.hash
    ensures r in Recorded(rows, row)
  {
    var i :| 0 <= i < |rows| && rows[i] == r;
    assert Recorded(rows, row)[i] == r;
  }

  lemma RecordKeepsOthers(p: Params, s: State, v: nat, k: Key)
    requires Enabled(p, s, Record(v)) && s.workers[v].row.hash != k.1 && InMemory(s, k)
    ensures InMemory(Apply(p, s, Record(v)), k)
  {
    var r :| r in s.rows && Claims(r, k);
    RecordedKeeps(s.rows, s.workers[v].row, r);
  }

  /** One step of fetching pages keeps the contested row, and gets closer to a flush unless it makes one. */
  lemma PageStep(p: Params, s: State, v: nat, k: Key, n: nat, step: Step)
    requires !p.offline && v < |s.workers| && Paging(s.workers[v], k.1) && InMemory(s, k)
      && Suffices(p, s, s.workers[v], n)
    requires IsNextPageStep(s.workers[v], v, step) && (step.Begin? ==> Unheard(s, step))
    ensures Enabled(p, s, step)
    ensures var s' := Apply(p, s, step);
            && s'.workers == s.workers[v := s'.workers[v]]
            && (step.FlushCheck? && s.pending >= p.flushEvery ==> OnDisk(s', k))
            && (!(step.FlushCheck? && s.pending >= p.flushEvery) ==>
                  && Paging(s'.workers[v], k.1) && InMemory(s', k)
                  && (step.FlushCheck? ==> n > 0 && s'.workers[v].Idle? && Suffices(p, s', s'.workers[v], n - 1))
                  && (!step.FlushCheck? ==> Suffices(p, s', s'.workers[v], n) && Stage(s'.workers[v]) < Stage(s.workers[v])))
  {
    if s.workers[v].Recording? { RecordKeepsOthers(p, s, v, k); }
    if step.Begin? { NotSucceeded(s, step.hash); }
  }

  lemma NotSucceeded(s: State, h: string)
    requires forall row :: row in s.rows ==> row.hash != h
    ensures !Succeeds(s.rows, h)
  {
  }

  /** Worker `v` fetches unheard pages until a flush saves the row, while `w` has yet to write its file. */
  lemma FlusherTears(p: Params, s: State, v: nat, w: nat, k: Key, n: nat)
    requires !p.offline && v < |s.workers| && w < |s.workers| && v != w
    requires Paging(s.workers[v], k.1) && InMemory(s, k) && Suffices(p, s, s.workers[v], n)
    requires Busy(s.workers[w], k) && Writing(s.workers[w])
    ensures CanTearDisk(p, s)
    decreases n, Stage(s.workers[v])
  {
    var step := if s.workers[v].Checking? then FlushCheck(v) else Forward(s.workers[v], v);
    if s.workers[v].Idle? { step := SomethingUnheard(s, v); }
    PageStep(p, s, v, k, n, step);
    var s' := Apply(p, s, step);
    assert s'.workers[w] == s.workers[w];
    if step.FlushCheck? && s.pending >= p.flushEvery {
      WriterTears(p, s', w, k);
    } else {
      FlusherTears(p, s', v, w, k, if step.FlushCheck? then n - 1 else n);
    }
    TearLater(p, s, step);
  }

  /** The worker's next row will replace that of the request, whatever it says. */
  predicate Superseding(pc: Pc, h: string) {
    match pc
    case Fetched(_, g, _) => g == h
    case Storing(_, g, _) => g == h
    case Bumping(row, _) => row.hash == h
    case Recording(row, _) => row.hash == h
    case _ => false
  }

  /** How another worker that will not replace the row gets free for fetching pages. */
  function Freeing(pc: Pc, v: nat): Step {
    match pc
    case Loading(_, _) => Load(v)
    case Fetching(_, _) => GiveUp(v)
    case Bumping(_, _) => Bump(v)
    case _ => Record(v)
  }

  lemma FreeStep(p: Params, s: State, v: nat, k: Key)
    requires v < |s.workers| && !Superseding(s.workers[v], k.1) && !Paging(s.workers[v], k.1) && InMemory(s, k)
    ensures Enabled(p, s, Freeing(s.workers[v], v))
    ensures var s' := Apply(p, s, Freeing(s.workers[v], v));
            && s'.workers == s.workers[v := s'.workers[v]] && InMemory(s', k)
            && !Superseding(s'.workers[v], k.1)
            && (Paging(s'.workers[v], k.1) || Stage(s'.workers[v]) < Stage(s.workers[v]))
  {
    if s.workers[v].Recording? { RecordKeepsOthers(p, s, v, k); }
  }

  lemma FreeWorkerTears(p: Params, s: State, v: nat, w: nat, k: Key)
    requires !p.offline && v < |s.workers| && w < |s.workers| && v != w
    requires !Superseding(s.workers[v], k.1) && InMemory(s, k)
    requires Busy(s.workers[w], k) && Writing(s.workers[w])
    ensures CanTearDisk(p, s)
    decreases !Paging(s.workers[v], k.1), Stage(s.workers[v])
  {
    if Paging(s.workers[v], k.1) {
      FlusherTears(p, s, v, w, k, p.flushEvery);
    } else {
      FreeStep(p, s, v, k);
      FreeWorkerTears(p, Apply(p, s, Freeing(s.workers[v], v)), v, w, k);
      TearLater(p, s, Freeing(s.workers[v], v));
    }
  }

  // ----- two workers on one file -----

  /** Worker `v` finishes, records and has its row flushed while `w` has yet to write. */
  lemma FinisherTears(p: Params, s: State, v: nat, w: nat, k: Key)
    requires !p.offline && v < |s.workers| && w < |s.workers| && v != w
    requires Busy(s.workers[v], k) && !s.workers[v].Loading?
    requires Busy(s.workers[w], k) && Writing(s.workers[w])
    ensures CanTearDisk(p, s)
    decreases Distance(s.workers[v])
  {
    var step := Forward(s.workers[v], v);
    ForwardStep(p, s, v, k);
    var s' := Apply(p, s, step);
    assert s'.workers[w] == s.workers[w];
    if s.workers[v].Recording? { FlusherTears(p, s', v, w, k, p.flushEvery); } else { FinisherTears(p, s', v, w, k); }
    TearLater(p, s, step);
  }

  /** Worker `v` reads the file too late, finds no body, and fetches as well. */
  lemma ReaderTears(p: Params, s: State, v: nat, w: nat, k: Key)
    requires !p.offline && v < |s.workers| && w < |s.workers| && v != w
    requires Busy(s.workers[v], k) && s.workers[v].Loading?
    requires Busy(s.workers[w], k) && Writing(s.workers[w])
    ensures CanTearDisk(p, s)
    decreases Intact(s, k), Distance(s.workers[w])
  {
    if Intact(s, k) {
      var step := if s.workers[w].Storing? then Scribble(w) else Forward(s.workers[w], w);
      WriteStep(p, s, w, k);
      ReaderTears(p, Apply(p, s, step), v, w, k);
      TearLater(p, s, step);
    } else {
      FinisherTears(p, Apply(p, s, Load(v)), v, w, k);
      TearLater(p, s, Load(v));
    }
  }

  lemma WriterContends(p: Params, s: State, v: nat, w: nat, k: Key)
    requires !p.offline && v < |s.workers| && w < |s.workers| && v != w
    requires Busy(s.workers[v], k) && Busy(s.workers[w], k) && Writing(s.workers[w])
    ensures CanTearDisk(p, s)
  {
    if s.workers[v].Loading? { ReaderTears(p, s, v, w, k); } else { FinisherTears(p, s, v, w, k); }
  }

  lemma ContentionTears(p: Params, s: State, v: nat, w: nat, k: Key)
    requires !p.offline && v < |s.workers| && w < |s.workers| && v != w
    requires Busy(s.workers[v], k) && MayWrite(p, s, s.workers[w], k)
    ensures CanTearDisk(p, s)
  {
    if Writing(s.workers[w]) {
      WriterContends(p, s, v, w, k);
    } else {
      WriterContends(p, Apply(p, s, Load(w)), v, w, k);
      TearLater(p, s, Load(w));
    }
  }

  lemma SharingTears(p: Params, s: State, step: Step, v: nat)
    requires !p.offline && step.Begin? && Enabled(p, s, step) && v < |s.workers| && v != step.w
    requires Contend(p, s, Target(p, s, step), s.workers[v], (step.entity, step.hash))
    ensures CanTearDisk(p, Apply(p, s, step))
  {
    var s', w, k, pc := Apply(p, s, step), step.w, (step.entity, step.hash), Target(p, s, step);
    assert s'.workers == s.workers[w := pc];
    if MayWrite(p, s, pc, k) { ContentionTears(p, s', v, w, k); } else { ContentionTears(p, s', w, v, k); }
  }

  lemma ClashTears(p: Params, s: State, step: Step)
    requires !p.offline && Enabled(p, s, step) && Clash(p, s, step)
    ensures CanTear(p, Apply(p, s, step))
  {
    var s', w, k, pc := Apply(p, s, step), step.w, (step.entity, step.hash), Target(p, s, step);
    assert s'.workers == s.workers[w := pc];
    if MayWrite(p, s, pc, k) && Claimed(s, k) {
      var t := s';
      if Writing(pc) { t := WriterOpens(p, s', w, k); } else { LeadsNow(p, Heard(), s'); }
      assert Claimed(t, k) && !Intact(t, k);
      assert !Loadable(t);
    } else {
      var v :| 0 <= v < |s.workers| && v != w && Contend(p, s, pc, s.workers[v], k);
      SharingTears(p, s, step, v);
      DiskTearsToo(p, s');
    }
  }

  /**
   Online, a request can begin without endangering any recorded response, whatever non-clashing
   requests, interleavings and crashes follow, exactly when it does not clash.
   */
  lemma BeginIsSafeExactly(p: Params, run: seq<State>, n: nat, step: Step)
    requires IsAvoidingRun(p, Clashing(p), run) && n < |run| && !p.offline
    requires step.Begin? && Enabled(p, run[n], step)
    ensures (forall t :: Leads(p, Clashing(p), Apply(p, run[n], step), t) ==> Loadable(t)) <==> !Clash(p, run[n], step)
  {
    var s := Apply(p, run[n], step);
    if Clash(p, run[n], step) {
      ClashTears(p, run[n], step);
      var t :| Quietly(p, s, t) && !Loadable(t);
      QuietlyLeads(p, s, t);
    } else {
      PoliteRunKeepsLoadable(p, run, n);
      OrderlyStep(p, run[n], step);
      forall t | Leads(p, Clashing(p), s, t) ensures Loadable(t) {
        var more :| IsAvoiding(p, Clashing(p), more) && more[0] == s && more[|more| - 1] == t;
        PoliteKeepsOrderly(p, more, |more| - 1);
      }
    }
  }

  // ----- which requests endanger a flushed row -----

  /**
   As a clash, but a row that is only in memory counts only while some other worker could come to a
   flush check without replacing it first.
   */
  ghost predicate Endangers(p: Params, s: State, step: Step) {
    step.Begin? &&
    var k, pc := (step.entity, step.hash), Target(p, s, step);
    || (MayWrite(p, s, pc, k) && (OnDisk(s, k) || (InMemory(s, k) && AnotherMayFlush(s, step.w, step.hash))))
    || (exists v :: 0 <= v < |s.workers| && v != step.w && Contend(p, s, pc, s.workers[v], k))
  }

  ghost predicate AnotherMayFlush(s: State, w: nat, h: string) {
    exists v :: 0 <= v < |s.workers| && v != w && !Superseding(s.workers[v], h)
  }

  ghost function Endangering(p: Params): (State, Step) -> bool {
    (s, step) => Endangers(p, s, step)
  }

  lemma EndangersClashes(p: Params, s: State, step: Step)
    requires Endangers(p, s, step)
    ensures Clash(p, s, step)
  {
    var k := (step.entity, step.hash);
    assert OnDisk(s, k) || InMemory(s, k) ==> Claimed(s, k);
  }

  lemma QuietlySafely(p: Params, s: State, t: State)
    requires Quietly(p, s, t)
    ensures Leads(p, Endangering(p), s, t)
  {
    QuietlyLeads(p, s, t);
    forall x: State, step: Step | step.Begin? && Endangers(p, x, step) ensures Clash(p, x, step) {
      EndangersClashes(p, x, step);
    }
    LeadsMore(p, Clashing(p), Endangering(p), s, t);
  }

  lemma EndangersTears(p: Params, s: State, step: Step)
    requires !p.offline && Enabled(p, s, step) && Endangers(p, s, step) && Loadable(s)
    ensures CanTearDisk(p, Apply(p, s, step))
  {
    var s', w, k, pc := Apply(p, s, step), step.w, (step.entity, step.hash), Target(p, s, step);
    assert s'.workers == s.workers[w := pc];
    if v :| 0 <= v < |s.workers| && v != w && Contend(p, s, pc, s.workers[v], k) {
      SharingTears(p, s, step, v);
    } else {
      assert Claimed(s, k);
      if OnDisk(s, k) {
        WriterTears(p, s', w, k);
      } else {
        var v :| 0 <= v < |s.workers| && v != w && !Superseding(s.workers[v], step.hash);
        FreeWorkerTears(p, s', v, w, k);
      }
    }
  }

  // ----- runs without such requests -----

  function Others(rows: seq<Row>, k: Key): (r: seq<Row>)
    ensures forall row :: row in r <==> row in rows && !Claims(row, k)
  {
    if rows == [] then []
    else
      assert forall row :: row in rows <==> row == rows[0] || row in rows[1..];
      (if Claims(rows[0], k) then [] else [rows[0]]) + Others(rows[1..], k)
  }

  /** The state as it would be had this file's row not been recorded. */
  function Without(s: State, k: Key): State { s.(rows := Others(s.rows, k)) }

  /**
   A worker rewrites a file that only the ledger in memory marks ok, and no other worker can come to a flush
   check before it has replaced that row.
   */
  ghost predicate Rewriting(p: Params, s: State, w: nat, k: Key) {
    && w < |s.workers| && Writing(s.workers[w]) && Busy(s.workers[w], k) && k.1 != "" && !OnDisk(s, k)
    && (s.workers[w].Storing? || Intact(s, k))
    && (forall v :: 0 <= v < |s.workers| && v != w ==> Superseding(s.workers[v], k.1) && !Busy(s.workers[v], k))
    && Orderly(p, Without(s, k))
  }

  ghost predicate Tidy(s: State) { OneRowPerHash(s.rows) && OneRowPerHash(s.disk) }

  ghost predicate Guarded(p: Params, s: State) {
    Tidy(s) && (Orderly(p, s) || exists w, k :: Rewriting(p, s, w, k))
  }

  lemma GuardedDisk(p: Params, s: State)
    requires Guarded(p, s)
    ensures DiskLoadable(s)
  {
    forall k | OnDisk(s, k) ensures Intact(s, k) {
      if Orderly(p, s) {
        assert Claimed(s, k);
      } else {
        var w, j :| Rewriting(p, s, w, j);
        assert Claimed(Without(s, j), k) && Intact(Without(s, j), k);
      }
    }
  }

  lemma TidyStep(p: Params, s: State, step: Step)
    requires Tidy(s) && Enabled(p, s, step)
    ensures Tidy(Apply(p, s, step))
  {
    if step.Record? { RecordedKeepsOneRowPerHash(s.rows, s.workers[step.w].row); }
  }

  /** Only the workers, the files and what the ledgers claim matter. */
  lemma OrderlyFewer(p: Params, s: State, s': State)
    requires Orderly(p, s) && s'.workers == s.workers && s'.files == s.files && s'.mixed == s.mixed
    requires forall k :: Claimed(s', k) ==> Claimed(s, k)
    ensures Orderly(p, s')
  {
    assert forall k :: Intact(s', k) <==> Intact(s, k);
    forall w | 0 <= w < |s'.workers| ensures PcOrderly(p, s', s'.workers[w]) { assert PcOrderly(p, s, s.workers[w]); }
    forall u, v, k | 0 <= u < v < |s'.workers| ensures !Contend(p, s', s'.workers[u], s'.workers[v], k) {
      Apart(p, s, u, v, k);
    }
  }

  /** The row may come back once its file is complete and nobody may write it. */
  lemma OrderlyAgain(p: Params, s: State, k: Key)
    requires Orderly(p, Without(s, k)) && Intact(s, k)
    requires forall v :: 0 <= v < |s.workers| ==> !MayWrite(p, s, s.workers[v], k)
    ensures Orderly(p, s)
  {
    var o := Without(s, k);
    assert forall j :: Intact(o, j) <==> Intact(s, j);
    assert forall j :: Claimed(s, j) ==> j == k || Claimed(o, j);
    forall w | 0 <= w < |s.workers| ensures PcOrderly(p, s, s.workers[w]) { assert PcOrderly(p, o, o.workers[w]); }
    forall u, v, j | 0 <= u < v < |s.workers| ensures !Contend(p, s, s.workers[u], s.workers[v], j) {
      Apart(p, o, u, v, j);
    }
  }

  /** A working step that leaves the ledgers alone does so with or without the row. */
  lemma WorkWithout(p: Params, s: State, step: Step, k: Key)
    requires Orderly(p, Without(s, k)) && Enabled(p, s, step)
    requires IsWork(step)
    ensures Orderly(p, Without(Apply(p, s, step), k))
  {
    if step.OpenFile? {
      var e, h := s.workers[step.w].entity, s.workers[step.w].hash;
      assert AnotherStoring(s, step.w, e, h) <==> AnotherStoring(Without(s, k), step.w, e, h);
    }
    OrderlyStep(p, Without(s, k), step);
    assert Without(Apply(p, s, step), k) == Apply(p, Without(s, k), step);
  }

  /** The step of the worker that rewrites the file. */
  lemma RewriterStep(p: Params, s: State, w: nat, k: Key, step: Step)
    requires Rewriting(p, s, w, k) && Enabled(p, s, step)
    requires IsWork(step) && step.w == w
    ensures var s' := Apply(p, s, step); Orderly(p, s') || Rewriting(p, s', w, k)
  {
    var s' := Apply(p, s, step);
    WorkWithout(p, s, step, k);
    assert forall v :: 0 <= v < |s.workers| && v != w ==> s'.workers[v] == s.workers[v];
    if !Writing(s'.workers[w]) {
      assert Intact(s', k);
      OrderlyAgain(p, s', k);
    }
  }

  /** The step of another worker, short of recording. */
  lemma BystanderStep(p: Params, s: State, w: nat, k: Key, step: Step)
    requires Rewriting(p, s, w, k) && Enabled(p, s, step)
    requires IsWork(step) && step.w != w
    ensures Rewriting(p, Apply(p, s, step), w, k)
  {
    var s', v := Apply(p, s, step), step.w;
    WorkWithout(p, s, step, k);
    assert Superseding(s.workers[v], k.1) && !Busy(s.workers[v], k);
    assert forall u :: 0 <= u < |s.workers| && u != v ==> s'.workers[u] == s.workers[u];
  }

  /** Another worker's record replaces the row. */
  lemma Superseded(p: Params, s: State, w: nat, k: Key, v: nat)
    requires Rewriting(p, s, w, k) && Tidy(s) && Enabled(p, s, Record(v))
    ensures Orderly(p, Apply(p, s, Record(v)))
  {
    var o, s', row := Without(s, k), Apply(p, s, Record(v)), s.workers[v].row;
    assert Superseding(s.workers[v], k.1) && !Busy(s.workers[v], k);
    OrderlyRecord(p, o, v);
    var o' := Apply(p, o, Record(v));
    forall r | r in s'.rows ensures r in o'.rows {
      RecordedRows(o.rows, row);
      if r != row { SupersededRows(s.rows, row, r); RecordedKeeps(o.rows, row, r); }
    }
    assert forall j :: Claimed(s', j) ==> Claimed(o', j);
    OrderlyFewer(p, o', s');
  }

  lemma SupersededRows(rows: seq<Row>, row: Row, r: Row)
    requires OneRowPerHash(rows) && r in Recorded(rows, row) && r != row && row.hash != ""
    ensures r in rows && r.hash != row.hash
  {
    RecordedKeepsOneRowPerHash(rows, row);
    RecordedRows(rows, row);
    var all := Recorded(rows, row);
    var i :| 0 <= i < |all| && all[i] == r;
    var j :| 0 <= j < |all| && all[j] == row;
    if i < j {
      assert all[i].hash != "" ==> all[i].hash != all[j].hash;
    } else {
      assert all[j].hash != "" ==> all[j].hash != all[i].hash;
    }
  }

  lemma NobodyFlushes(p: Params, s: State, w: nat, k: Key, step: Step)
    requires Rewriting(p, s, w, k)
    ensures step.Begin? || step.FlushCheck? || step.ForceFlush? ==> !Enabled(p, s, step)
  {
    assert forall v :: 0 <= v < |s.workers| ==> v == w || Superseding(s.workers[v], k.1);
    assert !s.workers[w].Idle?;
  }

  lemma RewritingStep(p: Params, s: State, w: nat, k: Key, step: Step)
    requires Rewriting(p, s, w, k) && Tidy(s) && Enabled(p, s, step)
    ensures var s' := Apply(p, s, step); Orderly(p, s') || Rewriting(p, s', w, k)
  {
    NobodyFlushes(p, s, w, k, step);
    if step.Crash? {
      OrderlyCrash(p, Without(s, k));
      assert Restarted(p, Without(s, k)) == Restarted(p, s);
    } else if step.Record? {
      Superseded(p, s, w, k, step.w);
    } else if IsWork(step) {
      if step.w == w { RewriterStep(p, s, w, k, step); } else { BystanderStep(p, s, w, k, step); }
    }
  }

  /** A clash that does not endanger a flushed row is a forced rewrite of a row in memory. */
  lemma BeginRewriting(p: Params, s: State, step: Step)
    requires Orderly(p, s) && Tidy(s) && Enabled(p, s, step) && Clash(p, s, step) && !Endangers(p, s, step)
    ensures Rewriting(p, Apply(p, s, step), step.w, (step.entity, step.hash))
  {
    var s', w, k, pc := Apply(p, s, step), step.w, (step.entity, step.hash), Target(p, s, step);
    assert MayWrite(p, s, pc, k) && Claimed(s, k) && Intact(s, k);
    var row :| (row in s.rows || row in s.disk) && Claims(row, k);
    assert row in s.disk ==> OnDisk(s, k);
    OkRowSucceeds(s.rows, row);
    assert InMemory(s, k) && pc == Fetching(step.entity, step.hash) && step.force;
    forall v | 0 <= v < |s.workers| && v != w ensures Superseding(s'.workers[v], k.1) && !Busy(s'.workers[v], k) {
      assert !Contend(p, s, pc, s.workers[v], k);
    }
    BeginWithout(p, s, step);
  }

  lemma BeginWithout(p: Params, s: State, step: Step)
    requires Orderly(p, s) && step.Begin? && step.force && Enabled(p, s, step) && !Endangers(p, s, step)
    requires !OnDisk(s, (step.entity, step.hash))
    ensures Orderly(p, Without(Apply(p, s, step), (step.entity, step.hash)))
  {
    var k := (step.entity, step.hash);
    var o := Without(s, k);
    OrderlyFewer(p, s, o);
    assert !Claimed(o, k);
    assert !Clash(p, o, step) by {
      assert Target(p, o, step) == Target(p, s, step);
      assert forall v ::
        0 <= v < |s.workers| ==> (Contend(p, o, Target(p, s, step), o.workers[v], k)
        <==> Contend(p, s, Target(p, s, step), s.workers[v], k));
    }
    OrderlyStep(p, o, step);
    assert Without(Apply(p, s, step), k) == Apply(p, o, step);
  }

  lemma OkRowSucceeds(rows: seq<Row>, row: Row)
    requires OneRowPerHash(rows) && row.status == Ok && row.hash != ""
    ensures row in rows ==> Succeeds(rows, row.hash)
  {
    if row in rows {
      var i :| 0 <= i < |rows| && rows[i] == row;
      IndexOfIs(rows, row.hash, i);
    }
  }

  lemma GuardedStep(p: Params, s: State, step: Step)
    requires Guarded(p, s) && Enabled(p, s, step) && !(step.Begin? && Endangers(p, s, step))
    ensures Guarded(p, Apply(p, s, step))
  {
    TidyStep(p, s, step);
    if Orderly(p, s) {
      if Clash(p, s, step) { BeginRewriting(p, s, step); } else { OrderlyStep(p, s, step); }
    } else {
      var w, k :| Rewriting(p, s, w, k);
      RewritingStep(p, s, w, k, step);
    }
  }

  lemma {:induction false} SafeKeepsGuarded(p: Params, run: seq<State>, n: nat)
    requires IsAvoiding(p, Endangering(p), run) && Guarded(p, run[0]) && n < |run|
    ensures Guarded(p, run[n])
  {
    if n > 0 {
      SafeKeepsGuarded(p, run, n - 1);
      assert AvoidingNext(p, Endangering(p), run[n - 1], run[n - 1 + 1]);
      var step :| Enabled(p, run[n - 1], step) && !(step.Begin? && Endangers(p, run[n - 1], step))
        && run[n] == Apply(p, run[n - 1], step);
      GuardedStep(p, run[n - 1], step);
    }
  }

  /** While no request endangers a flushed row, every ok row on disk keeps its complete response. */
  lemma SafeRunKeepsDisk(p: Params, run: seq<State>, n: nat)
    requires IsAvoidingRun(p, Endangering(p), run) && n < |run|
    ensures Guarded(p, run[n]) && DiskLoadable(run[n])
  {
    InitOrderly(p, run[0]);
    SafeKeepsGuarded(p, run, n);
    GuardedDisk(p, run[n]);
  }

  /**
   What a restart relies on, exactly: online, a request can begin without ever leaving an ok row on disk
   whose file has no body, whatever such requests, interleavings and crashes follow, if and only if it
   endangers none. A worker alone may force what is not on disk yet.
   */
  lemma RestartIsSafeExactly(p: Params, run: seq<State>, n: nat, step: Step)
    requires IsAvoidingRun(p, Endangering(p), run) && n < |run| && !p.offline
    requires step.Begin? && Enabled(p, run[n], step)
    ensures (forall t :: Leads(p, Endangering(p), Apply(p, run[n], step), t) ==> DiskLoadable(t))
      <==> !Endangers(p, run[n], step)
  {
    var s, s' := run[n], Apply(p, run[n], step);
    SafeRunKeepsDisk(p, run, n);
    if Endangers(p, s, step) {
      SomeoneIdle(p, s, step);
      EndangersTears(p, s, step);
      var t :| Quietly(p, s', t) && !DiskLoadable(t);
      QuietlySafely(p, s', t);
    } else {
      GuardedStep(p, s, step);
      forall t | Leads(p, Endangering(p), s', t) ensures DiskLoadable(t) {
        var more :| IsAvoiding(p, Endangering(p), more) && more[0] == s' && more[|more| - 1] == t;
        SafeKeepsGuarded(p, more, |more| - 1);
        GuardedDisk(p, t);
      }
    }
  }

  lemma SomeoneIdle(p: Params, s: State, step: Step)
    requires Guarded(p, s) && step.Begin? && Enabled(p, s, step)
    ensures Orderly(p, s)
  {
    forall w, k ensures !Rewriting(p, s, w, k) {
      if Rewriting(p, s, w, k) { NobodyFlushes(p, s, w, k, step); }
    }
  }

  // ----- two runs that tear a response -----

  /** With the others idle, a worker that is fetching can record its response and have it flushed. */
  lemma CanRecord(p: Params, s: State, w: nat, k: Key) returns (t: State)
    requires w < |s.workers| && Busy(s.workers[w], k) && !s.workers[w].Loading?
    requires forall v :: 0 <= v < |s.workers| && v != w ==> s.workers[v] == Idle
    ensures Quietly(p, s, t) && AllIdle(t) && |t.workers| == |s.workers| && OnDisk(t, k)
    ensures Distance(s.workers[w]) <= 1 ==> t.files == s.files
    decreases Distance(s.workers[w])
  {
    var step := Forward(s.workers[w], w);
    ForwardStep(p, s, w, k);
    var s' := Apply(p, s, step);
    assert forall v :: 0 <= v < |s.workers| && v != w ==> s'.workers[v] == s.workers[v];
    if s.workers[w].Recording? { t := CanFlush(p, s', w, k); } else { t := CanRecord(p, s', w, k); }
    QuietlyLater(p, s, step, t);
  }

  /** The check may flush already; the calling thread does once nobody is at work. */
  lemma CanFlush(p: Params, s: State, w: nat, k: Key) returns (t: State)
    requires w < |s.workers| && s.workers[w].Checking? && InMemory(s, k)
    requires forall v :: 0 <= v < |s.workers| && v != w ==> s.workers[v] == Idle
    ensures Quietly(p, s, t) && AllIdle(t) && |t.workers| == |s.workers| && OnDisk(t, k) && t.files == s.files
  {
    var checked := Apply(p, s, FlushCheck(w));
    assert checked.rows == s.rows && AllIdle(checked);
    t := Apply(p, checked, ForceFlush);
    LeadsNow(p, Heard(), t);
    QuietlyLater(p, checked, ForceFlush, t);
    QuietlyLater(p, s, FlushCheck(w), t);
    assert t.disk == s.rows;
  }

  /** One worker suffices: fetch a page, flush, force the same page again. */
  lemma ForcedRefetchCanTear(p: Params, init: State, entity: string, hash: string)
    requires !p.offline && p.workers > 0 && Init(p, init) && hash != ""
    ensures var first := Begin(0, entity, hash, false);
            && Enabled(p, init, first)
            && exists s ::
                 && Quietly(p, Apply(p, init, first), s)
                 && OnDisk(s, (entity, hash))
                 && Enabled(p, s, Begin(0, entity, hash, true))
                 && CanTearDisk(p, Apply(p, s, Begin(0, entity, hash, true)))
  {
    var again, k := Begin(0, entity, hash, true), (entity, hash);
    var s := CanRecord(p, Apply(p, init, Begin(0, entity, hash, false)), 0, k);
    var s' := Apply(p, s, again);
    assert s'.workers[0] == Fetching(entity, hash) && OnDisk(s', k);
    WriterTears(p, s', 0, k);
  }

  /** Nothing need be forced: two workers asking for the same page suffice. */
  lemma SameRequestTwiceCanTear(p: Params, init: State, entity: string, hash: string)
    requires !p.offline && p.workers > 1 && Init(p, init) && hash != ""
    ensures var first, second := Begin(0, entity, hash, false), Begin(1, entity, hash, false);
            && Enabled(p, init, first) && !Clash(p, init, first)
            && Enabled(p, Apply(p, init, first), second)
            && CanTearDisk(p, Apply(p, Apply(p, init, first), second))
  {
    var s, second := Apply(p, init, Begin(0, entity, hash, false)), Begin(1, entity, hash, false);
    SharingTears(p, s, second, 0);
  }

  /** Both open the file, and the second to close it leaves a mixture behind. */
  lemma BothWrite(p: Params, s: State, entity: string, hash: string) returns (t: State)
    requires |s.workers| > 1 && s.workers[0] == Fetched(entity, hash, "") && s.workers[1] == Fetched(entity, hash, "")
    ensures var page := Bumping(Row(hash, entity, Ok), Body(hash, ""));
            t.workers == s.workers[0 := page][1 := page] && !Intact(t, (entity, hash))
    ensures forall u :: Quietly(p, t, u) ==> Quietly(p, s, u)
  {
    var s1 := Apply(p, s, OpenFile(0));
    var s2 := Apply(p, s1, OpenFile(1));
    assert s1.workers == s.workers[0 := Storing(entity, hash, "")];
    assert AnotherStoring(s1, 1, entity, hash) by { assert s1.workers[0].Storing?; }
    assert s2.workers == s1.workers[1 := Storing(entity, hash, "")] && (entity, hash) in s2.mixed;
    var s3 := Apply(p, s2, CloseFile(0, true));
    t := Apply(p, s3, CloseFile(1, false));
    forall u | Quietly(p, t, u) ensures Quietly(p, s, u) {
      QuietlyLater(p, s3, CloseFile(1, false), u);
      QuietlyLater(p, s2, CloseFile(0, true), u);
      QuietlyLater(p, s1, OpenFile(1), u);
      QuietlyLater(p, s, OpenFile(0), u);
    }
  }

  /** The first records and is checked, then the second, and the row is on disk. */
  lemma BothFinish(p: Params, s: State, k: Key, page: Pc) returns (t: State)
    requires |s.workers| > 1 && s.workers[0] == page && s.workers[1] == page
      && page == Bumping(Row(k.1, k.0, Ok), Body(k.1, ""))
    requires forall v :: 2 <= v < |s.workers| ==> s.workers[v] == Idle
    ensures Quietly(p, s, t) && AllIdle(t) && OnDisk(t, k) && t.files == s.files
  {
    var s1 := Apply(p, s, Bump(0));
    assert s1.workers == s.workers[0 := Recording(page.row, page.reply)];
    var s2 := Apply(p, s1, Record(0));
    assert s2.workers == s1.workers[0 := Checking(page.row, page.reply)];
    var s3 := Apply(p, s2, FlushCheck(0));
    assert s3.workers == s2.workers[0 := Idle];
    t := CanRecord(p, s3, 1, k);
    QuietlyLater(p, s2, FlushCheck(0), t);
    QuietlyLater(p, s1, Record(0), t);
    QuietlyLater(p, s, Bump(0), t);
  }

  /** No crash is needed: the two can both succeed, and leave an ok row on disk over a mixture. */
  lemma SameRequestTwiceCanGarble(p: Params, init: State, entity: string, hash: string)
    requires !p.offline && p.workers > 1 && Init(p, init) && hash != ""
    ensures var both := Apply(p, Apply(p, init, Begin(0, entity, hash, false)), Begin(1, entity, hash, false));
            exists t :: Quietly(p, both, t) && AllIdle(t) && OnDisk(t, (entity, hash)) && !Intact(t, (entity, hash))
  {
    var first := Apply(p, init, Begin(0, entity, hash, false));
    assert first.workers == init.workers[0 := Fetching(entity, hash)];
    var both := Apply(p, first, Begin(1, entity, hash, false));
    assert both.workers == first.workers[1 := Fetching(entity, hash)];
    var a := Apply(p, both, ServerOk(0, ""));
    assert a.workers == both.workers[0 := Fetched(entity, hash, "")];
    var b := Apply(p, a, ServerOk(1, ""));
    var c := BothWrite(p, b, entity, hash);
    var t := BothFinish(p, c, (entity, hash), c.workers[0]);
    QuietlyLater(p, a, ServerOk(1, ""), t);
    QuietlyLater(p, both, ServerOk(0, ""), t);
  }

  /**
   Rerunning costs no request: after a run without endangering requests, whether or not the process has
   just crashed, a response the flushed ledger marks ok is read from its file without asking the server.
   */
  lemma RerunIsServedFromDisk(p: Params, run: seq<State>, n: nat, row: Row, w: nat)
    requires IsAvoidingRun(p, Endangering(p), run) && n < |run| && w < p.workers
    requires row in run[n].disk && row.status == Ok
    ensures var s := Restarted(p, run[n]);
            var begin := Begin(w, row.entity, row.hash, false);
            && Enabled(p, s, begin) && !Clash(p, s, begin)
            && Enabled(p, Apply(p, s, begin), Load(w))
            && var t := Apply(p, Apply(p, s, begin), Load(w));
               && t.workers == s.workers && t.served == s.served
               && exists b :: t.returned == s.returned + {(row.hash, b)} && (row.hash, b) in run[n].served
  {
    SafeRunKeepsDisk(p, run, n);
    AvoidingRunIsRun(p, Endangering(p), run);
    RunKeepsInvariant(p, run, n);
    var s, k := Restarted(p, run[n]), (row.entity, row.hash);
    OkRowSucceeds(run[n].disk, row);
    assert OnDisk(run[n], k);
    var b := run[n].files[k].body;
    assert k.1 == row.hash && (row.hash, b) in run[n].served;
    var s1 := Apply(p, s, Begin(w, row.entity, row.hash, false));
    assert s1.workers[w] == Loading(row.entity, row.hash);
    assert Apply(p, s1, Load(w)).workers == s.workers;
  }
}
