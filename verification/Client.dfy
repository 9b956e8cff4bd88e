/**
 The cache, persist and flush protocol of the extraction client
 (src/impact/ingest/github_client.py) as a step system: worker threads that may be preempted
 between any two lock acquisitions or file operations, and a process that may crash at any step and
 restart from the flushed ledger. Sleeping, retrying and rate limits change none of the state here.
 */
module Client {
  import opened Collections
  import opened Ledger

  /** A request's response file: absent, open or half written, or a complete body. */
  datatype File = Torn | Good(body: string)

  datatype Reply = Body(hash: string, body: string) | Nothing

  /** Where one worker is inside `graphql` or `rest`. */
  datatype Pc =
    | Idle
    | Loading(entity: string, hash: string)               // the ledger says ok: read the file
    | Fetching(entity: string, hash: string)              // ask the server, retrying
    | Fetched(entity: string, hash: string, body: string) // good payload, nothing written yet
    | Storing(entity: string, hash: string, body: string) // the response file is open
    | Bumping(row: Row, reply: Reply)                     // first lock of _record_page
    | Recording(row: Row, reply: Reply)                   // second lock of _record_page
    | Checking(row: Row, reply: Reply)                    // flush_ledger(force=False)

  /** `offline`, the worker count and LEDGER_FLUSH_EVERY. */
  datatype Params = Params(offline: bool, workers: nat, flushEvery: nat)

  const LEDGER_FLUSH_EVERY: nat := 200

  /**
   `mixed` holds the files that several workers have had open for writing at the same time.
   `served`, `answered`, `stored`, `returned`, `dirty`, `records` and `carry` are history: the bodies the
   server ever gave, how it answered which request, what was ever completely written, what `graphql` ever
   returned, and, since the last flush or restart, the hashes recorded, the number of records and how many
   workers were between the two locks at that moment.
   */
  datatype State = State(
    files: map<(string, string), File>,
    mixed: set<(string, string)>,
    disk: seq<Row>,
    rows: seq<Row>,
    pending: nat,
    workers: seq<Pc>,
    served: set<(string, string)>,
    answered: set<(string, string, Status)>,
    stored: set<(string, string, string)>,
    returned: set<(string, string)>,
    dirty: set<string>,
    records: nat,
    carry: nat)

  datatype Step =
    | Begin(w: nat, entity: string, hash: string, force: bool)
    | Load(w: nat)
    | ServerOk(w: nat, body: string)
    | ServerNotFound(w: nat)                  // rest: HTTP 404, recorded and flush-checked
    | ServerError(w: nat, status: Status)     // recorded, then raised without a flush check
    | GiveUp(w: nat)                          // attempts exhausted, or an unrecorded HTTP error
    | OpenFile(w: nat)
    | Scribble(w: nat)                        // a partial write reaches the disk
    | CloseFile(w: nat, clean: bool)
    | Bump(w: nat)
    | Record(w: nat)
    | FlushCheck(w: nat)
    | ForceFlush
    | Crash

  function Recordings(ws: seq<Pc>): nat {
    if ws == [] then 0 else Recordings(ws[1..]) + if ws[0].Recording? then 1 else 0
  }

  function Flushed(s: State): State {
    s.(disk := s.rows, pending := 0, dirty := {}, records := 0, carry := Recordings(s.workers))
  }

  ghost predicate AnotherStoring(s: State, w: nat, entity: string, hash: string) {
    exists v :: 0 <= v < |s.workers| && v != w && s.workers[v].Storing? &&
                s.workers[v].entity == entity && s.workers[v].hash == hash
  }

  /** Forced flushes come from the calling thread, after the pool has been joined: no request is under way. */
  ghost predicate AllIdle(s: State) {
    forall v :: 0 <= v < |s.workers| ==> s.workers[v].Idle?
  }

  ghost predicate Enabled(p: Params, s: State, step: Step) {
    match step
    case Begin(w, _, h, _) => w < |s.workers| && s.workers[w].Idle? && h != ""
    case Load(w) => w < |s.workers| && s.workers[w].Loading?
    case ServerOk(w, _) => w < |s.workers| && s.workers[w].Fetching?
    case ServerNotFound(w) => w < |s.workers| && s.workers[w].Fetching?
    case ServerError(w, status) =>
      w < |s.workers| && s.workers[w].Fetching? && (status == HttpError || status == GraphqlError)
    case GiveUp(w) => w < |s.workers| && s.workers[w].Fetching?
    case OpenFile(w) => w < |s.workers| && s.workers[w].Fetched?
    case Scribble(w) => w < |s.workers| && s.workers[w].Storing?
    case CloseFile(w, clean) =>
      // Writers that had one file open together may leave any mixture behind; a lone writer leaves its body.
      w < |s.workers| && s.workers[w].Storing? && (!clean ==> (s.workers[w].entity, s.workers[w].hash) in s.mixed)
    case Bump(w) => w < |s.workers| && s.workers[w].Bumping?
    case Record(w) => w < |s.workers| && s.workers[w].Recording?
    case FlushCheck(w) => w < |s.workers| && s.workers[w].Checking?
    case ForceFlush => AllIdle(s)
    case Crash => true
  }

  function Goto(s: State, w: nat, pc: Pc): State
    requires w < |s.workers|
  {
    s.(workers := s.workers[w := pc])
  }

  function Return(s: State, w: nat, reply: Reply): State
    requires w < |s.workers|
  {
    var t := Goto(s, w, Idle);
    if reply.Body? then t.(returned := s.returned + {(reply.hash, reply.body)}) else t
  }

  ghost function Apply(p: Params, s: State, step: Step): State
    requires Enabled(p, s, step)
  {
    match step
    case Begin(w, e, h, force) =>
      if !force && Succeeds(s.rows, h) then Goto(s, w, Loading(e, h))
      else if p.offline then s // raises
      else Goto(s, w, Fetching(e, h))
    case Load(w) =>
      var e, h := s.workers[w].entity, s.workers[w].hash;
      if (e, h) in s.files && s.files[(e, h)].Good? then Return(s, w, Body(h, s.files[(e, h)].body))
      else if p.offline then Goto(s, w, Idle) // raises
      else Goto(s, w, Fetching(e, h))
    case ServerOk(w, body) =>
      var e, h := s.workers[w].entity, s.workers[w].hash;
      Goto(s, w, Fetched(e, h, body)).(served := s.served + {(h, body)}, answered := s.answered + {(e, h, Ok)})
    case ServerNotFound(w) =>
      var e, h := s.workers[w].entity, s.workers[w].hash;
      Goto(s, w, Bumping(Row(h, e, NotFound), Nothing)).(answered := s.answered + {(e, h, NotFound)})
    case ServerError(w, status) =>
      var e, h := s.workers[w].entity, s.workers[w].hash;
      Goto(s, w, Bumping(Row(h, e, status), Nothing)).(answered := s.answered + {(e, h, status)})
    case GiveUp(w) => Goto(s, w, Idle)
    case OpenFile(w) =>
      var e, h, b := s.workers[w].entity, s.workers[w].hash, s.workers[w].body;
      Goto(s, w, Storing(e, h, b))
      .(files := s.files[(e, h) := Torn],
        mixed := if AnotherStoring(s, w, e, h) then s.mixed + {(e, h)} else s.mixed - {(e, h)})
    case Scribble(w) => s.(files := s.files[(s.workers[w].entity, s.workers[w].hash) := Torn])
    case CloseFile(w, clean) =>
      var e, h, b := s.workers[w].entity, s.workers[w].hash, s.workers[w].body;
      Goto(s, w, Bumping(Row(h, e, Ok), Body(h, b)))
      .(files := s.files[(e, h) := if clean then Good(b) else Torn], stored := s.stored + {(e, h, b)})
    case Bump(w) =>
      Goto(s, w, Recording(s.workers[w].row, s.workers[w].reply)).(pending := s.pending + 1)
    case Record(w) =>
      var row, reply := s.workers[w].row, s.workers[w].reply;
      var flushNext := row.status == Ok || row.status == NotFound;
      Goto(s, w, if flushNext then Checking(row, reply) else Idle)
      .(rows := Recorded(s.rows, row), dirty := s.dirty + {row.hash}, records := s.records + 1)
    case FlushCheck(w) =>
      var reply := s.workers[w].reply;
      var t := Return(s, w, reply);
      if s.pending < p.flushEvery then t else Flushed(t)
    case ForceFlush => Flushed(s)
    case Crash => Restarted(p, s)
  }

  /** A new process: the ledger is what was flushed; counters and workers start afresh. */
  function Restarted(p: Params, s: State): State {
    s.(mixed := {}, rows := s.disk, pending := 0, workers := seq(p.workers, _ => Idle), dirty := {}, records := 0,
      carry := 0)
  }

  ghost predicate Init(p: Params, s: State) {
    s == State(map[], {}, [], [], 0, seq(p.workers, _ => Idle), {}, {}, {}, {}, {}, 0, 0)
  }

  ghost predicate Next(p: Params, s: State, s': State) {
    exists step :: Enabled(p, s, step) && s' == Apply(p, s, step)
  }

  /** Any interleaving of any requests, with any crashes. */
  ghost predicate IsRun(p: Params, run: seq<State>) {
    && run != []
    && Init(p, run[0])
    && forall i :: 0 <= i < |run| - 1 ==> Next(p, run[i], run[i + 1])
  }

  // ----- the invariant -----

  /** The row's body was written out completely before, and its file is still there. */
  ghost predicate Backed(s: State, row: Row) {
    row.status == Ok ==>
      (row.entity, row.hash) in s.files && exists b :: (row.entity, row.hash, b) in s.stored
  }

  ghost predicate ReplyServed(s: State, reply: Reply) {
    reply.Body? ==> (reply.hash, reply.body) in s.served
  }

  /** The row says how the server answered the request. */
  predicate Answered(s: State, row: Row) { (row.entity, row.hash, row.status) in s.answered }

  /** A reply goes with an ok row of its request, and no reply with any other. */
  predicate RightReply(row: Row, reply: Reply) {
    if row.status == Ok then reply.Body? && reply.hash == row.hash else reply.Nothing?
  }

  ghost predicate PageOk(s: State, row: Row, reply: Reply) {
    row.hash != "" && Answered(s, row) && Backed(s, row) && ReplyServed(s, reply) && RightReply(row, reply)
  }

  ghost predicate PcOk(s: State, pc: Pc) {
    match pc
    case Idle => true
    case Loading(_, h) => h != ""
    case Fetching(_, h) => h != ""
    case Fetched(e, h, b) => h != "" && (h, b) in s.served && (e, h, Ok) in s.answered
    case Storing(e, h, b) => h != "" && (h, b) in s.served && (e, h, Ok) in s.answered && (e, h) in s.files
    case Bumping(row, reply) => PageOk(s, row, reply)
    case Recording(row, reply) => PageOk(s, row, reply)
    case Checking(row, reply) => PageOk(s, row, reply) && (row.status == Ok || row.status == NotFound)
  }

  ghost predicate Bodies(p: Params, s: State) {
    && |s.workers| == p.workers
    && (forall w :: 0 <= w < |s.workers| ==> PcOk(s, s.workers[w]))
    && (forall k :: k in s.files && s.files[k].Good? ==> (k.1, s.files[k].body) in s.served)
    && (forall row :: row in s.rows || row in s.disk ==> row.hash != "" && Answered(s, row) && Backed(s, row))
    && s.returned <= s.served
    && (forall e, h, b :: (e, h, b) in s.stored ==> (h, b) in s.served)
  }

  ghost predicate Books(p: Params, s: State) {
    && OneRowPerHash(s.rows) && OneRowPerHash(s.disk)
    && s.records + Recordings(s.workers) == s.pending + s.carry
    && (s.carry == 0 || s.carry < p.workers)
    && |s.dirty| <= s.records
    && (forall h :: h in s.dirty ==> h != "" && Lookup(s.rows, h).Some?)
    && (forall h :: h !in s.dirty && h != "" ==> Lookup(s.rows, h) == Lookup(s.disk, h))
  }

  lemma {:induction false} RecordingsUpdate(ws: seq<Pc>, w: nat, pc: Pc)
    requires w < |ws|
    ensures Recordings(ws[w := pc]) + (if ws[w].Recording? then 1 else 0)
         == Recordings(ws) + (if pc.Recording? then 1 else 0)
  {
    if w == 0 {
      assert ws[w := pc][1..] == ws[1..];
    } else {
      assert ws[w := pc][1..] == ws[1..][w - 1 := pc];
      RecordingsUpdate(ws[1..], w - 1, pc);
    }
  }

  lemma {:induction false} RecordingsBound(ws: seq<Pc>)
    ensures Recordings(ws) <= |ws|
    ensures (exists v :: 0 <= v < |ws| && !ws[v].Recording?) ==> Recordings(ws) < |ws|
    ensures (forall v :: 0 <= v < |ws| ==> ws[v].Idle?) ==> Recordings(ws) == 0
  {
    if ws != [] {
      RecordingsBound(ws[1..]);
      if v :| 0 <= v < |ws| && !ws[v].Recording? {
        if v > 0 { assert ws[1..][v - 1] == ws[v]; }
      }
      assert forall v :: 0 <= v < |ws[1..]| ==> ws[1..][v] == ws[v + 1];
    }
  }

  lemma {:induction false} NobodyRecording(n: nat)
    ensures Recordings(seq(n, _ => Idle)) == 0
  {
    if n > 0 {
      assert seq(n, _ => Idle)[1..] == seq(n - 1, _ => Idle);
      NobodyRecording(n - 1);
    }
  }

  /** Nothing that was served, stored or given a file is ever forgotten. */
  ghost predicate Grows(s: State, s': State) {
    s.served <= s'.served && s.answered <= s'.answered && s.stored <= s'.stored && s.files.Keys <= s'.files.Keys
  }

  lemma PcOkGrows(s: State, s': State, pc: Pc)
    requires Grows(s, s') && PcOk(s, pc)
    ensures PcOk(s', pc)
  {
  }

  lemma BackedGrows(s: State, s': State, row: Row)
    requires Grows(s, s') && Answered(s, row) && Backed(s, row)
    ensures Answered(s', row) && Backed(s', row)
  {
    if row.status == Ok {
      var b :| (row.entity, row.hash, b) in s.stored;
      assert (row.entity, row.hash, b) in s'.stored;
    }
  }

  /** The files hold only what the server gave, and so does everything returned or stored. */
  ghost predicate FilesServed(s: State) {
    && (forall k :: k in s.files && s.files[k].Good? ==> (k.1, s.files[k].body) in s.served)
    && s.returned <= s.served
    && (forall e, h, b :: (e, h, b) in s.stored ==> (h, b) in s.served)
  }

  lemma BodiesFromGrowth(p: Params, s: State, s': State)
    requires Bodies(p, s) && Grows(s, s') && FilesServed(s') && |s'.workers| == p.workers
    requires forall w :: 0 <= w < |s'.workers| ==> s'.workers[w] == s.workers[w] || PcOk(s', s'.workers[w])
    requires forall row :: row in s'.rows || row in s'.disk ==>
               row in s.rows || row in s.disk || (row.hash != "" && Answered(s', row) && Backed(s', row))
    ensures Bodies(p, s')
  {
    forall w | 0 <= w < |s'.workers| ensures PcOk(s', s'.workers[w]) {
      if s'.workers[w] == s.workers[w] { PcOkGrows(s, s', s.workers[w]); }
    }
    forall row | row in s'.rows || row in s'.disk ensures row.hash != "" && Answered(s', row) && Backed(s', row) {
      if row in s.rows || row in s.disk { BackedGrows(s, s', row); }
    }
  }

  lemma BodiesRecord(p: Params, s: State, w: nat)
    requires Bodies(p, s) && Enabled(p, s, Record(w))
    ensures Bodies(p, Apply(p, s, Record(w)))
  {
    var s' := Apply(p, s, Record(w));
    var row := s.workers[w].row;
    assert PcOk(s, s.workers[w]);
    BackedGrows(s, s', row);
    assert forall r :: r in s'.rows ==> r in s.rows || r == row;
    BodiesFromGrowth(p, s, s');
  }

  lemma BodiesFileStep(p: Params, s: State, step: Step)
    requires Bodies(p, s) && Enabled(p, s, step)
    requires step.OpenFile? || step.Scribble? || step.CloseFile?
    ensures Bodies(p, Apply(p, s, step))
  {
    var s' := Apply(p, s, step);
    var pc := s.workers[step.w];
    assert PcOk(s, pc);
    if step.CloseFile? { assert (pc.entity, pc.hash, pc.body) in s'.stored; }
    BodiesFromGrowth(p, s, s');
  }

  lemma BodiesStep(p: Params, s: State, step: Step)
    requires Bodies(p, s) && Enabled(p, s, step)
    ensures Bodies(p, Apply(p, s, step))
  {
    var s' := Apply(p, s, step);
    match step
    case OpenFile(_) => BodiesFileStep(p, s, step);
    case Scribble(_) => BodiesFileStep(p, s, step);
    case CloseFile(_, _) => BodiesFileStep(p, s, step);
    case Record(w) => BodiesRecord(p, s, w);
    case ForceFlush => BodiesFromGrowth(p, s, s');
    case Crash => BodiesFromGrowth(p, s, s');
    case _ => BodiesMove(p, s, step);
  }

  lemma BodiesMove(p: Params, s: State, step: Step)
    requires Bodies(p, s) && Enabled(p, s, step)
    requires !step.OpenFile? && !step.Scribble? && !step.CloseFile? && !step.Record? && !step.ForceFlush?
      && !step.Crash?
    ensures Bodies(p, Apply(p, s, step))
  {
    assert PcOk(s, s.workers[step.w]);
    BodiesFromGrowth(p, s, Apply(p, s, step));
  }

  lemma BooksRecord(p: Params, s: State, w: nat)
    requires Bodies(p, s) && Books(p, s) && Enabled(p, s, Record(w))
    ensures Books(p, Apply(p, s, Record(w)))
  {
    var s' := Apply(p, s, Record(w));
    var row := s.workers[w].row;
    assert PcOk(s, s.workers[w]);
    RecordingsUpdate(s.workers, w, s'.workers[w]);
    RecordedKeepsOneRowPerHash(s.rows, row);
    forall h | h != ""
      ensures Lookup(s'.rows, h) == if h == row.hash then Some(row) else Lookup(s.rows, h)
    {
      RecordedLookup(s.rows, row, h);
    }
  }

  /** A step that moves one worker and, for the first lock only, bumps the counter. */
  ghost predicate MovesOne(s: State, s': State, w: nat, pc: Pc) {
    && w < |s.workers|
    && s'.workers == s.workers[w := pc]
    && s'.rows == s.rows && s'.disk == s.disk && s'.dirty == s.dirty
    && s'.records == s.records && s'.carry == s.carry
    && !s.workers[w].Recording?
    && s'.pending == s.pending + if pc.Recording? then 1 else 0
  }

  lemma BooksMove(p: Params, s: State, s': State, w: nat, pc: Pc)
    requires Books(p, s) && MovesOne(s, s', w, pc)
    ensures Books(p, s')
  {
    RecordingsUpdate(s.workers, w, pc);
  }

  lemma BooksFlush(p: Params, s: State)
    requires Books(p, s) && |s.workers| == p.workers
    requires AllIdle(s) || exists v :: 0 <= v < |s.workers| && s.workers[v].Idle?
    ensures Books(p, Flushed(s))
  {
    RecordingsBound(s.workers);
  }

  lemma StepMovesOne(p: Params, s: State, step: Step)
    requires Enabled(p, s, step)
    requires !step.ForceFlush? && !step.Crash? && !step.Record? && !step.FlushCheck?
    ensures step.w < |s.workers|
    ensures Apply(p, s, step).workers == s.workers
      || MovesOne(s, Apply(p, s, step), step.w, Apply(p, s, step).workers[step.w])
  {
  }

  lemma BooksStep(p: Params, s: State, step: Step)
    requires Bodies(p, s) && Books(p, s) && Enabled(p, s, step)
    ensures Books(p, Apply(p, s, step))
  {
    match step
    case ForceFlush => BooksFlush(p, s);
    case Crash => NobodyRecording(p.workers);
    case Record(w) => BooksRecord(p, s, w);
    case FlushCheck(w) =>
      var t := Return(s, w, s.workers[w].reply);
      BooksMove(p, s, t, w, Idle);
      assert t.workers[w].Idle?;
      BooksFlush(p, t);
    case _ => BooksOtherStep(p, s, step);
  }

  lemma BooksOtherStep(p: Params, s: State, step: Step)
    requires Books(p, s) && Enabled(p, s, step)
    requires !step.ForceFlush? && !step.Crash? && !step.Record? && !step.FlushCheck?
    ensures Books(p, Apply(p, s, step))
  {
    StepMovesOne(p, s, step);
    var s' := Apply(p, s, step);
    if s'.workers != s.workers { BooksMove(p, s, s', step.w, s'.workers[step.w]); }
  }

  // ----- every run -----

  lemma {:induction false} RunKeepsInvariant(p: Params, run: seq<State>, n: nat)
    requires IsRun(p, run) && n < |run|
    ensures Bodies(p, run[n]) && Books(p, run[n])
  {
    if n == 0 {
      NobodyRecording(p.workers);
    } else {
      RunKeepsInvariant(p, run, n - 1);
      assert Next(p, run[n - 1], run[n - 1 + 1]);
      var step :| Enabled(p, run[n - 1], step) && run[n] == Apply(p, run[n - 1], step);
      BodiesStep(p, run[n - 1], step);
      BooksStep(p, run[n - 1], step);
    }
  }

  /**
   In every interleaving with any crashes: a row, in memory or on disk, says how the server answered its
   request; an ok row has a response file and a body that was completely written before; no request has two
   rows; and whatever `graphql` has returned, the server gave for that very request.
   */
  lemma PersistBeforeAdvancing(p: Params, run: seq<State>, n: nat)
    requires IsRun(p, run) && n < |run|
    ensures forall row ::
      row in run[n].rows || row in run[n].disk ==> (row.entity, row.hash, row.status) in run[n].answered
    ensures forall row :: (row in run[n].rows || row in run[n].disk) && row.status == Ok ==>
              && (row.entity, row.hash) in run[n].files
              && exists b :: (row.entity, row.hash, b) in run[n].stored && (row.hash, b) in run[n].served
    ensures OneRowPerHash(run[n].rows) && OneRowPerHash(run[n].disk)
    ensures forall h, b :: (h, b) in run[n].returned ==> (h, b) in run[n].served
  {
    RunKeepsInvariant(p, run, n);
    var s := run[n];
    forall row | (row in s.rows || row in s.disk) && row.status == Ok
      ensures exists b :: (row.entity, row.hash, b) in s.stored && (row.hash, b) in s.served
    {
      assert Backed(s, row);
      var b :| (row.entity, row.hash, b) in s.stored;
    }
  }

  /**
   A request comes to its flush check exactly for an answer that was ok or 404, which the server gave: after
   any run, a worker whose row is being recorded goes on to the check, or else raises and flushes nothing.
   */
  lemma OnlyGoodAnswersAreChecked(p: Params, run: seq<State>, n: nat, w: nat)
    requires IsRun(p, run) && n < |run| && w < |run[n].workers|
    ensures run[n].workers[w].Checking? ==>
              var row := run[n].workers[w].row;
              (row.entity, row.hash, row.status) in run[n].answered && (row.status == Ok || row.status == NotFound)
    ensures Enabled(p, run[n], Record(w)) ==>
              var row, next := run[n].workers[w].row, Apply(p, run[n], Record(w));
              && (row.entity, row.hash, row.status) in run[n].answered
              && (if row.status == HttpError || row.status == GraphqlError
                  then next.workers[w].Idle? && next.disk == run[n].disk && next.returned == run[n].returned
                  else next.workers[w].Checking?)
  {
    RunKeepsInvariant(p, run, n);
    assert PcOk(run[n], run[n].workers[w]);
  }

  /** The last state of some run. */
  ghost predicate Reachable(p: Params, s: State) {
    exists run :: IsRun(p, run) && run[|run| - 1] == s
  }

  lemma InitReachable(p: Params, s: State)
    requires Init(p, s)
    ensures Reachable(p, s)
  {
    assert IsRun(p, [s]) && [s][0] == s;
  }

  lemma StepReachable(p: Params, s: State, step: Step)
    requires Reachable(p, s) && Enabled(p, s, step)
    ensures Reachable(p, Apply(p, s, step))
  {
    var run :| IsRun(p, run) && run[|run| - 1] == s;
    var longer := run + [Apply(p, s, step)];
    forall i | 0 <= i < |longer| - 1 ensures Next(p, longer[i], longer[i + 1]) {
      if i < |run| - 1 { assert Next(p, run[i], run[i + 1]); }
    }
    assert IsRun(p, longer) && longer[|longer| - 1] == Apply(p, s, step);
  }

  lemma ReachableInvariant(p: Params, s: State)
    requires Reachable(p, s)
    ensures Bodies(p, s) && Books(p, s)
  {
    var run :| IsRun(p, run) && run[|run| - 1] == s;
    RunKeepsInvariant(p, run, |run| - 1);
  }
}
