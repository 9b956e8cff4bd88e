/**
 Exactly which plain paths survive the parser of `git log --raw --numstat -z`
 (src/impact/ingest/git_source.py): the ones whose count token cannot be misread.
 */
module GitPaths {
  import opened Collections
  import opened GitStream
  import opened GitPrinter

  // ----- records that never get their counts -----

  /** The record at `i`, finished or still pending under the path `p`, has no counts. */
  ghost predicate Uncounted(st: State, i: nat, p: string) {
    || (i < |st.rows| && st.rows[i].counts == None)
    || (i >= |st.rows| && st.sha.Some? && i - |st.rows| < |st.order| && st.order[i - |st.rows|] == p
        && p in st.pending && st.pending[p].counts == None)
  }

  lemma UncountedClosed(st: State, i: nat, p: string)
    requires Uncounted(st, i, p)
    ensures i < |Closed(st)| && Closed(st)[i].counts == None
  {
    if i >= |st.rows| { assert Flushed(st)[i - |st.rows|] == st.pending[p]; }
  }

  lemma StoredElsewhere(st: State, key: string, record: Record, i: nat, p: string)
    requires Uncounted(st, i, p) && key != p
    ensures Uncounted(Stored(st, key, record), i, p)
  {
  }

  /** Finished records stay as they are. */
  lemma RoundExtends(tokens: seq<string>, st: State)
    requires tokens != []
    ensures st.rows <= NextRound(tokens, st).state.rows
  {
  }

  lemma {:induction false} LostForGood(tokens: seq<string>, st: State, i: nat)
    requires i < |st.rows| && st.rows[i].counts == None
    ensures i < |Parse(tokens, st)| && Parse(tokens, st)[i].counts == None
    decreases |tokens|
  {
    if tokens != [] {
      var r := NextRound(tokens, st);
      RoundExtends(tokens, st);
      LostForGood(Drop(tokens, r.taken), r.state, i);
    }
  }

  lemma {:induction false} RightTrimmed(s: string)
    ensures RightTrim(s, IsNewline) <= s
    ensures RightTrim(s, IsNewline) != "" ==> RightTrim(s, IsNewline)[|RightTrim(s, IsNewline)| - 1] != '\n'
    ensures RightTrim(s, IsNewline) == "" ==> Newlines(s)
  {
    if s != "" { RightTrimmed(s[..|s| - 1]); }
  }

  lemma {:induction false} CutParts(s: string)
    ensures CutTab(s).Some? ==> s == CutTab(s).value.0 + ("\t" + CutTab(s).value.1)
  {
    if s != "" && s[0] != '\t' { CutParts(s[1..]); }
  }

  /** The rest of a count record is a tail of its text, so it ends as the stripped text does. */
  lemma RestEndsAlike(s: string)
    requires Numstat(s).Some? && Numstat(s).value.2 != ""
    ensures s != "" && s[|s| - 1] == Numstat(s).value.2[|Numstat(s).value.2| - 1]
  {
    CutParts(s);
    CutParts(CutTab(s).value.1);
  }

  lemma CountKeyElsewhere(token: string, p: string)
    requires p != "" && p[|p| - 1] == '\n'
    ensures var s := Trim(token, IsNewline); Numstat(s).Some? ==> Numstat(s).value.2 != p
  {
    var s := Trim(token, IsNewline);
    RightTrimmed(LeftTrim(token, IsNewline));
    if Numstat(s).Some? && Numstat(s).value.2 != "" { RestEndsAlike(s); }
  }

  lemma KeyElsewhere(tokens: seq<string>, a: nat, b: nat, p: string)
    requires p != "" && p !in tokens
    ensures KeyOf(At(tokens, a), At(tokens, b)) != p
  {
  }

  /** A round files nothing under a path that ends in a newline and is not a token. */
  lemma UncountedRound(tokens: seq<string>, st: State, i: nat, p: string)
    requires tokens != [] && Uncounted(st, i, p) && p !in tokens && p != "" && p[|p| - 1] == '\n'
    ensures Uncounted(NextRound(tokens, st).state, i, p)
  {
    var stripped := Trim(tokens[0], IsNewline);
    if After(tokens[0], REC).Some? {
      UncountedClosed(st, i, p);
    } else if stripped != "" {
      KeyElsewhere(tokens, 1, 1, p);
      KeyElsewhere(tokens, 1, 2, p);
      CountKeyElsewhere(tokens[0], p);
      NumstatShape(stripped);
    }
  }

  lemma {:induction false} NeverCounted(tokens: seq<string>, st: State, i: nat, p: string)
    requires Uncounted(st, i, p) && p !in tokens && p != "" && p[|p| - 1] == '\n'
    ensures i < |Parse(tokens, st)| && Parse(tokens, st)[i].counts == None
    decreases |tokens|
  {
    if tokens == [] {
      UncountedClosed(st, i, p);
    } else {
      var r := NextRound(tokens, st);
      UncountedRound(tokens, st, i, p);
      NeverCounted(Drop(tokens, r.taken), r.state, i, p);
    }
  }

  // ----- the parser as a value, unfolded only where a proof says so -----

  ghost predicate Agrees(parse: Parser, tokens: seq<string>, st: State) {
    parse(tokens, st) == Parse(tokens, st)
  }

  ghost predicate IsParser(parse: Parser) {
    ReadsUnits(parse) && forall tokens, st {:trigger Agrees(parse, tokens, st)} :: Agrees(parse, tokens, st)
  }

  lemma TheParser() returns (parse: Parser)
    ensures IsParser(parse)
  {
    parse := ParserReadsUnits();
  }

  ghost predicate Loses(parse: Parser, tokens: seq<string>, st: State, i: nat) {
    i < |parse(tokens, st)| && parse(tokens, st)[i].counts == None
  }

  // ----- a commit with a path that does not survive -----

  /** A plain path the parser misreads. */
  predicate Bad(ch: Change) { !TwoPaths(ch) && !PlainPath(ch.newPath) }

  /** Until the first change that is not read as one record, the counts of `p` are filed elsewhere. */
  lemma {:induction false} KeyIsOther(c: Commit, i: nat, j: nat)
    requires Sound(c) && i < |c.changes| && j < |c.changes| && Aligned(c.changes[i]) && Bad(c.changes[j])
    ensures CountKey(c.changes[i]) != c.changes[j].newPath
  {
    var a, b := c.changes[i], c.changes[j];
    if TwoPaths(a) {
      if i < j {
        assert c.changes[i].newPath != c.changes[j].newPath;
      } else {
        assert c.changes[j].newPath != c.changes[i].newPath;
      }
    } else {
      RightTrimmed(a.newPath);
    }
  }

  lemma CountsElsewhere(c: Commit, m: nat, j: nat, st: State, i: nat)
    requires Sound(c) && m < |c.changes| && j < |c.changes| && Aligned(c.changes[m]) && Bad(c.changes[j])
    requires Uncounted(st, i, c.changes[j].newPath)
    ensures Uncounted(AfterCounts(c.changes[m], st), i, c.changes[j].newPath)
  {
    var ch := c.changes[m];
    KeyIsOther(c, m, j);
    StoredElsewhere(st, CountKey(ch), Existing(st, CountKey(ch)).(counts := Some(CountsOf(ch.counts))), i,
      c.changes[j].newPath);
  }

  lemma {:induction false} CountStep(parse: Parser, ch: Change, rest: seq<string>, st: State)
    requires ReadsUnits(parse) && Aligned(ch)
    ensures parse(PrintCounts(ch) + rest, st) == parse(rest, AfterCounts(ch, st))
  {
    assert CountUnit(parse, ch, rest, st);
  }

  lemma {:induction false} CountsPass(parse: Parser, c: Commit, m: nat, k: nat, st: State,
                                      rest: seq<string>, i: nat, j: nat) returns (st': State)
    requires ReadsUnits(parse) && Sound(c) && m <= k <= |c.changes| && j < |c.changes| && Bad(c.changes[j])
    requires forall l :: m <= l < k ==> Aligned(c.changes[l])
    requires Uncounted(st, i, c.changes[j].newPath)
    ensures Uncounted(st', i, c.changes[j].newPath)
    ensures parse(PrintAllCounts(c.changes[m..]) + rest, st) == parse(PrintAllCounts(c.changes[k..]) + rest, st')
    decreases k - m
  {
    if m == k {
      st' := st;
    } else {
      CountsElsewhere(c, m, j, st, i);
      NextCounts(c.changes, m, rest);
      CountStep(parse, c.changes[m], PrintAllCounts(c.changes[m + 1..]) + rest, st);
      st' := CountsPass(parse, c, m + 1, k, AfterCounts(c.changes[m], st), rest, i, j);
    }
  }

  lemma {:induction false} UncountedAtFirst(c: Commit, rows: seq<Record>, st: State, j: nat)
    requires Reading(c, rows, |c.changes|, 0, st) && j < |c.changes|
    ensures Uncounted(st, |rows| + j, c.changes[j].newPath)
  {
  }

  lemma {:induction false} FoundMarker(s: string)
    requires REC in s
    ensures After(s, REC).Some?
  {
    if s[0] != REC { FoundMarker(s[1..]); }
  }

  /** A count token whose path holds the record separator is read as the header of another commit. */
  lemma {:induction false} ReadAsHeader(ch: Change, rest: seq<string>, st: State, i: nat)
    requires !TwoPaths(ch) && REC in ch.newPath && Uncounted(st, i, ch.newPath)
    ensures var rows := Parse(PrintCounts(ch) + rest, st); i < |rows| && rows[i].counts == None
  {
    var tokens := PrintCounts(ch) + rest;
    var k :| 0 <= k < |ch.newPath| && ch.newPath[k] == REC;
    var before := ch.countLead + (Added(ch.counts) + "\t" + (Deleted(ch.counts) + "\t"));
    assert tokens[0] == before + ch.newPath;
    assert tokens[0][|before| + k] == REC;
    FoundMarker(tokens[0]);
    UncountedClosed(st, i, ch.newPath);
    LostForGood(Drop(tokens, 1), Marker(tokens[0], st), i);
  }

  /** A path of newlines only leaves the count token without a path: its counts go to some later token. */
  lemma {:induction false} ReadAsRename(ch: Change, rest: seq<string>, st: State, i: nat)
    requires Printable(ch) && !TwoPaths(ch) && Newlines(ch.newPath) && Uncounted(st, i, ch.newPath)
      && ch.newPath !in rest
    ensures var rows := Parse(PrintCounts(ch) + rest, st); i < |rows| && rows[i].counts == None
  {
    var t := ch.countLead + CountText(ch, ch.newPath);
    assert t[|ch.countLead| + |Added(ch.counts)|] == '\t';
    assert t != ch.newPath;
    NeverCounted(PrintCounts(ch) + rest, st, i, ch.newPath);
  }

  /** After a commit's counts, the next header or the end of the log finishes its records. */
  lemma {:induction false} FinishAtHeader(glue: string, sha: string, rest: seq<string>, st: State, i: nat, p: string)
    requires REC !in glue && Word(sha) && Uncounted(st, i, p)
    ensures var rows := Parse([Header(glue, sha)] + rest, st); i < |rows| && rows[i].counts == None
  {
    ReadHeader(glue, sha, rest, st);
    UncountedClosed(st, i, p);
    LostForGood(rest, State(Some(sha), map[], [], Closed(st)), i);
  }

  lemma {:induction false} LogStarts(commits: seq<Commit>) returns (rest: seq<string>)
    requires commits != []
    ensures PrintLog(commits) == [Header(commits[0].glue, commits[0].sha)] + rest
  {
    var c := commits[0];
    var body := PrintRaws(c.changes) + (PrintAllCounts(c.changes) + c.trail);
    Regroup([Header(c.glue, c.sha)], body, PrintLog(commits[1..]));
    rest := body + PrintLog(commits[1..]);
  }

  /** Whatever is pending without counts when `log` is read stays without them. */
  ghost predicate Finishes(parse: Parser, log: seq<string>, st: State, i: nat, p: string) {
    Uncounted(st, i, p) ==> Loses(parse, log, st, i)
  }

  ghost predicate FinishesAll(parse: Parser, log: seq<string>) {
    forall st, i, p {:trigger Finishes(parse, log, st, i, p)} :: Finishes(parse, log, st, i, p)
  }

  lemma {:induction false} FinishCommit(parse: Parser, later: seq<Commit>)
    requires IsParser(parse) && (later != [] ==> Sound(later[0]))
    ensures FinishesAll(parse, PrintLog(later))
  {
    if later == [] {
      forall st, i, p ensures Finishes(parse, PrintLog(later), st, i, p) {
        assert Agrees(parse, PrintLog(later), st);
        if Uncounted(st, i, p) { UncountedClosed(st, i, p); }
      }
    } else {
      var rest := LogStarts(later);
      var glue, sha := later[0].glue, later[0].sha;
      forall st, i, p ensures Finishes(parse, [Header(glue, sha)] + rest, st, i, p) {
        assert Agrees(parse, [Header(glue, sha)] + rest, st);
        if Uncounted(st, i, p) { FinishAtHeader(glue, sha, rest, st, i, p); }
      }
    }
  }

  /** A path of newlines only is not a token after its own count token. */
  ghost predicate Silent(c: Commit, later: seq<string>) {
    forall j :: 0 <= j < |c.changes| && Bad(c.changes[j]) && Newlines(c.changes[j].newPath) ==>
      c.changes[j].newPath !in PrintAllCounts(c.changes[j + 1..]) + (c.trail + later)
  }

  /** The first change whose counts are not read as one record, if there is one. */
  function FirstStop(changes: seq<Change>): (k: nat)
    ensures k <= |changes| && (k < |changes| ==> !Aligned(changes[k]))
    ensures forall l :: 0 <= l < k ==> Aligned(changes[l])
  {
    if changes == [] || !Aligned(changes[0]) then 0 else FirstStop(changes[1..]) + 1
  }

  /** At the first such change, the counts of its path are lost. */
  lemma {:induction false} LostAtStop(parse: Parser, c: Commit, k: nat, later: seq<string>, st: State, i: nat)
    requires IsParser(parse) && Sound(c) && Silent(c, later) && k < |c.changes| && !Aligned(c.changes[k])
      && Uncounted(st, i, c.changes[k].newPath)
    ensures Loses(parse, PrintAllCounts(c.changes[k..]) + (c.trail + later), st, i)
  {
    var ch, rest := c.changes[k], PrintAllCounts(c.changes[k + 1..]) + (c.trail + later);
    NextCounts(c.changes, k, c.trail + later);
    assert Agrees(parse, PrintCounts(ch) + rest, st);
    if REC in ch.newPath {
      ReadAsHeader(ch, rest, st, i);
    } else {
      RightTrimmed(ch.newPath);
      ReadAsRename(ch, rest, st, i);
    }
  }

  lemma {:induction false} LostAfter(parse: Parser, c: Commit, later: seq<string>, k: nat, j: nat, st: State, i: nat)
    requires IsParser(parse) && Sound(c) && Silent(c, later) && FinishesAll(parse, later)
    requires k <= |c.changes| && j < |c.changes| && (k < |c.changes| ==> j == k && !Aligned(c.changes[k]))
    requires Uncounted(st, i, c.changes[j].newPath)
    ensures Loses(parse, PrintAllCounts(c.changes[k..]) + (c.trail + later), st, i)
  {
    if k < |c.changes| {
      LostAtStop(parse, c, k, later, st, i);
    } else {
      assert PrintAllCounts(c.changes[k..]) + (c.trail + later) == c.trail + later;
      ReadTrail(parse, c.trail, st, later);
      assert Finishes(parse, later, st, i, c.changes[j].newPath);
    }
  }

  /** Where the parser first goes astray in a commit, and a path that loses its counts for it. */
  ghost predicate Astray(c: Commit, k: nat, j: nat) {
    && k <= |c.changes| && j < |c.changes| && Bad(c.changes[j])
    && (forall l :: 0 <= l < k ==> Aligned(c.changes[l]))
    && (k < |c.changes| ==> j == k && !Aligned(c.changes[k]))
  }

  lemma {:induction false} GoesAstray(c: Commit, bad: nat) returns (k: nat, j: nat)
    requires Sound(c) && bad < |c.changes| && Bad(c.changes[bad])
    ensures Astray(c, k, j)
  {
    k := FirstStop(c.changes);
    j := if k < |c.changes| then k else bad;
    if k < |c.changes| { RightTrimmed(c.changes[k].newPath); }
  }

  lemma {:induction false} CountsAreLost(parse: Parser, c: Commit, later: seq<string>, k: nat, j: nat,
      st: State, i: nat)
    requires IsParser(parse) && Sound(c) && Silent(c, later) && FinishesAll(parse, later)
    requires Astray(c, k, j) && Uncounted(st, i, c.changes[j].newPath)
    ensures Loses(parse, PrintAllCounts(c.changes) + (c.trail + later), st, i)
  {
    var st' := CountsPass(parse, c, 0, k, st, c.trail + later, i, j);
    assert c.changes[0..] == c.changes;
    LostAfter(parse, c, later, k, j, st', i);
  }

  lemma {:induction false} CommitTokens(c: Commit, later: seq<string>)
    ensures PrintCommit(c) + later
         == [Header(c.glue, c.sha)] + (PrintRaws(c.changes) + (PrintAllCounts(c.changes) + (c.trail + later)))
  {
    RegroupCommit([Header(c.glue, c.sha)], PrintRaws(c.changes), PrintAllCounts(c.changes), c.trail, later);
  }

  lemma {:induction false} RawsRead(parse: Parser, c: Commit, st: State, tail: seq<string>, j: nat) returns (st': State)
    requires ReadsUnits(parse) && Sound(c) && j < |c.changes|
    ensures parse([Header(c.glue, c.sha)] + (PrintRaws(c.changes) + tail), st) == parse(tail, st')
    ensures Uncounted(st', |Closed(st)| + j, c.changes[j].newPath)
  {
    var st0 := ReadMarker(parse, c, st, PrintRaws(c.changes) + tail);
    assert c.changes[0..] == c.changes;
    st' := ReadRaws(parse, c, Closed(st), 0, st0, tail);
    UncountedAtFirst(c, Closed(st), st', j);
  }

  lemma {:induction false} UpToCounts(parse: Parser, c: Commit, st: State, later: seq<string>, j: nat)
      returns (st': State)
    requires ReadsUnits(parse) && Sound(c) && j < |c.changes|
    ensures parse(PrintCommit(c) + later, st) == parse(PrintAllCounts(c.changes) + (c.trail + later), st')
    ensures Uncounted(st', |Closed(st)| + j, c.changes[j].newPath)
  {
    CommitTokens(c, later);
    st' := RawsRead(parse, c, st, PrintAllCounts(c.changes) + (c.trail + later), j);
  }

  lemma {:induction false} RecordLost(parse: Parser, c: Commit, later: seq<string>, st: State, k: nat, j: nat)
    requires IsParser(parse) && Sound(c) && Silent(c, later) && FinishesAll(parse, later) && Astray(c, k, j)
    ensures Loses(parse, PrintCommit(c) + later, st, |Closed(st)| + j)
  {
    var st' := UpToCounts(parse, c, st, later, j);
    CountsAreLost(parse, c, later, k, j, st', |Closed(st)| + j);
  }

  /** A commit with a bad path: some record of it never gets its counts, whatever is printed later. */
  lemma {:induction false} BadCommit(parse: Parser, c: Commit, later: seq<string>, more: seq<Record>, st: State,
      bad: nat)
    requires IsParser(parse) && Sound(c) && Silent(c, later) && FinishesAll(parse, later)
    requires bad < |c.changes| && Bad(c.changes[bad])
    ensures parse(PrintCommit(c) + later, st) != (Closed(st) + Expected(c)) + more
  {
    var k, j := GoesAstray(c, bad);
    RecordLost(parse, c, later, st, k, j);
    CountsMissing(parse(PrintCommit(c) + later, st), c, Closed(st), more, |Closed(st)| + j);
  }

  lemma {:induction false} CountsMissing(all: seq<Record>, c: Commit, rows: seq<Record>, more: seq<Record>, i: nat)
    requires |rows| <= i < |rows| + |c.changes| && i < |all| && all[i].counts == None
    ensures all != (rows + Expected(c)) + more
  {
    assert ((rows + Expected(c)) + more)[i] == Expected(c)[i - |rows|];
  }

  // ----- the whole log -----

  ghost predicate NoEcho(commits: seq<Commit>) {
    commits == [] || (Silent(commits[0], PrintLog(commits[1..])) && NoEcho(commits[1..]))
  }

  ghost predicate AllPlain(commits: seq<Commit>) {
    forall i, j :: 0 <= i < |commits| && 0 <= j < |commits[i].changes| ==> !Bad(commits[i].changes[j])
  }

  lemma {:induction false} BadPathIsLost(parse: Parser, commits: seq<Commit>, st: State)
    requires IsParser(parse) && (forall i :: 0 <= i < |commits| ==> Sound(commits[i])) && NoEcho(commits)
      && !AllPlain(commits)
    ensures parse(PrintLog(commits), st) != Closed(st) + ExpectedLog(commits)
  {
    var c := commits[0];
    NextExpected(Closed(st), commits);
    if bad: nat :| bad < |c.changes| && Bad(c.changes[bad]) {
      FinishCommit(parse, commits[1..]);
      BadCommit(parse, c, PrintLog(commits[1..]), ExpectedLog(commits[1..]), st, bad);
    } else {
      var st' := ReadCommit(parse, c, st, PrintLog(commits[1..]));
      BadPathIsLost(parse, commits[1..], st');
    }
  }

  /**
   Exactness: a log comes back as printed if and only if no plain path holds the record separator (0x1E) or
   ends in a newline. Both are legal in file names. Rename paths may be anything. A path of newlines only must
   not be a token again after its counts, because the parser would then file some counts under it.
   */
  lemma {:induction false} PlainPathExact(commits: seq<Commit>)
    requires (forall i :: 0 <= i < |commits| ==> Sound(commits[i])) && NoEcho(commits)
    ensures Parsed(PrintLog(commits)) == ExpectedLog(commits) <==> AllPlain(commits)
  {
    if AllPlain(commits) {
      RoundTrip(commits);
    } else {
      var parse := TheParser();
      BadPathIsLost(parse, commits, START);
      assert Agrees(parse, PrintLog(commits), START);
      assert Closed(START) + ExpectedLog(commits) == ExpectedLog(commits);
    }
  }

  /** Why that is needed: the blank tokens after this file give its counts the path they lack. */
  lemma {:induction false} EchoedPathSurvives(c: Commit)
    requires Sound(c) && |c.changes| == 1 && !TwoPaths(c.changes[0]) && Newlines(c.changes[0].newPath)
    requires c.trail == ["", c.changes[0].newPath]
    ensures !AllPlain([c]) && Parsed(PrintLog([c])) == ExpectedLog([c])
  {
    var ch := c.changes[0];
    var st := AfterRaw(ch, State(Some(c.sha), map[], [], []));
    var tokens := PrintCounts(ch) + c.trail;
    assert Bad(ch) && [c][0] == c;
    OneFile(c);
    StrippedCounts(ch, ch.newPath);
    assert tokens[0] == ch.countLead + CountText(ch, ch.newPath);
    NoMarker(tokens[0]);
    TrimNewlines(ch.newPath);
    RightTrimNewlines(ch.newPath);
    NumstatOf(ch, "");
    CountWords(ch.counts);
    assert At(tokens, 1) == "" && At(tokens, 2) == ch.newPath;
    assert NextRound(tokens, st).taken == 3 && Drop(tokens, 3) == [];
    assert Closed(NextRound(tokens, st).state) == Expected(c);
    assert ExpectedLog([c]) == Expected(c);
  }

  lemma {:induction false} RightTrimNewlines(p: string)
    requires Newlines(p)
    ensures RightTrim(p, IsNewline) == ""
  {
    if p != "" { RightTrimNewlines(p[..|p| - 1]); }
  }

  lemma {:induction false} OneFile(c: Commit)
    requires Sound(c) && |c.changes| == 1
    ensures Parsed(PrintLog([c]))
         == Parse(PrintCounts(c.changes[0]) + c.trail, AfterRaw(c.changes[0], State(Some(c.sha), map[], [], [])))
  {
    var ch := c.changes[0];
    assert PrintRaws(c.changes) == PrintRaw(ch);
    assert PrintAllCounts(c.changes) == PrintCounts(ch);
    assert PrintLog([c]) == [Header(c.glue, c.sha)] + (PrintRaw(ch) + (PrintCounts(ch) + c.trail));
    ReadHeader(c.glue, c.sha, PrintRaw(ch) + (PrintCounts(ch) + c.trail), START);
    ReadRaw(ch, PrintCounts(ch) + c.trail, State(Some(c.sha), map[], [], []));
  }
}
