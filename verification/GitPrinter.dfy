/**
 What `git log --raw --numstat -z` prints, token by token, and the proof that the parser of GitStream
 reads it back: each commit's files once, in order, with status and line counts merged.
 */
module GitPrinter {
  import opened Collections
  import opened Decimal
  import opened GitStream

  datatype Counts = Binary | Lines(added: nat, deleted: nat)

  type Digits = s: string | AllDigits(s) witness ""

  /** One changed file. Git may put newlines (`rawLead`, `countLead`) before either of its tokens. */
  datatype Change = Change(
    status: char, score: Digits, oldMode: string, newMode: string, oldBlob: string, newBlob: string,
    oldPath: string, newPath: string, counts: Counts, rawLead: string, countLead: string)

  /** One commit. Text may be glued before its marker, and blank tokens may follow its files. */
  datatype Commit = Commit(glue: string, sha: string, changes: seq<Change>, trail: seq<string>)

  predicate Word(s: string) { s != "" && forall i :: 0 <= i < |s| ==> !IsSpace(s[i]) }

  predicate Newlines(s: string) { forall i :: 0 <= i < |s| ==> s[i] == '\n' }

  /** The one restriction on a plain path: the token that carries its counts must not be misread. */
  predicate PlainPath(p: string) { p != "" && REC !in p && p[|p| - 1] != '\n' }

  /** Git prints the old and the new path of a rename and of a copy, and one path of anything else. */
  predicate TwoPaths(ch: Change) { ch.status == 'R' || ch.status == 'C' }

  /** What git guarantees of a change, whatever its paths. */
  predicate Printable(ch: Change) {
    && 'A' <= ch.status <= 'Z'
    && Word(ch.oldMode) && Word(ch.newMode) && Word(ch.oldBlob) && Word(ch.newBlob)
    && Newlines(ch.rawLead) && Newlines(ch.countLead)
    && ch.oldPath != "" && ch.newPath != ""
    && (!TwoPaths(ch) ==> ch.oldPath == ch.newPath)
  }

  /** The path under which the parser files a change's counts, if it reads them at all. */
  function CountKey(ch: Change): string {
    if TwoPaths(ch) then ch.newPath else RightTrim(ch.newPath, IsNewline)
  }

  /** The change's count tokens are read as one record, though perhaps filed under another path. */
  predicate Aligned(ch: Change) {
    Printable(ch) && (!TwoPaths(ch) ==> REC !in ch.newPath && CountKey(ch) != "")
  }

  predicate WellFormedChange(ch: Change) {
    Printable(ch) && (!TwoPaths(ch) ==> PlainPath(ch.newPath))
  }

  /** A commit as git prints it, whatever its paths: each path once. */
  ghost predicate Sound(c: Commit) {
    && REC !in c.glue && Word(c.sha)
    && (forall i :: 0 <= i < |c.changes| ==> Printable(c.changes[i]))
    && (forall i, j :: 0 <= i < j < |c.changes| ==> c.changes[i].newPath != c.changes[j].newPath)
    && (forall i :: 0 <= i < |c.trail| ==> Newlines(c.trail[i]))
  }

  ghost predicate WellFormed(c: Commit) {
    Sound(c) && forall i :: 0 <= i < |c.changes| ==> WellFormedChange(c.changes[i])
  }

  // ----- printing -----

  function RawText(ch: Change): string {
    ch.oldMode + " " + (ch.newMode + " " + (ch.oldBlob + " " + (ch.newBlob + " " + ([ch.status] + ch.score))))
  }

  function PrintRaw(ch: Change): seq<string> {
    [ch.rawLead + (":" + RawText(ch))] + if TwoPaths(ch) then [ch.oldPath, ch.newPath] else [ch.newPath]
  }

  function Added(counts: Counts): string { if counts.Binary? then "-" else Show(counts.added) }

  function Deleted(counts: Counts): string { if counts.Binary? then "-" else Show(counts.deleted) }

  function CountText(ch: Change, path: string): string {
    Added(ch.counts) + "\t" + (Deleted(ch.counts) + "\t" + path)
  }

  function PrintCounts(ch: Change): seq<string> {
    if TwoPaths(ch) then [ch.countLead + CountText(ch, ""), ch.oldPath, ch.newPath]
    else [ch.countLead + CountText(ch, ch.newPath)]
  }

  function PrintRaws(changes: seq<Change>): seq<string> {
    if changes == [] then [] else PrintRaw(changes[0]) + PrintRaws(changes[1..])
  }

  function PrintAllCounts(changes: seq<Change>): seq<string> {
    if changes == [] then [] else PrintCounts(changes[0]) + PrintAllCounts(changes[1..])
  }

  function Header(glue: string, sha: string): string { glue + ([REC] + "C" + sha) }

  function PrintCommit(c: Commit): seq<string> {
    [Header(c.glue, c.sha)] + (PrintRaws(c.changes) + (PrintAllCounts(c.changes) + c.trail))
  }

  function PrintLog(commits: seq<Commit>): seq<string> {
    if commits == [] then [] else PrintCommit(commits[0]) + PrintLog(commits[1..])
  }

  // ----- what should be read back -----

  /** Git prints zeros where there is no blob. */
  predicate IsNull(id: string) { forall i :: 0 <= i < |id| ==> id[i] == '0' }

  function BlobRead(id: string): Option<string> { if IsNull(id) then None else Some(id) }

  function RawOf(ch: Change): RawPart {
    RawPart(
      ch.status,
      if ch.status == 'A' then None else Some(ch.oldPath),
      if ch.status == 'D' then None else Some(ch.newPath),
      if ch.score == "" then None else Some(Read(ch.score)),
      ch.oldMode, ch.newMode, BlobRead(ch.oldBlob), BlobRead(ch.newBlob),
      ch.oldMode == "160000" || ch.newMode == "160000")
  }

  function CountsOf(counts: Counts): CountPart {
    match counts
    case Binary => CountPart(true, None, None)
    case Lines(added, deleted) => CountPart(false, Some(added), Some(deleted))
  }

  function Expected(c: Commit): seq<Record> {
    seq(|c.changes|, i requires 0 <= i < |c.changes| =>
      Record(Some(c.sha), c.changes[i].newPath, Some(RawOf(c.changes[i])), Some(CountsOf(c.changes[i].counts))))
  }

  function ExpectedLog(commits: seq<Commit>): seq<Record> {
    if commits == [] then [] else Expected(commits[0]) + ExpectedLog(commits[1..])
  }

  // ----- reading single tokens -----

  lemma {:induction false} TrimLead(lead: string, s: string)
    requires Newlines(lead) && s != "" && s[0] != '\n'
    ensures LeftTrim(lead + s, IsNewline) == s
  {
    if lead == "" {
      assert lead + s == s;
    } else {
      assert (lead + s)[1..] == lead[1..] + s;
      TrimLead(lead[1..], s);
    }
  }

  /** Leading newlines are stripped off a token that neither starts nor ends with one. */
  lemma TrimToken(lead: string, s: string)
    requires Newlines(lead) && s != "" && s[0] != '\n' && s[|s| - 1] != '\n'
    ensures Trim(lead + s, IsNewline) == s
  {
    TrimLead(lead, s);
  }

  lemma {:induction false} TrimNewlines(s: string)
    requires Newlines(s)
    ensures Trim(s, IsNewline) == ""
    ensures LeftTrim(s, IsNewline) == ""
  {
    if s != "" { TrimNewlines(s[1..]); }
  }

  lemma TrimWord(s: string)
    requires Word(s)
    ensures Trim(s, IsSpace) == s && Trim(s, IsNewline) == s
  {
    assert !IsSpace(s[0]) && !IsSpace(s[|s| - 1]);
  }

  lemma {:induction false} NoMarker(s: string)
    requires REC !in s
    ensures After(s, REC) == None
  {
    if s != "" { NoMarker(s[1..]); }
  }

  lemma {:induction false} MarkerAfterGlue(glue: string, s: string)
    requires REC !in glue && s != "" && s[0] == REC
    ensures After(glue + s, REC) == Some(s)
  {
    if glue == "" {
      assert glue + s == s;
    } else {
      assert (glue + s)[1..] == glue[1..] + s;
      MarkerAfterGlue(glue[1..], s);
    }
  }

  lemma {:induction false} OneWord(word: string, u: string, rest: string)
    requires (forall i :: 0 <= i < |u| ==> !IsSpace(u[i])) && word + u != ""
    ensures Words(word, u) == [word + u]
    ensures Words(word, u + (" " + rest)) == [word + u] + Words("", rest)
    decreases |u|
  {
    var s := u + (" " + rest);
    if u == "" {
      assert s == " " + rest && s[1..] == rest;
      assert word + u == word;
    } else {
      assert s[1..] == u[1..] + (" " + rest) && s[0] == u[0];
      OneWord(word + [u[0]], u[1..], rest);
      assert word + [u[0]] + u[1..] == word + u;
    }
  }

  lemma RawWords(ch: Change)
    requires Printable(ch)
    ensures Words("", RawText(ch)) == [ch.oldMode, ch.newMode, ch.oldBlob, ch.newBlob, [ch.status] + ch.score]
  {
    var e := [ch.status] + ch.score;
    var d := ch.newBlob + " " + e;
    var c := ch.oldBlob + " " + d;
    var b := ch.newMode + " " + c;
    NextWord(ch.newBlob, e);
    NextWord(ch.oldBlob, d);
    NextWord(ch.newMode, c);
    NextWord(ch.oldMode, b);
    StatusIsAWord(ch);
    OneWord("", e, "");
    assert "" + e == e;
  }

  lemma NextWord(u: string, rest: string)
    requires Word(u)
    ensures Words("", u + " " + rest) == [u] + Words("", rest)
  {
    OneWord("", u, rest);
    assert u + " " + rest == u + (" " + rest) && "" + u == u;
  }

  lemma StatusIsAWord(ch: Change)
    requires Printable(ch)
    ensures Word([ch.status] + ch.score)
  {
  }

  lemma RawTextShape(ch: Change)
    requires Printable(ch)
    ensures var t := ":" + RawText(ch);
            && REC !in ch.rawLead + t
            && t[0] == ':' && t[1..] == RawText(ch) && t[|t| - 1] != '\n'
  {
    var e := [ch.status] + ch.score;
    StatusIsAWord(ch);
    assert forall c :: c in e + ch.oldMode + ch.newMode + ch.oldBlob + ch.newBlob ==> c != REC;
    var d := ch.newBlob + " " + e;
    var c := ch.oldBlob + " " + d;
    var b := ch.newMode + " " + c;
    var a := ch.oldMode + " " + b;
    assert RawText(ch) == a;
    assert a[|a| - 1] == e[|e| - 1];
    assert (":" + a)[1..] == a;
  }

  /** The state after the raw record of `ch`. */
  function AfterRaw(ch: Change, st: State): State {
    var record := Existing(st, ch.newPath).(sha := st.sha, path := ch.newPath, raw := Some(RawOf(ch)));
    Stored(st, ch.newPath, record)
  }

  function AfterCounts(ch: Change, st: State): State {
    Stored(st, CountKey(ch), Existing(st, CountKey(ch)).(counts := Some(CountsOf(ch.counts))))
  }

  lemma OwnKey(ch: Change)
    requires WellFormedChange(ch)
    ensures CountKey(ch) == ch.newPath && Aligned(ch)
  {
  }

  lemma RawRowIs(ch: Change, words: seq<string>)
    requires Printable(ch)
    requires words == [ch.oldMode, ch.newMode, ch.oldBlob, ch.newBlob, [ch.status] + ch.score]
    ensures RawRow(words, ch.oldPath, ch.newPath) == RawOf(ch)
  {
    var last := words[4];
    assert last[0] == ch.status && last[1..] == ch.score;
  }

  lemma ReadRaw(ch: Change, rest: seq<string>, st: State)
    requires Printable(ch)
    ensures Parse(PrintRaw(ch) + rest, st) == Parse(rest, AfterRaw(ch, st))
  {
    var tokens := PrintRaw(ch) + rest;
    var t := ":" + RawText(ch);
    RawTextShape(ch);
    assert tokens[0] == ch.rawLead + t;
    NoMarker(tokens[0]);
    TrimToken(ch.rawLead, t);
    RawWords(ch);
    var words := Words("", t[1..]);
    RawRowIs(ch, words);
    assert words[4][0] == ch.status;
    assert At(tokens, 1) == ch.oldPath;
    assert TwoPaths(ch) ==> At(tokens, 2) == ch.newPath;
    assert NextRound(tokens, st) == Round(|PrintRaw(ch)|, AfterRaw(ch, st));
    assert Drop(tokens, |PrintRaw(ch)|) == rest;
  }

  lemma {:induction false} CutAt(a: string, b: string)
    requires '\t' !in a
    ensures CutTab(a + ("\t" + b)) == Some((a, b))
  {
    var s := a + ("\t" + b);
    if a == "" {
      assert s == "\t" + b && s[1..] == b;
    } else {
      assert s[1..] == a[1..] + ("\t" + b);
      CutAt(a[1..], b);
      assert [a[0]] + a[1..] == a;
    }
  }

  lemma CountWords(counts: Counts)
    ensures IsCount(Added(counts)) && IsCount(Deleted(counts))
    ensures forall c :: c in Added(counts) + Deleted(counts) ==> IsDigit(c) || c == '-'
    ensures CountRow(Added(counts), Deleted(counts)) == CountsOf(counts)
  {
    if counts.Lines? {
      ReadShow(counts.added);
      ReadShow(counts.deleted);
      NotADash(counts.added);
      NotADash(counts.deleted);
    }
  }

  lemma NotADash(n: nat)
    ensures Show(n) != "-"
  {
    assert IsDigit(Show(n)[0]);
  }

  lemma NumstatOf(ch: Change, path: string)
    ensures Numstat(CountText(ch, path)) == Some((Added(ch.counts), Deleted(ch.counts), path))
  {
    CountWords(ch.counts);
    var tail := Deleted(ch.counts) + ("\t" + path);
    assert CountText(ch, path) == Added(ch.counts) + ("\t" + tail);
    CutAt(Added(ch.counts), tail);
    CutAt(Deleted(ch.counts), path);
  }

  lemma {:induction false} RightTrimTail(a: string, p: string)
    requires a != "" && a[|a| - 1] != '\n'
    ensures RightTrim(a + p, IsNewline) == a + RightTrim(p, IsNewline)
    decreases |p|
  {
    if p == "" {
      assert a + p == a;
    } else {
      assert (a + p)[..|a + p| - 1] == a + p[..|p| - 1];
      if p[|p| - 1] == '\n' { RightTrimTail(a, p[..|p| - 1]); }
    }
  }

  /** A count token without the record separator, stripped of newlines at both ends. */
  lemma StrippedCounts(ch: Change, path: string)
    requires Newlines(ch.countLead) && REC !in path
    ensures REC !in ch.countLead + CountText(ch, path)
    ensures var t := Trim(ch.countLead + CountText(ch, path), IsNewline);
            t == CountText(ch, RightTrim(path, IsNewline)) && t != "" && t[0] != ':'
  {
    CountWords(ch.counts);
    var t := CountText(ch, path);
    var before := Added(ch.counts) + "\t" + (Deleted(ch.counts) + "\t");
    assert t == before + path && CountText(ch, RightTrim(path, IsNewline)) == before + RightTrim(path, IsNewline);
    assert t[0] == Added(ch.counts)[0] && Added(ch.counts)[0] in Added(ch.counts) + Deleted(ch.counts);
    TrimLead(ch.countLead, t);
    RightTrimTail(before, path);
    forall c | c in ch.countLead + t ensures c != REC {}
  }

  lemma ReadCounts(ch: Change, rest: seq<string>, st: State)
    requires Aligned(ch)
    ensures Parse(PrintCounts(ch) + rest, st) == Parse(rest, AfterCounts(ch, st))
  {
    var tokens := PrintCounts(ch) + rest;
    var path := if TwoPaths(ch) then "" else ch.newPath;
    StrippedCounts(ch, path);
    assert tokens[0] == ch.countLead + CountText(ch, path);
    NoMarker(tokens[0]);
    NumstatOf(ch, RightTrim(path, IsNewline));
    CountWords(ch.counts);
    assert TwoPaths(ch) ==> At(tokens, 1) == ch.oldPath && At(tokens, 2) == ch.newPath;
    assert NextRound(tokens, st) == Round(|PrintCounts(ch)|, AfterCounts(ch, st));
    assert Drop(tokens, |PrintCounts(ch)|) == rest;
  }

  // ----- reading a whole commit -----

  /** The state in which a commit's first `n` raw records and first `m` count records have been read. */
  ghost predicate Reading(c: Commit, rows: seq<Record>, n: nat, m: nat, st: State)
    requires m <= n <= |c.changes|
  {
    && st.sha == Some(c.sha) && st.rows == rows
    && |st.order| == n
    && (forall i :: 0 <= i < n ==> st.order[i] == c.changes[i].newPath && st.order[i] in st.pending)
    && (forall key :: key in st.pending ==> key in st.order)
    && (forall i :: 0 <= i < n ==> st.pending[c.changes[i].newPath] == RecordOf(c, i, i < m))
  }

  function RecordOf(c: Commit, i: nat, counted: bool): Record
    requires i < |c.changes|
  {
    var ch := c.changes[i];
    Record(Some(c.sha), ch.newPath, Some(RawOf(ch)), if counted then Some(CountsOf(ch.counts)) else None)
  }

  // What one token, or one file's tokens, do to a parser, whatever follows.

  type Parser = (seq<string>, State) -> seq<Record>

  ghost predicate RawUnit(parse: Parser, ch: Change, rest: seq<string>, st: State) {
    Printable(ch) ==> parse(PrintRaw(ch) + rest, st) == parse(rest, AfterRaw(ch, st))
  }

  ghost predicate CountUnit(parse: Parser, ch: Change, rest: seq<string>, st: State) {
    Aligned(ch) ==> parse(PrintCounts(ch) + rest, st) == parse(rest, AfterCounts(ch, st))
  }

  ghost predicate BlankUnit(parse: Parser, t: string, rest: seq<string>, st: State) {
    Newlines(t) ==> parse([t] + rest, st) == parse(rest, st)
  }

  ghost predicate HeaderUnit(parse: Parser, glue: string, sha: string, rest: seq<string>, st: State) {
    REC !in glue && Word(sha) ==> parse([Header(glue, sha)] + rest, st) == parse(rest, State(Some(sha), map[], [], Closed(st)))
  }

  ghost predicate ReadsUnits(parse: Parser) {
    && (forall ch, rest, st {:trigger RawUnit(parse, ch, rest, st)} :: RawUnit(parse, ch, rest, st))
    && (forall ch, rest, st {:trigger CountUnit(parse, ch, rest, st)} :: CountUnit(parse, ch, rest, st))
    && (forall t, rest, st {:trigger BlankUnit(parse, t, rest, st)} :: BlankUnit(parse, t, rest, st))
    && (forall glue, sha, rest, st {:trigger HeaderUnit(parse, glue, sha, rest, st)} ::
      HeaderUnit(parse, glue, sha, rest, st))
    && (forall st :: parse([], st) == Closed(st))
  }

  lemma NextRaw(changes: seq<Change>, n: nat, rest: seq<string>)
    requires n < |changes|
    ensures PrintRaws(changes[n..]) + rest == PrintRaw(changes[n]) + (PrintRaws(changes[n + 1..]) + rest)
  {
    assert changes[n..][1..] == changes[n + 1..];
  }

  lemma NextCounts(changes: seq<Change>, m: nat, rest: seq<string>)
    requires m < |changes|
    ensures PrintAllCounts(changes[m..]) + rest == PrintCounts(changes[m]) + (PrintAllCounts(changes[m + 1..]) + rest)
  {
    assert changes[m..][1..] == changes[m + 1..];
  }

  lemma {:induction false} ReadRaws(parse: Parser, c: Commit, rows: seq<Record>, n: nat, st: State, rest: seq<string>)
      returns (st': State)
    requires ReadsUnits(parse) && Sound(c) && n <= |c.changes| && Reading(c, rows, n, 0, st)
    ensures Reading(c, rows, |c.changes|, 0, st')
    ensures parse(PrintRaws(c.changes[n..]) + rest, st) == parse(rest, st')
    decreases |c.changes| - n
  {
    if n == |c.changes| {
      st' := st;
      assert PrintRaws(c.changes[n..]) + rest == rest;
    } else {
      var ch := c.changes[n];
      NewKey(c, rows, n, st);
      st' := ReadRaws(parse, c, rows, n + 1, AfterRaw(ch, st), rest);
      NextRaw(c.changes, n, rest);
      assert RawUnit(parse, ch, PrintRaws(c.changes[n + 1..]) + rest, st);
    }
  }

  lemma NewKey(c: Commit, rows: seq<Record>, n: nat, st: State)
    requires Sound(c) && n < |c.changes| && Reading(c, rows, n, 0, st)
    ensures Reading(c, rows, n + 1, 0, AfterRaw(c.changes[n], st))
  {
    var path := c.changes[n].newPath;
    assert path !in st.order && path !in st.pending;
    var st' := AfterRaw(c.changes[n], st);
    assert st'.order == st.order + [path];
    assert st'.pending == st.pending[path := RecordOf(c, n, false)];
  }

  lemma OldKey(c: Commit, rows: seq<Record>, m: nat, st: State)
    requires WellFormed(c) && m < |c.changes| && Reading(c, rows, |c.changes|, m, st)
    ensures Reading(c, rows, |c.changes|, m + 1, AfterCounts(c.changes[m], st))
  {
    OwnKey(c.changes[m]);
    assert st.order[m] in st.order;
  }

  lemma {:induction false} ReadAllCounts(parse: Parser, c: Commit, rows: seq<Record>, m: nat, st: State,
      rest: seq<string>)
      returns (st': State)
    requires ReadsUnits(parse) && WellFormed(c) && m <= |c.changes| && Reading(c, rows, |c.changes|, m, st)
    ensures Reading(c, rows, |c.changes|, |c.changes|, st')
    ensures parse(PrintAllCounts(c.changes[m..]) + rest, st) == parse(rest, st')
    decreases |c.changes| - m
  {
    if m == |c.changes| {
      st' := st;
      assert PrintAllCounts(c.changes[m..]) + rest == rest;
    } else {
      var ch := c.changes[m];
      OldKey(c, rows, m, st);
      OwnKey(ch);
      st' := ReadAllCounts(parse, c, rows, m + 1, AfterCounts(ch, st), rest);
      NextCounts(c.changes, m, rest);
      assert CountUnit(parse, ch, PrintAllCounts(c.changes[m + 1..]) + rest, st);
    }
  }

  lemma {:induction false} ReadTrail(parse: Parser, trail: seq<string>, st: State, rest: seq<string>)
    requires ReadsUnits(parse) && forall i :: 0 <= i < |trail| ==> Newlines(trail[i])
    ensures parse(trail + rest, st) == parse(rest, st)
  {
    if trail == [] {
      assert trail + rest == rest;
    } else {
      assert trail + rest == [trail[0]] + (trail[1..] + rest);
      assert BlankUnit(parse, trail[0], trail[1..] + rest, st);
      ReadTrail(parse, trail[1..], st, rest);
    }
  }

  lemma FlushedIsExpected(c: Commit, rows: seq<Record>, st: State)
    requires Reading(c, rows, |c.changes|, |c.changes|, st)
    ensures Closed(st) == rows + Expected(c)
  {
    assert Flushed(st) == Expected(c);
  }

  lemma ReadFiles(parse: Parser, c: Commit, rows: seq<Record>, st: State, tail: seq<string>)
      returns (st': State)
    requires ReadsUnits(parse) && WellFormed(c) && Reading(c, rows, 0, 0, st)
    ensures parse(PrintRaws(c.changes) + (PrintAllCounts(c.changes) + tail), st) == parse(tail, st')
    ensures Reading(c, rows, |c.changes|, |c.changes|, st')
  {
    assert c.changes[0..] == c.changes;
    var st1 := ReadRaws(parse, c, rows, 0, st, PrintAllCounts(c.changes) + tail);
    st' := ReadAllCounts(parse, c, rows, 0, st1, tail);
  }

  lemma ReadBody(parse: Parser, c: Commit, rows: seq<Record>, st: State, rest: seq<string>)
      returns (st': State)
    requires ReadsUnits(parse) && WellFormed(c) && Reading(c, rows, 0, 0, st)
    ensures parse(PrintRaws(c.changes) + (PrintAllCounts(c.changes) + (c.trail + rest)), st) == parse(rest, st')
    ensures Closed(st') == rows + Expected(c)
  {
    st' := ReadFiles(parse, c, rows, st, c.trail + rest);
    ReadTrail(parse, c.trail, st', rest);
    FlushedIsExpected(c, rows, st');
  }

  lemma ReadMarker(parse: Parser, c: Commit, st: State, rest: seq<string>) returns (st': State)
    requires ReadsUnits(parse) && Sound(c)
    ensures parse([Header(c.glue, c.sha)] + rest, st) == parse(rest, st')
    ensures Reading(c, Closed(st), 0, 0, st')
  {
    st' := State(Some(c.sha), map[], [], Closed(st));
    assert HeaderUnit(parse, c.glue, c.sha, rest, st);
  }

  lemma RegroupCommit<T>(h: seq<T>, raws: seq<T>, counts: seq<T>, trail: seq<T>, rest: seq<T>)
    ensures (h + (raws + (counts + trail))) + rest == h + (raws + (counts + (trail + rest)))
  {
  }

  lemma ReadCommit(parse: Parser, c: Commit, st: State, rest: seq<string>) returns (st': State)
    requires ReadsUnits(parse) && WellFormed(c)
    ensures parse(PrintCommit(c) + rest, st) == parse(rest, st')
    ensures Closed(st') == Closed(st) + Expected(c)
  {
    var raws, counts := PrintRaws(c.changes), PrintAllCounts(c.changes);
    var st0 := ReadMarker(parse, c, st, raws + (counts + (c.trail + rest)));
    st' := ReadBody(parse, c, Closed(st), st0, rest);
    RegroupCommit([Header(c.glue, c.sha)], raws, counts, c.trail, rest);
  }

  lemma NextExpected(rows: seq<Record>, commits: seq<Commit>)
    requires commits != []
    ensures (rows + Expected(commits[0])) + ExpectedLog(commits[1..]) == rows + ExpectedLog(commits)
  {
  }

  lemma {:induction false} ReadLog(parse: Parser, commits: seq<Commit>, st: State)
    requires ReadsUnits(parse) && forall i :: 0 <= i < |commits| ==> WellFormed(commits[i])
    ensures parse(PrintLog(commits), st) == Closed(st) + ExpectedLog(commits)
  {
    if commits == [] {
      assert PrintLog(commits) == [];
    } else {
      var st' := ReadCommit(parse, commits[0], st, PrintLog(commits[1..]));
      ReadLog(parse, commits[1..], st');
      NextExpected(Closed(st), commits);
    }
  }

  lemma ReadHeader(glue: string, sha: string, rest: seq<string>, st: State)
    requires REC !in glue && Word(sha)
    ensures Parse([Header(glue, sha)] + rest, st) == Parse(rest, State(Some(sha), map[], [], Closed(st)))
  {
    var marker := [REC] + "C" + sha;
    var tokens := [glue + marker] + rest;
    MarkerAfterGlue(glue, marker);
    TrimWord(sha);
    assert marker[2..] == sha;
    assert tokens[0] == glue + marker && Drop(tokens, 1) == rest;
  }

  lemma ReadBlank(t: string, rest: seq<string>, st: State)
    requires Newlines(t)
    ensures Parse([t] + rest, st) == Parse(rest, st)
  {
    var tokens := [t] + rest;
    assert tokens[0] == t && Drop(tokens, 1) == rest;
    NoMarker(t);
    TrimNewlines(t);
  }

  lemma ParserReadsUnits() returns (parse: Parser)
    ensures ReadsUnits(parse)
    ensures forall tokens, st :: parse(tokens, st) == Parse(tokens, st)
  {
    parse := (tokens: seq<string>, st: State) => Parse(tokens, st);
    forall ch, rest, st ensures RawUnit(parse, ch, rest, st) { if Printable(ch) { ReadRaw(ch, rest, st); } }
    forall ch, rest, st ensures CountUnit(parse, ch, rest, st) { if Aligned(ch) { ReadCounts(ch, rest, st); } }
    forall t, rest, st ensures BlankUnit(parse, t, rest, st) { if Newlines(t) { ReadBlank(t, rest, st); } }
    forall glue, sha, rest, st ensures HeaderUnit(parse, glue, sha, rest, st) {
      if REC !in glue && Word(sha) { ReadHeader(glue, sha, rest, st); }
    }
  }

  /**
   Round trip: for every list of well-formed commits, the parser returns each commit's files once, in
   the order printed, with status and line counts merged. Rename paths may contain anything.
   */
  lemma RoundTrip(commits: seq<Commit>)
    requires forall i :: 0 <= i < |commits| ==> WellFormed(commits[i])
    ensures Parsed(PrintLog(commits)) == ExpectedLog(commits)
  {
    var parse := ParserReadsUnits();
    ReadLog(parse, commits, START);
    assert Closed(START) + ExpectedLog(commits) == ExpectedLog(commits);
  }

  // ----- what a file's record says -----

  function FilesIn(commits: seq<Commit>): nat {
    if commits == [] then 0 else |commits[0].changes| + FilesIn(commits[1..])
  }

  lemma {:induction false} ExpectedAt(commits: seq<Commit>, i: nat, j: nat)
    requires i < |commits| && j < |commits[i].changes|
    ensures |ExpectedLog(commits)| == FilesIn(commits)
    ensures FilesIn(commits[..i]) + j < |ExpectedLog(commits)|
    ensures ExpectedLog(commits)[FilesIn(commits[..i]) + j] == Expected(commits[i])[j]
  {
    ExpectedSize(commits[1..]);
    if i == 0 {
      assert FilesIn(commits[..0]) == 0;
    } else {
      ExpectedAt(commits[1..], i - 1, j);
      assert commits[..i][1..] == commits[1..][..i - 1];
    }
  }

  lemma {:induction false} ExpectedSize(commits: seq<Commit>)
    ensures |ExpectedLog(commits)| == FilesIn(commits)
  {
    if commits != [] { ExpectedSize(commits[1..]); }
  }

  /**
   Field by field: the record of the `j`-th file of the `i`-th commit. A blob is missing exactly when its
   printed id is all zeros, and is the printed id otherwise; counts are missing exactly for a binary file.
   */
  lemma FileAt(commits: seq<Commit>, i: nat, j: nat)
    requires forall n :: 0 <= n < |commits| ==> WellFormed(commits[n])
    requires i < |commits| && j < |commits[i].changes|
    ensures var rows, ch, k := Parsed(PrintLog(commits)), commits[i].changes[j], FilesIn(commits[..i]) + j;
            && |rows| == FilesIn(commits) && k < |rows|
            && rows[k].sha == Some(commits[i].sha) && rows[k].path == ch.newPath && rows[k].raw.Some?
              && rows[k].counts.Some?
            && var raw, counts := rows[k].raw.value, rows[k].counts.value;
               && raw.status == ch.status && raw.oldMode == ch.oldMode && raw.newMode == ch.newMode
               && raw.oldPath == (if ch.status == 'A' then None else Some(ch.oldPath))
               && raw.newPath == (if ch.status == 'D' then None else Some(ch.newPath))
               && (raw.oldBlob.None? <==> forall x :: 0 <= x < |ch.oldBlob| ==> ch.oldBlob[x] == '0')
               && (raw.newBlob.None? <==> forall x :: 0 <= x < |ch.newBlob| ==> ch.newBlob[x] == '0')
               && (raw.oldBlob.Some? ==> raw.oldBlob.value == ch.oldBlob)
                 && (raw.newBlob.Some? ==> raw.newBlob.value == ch.newBlob)
               && raw.similarity == (if ch.score == "" then None else Some(Read(ch.score)))
               && (raw.submodule <==> ch.oldMode == "160000" || ch.newMode == "160000")
               && counts.binary == ch.counts.Binary?
               && counts.additions == (if ch.counts.Binary? then None else Some(ch.counts.added))
               && counts.deletions == (if ch.counts.Binary? then None else Some(ch.counts.deleted))
  {
    RoundTrip(commits);
    ExpectedAt(commits, i, j);
  }
}
