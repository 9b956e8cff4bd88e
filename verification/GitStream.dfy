/**
 The parser of `git log --raw --numstat -z` (src/impact/ingest/git_source.py), on the tokens between
 NUL characters, and a printer of such streams that it inverts.
 */
module GitStream {
  import opened Collections
  import opened Decimal

  const REC: char := '\U{001E}'

  // ----- text helpers, as Python defines them -----

  predicate IsSpace(c: char) {
    || c == ' ' || '\t' <= c <= '\r' || '\U{001C}' <= c <= '\U{001F}' || c == '\U{0085}' || c == '\U{00A0}'
    || c == '\U{1680}' || '\U{2000}' <= c <= '\U{200A}' || c == '\U{2028}' || c == '\U{2029}'
    || c == '\U{202F}' || c == '\U{205F}' || c == '\U{3000}'
  }

  /** By code point: the ASCII blanks and separators, and the Unicode ones. */
  lemma SpacesAre(c: char)
    ensures IsSpace(c) <==> c as int in {
              9, 10, 11, 12, 13, 28, 29, 30, 31, 32, 0x85, 0xA0, 0x1680, 0x2000, 0x2001, 0x2002, 0x2003, 0x2004, 0x2005,
              0x2006, 0x2007, 0x2008, 0x2009, 0x200A, 0x2028, 0x2029, 0x202F, 0x205F, 0x3000}
  {
  }

  function LeftTrim(s: string, drop: char -> bool): string {
    if s != "" && drop(s[0]) then LeftTrim(s[1..], drop) else s
  }

  function RightTrim(s: string, drop: char -> bool): string {
    if s != "" && drop(s[|s| - 1]) then RightTrim(s[..|s| - 1], drop) else s
  }

  function Trim(s: string, drop: char -> bool): string { RightTrim(LeftTrim(s, drop), drop) }

  predicate IsNewline(c: char) { c == '\n' }

  /** `s[s.index(c):]`, if there is one. */
  function After(s: string, c: char): Option<string> {
    if s == "" then None else if s[0] == c then Some(s) else After(s[1..], c)
  }

  /** `s.split()`, with the word being read so far. */
  function Words(word: string, s: string): (r: seq<string>)
    ensures forall i :: 0 <= i < |r| ==> r[i] != ""
    decreases |s|
  {
    if s == "" then (if word == "" then [] else [word])
    else if IsSpace(s[0]) then (if word == "" then [] else [word]) + Words("", s[1..])
    else Words(word + [s[0]], s[1..])
  }

  /** The text before and after the first tab. */
  function CutTab(s: string): Option<(string, string)> {
    if s == "" then None
    else if s[0] == '\t' then Some(("", s[1..]))
    else match CutTab(s[1..]) case None => None case Some(cut) => Some(([s[0]] + cut.0, cut.1))
  }

  predicate IsCount(t: string) { t == "-" || (t != "" && AllDigits(t)) }

  /** NUMSTAT_RE: added, deleted and the rest. */
  function Numstat(s: string): Option<(string, string, string)> {
    match CutTab(s)
    case None => None
    case Some(first) =>
      match CutTab(first.1)
      case None => None
      case Some(second) =>
        if IsCount(first.0) && IsCount(second.0) then Some((first.0, second.0, second.1)) else None
  }

  // ----- the records -----

  datatype RawPart = RawPart(
    status: char, oldPath: Option<string>, newPath: Option<string>, similarity: Option<nat>,
    oldMode: string, newMode: string, oldBlob: Option<string>, newBlob: Option<string>, submodule: bool)

  datatype CountPart = CountPart(binary: bool, additions: Option<nat>, deletions: Option<nat>)

  datatype Record = Record(sha: Option<string>, path: string, raw: Option<RawPart>, counts: Option<CountPart>)

  /** The commit being read: its sha, its records by key, and the order the keys came in. */
  datatype State = State(sha: Option<string>, pending: map<string, Record>, order: seq<string>, rows: seq<Record>)

  predicate IsRename(code: char) { code == 'R' || code == 'C' }

  function Upper(c: char): char { if 'a' <= c <= 'z' then (c as int - 32) as char else c }

  /** `str.upper` on the status letters git uses; nothing else is changed. */
  lemma UpperExact(c: char)
    ensures 'a' <= c <= 'z' ==> 'A' <= Upper(c) <= 'Z' && Upper(c) as int - 'A' as int == c as int - 'a' as int
    ensures !('a' <= c <= 'z') ==> Upper(c) == c
  {
  }

  function BlobOf(text: string): Option<string> {
    if text != "" && forall i :: 0 <= i < |text| ==> text[i] == '0' then None else Some(text)
  }

  function At(tokens: seq<string>, i: nat): string { if i < |tokens| then tokens[i] else "" }

  function Drop(tokens: seq<string>, n: nat): seq<string> { if n <= |tokens| then tokens[n..] else [] }

  function KeyOf(oldPath: string, newPath: string): string { if newPath != "" then newPath else oldPath }

  function Existing(st: State, key: string): Record {
    if key in st.pending then st.pending[key] else Record(st.sha, key, None, None)
  }

  function Stored(st: State, key: string, record: Record): State {
    st.(pending := st.pending[key := record], order := if key in st.order then st.order else st.order + [key])
  }

  /** A raw record: `:` oldmode newmode oldsha newsha status, then one or two path tokens. */
  function RawRow(words: seq<string>, oldPath: string, newPath: string): RawPart
    requires |words| >= 5 && words[4] != ""
  {
    var code := Upper(words[4][0]);
    var score := words[4][1..];
    RawPart(
      code,
      if IsRename(code) || code != 'A' then Some(oldPath) else None,
      if code != 'D' then Some(newPath) else None,
      if score != "" && AllDigits(score) then Some(Read(score)) else None,
      words[0], words[1], BlobOf(words[2]), BlobOf(words[3]),
      words[1] == "160000" || words[0] == "160000")
  }

  function CountRow(added: string, deleted: string): CountPart
    requires IsCount(added) && IsCount(deleted)
  {
    if added == "-" || deleted == "-" then CountPart(true, None, None)
    else CountPart(false, Some(Read(added)), Some(Read(deleted)))
  }

  function Flushed(st: State): seq<Record> {
    seq(|st.order|, i requires 0 <= i < |st.order| => Existing(st, st.order[i]))
  }

  function Closed(st: State): seq<Record> {
    if st.sha.Some? then st.rows + Flushed(st) else st.rows
  }

  // ----- one round of the parser: how many tokens it takes, and the state after -----

  datatype Round = Round(taken: nat, state: State)

  function Marker(token: string, st: State): State
    requires After(token, REC).Some?
  {
    var marker := After(token, REC).value;
    var sha := Trim(Trim(if |marker| >= 2 then marker[2..] else "", IsSpace), IsNewline);
    State(Some(sha), map[], [], Closed(st))
  }

  function RawRound(stripped: string, tokens: seq<string>, st: State): (r: Round)
    requires stripped != ""
    ensures r.taken >= 1
  {
    var words := Words("", stripped[1..]);
    if |words| < 5 then Round(1, st)
    else
      var rename := IsRename(Upper(words[4][0]));
      var oldPath, newPath := At(tokens, 1), if rename then At(tokens, 2) else At(tokens, 1);
      var key := KeyOf(oldPath, newPath);
      var record := Existing(st, key).(sha := st.sha, path := key, raw := Some(RawRow(words, oldPath, newPath)));
      Round(if rename then 3 else 2, Stored(st, key, record))
  }

  function CountRound(cut: (string, string, string), tokens: seq<string>, st: State): (r: Round)
    requires IsCount(cut.0) && IsCount(cut.1)
    ensures r.taken >= 1
  {
    var key := if cut.2 == "" then KeyOf(At(tokens, 1), At(tokens, 2)) else cut.2;
    Round(if cut.2 == "" then 3 else 1,
      Stored(st, key, Existing(st, key).(counts := Some(CountRow(cut.0, cut.1)))))
  }

  function NextRound(tokens: seq<string>, st: State): (r: Round)
    requires tokens != []
    ensures r.taken >= 1
  {
    if After(tokens[0], REC).Some? then Round(1, Marker(tokens[0], st))
    else
      var stripped := Trim(tokens[0], IsNewline);
      if stripped == "" then Round(1, st)
      else if stripped[0] == ':' then RawRound(stripped, tokens, st)
      else match Numstat(stripped)
        case None => Round(1, st)
        case Some(cut) => NumstatShape(stripped); CountRound(cut, tokens, st)
  }

  lemma NumstatShape(s: string)
    ensures Numstat(s).Some? ==> IsCount(Numstat(s).value.0) && IsCount(Numstat(s).value.1)
  {
  }

  function Parse(tokens: seq<string>, st: State): seq<Record>
    decreases |tokens|
  {
    if tokens == [] then Closed(st)
    else
      var r := NextRound(tokens, st);
      Parse(Drop(tokens, r.taken), r.state)
  }

  const START: State := State(None, map[], [], [])

  function Parsed(tokens: seq<string>): seq<Record> { Parse(tokens, START) }

  /** `iter_commit_files` as it runs, with its index, its dictionary and its list. */
  method IterCommitFiles(tokens: seq<string>) returns (rows: seq<Record>)
    ensures rows == Parsed(tokens)
  {
    var sha: Option<string> := None;
    var pending: map<string, Record> := map[];
    var order: seq<string> := [];
    rows := [];
    var index, total := 0, |tokens|;
    assert tokens[0..] == tokens;
    while index < total
      invariant Parse(Drop(tokens, index), State(sha, pending, order, rows)) == Parsed(tokens)
    {
      var token := tokens[index];
      ghost var rest, st := tokens[index..], State(sha, pending, order, rows);
      assert rest[0] == token;
      DropMore(tokens, index, NextRound(rest, st).taken);
      AtMore(tokens, index, 1);
      AtMore(tokens, index, 2);
      var marker := After(token, REC);
      if marker.Some? {
        if sha.Some? {
          rows := rows + Flushed(State(sha, pending, order, rows));
        }
        pending, order := map[], [];
        sha := Some(Trim(Trim(if |marker.value| >= 2 then marker.value[2..] else "", IsSpace), IsNewline));
        index := index + 1;
        continue;
      }
      var stripped := Trim(token, IsNewline);
      if stripped == "" {
        index := index + 1;
        continue;
      }
      if stripped[0] == ':' {
        var words := Words("", stripped[1..]);
        if |words| < 5 {
          index := index + 1;
          continue;
        }
        var oldPath := At(tokens, index + 1);
        var newPath := oldPath;
        if IsRename(Upper(words[4][0])) {
          newPath := At(tokens, index + 2);
          index := index + 3;
        } else {
          index := index + 2;
        }
        var key := if newPath != "" then newPath else oldPath;
        var record := if key in pending then pending[key] else Record(sha, key, None, None);
        pending := pending[key := record.(sha := sha, path := key, raw := Some(RawRow(words, oldPath, newPath)))];
        if key !in order { order := order + [key]; }
        continue;
      }
      var cut := Numstat(stripped);
      NumstatShape(stripped);
      if cut.Some? {
        var key := cut.value.2;
        if key == "" {
          key := if At(tokens, index + 2) != "" then At(tokens, index + 2) else At(tokens, index + 1);
          index := index + 3;
        } else {
          index := index + 1;
        }
        var record := if key in pending then pending[key] else Record(sha, key, None, None);
        pending := pending[key := record.(counts := Some(CountRow(cut.value.0, cut.value.1)))];
        if key !in order { order := order + [key]; }
        continue;
      }
      index := index + 1;
    }
    rows := Closed(State(sha, pending, order, rows));
  }

  lemma DropMore(tokens: seq<string>, i: nat, n: nat)
    requires i <= |tokens|
    ensures Drop(tokens[i..], n) == Drop(tokens, i + n)
  {
  }

  lemma AtMore(tokens: seq<string>, i: nat, n: nat)
    requires i <= |tokens|
    ensures At(tokens[i..], n) == At(tokens, i + n)
  {
  }
}
