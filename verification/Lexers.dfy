/**
 The offset-preserving comment blanker and the comment-removal loop of the JSONC stripper
 (src/impact/graph/ts_imports.py), against a character-by-character automaton.
 */
module Lexers {

  // ----- the reference: one character at a time -----

  /** Where a character stands. `Quoted(q)` is inside a literal opened by `q`. */
  datatype Mode = Code | Line | Block | Quoted(q: char)

  /** The quote characters a language knows, as a parameter: JSONC has only the double quote. */
  const TS_QUOTES: string := "'\"`"
  const JSON_QUOTES: string := "\""

  /** Quotes differ from everything else the automaton looks at. */
  ghost predicate ValidQuotes(quotes: string) {
    forall c :: c in quotes ==> c !in "/*\\\n "
  }

  predicate Opens(s: string, second: char) {
    |s| >= 2 && s[0] == '/' && s[1] == second
  }

  /** How many characters of `s` the automaton takes as one unit in `mode`, at most two. */
  function Width(mode: Mode, s: string): (n: nat)
    requires s != ""
    ensures 1 <= n <= |s|
  {
    match mode
    case Code => if Opens(s, '/') || Opens(s, '*') then 2 else 1
    case Line => 1
    case Block => if |s| >= 2 && s[0] == '*' && s[1] == '/' then 2 else 1
    case Quoted(_) => if |s| >= 2 && s[0] == '\\' then 2 else 1
  }

  function NextMode(quotes: string, mode: Mode, s: string): Mode
    requires s != ""
  {
    match mode
    case Code =>
      if Opens(s, '/') then Line
      else if Opens(s, '*') then Block
      else if s[0] in quotes then Quoted(s[0])
      else Code
    case Line => if s[0] == '\n' then Code else Line
    case Block => if |s| >= 2 && s[0] == '*' && s[1] == '/' then Code else Block
    case Quoted(q) => if s[0] == q then Code else mode
  }

  /** The unit belongs to a comment. The newline that ends a line comment does not. */
  predicate InComment(mode: Mode, s: string)
    requires s != ""
  {
    match mode
    case Code => Opens(s, '/') || Opens(s, '*')
    case Line => s[0] != '\n'
    case Block => true
    case Quoted(_) => false
  }

  /** For every character, whether it stands in a comment. */
  function Mask(quotes: string, mode: Mode, s: string): (m: seq<bool>)
    ensures |m| == |s|
    decreases |s|
  {
    if s == "" then []
    else
      var n := Width(mode, s);
      seq(n, _ => InComment(mode, s)) + Mask(quotes, NextMode(quotes, mode, s), s[n..])
  }

  function BlankChar(c: char): char { if c == '\n' then '\n' else ' ' }

  /** `" " * n` */
  function Spaces(n: nat): (r: string)
    ensures |r| == n && forall i :: 0 <= i < n ==> r[i] == ' '
  {
    seq(n, _ => ' ')
  }

  function BlankAll(s: string): (r: string)
    ensures |r| == |s|
    ensures forall i :: 0 <= i < |s| ==> r[i] == BlankChar(s[i])
  {
    seq(|s|, i requires 0 <= i < |s| => BlankChar(s[i]))
  }

  /** Comments blanked, unit by unit. */
  function Blanked(quotes: string, mode: Mode, s: string): (r: string)
    ensures |r| == |s|
    decreases |s|
  {
    if s == "" then ""
    else
      var n := Width(mode, s);
      (if InComment(mode, s) then BlankAll(s[..n]) else s[..n]) + Blanked(quotes, NextMode(quotes, mode, s), s[n..])
  }

  /** Comments removed, unit by unit. */
  function Removed(quotes: string, mode: Mode, s: string): string
    decreases |s|
  {
    if s == "" then ""
    else
      var n := Width(mode, s);
      (if InComment(mode, s) then "" else s[..n]) + Removed(quotes, NextMode(quotes, mode, s), s[n..])
  }

  /** The characters of `s` that the mask leaves out. */
  function Unmasked(s: string, m: seq<bool>): string
    requires |s| == |m|
  {
    if s == "" then "" else (if m[0] then "" else [s[0]]) + Unmasked(s[1..], m[1..])
  }

  // ----- what blanking and removing mean -----

  /** Blanking touches exactly the characters inside comments, and of those no newline. */
  lemma {:induction false} BlankedPointwise(quotes: string, mode: Mode, s: string, i: nat)
    requires i < |s|
    ensures Blanked(quotes, mode, s)[i] == if Mask(quotes, mode, s)[i] then BlankChar(s[i]) else s[i]
    decreases |s|
  {
    var n := Width(mode, s);
    if i >= n { BlankedPointwise(quotes, NextMode(quotes, mode, s), s[n..], i - n); }
  }

  lemma TailSlices<T>(s: seq<T>, n: nat)
    requires 0 < n <= |s|
    ensures s[1..][..n - 1] == s[..n][1..] && s[1..][n - 1..] == s[n..] && s[..n][0] == s[0]
  {
  }

  lemma {:induction false} UnmaskedSplit(s: string, m: seq<bool>, n: nat)
    requires |s| == |m| && n <= |s|
    ensures Unmasked(s, m) == Unmasked(s[..n], m[..n]) + Unmasked(s[n..], m[n..])
  {
    if n == 0 {
      assert s[0..] == s && m[0..] == m;
    } else {
      UnmaskedSplit(s[1..], m[1..], n - 1);
      TailSlices(s, n);
      TailSlices(m, n);
    }
  }

  lemma {:induction false} UnmaskedUniform(s: string, b: bool)
    ensures Unmasked(s, seq(|s|, _ => b)) == if b then "" else s
  {
    if s != "" {
      assert seq(|s|, _ => b)[1..] == seq(|s[1..]|, _ => b);
      UnmaskedUniform(s[1..], b);
    }
  }

  /** Removing comments leaves exactly the characters outside them, in order. */
  lemma {:induction false} RemovedIsUnmasked(quotes: string, mode: Mode, s: string)
    ensures Removed(quotes, mode, s) == Unmasked(s, Mask(quotes, mode, s))
    decreases |s|
  {
    if s != "" {
      var n, m := Width(mode, s), Mask(quotes, mode, s);
      RemovedIsUnmasked(quotes, NextMode(quotes, mode, s), s[n..]);
      UnmaskedSplit(s, m, n);
      UnmaskedUniform(s[..n], InComment(mode, s));
      assert m[..n] == seq(|s[..n]|, _ => InComment(mode, s));
      assert m[n..] == Mask(quotes, NextMode(quotes, mode, s), s[n..]);
    }
  }

  /** How the text after a comment's start reads once the comment is gone: as code. */
  function Outside(mode: Mode): Mode {
    if mode.Quoted? then mode else Code
  }

  /** Code that does not open a comment here keeps its first character when blanked or removed. */
  lemma FirstCharacterStays(quotes: string, s: string)
    requires s != "" && s[0] != '/'
    ensures Blanked(quotes, Code, s) != "" && Blanked(quotes, Code, s)[0] == s[0]
    ensures Removed(quotes, Code, s) != "" && Removed(quotes, Code, s)[0] == s[0]
  {
  }

  lemma {:induction false} BlankingTwice(quotes: string, mode: Mode, s: string)
    requires ValidQuotes(quotes) && (mode.Quoted? ==> mode.q in quotes)
    ensures Blanked(quotes, Outside(mode), Blanked(quotes, mode, s)) == Blanked(quotes, mode, s)
    decreases |s|
  {
    if s != "" {
      var n, next := Width(mode, s), NextMode(quotes, mode, s);
      BlankingTwice(quotes, next, s[n..]);
      var rest := Blanked(quotes, next, s[n..]);
      var b := Blanked(quotes, mode, s);
      assert b[n..] == rest;
      if InComment(mode, s) {
        BlankRunIsCode(quotes, BlankAll(s[..n]), rest, b);
      } else {
        assert b[..n] == s[..n];
        if mode == Code && s[0] == '/' && |s| > 1 { FirstCharacterStays(quotes, s[1..]); }
        assert Width(Outside(mode), b) == n;
        assert !InComment(Outside(mode), b);
        assert NextMode(quotes, Outside(mode), b) == Outside(next);
      }
    }
  }

  lemma BlankIsCode(quotes: string, c: char, rest: string, s: string)
    requires ValidQuotes(quotes) && (c == ' ' || c == '\n')
    requires s == [c] + rest
    ensures Blanked(quotes, Code, s) == [c] + Blanked(quotes, Code, rest)
  {
    assert NextMode(quotes, Code, s) == Code && s[..1] == [c] && s[1..] == rest;
  }

  lemma PutBack(a: string, tail: string)
    requires a != ""
    ensures [a[0]] + (a[1..] + tail) == a + tail
  {
  }

  lemma {:induction false} BlankRunIsCode(quotes: string, blanks: string, rest: string, s: string)
    requires ValidQuotes(quotes) && forall i :: 0 <= i < |blanks| ==> blanks[i] == ' ' || blanks[i] == '\n'
    requires s == blanks + rest
    ensures Blanked(quotes, Code, s) == blanks + Blanked(quotes, Code, rest)
    decreases |blanks|
  {
    if blanks == "" {
      assert s == rest;
    } else {
      var c, t := blanks[0], blanks[1..];
      BlankRunIsCode(quotes, t, rest, t + rest);
      PutBack(blanks, rest);
      BlankIsCode(quotes, c, t + rest, s);
      PutBack(blanks, Blanked(quotes, Code, rest));
    }
  }

  lemma {:induction false} RemovingTwice(quotes: string, mode: Mode, s: string)
    requires ValidQuotes(quotes) && (mode.Quoted? ==> mode.q in quotes)
    ensures Removed(quotes, Outside(mode), Removed(quotes, mode, s)) == Removed(quotes, mode, s)
    decreases |s|
  {
    if s != "" {
      var n, next := Width(mode, s), NextMode(quotes, mode, s);
      RemovingTwice(quotes, next, s[n..]);
      var rest := Removed(quotes, next, s[n..]);
      var r := Removed(quotes, mode, s);
      if !InComment(mode, s) {
        assert r == s[..n] + rest && r[n..] == rest;
        if mode == Code && s[0] == '/' && |s| > 1 { FirstCharacterStays(quotes, s[1..]); }
        assert Width(Outside(mode), r) == n;
        assert !InComment(Outside(mode), r);
        assert NextMode(quotes, Outside(mode), r) == Outside(next);
      } else {
        assert r == rest && Outside(next) == Outside(mode) == Code;
      }
    }
  }

  // ----- the scanners of the source, which jump with `find` -----

  /** `source.find("\n", i)`, or the length. */
  function LineEnd(s: string, i: nat): (k: nat)
    requires i <= |s|
    ensures i <= k <= |s|
    decreases |s| - i
  {
    if i == |s| || s[i] == '\n' then i else LineEnd(s, i + 1)
  }

  // `source.find("*/", i) + 2`, or the length.
  function BlockEnd(s: string, i: nat): (k: nat)
    requires i <= |s|
    ensures i <= k <= |s|
    decreases |s| - i
  {
    if i + 2 > |s| then |s|
    else if s[i] == '*' && s[i + 1] == '/' then i + 2
    else BlockEnd(s, i + 1)
  }

  /** Where a literal opened by `q` ends: after its closing quote, or at the end of the text. */
  function LiteralEnd(s: string, i: nat, q: char): (k: nat)
    requires i <= |s|
    ensures i <= k <= |s|
    decreases |s| - i
  {
    if i == |s| then i
    else if s[i] == '\\' then (if i + 2 <= |s| then LiteralEnd(s, i + 2, q) else |s|)
    else if s[i] == q then i + 1
    else LiteralEnd(s, i + 1, q)
  }

  /** The inner loop over a string literal. The index may end one past a dangling backslash. */
  method CopyLiteral(source: string, start: nat, quote: char) returns (copied: string, index: nat)
    requires start <= |source|
    ensures copied == source[start..LiteralEnd(source, start, quote)]
    ensures index == LiteralEnd(source, start, quote)
      || (index == |source| + 1 && |source| == LiteralEnd(source, start, quote))
  {
    ghost var end := LiteralEnd(source, start, quote);
    index := start;
    copied := "";
    while index < |source|
      invariant start <= index <= |source| + 1
      invariant index <= |source| ==> copied == source[start..index] && LiteralEnd(source, index, quote) == end
      invariant index > |source| ==> copied == source[start..] && end == |source|
    {
      if source[index] == '\\' {
        copied := copied + source[index..if index + 2 <= |source| then index + 2 else |source|];
        index := index + 2;
        continue;
      }
      copied := copied + [source[index]];
      if source[index] == quote {
        index := index + 1;
        break;
      }
      index := index + 1;
    }
  }

  // ----- any reading of a text that covers its comments -----

  /**
   A reading gives the text from a position on, in a mode. One unit: covered inside a comment, kept
   outside, and then the reading goes on after it.
   */
  ghost predicate ReadsUnit(view: (Mode, nat) -> string, cover: string -> string, quotes: string, s: string,
      mode: Mode, i: nat)
    requires i < |s|
  {
    var n := Width(mode, s[i..]);
    && i + n <= |s|
    && view(mode, i) ==
       (if InComment(mode, s[i..]) then cover(s[i..i + n]) else s[i..i + n])
         + view(NextMode(quotes, mode, s[i..]), i + n)
  }

  ghost predicate Distributes(cover: string -> string, a: string, b: string) {
    cover(a + b) == cover(a) + cover(b)
  }

  ghost predicate Reads(view: (Mode, nat) -> string, cover: string -> string, quotes: string, s: string) {
    && (forall mode, i: nat {:trigger ReadsUnit(view, cover, quotes, s, mode, i)} ::
      i < |s| ==> ReadsUnit(view, cover, quotes, s, mode, i))
    && (forall mode, i: nat :: i >= |s| ==> view(mode, i) == "")
    && cover("") == ""
    && (forall a, b {:trigger Distributes(cover, a, b)} :: Distributes(cover, a, b))
  }

  function BlankedFrom(quotes: string, s: string): (Mode, nat) -> string {
    (mode: Mode, i: nat) => if i <= |s| then Blanked(quotes, mode, s[i..]) else ""
  }

  function RemovedFrom(quotes: string, s: string): (Mode, nat) -> string {
    (mode: Mode, i: nat) => if i <= |s| then Removed(quotes, mode, s[i..]) else ""
  }

  function Nothing(s: string): string { "" }

  lemma BlankedReads(quotes: string, s: string)
    ensures Reads(BlankedFrom(quotes, s), BlankAll, quotes, s)
    ensures BlankedFrom(quotes, s)(Code, 0) == Blanked(quotes, Code, s)
  {
    assert s[0..] == s;
    forall mode, i: nat | i < |s| ensures ReadsUnit(BlankedFrom(quotes, s), BlankAll, quotes, s, mode, i) {
      SliceAgain(s, i, Width(mode, s[i..]));
    }
    forall a, b ensures Distributes(BlankAll, a, b) {
      assert BlankAll(a + b) == BlankAll(a) + BlankAll(b);
    }
  }

  lemma RemovedReads(quotes: string, s: string)
    ensures Reads(RemovedFrom(quotes, s), Nothing, quotes, s)
    ensures RemovedFrom(quotes, s)(Code, 0) == Removed(quotes, Code, s)
  {
    assert s[0..] == s;
    forall mode, i: nat | i < |s| ensures ReadsUnit(RemovedFrom(quotes, s), Nothing, quotes, s, mode, i) {
      SliceAgain(s, i, Width(mode, s[i..]));
    }
    assert forall a, b :: Distributes(Nothing, a, b);
  }

  lemma SliceAgain(s: string, i: nat, n: nat)
    requires i + n <= |s|
    ensures s[i..][..n] == s[i..i + n] && s[i..][n..] == s[i + n..]
  {
  }

  /** Two adjoining stretches, both kept. */
  lemma Kept(s: string, i: nat, j: nat, k: nat, whole: string, rest: string, tail: string)
    requires i <= j <= k <= |s| && whole == s[i..j] + rest && rest == s[j..k] + tail
    ensures whole == s[i..k] + tail
  {
    assert s[i..j] + s[j..k] == s[i..k];
  }

  /** Two adjoining stretches, both covered. */
  lemma Covered(cover: string -> string, s: string, i: nat, j: nat, k: nat, whole: string, rest: string, tail: string)
    requires i <= j <= k <= |s| && Distributes(cover, s[i..j], s[j..k])
    requires whole == cover(s[i..j]) + rest && rest == cover(s[j..k]) + tail
    ensures whole == cover(s[i..k]) + tail
  {
    assert s[i..j] + s[j..k] == s[i..k];
  }

  lemma NothingLeft(cover: string -> string, s: string, i: nat, text: string)
    requires i <= |s| && cover("") == ""
    ensures cover(s[i..i]) + text == text
  {
    assert s[i..i] == "";
  }

  // Runs: from inside a comment or a literal to its end.

  lemma {:induction false} LineRun(view: (Mode, nat) -> string, cover: string -> string, quotes: string,
      s: string, i: nat)
    requires Reads(view, cover, quotes, s) && ValidQuotes(quotes) && i <= |s|
    ensures view(Line, i) == cover(s[i..LineEnd(s, i)]) + view(Code, LineEnd(s, i))
    decreases |s| - i
  {
    var k := LineEnd(s, i);
    if i < |s| { assert s[i..][0] == s[i] && ReadsUnit(view, cover, quotes, s, Line, i); }
    if i < |s| && s[i] != '\n' {
      LineRun(view, cover, quotes, s, i + 1);
      assert Distributes(cover, s[i..i + 1], s[i + 1..k]);
      Covered(cover, s, i, i + 1, k, view(Line, i), view(Line, i + 1), view(Code, k));
    } else {
      if i < |s| { assert ReadsUnit(view, cover, quotes, s, Code, i); }
      NothingLeft(cover, s, i, view(Code, i));
    }
  }

  lemma BlockUnit(view: (Mode, nat) -> string, cover: string -> string, quotes: string, s: string, i: nat)
    requires Reads(view, cover, quotes, s) && i < |s|
    ensures var ends := i + 1 < |s| && s[i] == '*' && s[i + 1] == '/';
            if ends then BlockEnd(s, i) == i + 2 && view(Block, i) == cover(s[i..i + 2]) + view(Code, i + 2)
            else BlockEnd(s, i) == BlockEnd(s, i + 1) && view(Block, i) == cover(s[i..i + 1]) + view(Block, i + 1)
  {
    assert s[i..][0] == s[i] && (i + 1 < |s| ==> s[i..][1] == s[i + 1]);
    assert ReadsUnit(view, cover, quotes, s, Block, i);
  }

  lemma {:induction false} BlockRun(view: (Mode, nat) -> string, cover: string -> string, quotes: string,
      s: string, i: nat)
    requires Reads(view, cover, quotes, s) && i <= |s|
    ensures view(Block, i) == cover(s[i..BlockEnd(s, i)]) + view(Code, BlockEnd(s, i))
    decreases |s| - i
  {
    var k := BlockEnd(s, i);
    if i == |s| {
      NothingLeft(cover, s, i, view(Code, i));
    } else {
      BlockUnit(view, cover, quotes, s, i);
      if !(i + 1 < |s| && s[i] == '*' && s[i + 1] == '/') {
        BlockRun(view, cover, quotes, s, i + 1);
        assert Distributes(cover, s[i..i + 1], s[i + 1..k]);
        Covered(cover, s, i, i + 1, k, view(Block, i), view(Block, i + 1), view(Code, k));
      }
    }
  }

  lemma LiteralUnit(view: (Mode, nat) -> string, cover: string -> string, quotes: string, q: char, s: string, i: nat)
      returns (n: nat)
    requires Reads(view, cover, quotes, s) && ValidQuotes(quotes) && q in quotes && i < |s|
    ensures n > 0 && i + n <= |s|
    ensures s[i] == q ==> LiteralEnd(s, i, q) == i + n && view(Quoted(q), i) == s[i..i + n] + view(Code, i + n)
    ensures s[i] != q ==> LiteralEnd(s, i + n, q) == LiteralEnd(s, i, q) && view(Quoted(q), i) == s[i..i + n] + view(Quoted(q), i + n)
  {
    n := Width(Quoted(q), s[i..]);
    assert s[i..][0] == s[i];
    assert ReadsUnit(view, cover, quotes, s, Quoted(q), i);
  }

  lemma {:induction false} LiteralRun(view: (Mode, nat) -> string, cover: string -> string, quotes: string, q: char,
      s: string, i: nat)
    requires Reads(view, cover, quotes, s) && ValidQuotes(quotes) && q in quotes && i <= |s|
    ensures view(Quoted(q), i) == s[i..LiteralEnd(s, i, q)] + view(Code, LiteralEnd(s, i, q))
    decreases |s| - i
  {
    var k := LiteralEnd(s, i, q);
    if i < |s| {
      var n := LiteralUnit(view, cover, quotes, q, s, i);
      if s[i] != q {
        LiteralRun(view, cover, quotes, q, s, i + n);
        Kept(s, i, i + n, k, view(Quoted(q), i), view(Quoted(q), i + n), view(Code, k));
      }
    }
  }

  // Jumps: what one step of a scanner contributes, from a position in code.

  predicate OpensAt(s: string, i: nat, second: char)
    requires i < |s|
  {
    i + 1 < |s| && s[i] == '/' && s[i + 1] == second
  }

  lemma CodeUnit(view: (Mode, nat) -> string, cover: string -> string, quotes: string, s: string, i: nat)
    requires Reads(view, cover, quotes, s) && i < |s|
    ensures OpensAt(s, i, '/') ==> view(Code, i) == cover(s[i..i + 2]) + view(Line, i + 2)
    ensures OpensAt(s, i, '*') ==> view(Code, i) == cover(s[i..i + 2]) + view(Block, i + 2)
    ensures !OpensAt(s, i, '/') && !OpensAt(s, i, '*') ==>
              view(Code, i) == s[i..i + 1] + view(if s[i] in quotes then Quoted(s[i]) else Code, i + 1)
  {
    assert s[i..][0] == s[i] && (i + 1 < |s| ==> s[i..][1] == s[i + 1]);
    assert ReadsUnit(view, cover, quotes, s, Code, i);
  }

  lemma JumpLine(view: (Mode, nat) -> string, cover: string -> string, quotes: string, s: string, i: nat)
    requires Reads(view, cover, quotes, s) && ValidQuotes(quotes) && i < |s| && OpensAt(s, i, '/')
    ensures i < LineEnd(s, i) && view(Code, i) == cover(s[i..LineEnd(s, i)]) + view(Code, LineEnd(s, i))
  {
    var k := LineEnd(s, i);
    assert k == LineEnd(s, i + 1) == LineEnd(s, i + 2);
    CodeUnit(view, cover, quotes, s, i);
    LineRun(view, cover, quotes, s, i + 2);
    assert Distributes(cover, s[i..i + 2], s[i + 2..k]);
    Covered(cover, s, i, i + 2, k, view(Code, i), view(Line, i + 2), view(Code, k));
  }

  lemma JumpBlock(view: (Mode, nat) -> string, cover: string -> string, quotes: string, s: string, i: nat)
    requires Reads(view, cover, quotes, s) && i < |s| && OpensAt(s, i, '*')
    ensures view(Code, i) == cover(s[i..BlockEnd(s, i + 2)]) + view(Code, BlockEnd(s, i + 2))
  {
    var k := BlockEnd(s, i + 2);
    CodeUnit(view, cover, quotes, s, i);
    BlockRun(view, cover, quotes, s, i + 2);
    assert Distributes(cover, s[i..i + 2], s[i + 2..k]);
    Covered(cover, s, i, i + 2, k, view(Code, i), view(Block, i + 2), view(Code, k));
  }

  lemma JumpLiteral(view: (Mode, nat) -> string, cover: string -> string, quotes: string, s: string, i: nat)
    requires Reads(view, cover, quotes, s) && ValidQuotes(quotes) && i < |s| && s[i] in quotes
    ensures var k := LiteralEnd(s, i + 1, s[i]); view(Code, i) == s[i..k] + view(Code, k)
  {
    var q, k := s[i], LiteralEnd(s, i + 1, s[i]);
    CodeUnit(view, cover, quotes, s, i);
    LiteralRun(view, cover, quotes, q, s, i + 1);
    Kept(s, i, i + 1, k, view(Code, i), view(Quoted(q), i + 1), view(Code, k));
  }

  lemma BlankedLine(s: string, i: nat)
    requires i <= |s|
    ensures BlankAll(s[i..LineEnd(s, i)]) == Spaces(LineEnd(s, i) - i)
  {
    NoNewlineBefore(s, i);
  }

  lemma {:induction false} NoNewlineBefore(s: string, i: nat)
    requires i <= |s|
    ensures forall j :: i <= j < LineEnd(s, i) ==> s[j] != '\n'
    decreases |s| - i
  {
    if i < |s| && s[i] != '\n' { NoNewlineBefore(s, i + 1); }
  }

  /** The scanner has written `done` for everything before `i`. */
  ghost predicate Written(view: (Mode, nat) -> string, done: string, i: nat) {
    done + view(Code, i) == view(Code, 0)
  }

  lemma WriteChunk(view: (Mode, nat) -> string, done: string, i: nat, chunk: string, j: nat)
    requires Written(view, done, i) && view(Code, i) == chunk + view(Code, j)
    ensures Written(view, done + chunk, j)
  {
    assert (done + chunk) + view(Code, j) == done + (chunk + view(Code, j));
  }

  /** A whole literal, from its opening quote. */
  method LiteralChunk(source: string, index: nat) returns (chunk: string, next: nat)
    requires index < |source|
    ensures var k := LiteralEnd(source, index + 1, source[index]);
            chunk == source[index..k] && index < next && (next == k || (k == |source| && next == k + 1))
  {
    chunk, next := CopyLiteral(source, index + 1, source[index]);
    chunk := [source[index]] + chunk;
  }

  /** One round of the loop of `strip_comments_and_strings`: what it appends, and where it goes on. */
  method BlankChunk(source: string, index: nat, quotes: string, ghost view: (Mode, nat) -> string)
      returns (chunk: string, next: nat)
    requires index < |source| && ValidQuotes(quotes) && Reads(view, BlankAll, quotes, source)
    ensures index < next <= |source| + 1 && view(Code, index) == chunk + view(Code, next)
  {
    if OpensAt(source, index, '/') {
      JumpLine(view, BlankAll, quotes, source, index);
      BlankedLine(source, index);
      next := LineEnd(source, index);
      chunk := Spaces(next - index);
    } else if OpensAt(source, index, '*') {
      JumpBlock(view, BlankAll, quotes, source, index);
      next := BlockEnd(source, index + 2);
      chunk := BlankAll(source[index..next]);
    } else if source[index] in quotes {
      JumpLiteral(view, BlankAll, quotes, source, index);
      chunk, next := LiteralChunk(source, index);
    } else {
      CodeUnit(view, BlankAll, quotes, source, index);
      chunk, next := source[index..index + 1], index + 1;
    }
  }

  /** `strip_comments_and_strings`: comments blanked, offsets kept. */
  method StripComments(source: string) returns (out: string)
    ensures out == Blanked(TS_QUOTES, Code, source)
  {
    ghost var view := BlankedFrom(TS_QUOTES, source);
    BlankedReads(TS_QUOTES, source);
    out := "";
    var index := 0;
    while index < |source|
      invariant index <= |source| + 1 && Written(view, out, index)
    {
      var chunk, next := BlankChunk(source, index, TS_QUOTES, view);
      WriteChunk(view, out, index, chunk, next);
      out, index := out + chunk, next;
    }
  }

  /** One round of the comment loop of `strip_jsonc`. */
  method RemoveChunk(source: string, index: nat, ghost view: (Mode, nat) -> string) returns (chunk: string, next: nat)
    requires index < |source| && Reads(view, Nothing, JSON_QUOTES, source)
    ensures index < next <= |source| + 1 && view(Code, index) == chunk + view(Code, next)
  {
    if source[index] == '"' {
      JumpLiteral(view, Nothing, JSON_QUOTES, source, index);
      chunk, next := LiteralChunk(source, index);
    } else if OpensAt(source, index, '/') {
      JumpLine(view, Nothing, JSON_QUOTES, source, index);
      chunk, next := "", LineEnd(source, index);
    } else if OpensAt(source, index, '*') {
      JumpBlock(view, Nothing, JSON_QUOTES, source, index);
      chunk, next := "", BlockEnd(source, index + 2);
    } else {
      CodeUnit(view, Nothing, JSON_QUOTES, source, index);
      chunk, next := source[index..index + 1], index + 1;
    }
  }

  /** The comment loop of `strip_jsonc`, before its trailing-comma rewrite. */
  method StripJsoncComments(text: string) returns (out: string)
    ensures out == Removed(JSON_QUOTES, Code, text)
  {
    ghost var view := RemovedFrom(JSON_QUOTES, text);
    RemovedReads(JSON_QUOTES, text);
    out := "";
    var index := 0;
    while index < |text|
      invariant index <= |text| + 1 && Written(view, out, index)
    {
      var chunk, next := RemoveChunk(text, index, view);
      WriteChunk(view, out, index, chunk, next);
      out, index := out + chunk, next;
    }
  }

  // ----- the main results -----

  /**
   Blanking keeps the length and every offset: outside comments nothing changes, inside them every
   character but a newline becomes a space; and blanking again changes nothing.
   */
  lemma BlankingIsSafe(source: string)
    ensures var out, mask := Blanked(TS_QUOTES, Code, source), Mask(TS_QUOTES, Code, source);
            && |out| == |source|
            && (forall i :: 0 <= i < |source| ==> (out[i] == '\n' <==> source[i] == '\n'))
            && (forall i :: 0 <= i < |source| && !mask[i] ==> out[i] == source[i])
            && (forall i :: 0 <= i < |source| && mask[i] && source[i] != '\n' ==> out[i] == ' ')
            && Blanked(TS_QUOTES, Code, out) == out
  {
    forall i | 0 <= i < |source|
      ensures Blanked(TS_QUOTES, Code, source)[i] ==
              if Mask(TS_QUOTES, Code, source)[i] then BlankChar(source[i]) else source[i]
    {
      BlankedPointwise(TS_QUOTES, Code, source, i);
    }
    BlankingTwice(TS_QUOTES, Code, source);
  }

  /** Removing comments keeps exactly what is outside them, and leaves none behind. */
  lemma RemovingIsSafe(text: string)
    ensures var out := Removed(JSON_QUOTES, Code, text);
            && out == Unmasked(text, Mask(JSON_QUOTES, Code, text))
            && Removed(JSON_QUOTES, Code, out) == out
  {
    RemovedIsUnmasked(JSON_QUOTES, Code, text);
    RemovingTwice(JSON_QUOTES, Code, text);
  }
}
