/**
 Path globs (src/impact/normalize/paths.py): the compiler from a glob to an anchored
 regular expression, kept as the list of pieces it emits, and what that list means.
 */
module Glob {
  import opened Collections

  /** One fragment the compiler appends to its output. */
  datatype Piece =
    | Lit(c: char)        // re.escape(c)
    | NotSlash            // [^/]
    | NotSlashRun         // [^/]*
    | AnyRun              // .*
    | DirPrefix           // (?:.*/)?
    | TailDir             // (?:/.*)?
    | Class(text: string) // a bracket class, copied verbatim

  predicate NoSlash(s: string) { forall i :: 0 <= i < |s| ==> s[i] != '/' }

  predicate NoNewline(s: string) { forall i :: 0 <= i < |s| ==> s[i] != '\n' }

  // ----- the regular-expression engine, on the pieces above -----

  /** The pieces consume exactly `s`. As in Python, `.` is any character but a newline. */
  ghost predicate Matches(ps: seq<Piece>, s: string)
    decreases |ps|
  {
    if ps == [] then s == ""
    else
      var rest := ps[1..];
      match ps[0]
      case Lit(c) => s != "" && s[0] == c && Matches(rest, s[1..])
      case NotSlash => s != "" && s[0] != '/' && Matches(rest, s[1..])
      case NotSlashRun => exists k :: 0 <= k <= |s| && NoSlash(s[..k]) && Matches(rest, s[k..])
      case AnyRun => exists k :: 0 <= k <= |s| && NoNewline(s[..k]) && Matches(rest, s[k..])
      case DirPrefix =>
        || Matches(rest, s)
        || exists k :: 0 <= k < |s| && s[k] == '/' && NoNewline(s[..k]) && Matches(rest, s[k + 1..])
      case TailDir =>
        || Matches(rest, s)
        || exists k :: 1 <= k <= |s| && s[0] == '/' && NoNewline(s[1..k]) && Matches(rest, s[k..])
      case Class(_) => false // bracket classes are outside this model; see ClassFree
  }

  /** `re.match` on `^...$`: the final `$` also matches just before a trailing newline. */
  ghost predicate Accepts(ps: seq<Piece>, s: string) {
    Matches(ps, s) || (s != "" && s[|s| - 1] == '\n' && Matches(ps, s[..|s| - 1]))
  }

  // ----- the compiler -----

  /** `p.startswith(t, i)` */
  predicate StartsAt(p: string, t: string, i: nat)
    requires i <= |p|
  {
    t <= p[i..]
  }

  /** Index of the first `c` in `s`, as `str.find` on a suffix. */
  function Find(s: string, c: char): (r: Option<nat>)
    ensures r.Some? ==> r.value < |s| && s[r.value] == c
    ensures r.None? ==> c !in s
  {
    if s == "" then None
    else if s[0] == c then Some(0)
    else match Find(s[1..], c) case None => None case Some(i) => Some(i + 1)
  }

  /** What the compiler emits, by looking ahead instead of rewriting its own output. */
  function Pieces(p: string): seq<Piece> {
    if p == "" then []
    else if p == "/**" then [TailDir]
    else if StartsAt(p, "**/", 0) then [DirPrefix] + Pieces(p[3..])
    else if StartsAt(p, "**", 0) then [AnyRun] + Pieces(p[2..])
    else if p[0] == '*' then [NotSlashRun] + Pieces(p[1..])
    else if p[0] == '?' then [NotSlash] + Pieces(p[1..])
    else if p[0] == '[' && Find(p, ']').Some? then
      var close := Find(p, ']').value;
      [Class(p[..close + 1])] + Pieces(p[close + 1..])
    else [Lit(p[0])] + Pieces(p[1..])
  }

  // What the output becomes once `rest` is compiled too. When the slash just emitted is followed by
  // exactly "**", the rewrite pops that slash and puts TailDir in its place.
  ghost function Finished(out: seq<Piece>, rest: string): seq<Piece> {
    FinishedWith(out, rest, Pieces(rest))
  }

  ghost function FinishedWith(out: seq<Piece>, rest: string, pieces: seq<Piece>): seq<Piece> {
    if out != [] && out[|out| - 1] == Lit('/') && rest == "**" then out[..|out| - 1] + [TailDir]
    else out + pieces
  }

  lemma EmitPiece(out: seq<Piece>, rest: string, pieces: seq<Piece>, piece: Piece, rest': string, pieces': seq<Piece>)
    requires FinishedWith(out, rest, pieces) == out + pieces && pieces == [piece] + pieces'
    requires piece == Lit('/') ==> rest' != "**"
    ensures FinishedWith(out + [piece], rest', pieces') == FinishedWith(out, rest, pieces)
  {
    assert (out + [piece]) + pieces' == out + ([piece] + pieces');
  }

  lemma EmitStep(out: seq<Piece>, rest: string, piece: Piece, rest': string)
    requires Finished(out, rest) == out + Pieces(rest)
    requires Pieces(rest) == [piece] + Pieces(rest')
    requires piece == Lit('/') ==> rest' != "**"
    ensures Finished(out + [piece], rest') == Finished(out, rest)
  {
    EmitPiece(out, rest, Pieces(rest), piece, rest', Pieces(rest'));
  }

  lemma EmitLiteral(out: seq<Piece>, rest: string)
    requires rest != "" && rest[0] !in "*?" && (rest[0] == '[' ==> Find(rest, ']').None?)
    ensures Finished(out + [Lit(rest[0])], rest[1..]) == Finished(out, rest)
  {
    if rest == "/**" {
      assert rest[1..] == "**";
      assert (out + [Lit('/')])[..|out|] == out;
    } else {
      assert rest == [rest[0]] + rest[1..];
      EmitStep(out, rest, Lit(rest[0]), rest[1..]);
    }
  }

  /** The output so far, completed by what is left, is what the whole pattern compiles to. */
  ghost predicate OnTrack(compile: string -> seq<Piece>, pattern: string, out: seq<Piece>, index: nat) {
    index <= |pattern| && FinishedWith(out, pattern[index..], compile(pattern[index..])) == compile(pattern)
  }

  ghost predicate CompiledTo(compile: string -> seq<Piece>, p: string) {
    compile(p) == Pieces(p)
  }

  /** `compile` is `Pieces`, in a form that is unfolded only where a proof says so. */
  ghost predicate Compiles(compile: string -> seq<Piece>) {
    forall p {:trigger CompiledTo(compile, p)} :: CompiledTo(compile, p)
  }

  /** A slice of a slice is one slice. */
  lemma Further(pattern: string, index: nat, n: nat)
    requires index + n <= |pattern|
    ensures pattern[index..][n..] == pattern[index + n..]
  {
  }

  lemma NoRewrite(out: seq<Piece>, rest: string)
    requires rest != "**"
    ensures Finished(out, rest) == out + Pieces(rest)
  {
  }

  /** The trailing rewrite: the slash already emitted is popped. */
  method CloseTrailing(ghost compile: string -> seq<Piece>, pattern: string, index: nat, before: seq<Piece>)
      returns (out: seq<Piece>)
    requires Compiles(compile) && OnTrack(compile, pattern, before, index) && pattern[index..] == "**"
    requires before != [] && before[|before| - 1] == Lit('/')
    ensures OnTrack(compile, pattern, out, index + 2)
  {
    assert index + 2 == |pattern| && pattern[index + 2..] == "";
    assert CompiledTo(compile, "");
    out := before[..|before| - 1];
    out := out + [TailDir];
  }

  method EmitGlobstarSlash(ghost compile: string -> seq<Piece>, pattern: string, index: nat, before: seq<Piece>)
      returns (out: seq<Piece>)
    requires Compiles(compile) && OnTrack(compile, pattern, before, index) && StartsAt(pattern, "**/", index)
    ensures index + 3 <= |pattern| && OnTrack(compile, pattern, out, index + 3)
  {
    ghost var rest := pattern[index..];
    assert CompiledTo(compile, rest) && CompiledTo(compile, rest[3..]);
    Further(pattern, index, 3);
    assert rest[0..] == rest && rest[0] == '*' && |rest| >= 3;
    NoRewrite(before, rest);
    EmitStep(before, rest, DirPrefix, rest[3..]);
    out := before + [DirPrefix];
  }

  method EmitGlobstar(ghost compile: string -> seq<Piece>, pattern: string, index: nat, before: seq<Piece>)
      returns (out: seq<Piece>)
    requires Compiles(compile) && OnTrack(compile, pattern, before, index)
    requires StartsAt(pattern, "**", index) && !StartsAt(pattern, "**/", index)
    requires !(index + 2 == |pattern| && before != [] && before[|before| - 1] == Lit('/'))
    ensures index + 2 <= |pattern| && OnTrack(compile, pattern, out, index + 2)
  {
    ghost var rest := pattern[index..];
    assert CompiledTo(compile, rest) && CompiledTo(compile, rest[2..]);
    Further(pattern, index, 2);
    assert rest[0..] == rest && rest[0] == '*' && |rest| >= 2;
    EmitStep(before, rest, AnyRun, rest[2..]);
    out := before + [AnyRun];
  }

  method EmitStar(ghost compile: string -> seq<Piece>, pattern: string, index: nat, before: seq<Piece>)
      returns (out: seq<Piece>)
    requires Compiles(compile) && OnTrack(compile, pattern, before, index) && index < |pattern|
      && pattern[index] == '*' && !StartsAt(pattern, "**", index)
    ensures OnTrack(compile, pattern, out, index + 1)
  {
    ghost var rest := pattern[index..];
    assert CompiledTo(compile, rest) && CompiledTo(compile, rest[1..]);
    Further(pattern, index, 1);
    assert rest[0..] == rest && rest[0] == '*' && !StartsAt(rest, "**/", 0);
    NoRewrite(before, rest);
    EmitStep(before, rest, NotSlashRun, rest[1..]);
    out := before + [NotSlashRun];
  }

  method EmitQuestion(ghost compile: string -> seq<Piece>, pattern: string, index: nat, before: seq<Piece>)
      returns (out: seq<Piece>)
    requires Compiles(compile) && OnTrack(compile, pattern, before, index) && index < |pattern| && pattern[index] == '?'
    ensures OnTrack(compile, pattern, out, index + 1)
  {
    ghost var rest := pattern[index..];
    assert CompiledTo(compile, rest) && CompiledTo(compile, rest[1..]);
    Further(pattern, index, 1);
    assert rest[0] == '?';
    NoRewrite(before, rest);
    EmitStep(before, rest, NotSlash, rest[1..]);
    out := before + [NotSlash];
  }

  method EmitClass(ghost compile: string -> seq<Piece>, pattern: string, index: nat, close: nat, before: seq<Piece>)
      returns (out: seq<Piece>)
    requires Compiles(compile) && OnTrack(compile, pattern, before, index) && index < |pattern| && pattern[index] == '['
    requires Find(pattern[index..], ']') == Some(close)
    ensures index + close + 1 <= |pattern| && OnTrack(compile, pattern, out, index + close + 1)
  {
    ghost var rest := pattern[index..];
    assert CompiledTo(compile, rest) && CompiledTo(compile, rest[close + 1..]);
    var next := index + close + 1;
    Further(pattern, index, close + 1);
    assert rest[..close + 1] == pattern[index..next] && rest[0] == '[';
    NoRewrite(before, rest);
    EmitStep(before, rest, Class(pattern[index..next]), rest[close + 1..]);
    out := before + [Class(pattern[index..next])];
  }

  method EmitPlain(ghost compile: string -> seq<Piece>, pattern: string, index: nat, before: seq<Piece>)
      returns (out: seq<Piece>)
    requires Compiles(compile) && OnTrack(compile, pattern, before, index) && index < |pattern|
      && pattern[index] !in "*?"
    requires pattern[index] == '[' ==> Find(pattern[index..], ']').None?
    ensures OnTrack(compile, pattern, out, index + 1)
  {
    ghost var rest := pattern[index..];
    assert CompiledTo(compile, rest) && CompiledTo(compile, rest[1..]);
    Further(pattern, index, 1);
    EmitLiteral(before, rest);
    out := before + [Lit(pattern[index])];
  }

  /** One round of the loop at a star. */
  method EmitStarred(ghost compile: string -> seq<Piece>, pattern: string, index: nat, before: seq<Piece>)
      returns (out: seq<Piece>, next: nat)
    requires Compiles(compile) && OnTrack(compile, pattern, before, index) && index < |pattern| && pattern[index] == '*'
    ensures next > index && OnTrack(compile, pattern, out, next)
  {
    if StartsAt(pattern, "**", index) {
      if index + 2 == |pattern| && before != [] && before[|before| - 1] == Lit('/') {
        out := CloseTrailing(compile, pattern, index, before);
        return out, index + 2;
      }
      if StartsAt(pattern, "**/", index) {
        out := EmitGlobstarSlash(compile, pattern, index, before);
        return out, index + 3;
      }
      out := EmitGlobstar(compile, pattern, index, before);
      return out, index + 2;
    }
    out := EmitStar(compile, pattern, index, before);
    next := index + 1;
  }

  /** One round of the loop at any other character. */
  method EmitOther(ghost compile: string -> seq<Piece>, pattern: string, index: nat, before: seq<Piece>)
      returns (out: seq<Piece>, next: nat)
    requires Compiles(compile) && OnTrack(compile, pattern, before, index) && index < |pattern| && pattern[index] != '*'
    ensures next > index && OnTrack(compile, pattern, out, next)
  {
    var c := pattern[index];
    if c == '?' {
      out := EmitQuestion(compile, pattern, index, before);
      return out, index + 1;
    }
    if c == '[' {
      var close := Find(pattern[index..], ']');
      if close.Some? {
        out := EmitClass(compile, pattern, index, close.value, before);
        return out, index + close.value + 1;
      }
    }
    out := EmitPlain(compile, pattern, index, before);
    next := index + 1;
  }

  method GlobToRegex(pattern: string) returns (out: seq<Piece>)
    ensures out == Pieces(pattern)
  {
    ghost var compile := (p: string) => Pieces(p);
    assert Compiles(compile);
    assert CompiledTo(compile, pattern) && CompiledTo(compile, "") && pattern[0..] == pattern;
    out := [];
    var index := 0;
    while index < |pattern|
      invariant OnTrack(compile, pattern, out, index)
    {
      if pattern[index] == '*' {
        out, index := EmitStarred(compile, pattern, index, out);
      } else {
        out, index := EmitOther(compile, pattern, index, out);
      }
    }
  }

  // `glob_match`: the compiled form, then the fallback for patterns ending in "/**".
  ghost predicate GlobMatch(pattern: string, path: string) {
    || Accepts(Pieces(pattern), path)
    || (|pattern| >= 3 && pattern[|pattern| - 3..] == "/**" &&
        var dir := pattern[..|pattern| - 3];
        path == dir || dir + "/" <= path)
  }

  // ----- what a glob means -----

  /** The path without its first segment, if it has more than one. */
  function AfterSlash(s: string): (r: Option<string>)
    ensures r.Some? ==> |r.value| < |s|
  {
    if s == "" then None
    else if s[0] == '/' then Some(s[1..])
    else AfterSlash(s[1..])
  }

  /**
   The documented glob language, as a backtracking matcher on characters: `*` is a run without
   slashes, `**` any run, `?` one non-slash, `**` + slash skips zero or more whole segments, and a
   trailing slash + `**` also matches the directory itself.
   */
  predicate Denotes(p: string, s: string)
    decreases |p|, |s|
  {
    if p == "" then s == ""
    else if p == "/**" then s == "" || s[0] == '/'
    else if StartsAt(p, "**/", 0) then
      Denotes(p[3..], s) || (AfterSlash(s).Some? && Denotes(p, AfterSlash(s).value))
    else if StartsAt(p, "**", 0) then
      Denotes(p[2..], s) || (s != "" && Denotes(p, s[1..]))
    else if p[0] == '*' then
      Denotes(p[1..], s) || (s != "" && s[0] != '/' && Denotes(p, s[1..]))
    else if p[0] == '?' then
      s != "" && s[0] != '/' && Denotes(p[1..], s[1..])
    else s != "" && s[0] == p[0] && Denotes(p[1..], s[1..])
  }

  /** No `[` has a `]` after it, so the compiler takes every bracket literally. */
  ghost predicate ClassFree(p: string) {
    forall i, j :: 0 <= i < j < |p| && p[i] == '[' ==> p[j] != ']'
  }

  // ----- the compiler preserves meaning -----

  lemma NotSlashRunTakes(rest: seq<Piece>, s: string)
    requires s != "" && s[0] != '/' && Matches([NotSlashRun] + rest, s[1..])
    ensures Matches([NotSlashRun] + rest, s)
  {
    assert ([NotSlashRun] + rest)[1..] == rest;
    var t := s[1..];
    var k :| 0 <= k <= |t| && NoSlash(t[..k]) && Matches(rest, t[k..]);
    assert t[k..] == s[k + 1..];
    var u := s[..k + 1];
    forall i | 0 <= i < |u| ensures u[i] != '/' {
      if i > 0 { assert t[..k][i - 1] == s[i]; }
    }
  }

  lemma NotSlashRunUnrolls(rest: seq<Piece>, s: string)
    ensures Matches([NotSlashRun] + rest, s) <==>
            Matches(rest, s) || (s != "" && s[0] != '/' && Matches([NotSlashRun] + rest, s[1..]))
  {
    assert ([NotSlashRun] + rest)[1..] == rest;
    assert s[0..] == s && NoSlash(s[..0]);
    if s != "" && s[0] != '/' && Matches([NotSlashRun] + rest, s[1..]) {
      NotSlashRunTakes(rest, s);
    } else if Matches([NotSlashRun] + rest, s) && !Matches(rest, s) {
      var k :| 0 <= k <= |s| && NoSlash(s[..k]) && Matches(rest, s[k..]);
      if k > 0 { NotSlashRunPeels(rest, s, k); }
    }
  }

  lemma NotSlashRunPeels(rest: seq<Piece>, s: string, k: nat)
    requires 0 < k <= |s| && NoSlash(s[..k]) && Matches(rest, s[k..])
    ensures s[0] != '/' && Matches([NotSlashRun] + rest, s[1..])
  {
    assert ([NotSlashRun] + rest)[1..] == rest;
    assert s[..k][0] == s[0];
    assert s[1..][k - 1..] == s[k..];
    assert s[1..][..k - 1] == s[..k][1..];
  }

  lemma AnyRunUnrolls(rest: seq<Piece>, s: string)
    requires NoNewline(s)
    ensures Matches([AnyRun] + rest, s) <==>
            Matches(rest, s) || (s != "" && Matches([AnyRun] + rest, s[1..]))
  {
    var ps := [AnyRun] + rest;
    assert ps[1..] == rest;
    if Matches(ps, s) {
      var k :| 0 <= k <= |s| && NoNewline(s[..k]) && Matches(rest, s[k..]);
      if k == 0 {
        assert s[0..] == s;
      } else {
        assert s[1..][k - 1..] == s[k..];
        assert NoNewline(s[1..][..k - 1]);
      }
    }
    if Matches(rest, s) { assert s[0..] == s && NoNewline(s[..0]); }
    if s != "" && Matches(ps, s[1..]) {
      var k :| 0 <= k <= |s[1..]| && NoNewline(s[1..][..k]) && Matches(rest, s[1..][k..]);
      assert s[1..][k..] == s[k + 1..];
      assert NoNewline(s[..k + 1]);
    }
  }

  lemma {:induction false} AfterSlashSplits(s: string) returns (f: nat)
    ensures AfterSlash(s).None? ==> NoSlash(s)
    ensures AfterSlash(s).Some? ==> f < |s| && s[f] == '/' && NoSlash(s[..f]) && AfterSlash(s).value == s[f + 1..]
  {
    f := 0;
    if s != "" && s[0] != '/' {
      var g := AfterSlashSplits(s[1..]);
      if AfterSlash(s).Some? {
        f := g + 1;
        assert s[..f] == [s[0]] + s[1..][..g];
      }
    }
  }

  lemma DirPrefixUnrolls(rest: seq<Piece>, s: string)
    requires NoNewline(s)
    ensures Matches([DirPrefix] + rest, s) <==>
            Matches(rest, s) || (AfterSlash(s).Some? && Matches([DirPrefix] + rest, AfterSlash(s).value))
  {
    var ps := [DirPrefix] + rest;
    assert ps[1..] == rest;
    var f := AfterSlashSplits(s);
    if Matches(ps, s) && !Matches(rest, s) {
      var k :| 0 <= k < |s| && s[k] == '/' && NoNewline(s[..k]) && Matches(rest, s[k + 1..]);
      var t := AfterSlash(s).value;
      if k != f {
        assert f < k by { assert forall i :: 0 <= i < f ==> s[..f][i] == s[i]; }
        assert t[k - f - 1] == '/' && t[k - f..] == s[k + 1..];
        assert NoNewline(t[..k - f - 1]);
      }
    }
    if AfterSlash(s).Some? && Matches(ps, AfterSlash(s).value) { DirPrefixExtends(rest, s); }
  }

  lemma DirPrefixExtends(rest: seq<Piece>, s: string)
    requires NoNewline(s) && AfterSlash(s).Some? && Matches([DirPrefix] + rest, AfterSlash(s).value)
    ensures Matches([DirPrefix] + rest, s)
  {
    assert ([DirPrefix] + rest)[1..] == rest;
    var f := AfterSlashSplits(s);
    var t := AfterSlash(s).value;
    assert NoNewline(s[..f]);
    if !Matches(rest, t) {
      var k :| 0 <= k < |t| && t[k] == '/' && NoNewline(t[..k]) && Matches(rest, t[k + 1..]);
      assert s[f + 1 + k] == '/' && s[f + 1 + k + 1..] == t[k + 1..];
      assert NoNewline(s[..f + 1 + k]);
    }
  }

  lemma TailDirMeaning(s: string)
    requires NoNewline(s)
    ensures Matches([TailDir], s) <==> s == "" || s[0] == '/'
  {
    assert [TailDir][1..] == [];
    if s != "" && s[0] == '/' {
      assert s[|s|..] == "" && NoNewline(s[1..|s|]);
      assert Matches([], s[|s|..]);
    }
  }

  /** Compiling preserves meaning, for every bracket-free pattern and every newline-free path. */
  lemma {:induction false} CompilerPreservesMeaning(p: string, s: string)
    requires ClassFree(p) && NoNewline(s)
    ensures Matches(Pieces(p), s) <==> Denotes(p, s)
    decreases |p|, |s|
  {
    if p == "" {
    } else if p == "/**" {
      TailDirMeaning(s);
    } else if StartsAt(p, "**/", 0) {
      DirPrefixUnrolls(Pieces(p[3..]), s);
      CompilerPreservesMeaning(p[3..], s);
      if AfterSlash(s).Some? {
        var f := AfterSlashSplits(s);
        CompilerPreservesMeaning(p, AfterSlash(s).value);
      }
    } else if StartsAt(p, "**", 0) {
      AnyRunUnrolls(Pieces(p[2..]), s);
      CompilerPreservesMeaning(p[2..], s);
      if s != "" { CompilerPreservesMeaning(p, s[1..]); }
    } else if p[0] == '*' {
      NotSlashRunUnrolls(Pieces(p[1..]), s);
      CompilerPreservesMeaning(p[1..], s);
      if s != "" { CompilerPreservesMeaning(p, s[1..]); }
    } else {
      assert p[0] == '[' ==> Find(p, ']').None?;
      assert Pieces(p)[1..] == Pieces(p[1..]);
      if s != "" { CompilerPreservesMeaning(p[1..], s[1..]); }
    }
  }

  lemma NewlineFreeAccepts(p: string, s: string)
    requires ClassFree(p) && NoNewline(s)
    ensures Accepts(Pieces(p), s) <==> Denotes(p, s)
  {
    CompilerPreservesMeaning(p, s);
  }

  /** The pattern with one `?` for every character of `t` but the slashes. */
  function Shape(t: string): (p: string)
    ensures |p| == |t| && forall i :: 0 <= i < |p| ==> p[i] == '/' || p[i] == '?'
  {
    if t == "" then "" else [if t[0] == '/' then '/' else '?'] + Shape(t[1..])
  }

  lemma {:induction false} ShapeDenotes(t: string, s: string)
    ensures Denotes(Shape(t), s) ==> |s| == |t|
    ensures Denotes(Shape(t), t)
    decreases |t|
  {
    if t != "" {
      var p := Shape(t);
      assert p[0] != '*' && p[1..] == Shape(t[1..]) && (|p| > 1 ==> p[1] != '*');
      ShapeDenotes(t[1..], if s != "" then s[1..] else "");
    }
  }

  /** `$` tolerates a trailing newline, so that many `?` accept one character too many. */
  lemma TrailingNewlineIsAccepted(t: string)
    requires NoNewline(t)
    ensures ClassFree(Shape(t)) && Accepts(Pieces(Shape(t)), t + "\n") && !Denotes(Shape(t), t + "\n")
  {
    ShapeDenotes(t, t + "\n");
    CompilerPreservesMeaning(Shape(t), t);
    assert (t + "\n")[..|t|] == t;
  }

  /** `.` stops at a newline, so a globstar rejects a text with one inside. */
  lemma InnerNewlineIsRejected(s: string, i: nat)
    requires i + 1 < |s| && s[i] == '\n'
    ensures ClassFree("**") && !Accepts(Pieces("**"), s) && Denotes("**", s)
  {
    GlobstarMatchesAnything(s);
    assert Pieces("**") == [AnyRun] && [AnyRun][1..] == [];
    OnlyWhole(s, i);
    OnlyWhole(s[..|s| - 1], i);
  }

  lemma OnlyWhole(s: string, i: nat)
    requires i < |s| && s[i] == '\n'
    ensures !Matches([AnyRun], s)
  {
    assert [AnyRun][1..] == [];
    forall k | 0 <= k <= |s| ensures !(NoNewline(s[..k]) && Matches([], s[k..])) {
      if k > i { assert s[..k][i] == '\n'; }
    }
  }

  lemma LastNewline(s: string, i: nat)
    requires i < |s| && s[i] == '\n' && NoNewline(s[..|s| - 1])
    ensures s == s[..|s| - 1] + "\n"
  {
    assert forall j :: 0 <= j < |s| - 1 ==> s[j] == s[..|s| - 1][j];
  }

  /** On a text the anchored expressions and the glob language agree, on every pattern, if and only if it has no newline. */
  lemma AgreementExact(s: string)
    ensures (forall p :: ClassFree(p) ==> (Accepts(Pieces(p), s) <==> Denotes(p, s))) <==> NoNewline(s)
  {
    if NoNewline(s) {
      forall p | ClassFree(p) ensures Accepts(Pieces(p), s) <==> Denotes(p, s) { NewlineFreeAccepts(p, s); }
    } else {
      var i :| 0 <= i < |s| && s[i] == '\n';
      var t := s[..|s| - 1];
      if NoNewline(t) {
        LastNewline(s, i);
        TrailingNewlineIsAccepted(t);
      } else {
        var j :| 0 <= j < |t| && t[j] == '\n';
        InnerNewlineIsRejected(s, j);
      }
    }
  }

  // ----- consequences -----

  lemma {:induction false} GlobstarMatchesAnything(s: string)
    ensures Denotes("**", s)
    decreases |s|
  {
    if s != "" { GlobstarMatchesAnything(s[1..]); }
  }

  lemma AfterStars(x: string)
    ensures AfterSlash("**/" + x) == Some(x)
  {
    var s := "**/" + x;
    var s1 := s[1..];
    var s2 := s1[1..];
    assert s1 == "*/" + x && s2 == "/" + x && s2[1..] == x;
    assert AfterSlash(s2) == Some(x);
    assert AfterSlash(s1) == AfterSlash(s2);
  }

  /** A directory pattern matches its own text, and anything below that text. */
  lemma {:induction false} LiteralTextUnderDirectory(dir: string, tail: string)
    requires tail == "" || tail[0] == '/'
    ensures Denotes(dir + "/**", dir + tail)
    decreases |dir|
  {
    var p, s := dir + "/**", dir + tail;
    if dir == "" {
      assert p == "/**" && s == tail;
    } else if dir == "**" {
      assert p == "**/**" && p[3..] == "**";
      GlobstarMatchesAnything(s);
    } else if StartsAt(p, "**/", 0) {
      assert dir[..3] == "**/" by { assert p[2] == '/' && |dir| > 2; }
      var d := dir[3..];
      assert p[3..] == d + "/**" && dir == "**/" + d && s[3..] == d + tail;
      LiteralTextUnderDirectory(d, tail);
      assert s == "**/" + (d + tail);
      AfterStars(d + tail);
      assert Denotes(p, d + tail);
    } else if StartsAt(p, "**", 0) {
      assert |dir| > 2 by { assert p[1] == '*'; }
      var d := dir[2..];
      assert p[2..] == d + "/**" && s[2..] == d + tail;
      LiteralTextUnderDirectory(d, tail);
      assert s[1..][1..] == s[2..];
      assert Denotes(p, s[1..]);
    } else {
      var d := dir[1..];
      assert p[1..] == d + "/**" && s[1..] == d + tail;
      LiteralTextUnderDirectory(d, tail);
      assert p[0] == s[0] == dir[0];
      assert p != "/**";
    }
  }

  /** The fallback of `glob_match` never accepts a path that the compiled form rejects. */
  lemma FallbackIsRedundant(p: string, s: string)
    requires ClassFree(p) && NoNewline(s)
    ensures GlobMatch(p, s) <==> Accepts(Pieces(p), s)
    ensures GlobMatch(p, s) <==> Denotes(p, s)
  {
    NewlineFreeAccepts(p, s);
    if |p| >= 3 && p[|p| - 3..] == "/**" {
      var dir := p[..|p| - 3];
      assert p == dir + "/**";
      if s == dir || dir + "/" <= s { DirectoryDenotes(dir, s); }
    }
  }

  lemma DirectoryDenotes(dir: string, s: string)
    requires s == dir || dir + "/" <= s
    ensures Denotes(dir + "/**", s)
  {
    if s == dir {
      LiteralTextUnderDirectory(dir, "");
      assert dir + "" == s;
    } else {
      var tail := s[|dir|..];
      assert s == dir + tail && tail[0] == (dir + "/")[|dir|];
      LiteralTextUnderDirectory(dir, tail);
    }
  }

  /** Read as a literal path, every bracket-free pattern matches itself. */
  lemma {:induction false} MatchesItself(p: string)
    ensures Denotes(p, p)
    decreases |p|
  {
    if p == "" || p == "/**" {
    } else if StartsAt(p, "**/", 0) {
      MatchesItself(p[3..]);
      assert p == "**/" + p[3..];
      AfterStars(p[3..]);
      assert Denotes(p, p[3..]);
    } else if StartsAt(p, "**", 0) {
      MatchesItself(p[2..]);
      assert p[1..][1..] == p[2..];
      assert Denotes(p, p[1..]);
    } else {
      MatchesItself(p[1..]);
      assert p[0] == '*' ==> Denotes(p, p[1..]);
    }
  }

  /** Anchoring: a wildcard-free directory pattern covers that directory's subtree and nothing else. */
  lemma {:induction false} LiteralDirectoryMeaning(dir: string, s: string)
    requires forall i :: 0 <= i < |dir| ==> dir[i] !in "*?"
    ensures Denotes(dir + "/**", s) <==> s == dir || dir + "/" <= s
    decreases |dir|
  {
    var p := dir + "/**";
    if dir == "" {
      assert p == "/**";
    } else {
      var d := dir[1..];
      assert p[1..] == d + "/**" && p[0] == dir[0] && p != "/**";
      assert !StartsAt(p, "**", 0) && !StartsAt(p, "**/", 0);
      assert dir == [dir[0]] + d && dir + "/" == [dir[0]] + (d + "/");
      if s != "" {
        LiteralDirectoryMeaning(d, s[1..]);
        assert s == [s[0]] + s[1..];
        if s[0] == dir[0] && d + "/" <= s[1..] {
          assert s[1..] == (d + "/") + s[1..][|d + "/"|..];
          assert s == (dir + "/") + s[1..][|d + "/"|..];
        }
        if dir + "/" <= s {
          assert s[1..][..|d + "/"|] == s[..|dir + "/"|][1..];
        }
      }
    }
  }

  function Slashes(s: string): nat {
    if s == "" then 0 else (if s[0] == '/' then 1 else 0) + Slashes(s[1..])
  }

  ghost predicate GlobstarFree(p: string) {
    forall i :: 0 <= i < |p| - 1 ==> !(p[i] == '*' && p[i + 1] == '*')
  }

  lemma NotGlobstar(p: string)
    requires |p| >= 2 ==> !(p[0] == '*' && p[1] == '*')
    ensures !StartsAt(p, "**", 0) && !StartsAt(p, "**/", 0)
  {
    assert p[0..] == p;
  }

  /** Without `**` a pattern cannot cross a slash: it matches only paths of its own depth. */
  lemma {:induction false} SingleStarsKeepDepth(p: string, s: string)
    requires GlobstarFree(p) && Denotes(p, s)
    ensures Slashes(p) == Slashes(s)
    decreases |p|, |s|
  {
    if p != "" {
      assert p != "/**" by { assert GlobstarFree(p) && "/**"[1] == '*' && "/**"[2] == '*'; }
      NotGlobstar(p);
      assert GlobstarFree(p[1..]);
      if p[0] == '*' {
        if Denotes(p[1..], s) {
          SingleStarsKeepDepth(p[1..], s);
        } else {
          SingleStarsKeepDepth(p, s[1..]);
        }
      } else {
        SingleStarsKeepDepth(p[1..], s[1..]);
      }
    }
  }

  // ----- globs segment by segment -----

  function Join(segments: seq<string>): string
    requires segments != []
  {
    if |segments| == 1 then segments[0] else segments[0] + "/" + Join(segments[1..])
  }

  /** `str.split("/")` */
  function Split(s: string): (r: seq<string>)
    ensures r != [] && (forall i :: 0 <= i < |r| ==> NoSlash(r[i]))
    ensures Join(r) == s
  {
    if s == "" then [""]
    else
      var r := Split(s[1..]);
      if s[0] == '/' then [""] + r else [[s[0]] + r[0]] + r[1..]
  }

  /** The usual globstar reading: a `**` segment stands for any number of path segments. */
  predicate SegmentsMatch(ps: seq<string>, ss: seq<string>)
    decreases |ps|, |ss|
  {
    if ps == [] then ss == []
    else if ps[0] == "**" then SegmentsMatch(ps[1..], ss) || (ss != [] && SegmentsMatch(ps, ss[1..]))
    else ss != [] && Denotes(ps[0], ss[0]) && SegmentsMatch(ps[1..], ss[1..])
  }

  /** Every segment is either exactly `**` or has single stars only. */
  ghost predicate SegmentWise(ps: seq<string>) {
    forall i :: 0 <= i < |ps| ==> NoSlash(ps[i]) && (ps[i] == "**" || GlobstarFree(ps[i]))
  }

  predicate AllGlobstars(ps: seq<string>) {
    forall i :: 0 <= i < |ps| ==> ps[i] == "**"
  }

  /** Two or more trailing globstars after some other segment, as in `docs/` + `**` + `/` + `**`. */
  predicate TrailingGlobstars(ps: seq<string>) {
    |ps| >= 2 && AllGlobstars(ps[|ps| - 2..]) && !AllGlobstars(ps)
  }

  lemma {:induction false} FirstSegment(x: string, y: string)
    requires NoSlash(x)
    ensures AfterSlash(x) == None
    ensures AfterSlash(x + "/" + y) == Some(y)
  {
    var s := x + "/" + y;
    if x == "" {
      assert s[1..] == y;
    } else {
      FirstSegment(x[1..], y);
      assert s[1..] == x[1..] + "/" + y;
    }
  }

  lemma SlashThenMore(rest: string, s: string)
    requires rest != "**"
    ensures Denotes("/" + rest, s) <==> s != "" && s[0] == '/' && Denotes(rest, s[1..])
  {
    var p := "/" + rest;
    assert p[1..] == rest && p[0] == '/';
    assert p != "/**" by { assert "/**"[1..] == "**"; }
  }

  lemma GlobstarThenMore(rest: string, s: string)
    ensures Denotes("**/" + rest, s) <==>
              Denotes(rest, s) || (AfterSlash(s).Some? && Denotes("**/" + rest, AfterSlash(s).value))
  {
    var p := "**/" + rest;
    assert p[3..] == rest && p[0] == '*' && p[0..] == p;
    assert p != "/**" by { assert "/**"[0] == '/'; }
    assert StartsAt(p, "**/", 0);
  }

  /** A single-star segment followed by a slash consumes exactly the first path segment. */
  lemma {:induction false} SegmentThenMore(q: string, rest: string, x: string, y: string)
    requires NoSlash(q) && GlobstarFree(q) && NoSlash(x) && rest != "**"
    ensures Denotes(q + "/" + rest, x + "/" + y) <==> Denotes(q, x) && Denotes(rest, y)
    ensures !Denotes(q + "/" + rest, x)
    decreases |q|, |x|
  {
    var p, s := q + "/" + rest, x + "/" + y;
    if q == "" {
      SlashThenMore(rest, s);
      SlashThenMore(rest, x);
      assert p == "/" + rest;
      if x == "" { assert s[1..] == y; } else { assert s[0] == x[0]; }
    } else {
      var p' := q[1..] + "/" + rest;
      assert p[1..] == p' && p[0] == q[0] && GlobstarFree(q[1..]) && NoSlash(q[1..]);
      assert q != "/**" && p != "/**";
      assert |q| >= 2 ==> p[1] == q[0 + 1] && !(q[0] == '*' && q[0 + 1] == '*');
      NotGlobstar(p);
      NotGlobstar(q);
      SegmentThenMore(q[1..], rest, x, y);
      if x != "" {
        assert s[1..] == x[1..] + "/" + y && s[0] == x[0];
        SegmentThenMore(q, rest, x[1..], y);
        SegmentThenMore(q[1..], rest, x[1..], y);
      } else {
        assert s[0] == '/';
      }
    }
  }

  /** The same, when what follows is a trailing globstar: then the directory itself is enough. */
  lemma {:induction false} SegmentThenGlobstar(q: string, x: string, y: string)
    requires NoSlash(q) && GlobstarFree(q) && NoSlash(x)
    ensures Denotes(q + "/**", x + "/" + y) <==> Denotes(q, x)
    ensures Denotes(q + "/**", x) <==> Denotes(q, x)
    decreases |q|, |x|
  {
    var p, s := q + "/**", x + "/" + y;
    if q == "" {
      assert p == "/**";
      if x == "" { assert s[0] == '/'; } else { assert s[0] == x[0]; }
    } else {
      assert p[1..] == q[1..] + "/**" && p[0] == q[0] && GlobstarFree(q[1..]) && NoSlash(q[1..]);
      assert q != "/**" && p != "/**";
      assert |q| >= 2 ==> p[1] == q[0 + 1] && !(q[0] == '*' && q[0 + 1] == '*');
      NotGlobstar(p);
      NotGlobstar(q);
      SegmentThenGlobstar(q[1..], x, y);
      if x != "" {
        assert s[1..] == x[1..] + "/" + y && s[0] == x[0];
        SegmentThenGlobstar(q, x[1..], y);
        SegmentThenGlobstar(q[1..], x[1..], y);
      } else {
        assert s[0] == '/';
      }
    }
  }

  lemma {:induction false} GlobstarsMatchAnything(ps: seq<string>, ss: seq<string>)
    requires ps != [] && AllGlobstars(ps)
    ensures SegmentsMatch(ps, ss)
    decreases |ps|, |ss|
  {
    if |ps| == 1 {
      if ss != [] { GlobstarsMatchAnything(ps, ss[1..]); }
    } else {
      GlobstarsMatchAnything(ps[1..], ss);
    }
  }

  lemma {:induction false} OnlyGlobstarsMatchNothing(ps: seq<string>)
    ensures SegmentsMatch(ps, []) <==> AllGlobstars(ps)
  {
    if ps != [] {
      OnlyGlobstarsMatchNothing(ps[1..]);
      assert ps == [ps[0]] + ps[1..];
    }
  }

  lemma SimpleSegmentKeepsSlashFree(q: string, s: string)
    requires NoSlash(q) && GlobstarFree(q) && Denotes(q, s)
    ensures NoSlash(s)
  {
    SingleStarsKeepDepth(q, s);
    NoSlashesCounted(q);
    NoSlashesCounted(s);
  }

  lemma {:induction false} NoSlashesCounted(s: string)
    ensures Slashes(s) == 0 <==> NoSlash(s)
  {
    if s != "" {
      NoSlashesCounted(s[1..]);
      assert s == [s[0]] + s[1..];
    }
  }

  lemma JoinGlobstar(ps: seq<string>)
    requires SegmentWise(ps) && ps != []
    ensures Join(ps) == "**" <==> ps == ["**"]
  {
    if |ps| > 1 {
      var s := ps[0] + "/" + Join(ps[1..]);
      assert '/' == s[|ps[0]|] && '/' !in "**" && s[|ps[0]|] in s;
    }
  }

  lemma TailNotTrailing(ps: seq<string>)
    requires ps != [] && !TrailingGlobstars(ps)
    ensures !TrailingGlobstars(ps[1..])
  {
    var t := ps[1..];
    if |t| >= 2 {
      assert t[|t| - 2..] == ps[|ps| - 2..];
      assert AllGlobstars(ps) ==> AllGlobstars(t);
    }
  }

  /**
   Segment-wise reading: a pattern whose globstars are whole segments matches path segment by path
   segment, with each globstar standing for any number of them, unless it ends in a run of two or
   more globstars.
   */
  lemma {:induction false} SegmentMeaning(ps: seq<string>, ss: seq<string>)
    requires ps != [] && SegmentWise(ps) && !TrailingGlobstars(ps)
    requires ss != [] && forall i :: 0 <= i < |ss| ==> NoSlash(ss[i])
    ensures Denotes(Join(ps), Join(ss)) <==> SegmentsMatch(ps, ss)
    decreases |ps|, |ss|
  {
    var q, x := ps[0], ss[0];
    TailNotTrailing(ps);
    if |ps| == 1 {
      SingleSegmentMeaning(ps, ss);
    } else if q == "**" {
      GlobstarStep(ps, ss);
      SegmentMeaning(ps[1..], ss);
      if |ss| > 1 { SegmentMeaning(ps, ss[1..]); }
    } else {
      if ps[1..] == ["**"] {
        LastGlobstarStep(ps, ss);
      } else {
        SimpleStep(ps, ss);
        if |ss| > 1 { SegmentMeaning(ps[1..], ss[1..]); }
      }
    }
  }

  lemma GlobstarDenotes(ps: seq<string>, ss: seq<string>)
    requires |ps| > 1 && ps[0] == "**"
    requires ss != [] && forall i :: 0 <= i < |ss| ==> NoSlash(ss[i])
    ensures Denotes(Join(ps), Join(ss)) <==>
            Denotes(Join(ps[1..]), Join(ss)) || (|ss| > 1 && Denotes(Join(ps), Join(ss[1..])))
  {
    assert Join(ps) == "**/" + Join(ps[1..]);
    GlobstarThenMore(Join(ps[1..]), Join(ss));
    FirstSegment(ss[0], if |ss| > 1 then Join(ss[1..]) else "");
  }

  lemma GlobstarStep(ps: seq<string>, ss: seq<string>)
    requires |ps| > 1 && ps[0] == "**"
    requires ss != [] && forall i :: 0 <= i < |ss| ==> NoSlash(ss[i])
    ensures Denotes(Join(ps), Join(ss)) <==>
            Denotes(Join(ps[1..]), Join(ss)) || (|ss| > 1 && Denotes(Join(ps), Join(ss[1..])))
    ensures |ss| == 1 ==> (SegmentsMatch(ps, ss) <==> SegmentsMatch(ps[1..], ss))
  {
    GlobstarDenotes(ps, ss);
    if |ss| == 1 { GlobstarOnOne(ps, ss); }
  }

  lemma GlobstarOnOne(ps: seq<string>, ss: seq<string>)
    requires |ps| > 1 && ps[0] == "**" && |ss| == 1
    ensures SegmentsMatch(ps, ss) <==> SegmentsMatch(ps[1..], ss)
  {
    var rest := ps[1..];
    assert ss[1..] == [];
    OnlyGlobstarsMatchNothing(ps);
    if AllGlobstars(rest) { GlobstarsMatchAnything(rest, ss); }
    assert AllGlobstars(ps) ==> AllGlobstars(rest);
  }

  lemma LastGlobstarStep(ps: seq<string>, ss: seq<string>)
    requires |ps| > 1 && SegmentWise(ps) && ps[0] != "**" && ps[1..] == ["**"]
    requires ss != [] && forall i :: 0 <= i < |ss| ==> NoSlash(ss[i])
    ensures Denotes(Join(ps), Join(ss)) <==> SegmentsMatch(ps, ss)
  {
    SegmentThenGlobstar(ps[0], ss[0], if |ss| > 1 then Join(ss[1..]) else "");
    GlobstarsMatchAnything(ps[1..], ss[1..]);
    assert Join(ps) == ps[0] + "/**";
  }

  lemma {:induction false} SimpleDenotes(ps: seq<string>, ss: seq<string>)
    requires |ps| > 1 && SegmentWise(ps) && ps[0] != "**" && ps[1..] != ["**"]
    requires ss != [] && forall i :: 0 <= i < |ss| ==> NoSlash(ss[i])
    ensures |ss| == 1 ==> !Denotes(Join(ps), Join(ss))
    ensures |ss| > 1 ==>
              (Denotes(Join(ps), Join(ss)) <==> Denotes(ps[0], ss[0]) && Denotes(Join(ps[1..]), Join(ss[1..])))
  {
    JoinGlobstar(ps[1..]);
    SegmentThenMore(ps[0], Join(ps[1..]), ss[0], if |ss| > 1 then Join(ss[1..]) else "");
  }

  lemma {:induction false} SimpleStep(ps: seq<string>, ss: seq<string>)
    requires |ps| > 1 && SegmentWise(ps) && !TrailingGlobstars(ps) && ps[0] != "**" && ps[1..] != ["**"]
    requires ss != [] && forall i :: 0 <= i < |ss| ==> NoSlash(ss[i])
    ensures |ss| == 1 ==> !Denotes(Join(ps), Join(ss)) && !SegmentsMatch(ps, ss)
    ensures |ss| > 1 ==>
              (Denotes(Join(ps), Join(ss)) <==> Denotes(ps[0], ss[0]) && Denotes(Join(ps[1..]), Join(ss[1..])))
  {
    SimpleDenotes(ps, ss);
    if |ss| == 1 {
      assert ss[1..] == [];
      NotAllGlobstars(ps);
      OnlyGlobstarsMatchNothing(ps[1..]);
    }
  }

  lemma NotAllGlobstars(ps: seq<string>)
    requires |ps| >= 2 && ps[0] != "**" && ps[1..] != ["**"] && !TrailingGlobstars(ps)
    ensures !AllGlobstars(ps[1..])
  {
    var rest := ps[1..];
    if |rest| == 1 {
      OnlyOne(rest);
    } else {
      var last := ps[|ps| - 2..];
      assert !AllGlobstars(last);
      var i :| 0 <= i < |last| && last[i] != "**";
      assert rest[|rest| - 2 + i] == last[i];
    }
  }

  lemma OnlyOne(rest: seq<string>)
    requires |rest| == 1 && rest != ["**"]
    ensures !AllGlobstars(rest)
  {
    assert rest == [rest[0]];
  }

  lemma SingleSegmentMeaning(ps: seq<string>, ss: seq<string>)
    requires |ps| == 1 && SegmentWise(ps)
    requires ss != [] && forall i :: 0 <= i < |ss| ==> NoSlash(ss[i])
    ensures Denotes(Join(ps), Join(ss)) <==> SegmentsMatch(ps, ss)
  {
    if ps[0] == "**" {
      GlobstarMatchesAnything(Join(ss));
      GlobstarsMatchAnything(ps, ss);
    } else if |ss| > 1 {
      var s := ss[0] + "/" + Join(ss[1..]);
      assert s[|ss[0]|] == '/';
      if Denotes(ps[0], s) { SimpleSegmentKeepsSlashFree(ps[0], s); }
      assert ss[1..] != [] && ps[1..] == [];
    } else {
      assert ss[1..] == [] && ps[1..] == [];
    }
  }

  // ----- the exception is exact -----

  function SimpleSegments(ps: seq<string>): seq<string> {
    if ps == [] then []
    else if ps[0] == "**" then SimpleSegments(ps[1..])
    else [ps[0]] + SimpleSegments(ps[1..])
  }

  lemma SimpleCount(ps: seq<string>)
    requires ps != []
    ensures |SimpleSegments(ps)| == |SimpleSegments(ps[1..])| + if ps[0] == "**" then 0 else 1
    ensures |ps| == 1 ==> SimpleSegments(ps[1..]) == []
  {
  }

  lemma {:induction false} GlobstarsMaySkip(ps: seq<string>)
    ensures SegmentsMatch(ps, SimpleSegments(ps))
    ensures !AllGlobstars(ps) ==> SimpleSegments(ps) != []
    ensures forall i :: 0 <= i < |SimpleSegments(ps)| ==> SimpleSegments(ps)[i] in ps
  {
    if ps != [] {
      GlobstarsMaySkip(ps[1..]);
      assert ps == [ps[0]] + ps[1..];
      if ps[0] != "**" { MatchesItself(ps[0]); }
    }
  }

  /** With a trailing run of globstars the compiled form demands one more segment than it should. */
  lemma {:induction false} TrailingRunDemandsMore(ps: seq<string>, ss: seq<string>)
    requires SegmentWise(ps) && |ps| >= 2 && AllGlobstars(ps[|ps| - 2..])
    requires ss != [] && forall i :: 0 <= i < |ss| ==> NoSlash(ss[i])
    requires Denotes(Join(ps), Join(ss))
    ensures |ss| > |SimpleSegments(ps)|
    decreases |ps|, |ss|
  {
    var rest := ps[1..];
    SimpleCount(ps);
    if |ps| == 2 {
      assert ps[0..] == ps;
      SimpleCount(rest);
    } else {
      assert rest[|rest| - 2..] == ps[|ps| - 2..];
      if ps[0] == "**" {
        GlobstarDenotes(ps, ss);
        if Denotes(Join(rest), Join(ss)) {
          TrailingRunDemandsMore(rest, ss);
        } else {
          TrailingRunDemandsMore(ps, ss[1..]);
        }
      } else {
        SimpleDenotes(ps, ss);
        TrailingRunDemandsMore(rest, ss[1..]);
      }
    }
  }

  /**
   The documented segment reading holds for the compiled regex on every newline-free path if and only
   if the pattern does not end in a run of two or more globstars after some other segment.
   */
  lemma SegmentReadingExact(ps: seq<string>)
    requires ps != [] && SegmentWise(ps) && ClassFree(Join(ps)) && NoNewline(Join(ps))
    ensures (forall s | NoNewline(s) :: Accepts(Pieces(Join(ps)), s) <==> SegmentsMatch(ps, Split(s)))
            <==> !TrailingGlobstars(ps)
  {
    var p := Join(ps);
    if !TrailingGlobstars(ps) {
      forall s | NoNewline(s) ensures Accepts(Pieces(p), s) <==> SegmentsMatch(ps, Split(s)) {
        NewlineFreeAccepts(p, s);
        SegmentMeaning(ps, Split(s));
      }
    } else {
      var ss := SimpleSegments(ps);
      GlobstarsMaySkip(ps);
      var s := Join(ss);
      JoinNoNewline(ps);
      JoinNoNewlineBack(ss);
      SplitJoin(ss);
      NewlineFreeAccepts(p, s);
      if Denotes(p, s) { TrailingRunDemandsMore(ps, ss); }
      assert !(Accepts(Pieces(p), s) <==> SegmentsMatch(ps, Split(s)));
    }
  }

  lemma {:induction false} JoinNoNewline(ss: seq<string>)
    requires ss != [] && NoNewline(Join(ss))
    ensures forall i :: 0 <= i < |ss| ==> NoNewline(ss[i])
  {
    if |ss| > 1 {
      var s := ss[0] + "/" + Join(ss[1..]);
      assert ss[0] == s[..|ss[0]|] && Join(ss[1..]) == s[|ss[0]| + 1..];
      JoinNoNewline(ss[1..]);
    }
  }

  lemma {:induction false} JoinNoNewlineBack(ss: seq<string>)
    requires ss != [] && forall i :: 0 <= i < |ss| ==> NoNewline(ss[i])
    ensures NoNewline(Join(ss))
  {
    if |ss| > 1 { JoinNoNewlineBack(ss[1..]); }
  }

  lemma {:induction false} SplitSegment(x: string, y: string)
    requires NoSlash(x)
    ensures Split(x + "/" + y) == [x] + Split(y)
  {
    var s := x + "/" + y;
    if x == "" {
      assert s[1..] == y;
    } else {
      SplitSegment(x[1..], y);
      assert s[1..] == x[1..] + "/" + y && s[0] == x[0];
      assert [x[0]] + x[1..] == x;
    }
  }

  lemma {:induction false} SplitOne(x: string)
    requires NoSlash(x)
    ensures Split(x) == [x]
  {
    if x != "" {
      SplitOne(x[1..]);
      assert [x[0]] + x[1..] == x;
    }
  }

  lemma {:induction false} SplitJoin(ss: seq<string>)
    requires ss != [] && forall i :: 0 <= i < |ss| ==> NoSlash(ss[i])
    ensures Split(Join(ss)) == ss
  {
    if |ss| == 1 {
      SplitOne(ss[0]);
    } else {
      SplitSegment(ss[0], Join(ss[1..]));
      SplitJoin(ss[1..]);
    }
  }
}
