/**
 Regression and durability candidates (src/impact/features/regression.py). Times are seconds, and a title
 subject is already stripped and lower-cased.
 */
module Regression {
  import opened Collections
  import opened Ordering

  datatype Pr = Pr(merged: Option<int>, prefix: string, subject: string, author: string)

  /** `noise` stands for the six path flags that keep a row out of the code paths. */
  datatype FileRow = FileRow(path: string, status: string, noise: bool)

  datatype Edge = Edge(targetKind: string, target: Option<nat>, edgeType: string)

  /** `order` lists the keys of `prs`, and `fileOrder` those of `files`, as their dictionaries hold them. */
  datatype Inputs = Inputs(
    prs: map<nat, Pr>, order: seq<nat>, files: map<nat, seq<FileRow>>, fileOrder: seq<nat>, edges: seq<Edge>,
    flags: map<nat, set<string>>, issues: map<nat, set<nat>>, windowEnd: int, proximityDays: int, minOverlap: int)

  const FIX_PREFIXES: set<string> := {"fix", "revert", "perf"}

  const DAY: int := 86400

  function MergedAt(inp: Inputs, n: nat): Option<int> { if n in inp.prs then inp.prs[n].merged else None }

  // ----- deleted_at -----

  /** One file row of a merged PR. */
  datatype Touch = Touch(path: string, at: int, deletes: bool)

  function RowTouches(rows: seq<FileRow>, at: int): seq<Touch> {
    if rows == [] then []
    else
      var n := |rows| - 1;
      RowTouches(rows[..n], at) + if rows[n].path == "" then [] else [Touch(rows[n].path, at, rows[n].status == "D")]
  }

  function PrTouches(inp: Inputs, n: nat): seq<Touch> {
    if MergedAt(inp, n).Some? && n in inp.files then RowTouches(inp.files[n], MergedAt(inp, n).value) else []
  }

  function Touches(inp: Inputs, numbers: seq<nat>): seq<Touch> {
    if numbers == [] then [] else Touches(inp, numbers[..|numbers| - 1]) + PrTouches(inp, numbers[|numbers| - 1])
  }

  function Noted(deleted: map<string, int>, t: Touch): map<string, int> {
    if t.deletes then (if t.path !in deleted || t.at > deleted[t.path] then deleted[t.path := t.at] else deleted)
    else if t.path in deleted && t.at > deleted[t.path] then deleted - {t.path}
    else deleted
  }

  function DeletedAt(touches: seq<Touch>): map<string, int> {
    if touches == [] then map[] else Noted(DeletedAt(touches[..|touches| - 1]), touches[|touches| - 1])
  }

  /** One file row of a merged PR. */
  method NoteRow(deleted: map<string, int>, row: FileRow, at: int) returns (r: map<string, int>)
    ensures r == if row.path == "" then deleted else Noted(deleted, Touch(row.path, at, row.status == "D"))
  {
    r := deleted;
    if row.path == "" {
      return;
    }
    if row.status == "D" {
      if row.path !in r || at > r[row.path] { r := r[row.path := at]; }
    } else if row.path in r && at > r[row.path] {
      r := r - {row.path};
    }
  }

  method NoteRows(deleted: map<string, int>, rows: seq<FileRow>, at: int, ghost before: seq<Touch>)
      returns (r: map<string, int>)
    requires deleted == DeletedAt(before)
    ensures r == DeletedAt(before + RowTouches(rows, at))
  {
    r := deleted;
    assert before + [] == before;
    for i := 0 to |rows|
      invariant r == DeletedAt(before + RowTouches(rows[..i], at))
    {
      RowStep(before, rows, i, at);
      r := NoteRow(r, rows[i], at);
    }
    assert rows[..|rows|] == rows;
  }

  lemma RowStep(before: seq<Touch>, rows: seq<FileRow>, i: nat, at: int)
    requires i < |rows|
    ensures var was := DeletedAt(before + RowTouches(rows[..i], at));
            DeletedAt(before + RowTouches(rows[..i + 1], at))
              == if rows[i].path == "" then was else Noted(was, Touch(rows[i].path, at, rows[i].status == "D"))
  {
    var some := RowTouches(rows[..i], at);
    assert rows[..i + 1][..i] == rows[..i] && some + [] == some;
    NoteOne(before, some, Touch(rows[i].path, at, rows[i].status == "D"));
  }

  lemma NoteOne(before: seq<Touch>, some: seq<Touch>, t: Touch)
    ensures DeletedAt(before + (some + [t])) == Noted(DeletedAt(before + some), t)
  {
    assert before + (some + [t]) == (before + some) + [t];
    assert ((before + some) + [t])[..|before + some|] == before + some;
  }

  lemma TouchesNext(inp: Inputs, numbers: seq<nat>, i: nat)
    requires i < |numbers|
    ensures var before, at := Touches(inp, numbers[..i]), MergedAt(inp, numbers[i]);
            Touches(inp, numbers[..i + 1])
              == if at.None? || numbers[i] !in inp.files then before
                else before + RowTouches(inp.files[numbers[i]], at.value)
  {
    assert numbers[..i + 1][..i] == numbers[..i];
    assert Touches(inp, numbers[..i]) + [] == Touches(inp, numbers[..i]);
  }

  method NoteDeletions(inp: Inputs) returns (deleted: map<string, int>)
    ensures deleted == DeletedAt(Touches(inp, inp.fileOrder))
  {
    deleted := map[];
    for i := 0 to |inp.fileOrder|
      invariant deleted == DeletedAt(Touches(inp, inp.fileOrder[..i]))
    {
      var n := inp.fileOrder[i];
      ghost var before := Touches(inp, inp.fileOrder[..i]);
      TouchesNext(inp, inp.fileOrder, i);
      var at := MergedAt(inp, n);
      if at.None? || n !in inp.files {
        continue;
      }
      deleted := NoteRows(deleted, inp.files[n], at.value, before);
    }
    assert inp.fileOrder[..|inp.fileOrder|] == inp.fileOrder;
  }

  /** `at` is the time of the path's last delete, and nothing touched the path later. */
  ghost predicate GoneSince(touches: seq<Touch>, path: string, at: int) {
    && (exists i :: 0 <= i < |touches| && touches[i] == Touch(path, at, true))
    && (forall i :: 0 <= i < |touches| && touches[i].path == path ==> touches[i].at <= at)
  }

  ghost predicate InMergeOrder(touches: seq<Touch>) {
    forall i, j :: 0 <= i < j < |touches| ==> touches[i].at <= touches[j].at
  }

  lemma {:induction false} RowTouchesAt(rows: seq<FileRow>, at: int)
    ensures forall i :: 0 <= i < |RowTouches(rows, at)| ==> RowTouches(rows, at)[i].at == at
  {
    if rows != [] { RowTouchesAt(rows[..|rows| - 1], at); }
  }

  ghost predicate VisitedInMergeOrder(inp: Inputs, numbers: seq<nat>) {
    forall i, j :: 0 <= i < j < |numbers| && MergedAt(inp, numbers[i]).Some? && MergedAt(inp, numbers[j]).Some? ==>
      MergedAt(inp, numbers[i]).value <= MergedAt(inp, numbers[j]).value
  }

  /** Every touch is at the merge time of a visited PR. */
  lemma {:induction false} TouchTimes(inp: Inputs, numbers: seq<nat>, i: nat)
    requires i < |Touches(inp, numbers)|
    ensures exists k :: 0 <= k < |numbers| && MergedAt(inp, numbers[k]) == Some(Touches(inp, numbers)[i].at)
  {
    var n := |numbers| - 1;
    var front, last := Touches(inp, numbers[..n]), PrTouches(inp, numbers[n]);
    assert Touches(inp, numbers) == front + last;
    if i < |front| {
      TouchTimes(inp, numbers[..n], i);
      var k :| 0 <= k < n && MergedAt(inp, numbers[..n][k]) == Some(front[i].at);
      assert numbers[..n][k] == numbers[k];
    } else {
      RowTouchesAt(inp.files[numbers[n]], MergedAt(inp, numbers[n]).value);
      assert Touches(inp, numbers)[i] == last[i - |front|];
    }
  }

  lemma {:induction false} TouchesInMergeOrder(inp: Inputs, numbers: seq<nat>)
    requires VisitedInMergeOrder(inp, numbers)
    ensures InMergeOrder(Touches(inp, numbers))
  {
    if numbers != [] {
      var n := |numbers| - 1;
      var front, last := Touches(inp, numbers[..n]), PrTouches(inp, numbers[n]);
      assert forall k :: 0 <= k < n ==> numbers[..n][k] == numbers[k];
      TouchesInMergeOrder(inp, numbers[..n]);
      if last != [] {
        var at := MergedAt(inp, numbers[n]).value;
        RowTouchesAt(inp.files[numbers[n]], at);
        forall i | 0 <= i < |front| ensures front[i].at <= at {
          TouchTimes(inp, numbers[..n], i);
          var k :| 0 <= k < n && MergedAt(inp, numbers[..n][k]) == Some(front[i].at);
        }
      }
      AppendInOrder(front, last);
    }
  }

  lemma AppendInOrder(a: seq<Touch>, b: seq<Touch>)
    requires InMergeOrder(a) && InMergeOrder(b)
    requires forall i, j :: 0 <= i < |a| && 0 <= j < |b| ==> a[i].at <= b[j].at
    ensures InMergeOrder(a + b)
  {
  }

  lemma GoneNext(touches: seq<Touch>, t: Touch, path: string, at: int)
    ensures GoneSince(touches + [t], path, at) <==>
              if t.path != path then GoneSince(touches, path, at)
              else t.at <= at && (GoneSince(touches, path, at) || (t.deletes && t.at == at && NothingAfter(touches, path, at)))
  {
    var more := touches + [t];
    if GoneSince(touches, path, at) && (t.path == path ==> t.at <= at) {
      var i :| 0 <= i < |touches| && touches[i] == Touch(path, at, true);
      assert more[i] == Touch(path, at, true);
    }
    if t == Touch(path, at, true) && NothingAfter(touches, path, at) {
      assert more[|touches|] == t;
    }
    if GoneSince(more, path, at) {
      assert forall i :: 0 <= i < |touches| ==> more[i] == touches[i];
      assert more[|touches|] == t;
    }
  }

  ghost predicate NothingAfter(touches: seq<Touch>, path: string, at: int) {
    forall i :: 0 <= i < |touches| && touches[i].path == path ==> touches[i].at <= at
  }

  /** With PRs visited in merge order, `deleted_at` holds exactly the paths that are gone, with the time. */
  lemma {:induction false} DeletedAtExact(touches: seq<Touch>, path: string)
    requires InMergeOrder(touches)
    ensures path in DeletedAt(touches) ==> GoneSince(touches, path, DeletedAt(touches)[path])
    ensures forall at :: GoneSince(touches, path, at) ==> path in DeletedAt(touches) && DeletedAt(touches)[path] == at
  {
    if touches != [] {
      var n := |touches| - 1;
      var front, t := touches[..n], touches[n];
      assert touches == front + [t];
      DeletedAtExact(front, path);
      var before, after := DeletedAt(front), DeletedAt(touches);
      forall at { GoneNext(front, t, path, at); }
      assert NothingAfter(front, path, t.at);
    }
  }

  /** In any order, a path that is gone is recorded as gone, with the right time. */
  lemma {:induction false} GoneIsAlwaysRecorded(touches: seq<Touch>, path: string, at: int)
    requires GoneSince(touches, path, at)
    ensures path in DeletedAt(touches) && DeletedAt(touches)[path] == at
  {
    var n := |touches| - 1;
    var front, t := touches[..n], touches[n];
    assert touches == front + [t];
    GoneNext(front, t, path, at);
    if GoneSince(front, path, at) {
      GoneIsAlwaysRecorded(front, path, at);
    } else {
      NeverLater(front, path, at);
    }
  }

  lemma {:induction false} NeverLater(touches: seq<Touch>, path: string, at: int)
    requires NothingAfter(touches, path, at)
    ensures path in DeletedAt(touches) ==> DeletedAt(touches)[path] <= at
  {
    if touches != [] {
      var n := |touches| - 1;
      assert touches[n] == touches[n];
      NeverLater(touches[..n], path, at);
    }
  }

  /** The table is right about a path: it holds it exactly when it is gone, with the time. */
  ghost predicate RightAbout(touches: seq<Touch>, path: string) {
    forall at :: GoneSince(touches, path, at) <==> path in DeletedAt(touches) && DeletedAt(touches)[path] == at
  }

  ghost predicate HappenAt(touches: seq<Touch>, times: seq<int>) {
    |touches| == |times| && forall i :: 0 <= i < |touches| ==> touches[i].at == times[i]
  }

  ghost predicate Rises(times: seq<int>) { forall i, j :: 0 <= i < j < |times| ==> times[i] <= times[j] }

  lemma {:induction false} UntouchedPath(touches: seq<Touch>, path: string)
    requires forall i :: 0 <= i < |touches| ==> touches[i].path != path
    ensures path !in DeletedAt(touches)
  {
    if touches != [] { UntouchedPath(touches[..|touches| - 1], path); }
  }

  /** Touches of other paths do not matter to a path. */
  lemma {:induction false} OtherPathsDoNotMatter(before: seq<Touch>, others: seq<Touch>, path: string)
    requires forall i :: 0 <= i < |others| ==> others[i].path != path
    ensures path in DeletedAt(before + others) <==> path in DeletedAt(before)
    ensures path in DeletedAt(before) ==> DeletedAt(before + others)[path] == DeletedAt(before)[path]
  {
    if others == [] {
      assert before + others == before;
    } else {
      var n := |others| - 1;
      assert (before + others)[..|before + others| - 1] == before + others[..n];
      OtherPathsDoNotMatter(before, others[..n], path);
    }
  }

  /** Touch the path at `i`, delete it at `j`, and touch something else at every other time. */
  function Witness(times: seq<int>, i: nat, j: nat): seq<Touch> {
    seq(|times|, k requires 0 <= k < |times| =>
      if k == i then Touch("a", times[k], false) else if k == j then Touch("a", times[k], true)
        else Touch("b", times[k], false))
  }

  /** A touch of the path before it was ever deleted leaves it out of the table. */
  lemma TouchedOnly(w: seq<Touch>, i: nat, path: string)
    requires i < |w| && w[i].path == path && !w[i].deletes
    requires forall k :: 0 <= k < i ==> w[k].path != path
    ensures path !in DeletedAt(w[..i + 1])
  {
    UntouchedPath(w[..i], path);
    assert w[..i + 1][..i] == w[..i];
  }

  lemma DeletedNow(before: seq<Touch>, t: Touch)
    requires t.deletes && t.path !in DeletedAt(before)
    ensures t.path in DeletedAt(before + [t]) && DeletedAt(before + [t])[t.path] == t.at
  {
    assert (before + [t])[..|before|] == before;
  }

  /** A delete of a path that is not in the table puts it there, and other paths leave it there. */
  lemma DeletedLast(before: seq<Touch>, between: seq<Touch>, t: Touch, after: seq<Touch>)
    requires t.deletes && t.path !in DeletedAt(before)
    requires forall k :: 0 <= k < |between| ==> between[k].path != t.path
    requires forall k :: 0 <= k < |after| ==> after[k].path != t.path
    ensures var all := ((before + between) + [t]) + after; t.path in DeletedAt(all) && DeletedAt(all)[t.path] == t.at
  {
    OtherPathsDoNotMatter(before, between, t.path);
    DeletedNow(before + between, t);
    OtherPathsDoNotMatter((before + between) + [t], after, t.path);
  }

  lemma WitnessIsWrong(times: seq<int>, i: nat, j: nat)
    requires i < j < |times| && times[i] > times[j]
    ensures HappenAt(Witness(times, i, j), times) && !RightAbout(Witness(times, i, j), "a")
  {
    var w := Witness(times, i, j);
    TouchedOnly(w, i, "a");
    DeletedLast(w[..i + 1], w[i + 1..j], w[j], w[j + 1..]);
    assert ((w[..i + 1] + w[i + 1..j]) + [w[j]]) + w[j + 1..] == w;
    assert w[i].path == "a" && w[i].at > times[j];
    assert !GoneSince(w, "a", times[j]);
  }

  lemma RightInOrder(touches: seq<Touch>, times: seq<int>, path: string)
    requires HappenAt(touches, times) && Rises(times)
    ensures RightAbout(touches, path)
  {
    assert InMergeOrder(touches);
    DeletedAtExact(touches, path);
  }

  /**
   Exactly which visiting orders are safe: the table is right about every path, whatever the PRs touch, if
   and only if their merge times never fall.
   */
  lemma MergeOrderIsExact(times: seq<int>)
    ensures (forall touches, path :: HappenAt(touches, times) ==> RightAbout(touches, path)) <==> Rises(times)
  {
    if Rises(times) {
      forall touches, path | HappenAt(touches, times) ensures RightAbout(touches, path) { RightInOrder(touches, times, path); }
    } else {
      var i, j :| 0 <= i < j < |times| && times[i] > times[j];
      WitnessIsWrong(times, i, j);
    }
  }

  // ----- the time-ordered sweep over later fixes -----

  function FlagsOf(inp: Inputs, n: nat): set<string> { if n in inp.flags then inp.flags[n] else {} }

  function IssuesOf(inp: Inputs, n: nat): set<nat> { if n in inp.issues then inp.issues[n] else {} }

  function Rows(inp: Inputs, n: nat): seq<FileRow> { if n in inp.files then inp.files[n] else [] }

  function CodePaths(inp: Inputs, n: nat): set<string> {
    set row | row in Rows(inp, n) && !row.noise && row.path != "" :: row.path
  }

  function Introduced(inp: Inputs, n: nat): set<string> {
    set row | row in Rows(inp, n) && !row.noise && row.path != "" && row.status == "A" :: row.path
  }

  /** The PR changes code in this file, or adds it. */
  ghost predicate ChangesCode(inp: Inputs, n: nat, path: string) {
    path != "" && n in inp.files && exists row :: row in inp.files[n] && row.path == path && !row.noise
  }

  ghost predicate AddsCode(inp: Inputs, n: nat, path: string) {
    path != "" && n in inp.files && exists row ::
      row in inp.files[n] && row.path == path && !row.noise && row.status == "A"
  }

  lemma PathsExact(inp: Inputs, n: nat, path: string)
    ensures path in CodePaths(inp, n) <==> ChangesCode(inp, n, path)
    ensures path in Introduced(inp, n) <==> AddsCode(inp, n, path)
  {
  }

  /** The row loop that fills `code` and `added`. */
  method PathsOf(inp: Inputs, n: nat) returns (code: set<string>, added: set<string>)
    ensures code == CodePaths(inp, n) && added == Introduced(inp, n)
  {
    code, added := {}, {};
    var rows := if n in inp.files then inp.files[n] else [];
    for i := 0 to |rows|
      invariant code == set row | row in rows[..i] && !row.noise && row.path != "" :: row.path
      invariant added == set row | row in rows[..i] && !row.noise && row.path != "" && row.status == "A" :: row.path
    {
      assert rows[..i + 1] == rows[..i] + [rows[i]];
      if rows[i].noise || rows[i].path == "" {
        continue;
      }
      code := code + {rows[i].path};
      if rows[i].status == "A" { added := added + {rows[i].path}; }
    }
    assert rows[..|rows|] == rows;
  }

  predicate IsFix(inp: Inputs, n: nat) { n in inp.prs && inp.prs[n].prefix in FIX_PREFIXES && inp.prs[n].merged.Some? }

  function Select(s: seq<nat>, keep: nat -> bool): seq<nat> {
    if s == [] then []
    else
      var n := |s| - 1;
      Select(s[..n], keep) + if keep(s[n]) then [s[n]] else []
  }

  lemma {:induction false} SelectMembers(s: seq<nat>, keep: nat -> bool)
    ensures forall n :: n in Select(s, keep) <==> n in s && keep(n)
  {
    if s != [] {
      var n := |s| - 1;
      SelectMembers(s[..n], keep);
      assert forall x :: x in s <==> x in s[..n] || x == s[n];
    }
  }

  predicate MergedLe(inp: Inputs, a: nat, b: nat) {
    MergedAt(inp, a).None? || (MergedAt(inp, b).Some? && MergedAt(inp, a).value <= MergedAt(inp, b).value)
  }

  function ByMerge(inp: Inputs): (nat, nat) -> bool { (a: nat, b: nat) => MergedLe(inp, a, b) }

  function FixesOf(inp: Inputs): nat -> bool { (n: nat) => IsFix(inp, n) }

  /** `fix_prs`, in merge order. */
  function FixPrs(inp: Inputs): seq<nat> { Sort(Select(inp.order, FixesOf(inp)), ByMerge(inp)) }

  lemma FixPrsInOrder(inp: Inputs)
    ensures SortedBy(FixPrs(inp), ByMerge(inp))
    ensures forall n :: n in FixPrs(inp) <==> n in inp.order && IsFix(inp, n)
  {
    assert IsPreorder(ByMerge(inp));
    var picked := Select(inp.order, FixesOf(inp));
    SortSorted(picked, ByMerge(inp));
    SelectMembers(inp.order, FixesOf(inp));
    SameElements(picked, FixPrs(inp));
  }

  /** A fix of somebody else's, merged strictly later but within the horizon. */
  predicate InHorizon(inp: Inputs, me: nat, other: nat) {
    && MergedAt(inp, me).Some? && MergedAt(inp, other).Some? && other != me
    && MergedAt(inp, me).value < MergedAt(inp, other).value <= MergedAt(inp, me).value + inp.proximityDays * DAY
  }

  predicate IsLinked(inp: Inputs, me: nat, other: nat) {
    IssuesOf(inp, me) * IssuesOf(inp, other) != {} || FlagsOf(inp, me) * FlagsOf(inp, other) != {}
  }

  predicate OverlapsEnough(inp: Inputs, me: nat, other: nat) {
    |CodePaths(inp, me) * CodePaths(inp, other)| >= inp.minOverlap
  }

  /** An issue or a flag belongs to both. */
  ghost predicate ShareWork(inp: Inputs, a: nat, b: nat) {
    || (exists i :: a in inp.issues && b in inp.issues && i in inp.issues[a] && i in inp.issues[b])
    || (exists f :: a in inp.flags && b in inp.flags && f in inp.flags[a] && f in inp.flags[b])
  }

  lemma LinkedExactly(inp: Inputs, a: nat, b: nat)
    ensures IsLinked(inp, a, b) <==> ShareWork(inp, a, b)
  {
    if ShareWork(inp, a, b) {
      if i :| a in inp.issues && b in inp.issues && i in inp.issues[a] && i in inp.issues[b] {
        assert i in IssuesOf(inp, a) * IssuesOf(inp, b);
      } else {
        var f :| a in inp.flags && b in inp.flags && f in inp.flags[a] && f in inp.flags[b];
        assert f in FlagsOf(inp, a) * FlagsOf(inp, b);
      }
    }
    if i :| i in IssuesOf(inp, a) * IssuesOf(inp, b) {
      assert a in inp.issues && b in inp.issues && i in inp.issues[a] && i in inp.issues[b];
    }
    if f :| f in FlagsOf(inp, a) * FlagsOf(inp, b) {
      assert a in inp.flags && b in inp.flags && f in inp.flags[a] && f in inp.flags[b];
    }
  }

  predicate InLinkedTier(inp: Inputs, me: nat, other: nat) { InHorizon(inp, me, other) && IsLinked(inp, me, other) }

  predicate InProximateTier(inp: Inputs, me: nat, other: nat) {
    InHorizon(inp, me, other) && !IsLinked(inp, me, other) && OverlapsEnough(inp, me, other)
  }

  function LinkedOf(inp: Inputs, me: nat): nat -> bool { (n: nat) => InLinkedTier(inp, me, n) }

  function ProximateOf(inp: Inputs, me: nat): nat -> bool { (n: nat) => InProximateTier(inp, me, n) }

  /** Once one fix lies past the horizon, so do all that follow it. */
  lemma LateStaysLate(inp: Inputs, me: nat, fixes: seq<nat>, i: nat, j: nat)
    requires i <= j < |fixes| && SortedBy(fixes, ByMerge(inp))
    requires MergedAt(inp, me).Some? && MergedAt(inp, fixes[i]).Some?
    requires MergedAt(inp, fixes[i]).value > MergedAt(inp, me).value + inp.proximityDays * DAY
    ensures !InHorizon(inp, me, fixes[j])
  {
    if i < j {
      assert ByMerge(inp)(fixes[i], fixes[j]);
      assert MergedLe(inp, fixes[i], fixes[j]);
    }
  }

  lemma {:induction false} RestIsTooLate(fixes: seq<nat>, i: nat, keep: nat -> bool)
    requires i <= |fixes| && forall j :: i <= j < |fixes| ==> !keep(fixes[j])
    ensures Select(fixes, keep) == Select(fixes[..i], keep)
  {
    if i == |fixes| {
      assert fixes[..i] == fixes;
    } else {
      var n := |fixes| - 1;
      RestIsTooLate(fixes[..n], i, keep);
      assert fixes[..n][..i] == fixes[..i];
    }
  }

  lemma BreakIsSafe(inp: Inputs, me: nat, fixes: seq<nat>, i: nat)
    requires i < |fixes| && SortedBy(fixes, ByMerge(inp))
    requires MergedAt(inp, me).Some? && MergedAt(inp, fixes[i]).Some?
    requires MergedAt(inp, fixes[i]).value > MergedAt(inp, me).value + inp.proximityDays * DAY
    ensures Select(fixes, LinkedOf(inp, me)) == Select(fixes[..i], LinkedOf(inp, me))
    ensures Select(fixes, ProximateOf(inp, me)) == Select(fixes[..i], ProximateOf(inp, me))
  {
    forall j | i <= j < |fixes| ensures !LinkedOf(inp, me)(fixes[j]) && !ProximateOf(inp, me)(fixes[j]) {
      LateStaysLate(inp, me, fixes, i, j);
    }
    RestIsTooLate(fixes, i, LinkedOf(inp, me));
    RestIsTooLate(fixes, i, ProximateOf(inp, me));
  }

  method Related(inp: Inputs, me: nat, other: nat) returns (related: bool)
    ensures related == IsLinked(inp, me, other)
  {
    var myIssues := if me in inp.issues then inp.issues[me] else {};
    var otherIssues := if other in inp.issues then inp.issues[other] else {};
    var myFlags := if me in inp.flags then inp.flags[me] else {};
    var otherFlags := if other in inp.flags then inp.flags[other] else {};
    related := myIssues * otherIssues != {} || myFlags * otherFlags != {};
  }

  /** The inner loop, with its early `break`. */
  method Sweep(inp: Inputs, me: nat, fixes: seq<nat>) returns (linked: seq<nat>, proximate: seq<nat>)
    requires MergedAt(inp, me).Some? && SortedBy(fixes, ByMerge(inp))
    requires forall n :: n in fixes ==> MergedAt(inp, n).Some?
    ensures linked == Select(fixes, LinkedOf(inp, me)) && proximate == Select(fixes, ProximateOf(inp, me))
  {
    linked, proximate := [], [];
    var mergedAt := MergedAt(inp, me).value;
    var horizon := mergedAt + inp.proximityDays * DAY;
    for i := 0 to |fixes|
      invariant linked == Select(fixes[..i], LinkedOf(inp, me)) && proximate == Select(fixes[..i], ProximateOf(inp, me))
    {
      var other := fixes[i];
      assert other in fixes;
      SelectNext(fixes, i, LinkedOf(inp, me));
      SelectNext(fixes, i, ProximateOf(inp, me));
      var otherMerged := MergedAt(inp, other).value;
      if other == me || otherMerged <= mergedAt {
        continue;
      }
      if otherMerged > horizon {
        BreakIsSafe(inp, me, fixes, i);
        return;
      }
      var related := Related(inp, me, other);
      if related {
        linked := linked + [other];
      } else {
        var myPaths, myAdded := PathsOf(inp, me);
        var theirPaths, theirAdded := PathsOf(inp, other);
        if |myPaths * theirPaths| >= inp.minOverlap { proximate := proximate + [other]; }
      }
    }
    assert fixes[..|fixes|] == fixes;
  }

  lemma SelectNext(fixes: seq<nat>, i: nat, keep: nat -> bool)
    requires i < |fixes|
    ensures Select(fixes[..i + 1], keep) == Select(fixes[..i], keep) + if keep(fixes[i]) then [fixes[i]] else []
  {
    assert fixes[..i + 1][..i] == fixes[..i];
  }

  function LinkedFixes(inp: Inputs, me: nat): seq<nat> {
    if MergedAt(inp, me).Some? && CodePaths(inp, me) != {} then Select(FixPrs(inp), LinkedOf(inp, me)) else []
  }

  function ProximateFixes(inp: Inputs, me: nat): seq<nat> {
    if MergedAt(inp, me).Some? && CodePaths(inp, me) != {} then Select(FixPrs(inp), ProximateOf(inp, me)) else []
  }

  method LaterFixes(inp: Inputs, me: nat, fixes: seq<nat>) returns (linked: seq<nat>, proximate: seq<nat>)
    requires fixes == FixPrs(inp)
    ensures linked == LinkedFixes(inp, me) && proximate == ProximateFixes(inp, me)
  {
    linked, proximate := [], [];
    var myPaths, myAdded := PathsOf(inp, me);
    if me in inp.prs && inp.prs[me].merged.Some? && myPaths != {} {
      FixPrsInOrder(inp);
      linked, proximate := Sweep(inp, me, fixes);
    }
  }

  /** `n` is a fix, a revert or a performance change merged strictly after `me`, at most `proximityDays` later. */
  ghost predicate IsLaterFix(inp: Inputs, me: nat, n: nat) {
    && n in inp.order && n in inp.prs && inp.prs[n].prefix in {"fix", "revert", "perf"} && n != me
    && me in inp.prs && inp.prs[me].merged.Some? && inp.prs[n].merged.Some?
    && inp.prs[me].merged.value < inp.prs[n].merged.value <= inp.prs[me].merged.value + inp.proximityDays * 86400
  }

  lemma LaterFixExactly(inp: Inputs, me: nat, n: nat)
    ensures n in inp.order && IsFix(inp, n) && InHorizon(inp, me, n) <==> IsLaterFix(inp, me, n)
  {
  }

  lemma HasCode(inp: Inputs, me: nat)
    requires exists path :: ChangesCode(inp, me, path)
    ensures CodePaths(inp, me) != {}
  {
    var path :| ChangesCode(inp, me, path);
    PathsExact(inp, me, path);
  }

  /**
   The sweep with its `break` finds exactly the later fixes inside the horizon: linked when they share an issue
   or a flag, otherwise proximate when they change enough of the same code, and each in one tier at most.
   */
  lemma SweepIsExact(inp: Inputs, me: nat, n: nat)
    requires exists path :: ChangesCode(inp, me, path)
    ensures n in LinkedFixes(inp, me) <==> IsLaterFix(inp, me, n) && ShareWork(inp, me, n)
    ensures n in ProximateFixes(inp, me) <==>
              IsLaterFix(inp, me, n) && !ShareWork(inp, me, n)
                && |CodePaths(inp, me) * CodePaths(inp, n)| >= inp.minOverlap
    ensures !(n in LinkedFixes(inp, me) && n in ProximateFixes(inp, me))
  {
    HasCode(inp, me);
    LaterFixExactly(inp, me, n);
    LinkedExactly(inp, me, n);
    SelectMembers(FixPrs(inp), LinkedOf(inp, me));
    SelectMembers(FixPrs(inp), ProximateOf(inp, me));
    FixPrsInOrder(inp);
  }

  // ----- explicit signals -----

  datatype Candidate = Candidate(target: Option<nat>, edgeType: string)

  const EXPLICIT_TYPES: set<string> := {"reverts", "reapplies", "supersedes"}

  function ExplicitEdges(edges: seq<Edge>, me: nat): seq<Candidate> {
    if edges == [] then []
    else
      var n := |edges| - 1;
      ExplicitEdges(edges[..n], me)
        + if edges[n].targetKind == "pull_request" && edges[n].target == Some(me) && edges[n].edgeType in EXPLICIT_TYPES
          then [Candidate(edges[n].target, edges[n].edgeType)] else []
  }

  /** A later PR titled as the revert of the same subject. */
  predicate RevertsBySubject(inp: Inputs, me: nat, other: nat)
    requires me in inp.prs
  {
    && inp.prs[me].subject != "" && other in inp.prs && other != me
    && inp.prs[other].subject == inp.prs[me].subject && inp.prs[other].prefix == "revert"
    && inp.prs[me].merged.Some? && inp.prs[other].merged.Some? && inp.prs[other].merged.value > inp.prs[me].merged.value
  }

  function AsCandidates(numbers: seq<nat>, edgeType: string): seq<Candidate> {
    seq(|numbers|, i requires 0 <= i < |numbers| => Candidate(Some(numbers[i]), edgeType))
  }

  function Explicit(inp: Inputs, me: nat): seq<Candidate>
    requires me in inp.prs
  {
    ExplicitEdges(inp.edges, me) + AsCandidates(Select(inp.order, (n: nat) => RevertsBySubject(inp, me, n)),
      "reverted_by")
  }

  /** A recorded edge says that this PR was reverted, applied again or superseded. */
  ghost predicate IsExplicitEdge(e: Edge, me: nat, c: Candidate) {
    && e.targetKind == "pull_request" && e.target == Some(me) && e.edgeType in {"reverts", "reapplies", "supersedes"}
    && c == Candidate(Some(me), e.edgeType)
  }

  /** A later PR carries the same non-empty subject with the prefix of a revert. */
  ghost predicate IsRevertOf(inp: Inputs, me: nat, other: nat) {
    && other in inp.order && me in inp.prs && other in inp.prs && other != me
    && inp.prs[other].prefix == "revert" && inp.prs[other].subject == inp.prs[me].subject && inp.prs[me].subject != ""
    && inp.prs[me].merged.Some? && inp.prs[other].merged.Some? && inp.prs[me].merged.value < inp.prs[other].merged.value
  }

  lemma {:induction false} ExplicitEdgesExact(edges: seq<Edge>, me: nat, c: Candidate)
    ensures c in ExplicitEdges(edges, me) <==> exists e :: e in edges && IsExplicitEdge(e, me, c)
  {
    if edges != [] {
      var n := |edges| - 1;
      ExplicitEdgesExact(edges[..n], me, c);
      assert forall e :: e in edges <==> e in edges[..n] || e == edges[n] by { assert edges == edges[..n] + [edges[n]]; }
      assert c in ExplicitEdges(edges, me) <==> c in ExplicitEdges(edges[..n], me) || IsExplicitEdge(edges[n], me, c);
    }
  }

  /** The explicit signals are exactly these two kinds. */
  lemma ExplicitExact(inp: Inputs, me: nat, c: Candidate)
    requires me in inp.prs
    ensures c in Explicit(inp, me) <==>
              || (exists e :: e in inp.edges && IsExplicitEdge(e, me, c))
              || (c.edgeType == "reverted_by" && c.target.Some? && IsRevertOf(inp, me, c.target.value))
  {
    var keep := (n: nat) => RevertsBySubject(inp, me, n);
    var found := AsCandidates(Select(inp.order, keep), "reverted_by");
    ExplicitEdgesExact(inp.edges, me, c);
    SelectMembers(inp.order, keep);
    if c.edgeType == "reverted_by" && c.target.Some? && IsRevertOf(inp, me, c.target.value) {
      var i :| 0 <= i < |Select(inp.order, keep)| && Select(inp.order, keep)[i] == c.target.value;
      assert found[i] == c;
    }
    if c in found {
      var i :| 0 <= i < |found| && found[i] == c;
      assert Select(inp.order, keep)[i] in Select(inp.order, keep);
    }
  }

  method CollectEdges(edges: seq<Edge>, me: nat) returns (out: seq<Candidate>)
    ensures out == ExplicitEdges(edges, me)
  {
    out := [];
    for i := 0 to |edges|
      invariant out == ExplicitEdges(edges[..i], me)
    {
      assert edges[..i + 1][..i] == edges[..i];
      if edges[i].targetKind != "pull_request" || edges[i].target != Some(me) {
        continue;
      }
      if edges[i].edgeType in {"reverts", "reapplies", "supersedes"} {
        out := out + [Candidate(Some(me), edges[i].edgeType)];
      }
    }
    assert edges[..|edges|] == edges;
  }

  method CollectReverts(inp: Inputs, me: nat) returns (out: seq<nat>)
    requires me in inp.prs
    ensures out == Select(inp.order, (n: nat) => RevertsBySubject(inp, me, n))
  {
    out := [];
    var mine := inp.prs[me];
    ghost var keep := (n: nat) => RevertsBySubject(inp, me, n);
    for i := 0 to |inp.order|
      invariant out == Select(inp.order[..i], keep)
    {
      var other := inp.order[i];
      SelectNext(inp.order, i, keep);
      if mine.subject == "" || other !in inp.prs || inp.prs[other].subject != mine.subject || other == me
         || inp.prs[other].prefix != "revert" || mine.merged.None? || inp.prs[other].merged.None? {
        continue;
      }
      if inp.prs[other].merged.value > mine.merged.value { out := out + [other]; }
    }
    assert inp.order[..|inp.order|] == inp.order;
  }

  method CollectExplicit(inp: Inputs, me: nat) returns (out: seq<Candidate>)
    requires me in inp.prs
    ensures out == Explicit(inp, me)
  {
    var found := CollectEdges(inp.edges, me);
    var reverts := CollectReverts(inp, me);
    out := found + seq(|reverts|, i requires 0 <= i < |reverts| => Candidate(Some(reverts[i]), "reverted_by"));
  }

  function Candidates(inp: Inputs, me: nat): seq<Candidate>
    requires me in inp.prs
  {
    Explicit(inp, me) + (AsCandidates(LinkedFixes(inp, me), "later_fix_linked")
      + AsCandidates(ProximateFixes(inp, me), "later_fix_same_paths"))
  }

  // ----- corrective churn -----

  datatype Churn = Churn(self: nat, collaborator: nat, revert: nat, replacement: nat, unknown: nat) {
    function Total(): nat { self + collaborator + revert + replacement + unknown }
  }

  function Counted(inp: Inputs, me: nat, c: Candidate, churn: Churn): Churn
    requires me in inp.prs
  {
    if c.edgeType in {"reverts", "reverted_by"} then churn.(revert := churn.revert + 1)
    else if c.edgeType in {"supersedes", "reapplies"} then churn.(replacement := churn.replacement + 1)
    else if c.target.None? || c.target.value !in inp.prs then churn.(unknown := churn.unknown + 1)
    else if inp.prs[c.target.value].author == inp.prs[me].author then churn.(self := churn.self + 1)
    else if inp.prs[c.target.value].author != "" then churn.(collaborator := churn.collaborator + 1)
    else churn.(unknown := churn.unknown + 1)
  }

  function ChurnOf(inp: Inputs, me: nat, candidates: seq<Candidate>): Churn
    requires me in inp.prs
  {
    if candidates == [] then Churn(0, 0, 0, 0, 0)
    else
      var n := |candidates| - 1;
      Counted(inp, me, candidates[n], ChurnOf(inp, me, candidates[..n]))
  }

  /** Every candidate is counted once, in one bucket. */
  lemma {:induction false} ChurnTotals(inp: Inputs, me: nat, candidates: seq<Candidate>)
    requires me in inp.prs
    ensures ChurnOf(inp, me, candidates).Total() == |candidates|
  {
    if candidates != [] { ChurnTotals(inp, me, candidates[..|candidates| - 1]); }
  }

  method Attribute(inp: Inputs, me: nat, candidates: seq<Candidate>) returns (churn: Churn)
    requires me in inp.prs
    ensures churn == ChurnOf(inp, me, candidates)
  {
    churn := Churn(0, 0, 0, 0, 0);
    for i := 0 to |candidates|
      invariant churn == ChurnOf(inp, me, candidates[..i])
    {
      assert candidates[..i + 1][..i] == candidates[..i];
      var c := candidates[i];
      if c.edgeType == "reverts" || c.edgeType == "reverted_by" {
        churn := churn.(revert := churn.revert + 1);
      } else if c.edgeType == "supersedes" || c.edgeType == "reapplies" {
        churn := churn.(replacement := churn.replacement + 1);
      } else if c.target.None? || c.target.value !in inp.prs {
        churn := churn.(unknown := churn.unknown + 1);
      } else if inp.prs[c.target.value].author == inp.prs[me].author {
        churn := churn.(self := churn.self + 1);
      } else if inp.prs[c.target.value].author != "" {
        churn := churn.(collaborator := churn.collaborator + 1);
      } else {
        churn := churn.(unknown := churn.unknown + 1);
      }
    }
    assert candidates[..|candidates|] == candidates;
  }

  // ----- durability -----

  /** `survival_Nd`: the share of introduced files not gone by the checkpoint, when that can be known. */
  function Survival(inp: Inputs, deleted: map<string, int>, me: nat, days: int): Option<real> {
    if MergedAt(inp, me).None? || Introduced(inp, me) == {} then None
    else
      var checkpoint := MergedAt(inp, me).value + days * DAY;
      if checkpoint > inp.windowEnd then None
      else Some(1.0 - |Gone(inp, deleted, me, checkpoint)| as real / |Introduced(inp, me)| as real)
  }

  function Gone(inp: Inputs, deleted: map<string, int>, me: nat, checkpoint: int): set<string> {
    set p | p in Introduced(inp, me) && p in deleted && deleted[p] <= checkpoint
  }

  /** One checkpoint, as the loop over `survival_days` computes it. */
  method SurvivalAt(inp: Inputs, deleted: map<string, int>, me: nat, days: int) returns (share: Option<real>)
    ensures share == Survival(inp, deleted, me, days)
  {
    var code, introduced := PathsOf(inp, me);
    if me !in inp.prs || inp.prs[me].merged.None? || introduced == {} { return None; }
    var checkpoint := inp.prs[me].merged.value + days * 86400;
    if checkpoint > inp.windowEnd { return None; }
    var gone := set p | p in introduced && p in deleted && deleted[p] <= checkpoint;
    assert gone == Gone(inp, deleted, me, checkpoint);
    share := Some(1.0 - |gone| as real / |introduced| as real);
  }

  lemma ShareBounds(part: nat, whole: nat)
    requires part <= whole && whole > 0
    ensures 0.0 <= part as real / whole as real <= 1.0
  {
  }

  lemma SharesCompare(a: nat, b: nat, whole: nat)
    requires a <= b && whole > 0
    ensures a as real / whole as real <= b as real / whole as real
  {
  }

  /** Survival lies between 0 and 1, and a longer checkpoint never raises it. */
  lemma SurvivalFalls(inp: Inputs, deleted: map<string, int>, me: nat, days: int, longer: int)
    requires days <= longer && Survival(inp, deleted, me, longer).Some?
    ensures Survival(inp, deleted, me, days).Some?
    ensures 0.0 <= Survival(inp, deleted, me, longer).value <= Survival(inp, deleted, me, days).value <= 1.0
  {
    var start, all := MergedAt(inp, me).value, Introduced(inp, me);
    var few, many := Gone(inp, deleted, me, start + days * DAY), Gone(inp, deleted, me, start + longer * DAY);
    SubsetSize(few, many);
    SubsetSize(many, all);
    assert |all| > 0;
    ShareBounds(|few|, |all|);
    ShareBounds(|many|, |all|);
    SharesCompare(|few|, |many|, |all|);
  }

  /** Deletions recorded too many can only lower it: an input visited in merge order gives the true share. */
  lemma ExtraDeletionsOnlyLower(inp: Inputs, fewer: map<string, int>, more: map<string, int>, me: nat, days: int)
    requires forall p :: p in fewer ==> p in more && more[p] == fewer[p]
    requires Survival(inp, fewer, me, days).Some?
    ensures Survival(inp, more, me, days).Some?
      && Survival(inp, more, me, days).value <= Survival(inp, fewer, me, days).value
  {
    var checkpoint, all := MergedAt(inp, me).value + days * DAY, Introduced(inp, me);
    SubsetSize(Gone(inp, fewer, me, checkpoint), Gone(inp, more, me, checkpoint));
    assert |all| > 0;
    SharesCompare(|Gone(inp, fewer, me, checkpoint)|, |Gone(inp, more, me, checkpoint)|, |all|);
  }

  // ----- compute -----

  datatype Row = Row(
    number: nat, explicitCount: nat, linked: seq<nat>, proximate: seq<nat>, tier: string, churn: Churn,
      survival: seq<Option<real>>)

  function TierName(explicit: nat, linked: nat, proximate: nat): string {
    if explicit > 0 then "explicit" else if linked > 0 then "linked" else if proximate > 0 then "proximate" else "none"
  }

  function RowOf(inp: Inputs, deleted: map<string, int>, survivalDays: seq<int>, me: nat): Row
    requires me in inp.prs
  {
    Row(me, |Explicit(inp, me)|, LinkedFixes(inp, me), ProximateFixes(inp, me),
      TierName(|Explicit(inp, me)|, |LinkedFixes(inp, me)|, |ProximateFixes(inp, me)|),
      ChurnOf(inp, me, Candidates(inp, me)),
      SurvivalShares(inp, deleted, survivalDays, me))
  }

  function SurvivalShares(inp: Inputs, deleted: map<string, int>, survivalDays: seq<int>, me: nat): seq<Option<real>> {
    seq(|survivalDays|, i requires 0 <= i < |survivalDays| => Survival(inp, deleted, me, survivalDays[i]))
  }

  method SurvivalAtAll(inp: Inputs, deleted: map<string, int>, survivalDays: seq<int>, me: nat)
      returns (survival: seq<Option<real>>)
    ensures survival == SurvivalShares(inp, deleted, survivalDays, me)
  {
    survival := [];
    for i := 0 to |survivalDays|
      invariant |survival| == i && forall j :: 0 <= j < i ==> survival[j] == Survival(inp, deleted, me, survivalDays[j])
    {
      var share := SurvivalAt(inp, deleted, me, survivalDays[i]);
      survival := survival + [share];
    }
  }

  method AttributeAll(inp: Inputs, me: nat, explicit: seq<Candidate>, linked: seq<nat>, proximate: seq<nat>)
      returns (churn: Churn)
    requires me in inp.prs && explicit == Explicit(inp, me)
    requires linked == LinkedFixes(inp, me) && proximate == ProximateFixes(inp, me)
    ensures churn == ChurnOf(inp, me, Candidates(inp, me)) && churn.Total() == |explicit| + |linked| + |proximate|
  {
    churn := Attribute(inp, me,
      explicit + (AsCandidates(linked, "later_fix_linked") + AsCandidates(proximate, "later_fix_same_paths")));
    ChurnTotals(inp, me, Candidates(inp, me));
  }

  method StrongestTier(explicit: seq<Candidate>, linked: seq<nat>, proximate: seq<nat>) returns (tier: string)
    ensures tier == TierName(|explicit|, |linked|, |proximate|)
  {
    if explicit != [] {
      tier := "explicit";
    } else if linked != [] {
      tier := "linked";
    } else if proximate != [] {
      tier := "proximate";
    } else {
      tier := "none";
    }
  }

  method ComputeRow(inp: Inputs, deleted: map<string, int>, survivalDays: seq<int>, fixes: seq<nat>, me: nat)
      returns (row: Row)
    requires me in inp.prs && fixes == FixPrs(inp)
    ensures row == RowOf(inp, deleted, survivalDays, me)
    ensures row.churn.Total() == row.explicitCount + |row.linked| + |row.proximate|
  {
    var linked, proximate := LaterFixes(inp, me, fixes);
    var explicit := CollectExplicit(inp, me);
    var churn := AttributeAll(inp, me, explicit, linked, proximate);
    var survival := SurvivalAtAll(inp, deleted, survivalDays, me);
    var tier := StrongestTier(explicit, linked, proximate);
    row := Row(me, |explicit|, linked, proximate, tier, churn, survival);
  }

  /** `compute`: one row per PR, in number order. */
  method Compute(inp: Inputs, survivalDays: seq<int>) returns (numbers: seq<nat>, out: seq<Row>)
    ensures numbers == SortedSet(inp.prs.Keys, NatLe) && |out| == |numbers|
    ensures forall i :: 0 <= i < |out| ==>
              numbers[i] in inp.prs && out[i]
                == RowOf(inp, DeletedAt(Touches(inp, inp.fileOrder)), survivalDays, numbers[i])
  {
    var deleted := NoteDeletions(inp);
    assert IsTotalOrder(NatLe);
    numbers := SortSet(inp.prs.Keys, NatLe);
    SortedSetElements(inp.prs.Keys, NatLe);
    forall i | 0 <= i < |numbers| ensures numbers[i] in inp.prs { assert numbers[i] in numbers; }
    out := ComputeRows(inp, deleted, survivalDays, FixPrs(inp), numbers);
  }

  method ComputeRows(inp: Inputs, deleted: map<string, int>, survivalDays: seq<int>, fixes: seq<nat>, numbers: seq<nat>)
      returns (out: seq<Row>)
    requires fixes == FixPrs(inp) && forall i :: 0 <= i < |numbers| ==> numbers[i] in inp.prs
    ensures |out| == |numbers|
    ensures forall i :: 0 <= i < |out| ==> out[i] == RowOf(inp, deleted, survivalDays, numbers[i])
  {
    out := [];
    for i := 0 to |numbers|
      invariant |out| == i
      invariant forall j :: 0 <= j < i ==> out[j] == RowOf(inp, deleted, survivalDays, numbers[j])
    {
      var row := ComputeRow(inp, deleted, survivalDays, fixes, numbers[i]);
      out := out + [row];
    }
  }
}
