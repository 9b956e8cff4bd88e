/**
 Bootstrap resampling (src/impact2/pipeline.py): the second and later draws of an episode become aliases,
 in three tables that must stay joined. A table row is its episode id and an opaque payload.
 */
module Resample {
  import opened Decimal

  datatype Row = Row(id: string, payload: nat)

  datatype Participant = Participant(actor: string, row: Row)

  /** One actor's draws. A sample has one entry per actor. */
  datatype Draws = Draws(actor: string, ids: seq<string>)

  function Alias(id: string, k: nat): string { id + "#resample" + Show(k) }

  /** The label of the `k`-th draw. */
  function Label(id: string, k: nat): string { if k > 1 then Alias(id, k) else id }

  /** An id that the pipeline could not have made up as an alias. */
  ghost predicate IsOriginal(id: string) { forall e, k :: k > 1 ==> id != Alias(e, k) }

  lemma AliasInjective(e: string, j: nat, f: string, k: nat)
    requires Alias(e, j) == Alias(f, k)
    ensures e == f && j == k
  {
    var s, a, b := Alias(e, j), Show(j), Show(k);
    SameTail(e + "#resample", a, f + "#resample", b);
    ShowInjective(j, k);
    assert e == (e + "#resample")[..|e|] && f == (f + "#resample")[..|f|];
  }

  /** Two numerals that end the same text after a letter are the same numeral. */
  lemma SameTail(p: string, a: string, q: string, b: string)
    requires p + a == q + b && AllDigits(a) && AllDigits(b) && p != "" && q != ""
    requires !IsDigit(p[|p| - 1]) && !IsDigit(q[|q| - 1])
    ensures p == q && a == b
  {
    var s := p + a;
    assert s[|p| - 1] == p[|p| - 1] && (q + b)[|q| - 1] == q[|q| - 1];
    DigitPast(p, a, |q| - 1);
    DigitPast(q, b, |p| - 1);
    assert s[..|p|] == p && (q + b)[..|q|] == q && s[|p|..] == a && (q + b)[|q|..] == b;
  }

  lemma DigitPast(p: string, a: string, n: int)
    requires AllDigits(a)
    ensures |p| <= n < |p + a| ==> IsDigit((p + a)[n])
  {
    if |p| <= n < |p + a| { assert (p + a)[n] == a[n - |p|]; }
  }

  /** How often `id` is drawn. */
  function Occurrences(ids: seq<string>, id: string): nat {
    if ids == [] then 0
    else Occurrences(ids[..|ids| - 1], id) + if ids[|ids| - 1] == id then 1 else 0
  }

  lemma {:induction false} OccurrencesGrow(ids: seq<string>, id: string, n: nat)
    requires n <= |ids|
    ensures Occurrences(ids[..n], id) <= Occurrences(ids, id)
    ensures n < |ids| && ids[n] == id ==> Occurrences(ids[..n], id) < Occurrences(ids, id)
    decreases |ids|
  {
    if n < |ids| {
      var m := |ids| - 1;
      assert ids[..m][..n] == ids[..n];
      OccurrencesGrow(ids[..m], id, n);
    } else {
      assert ids[..n] == ids;
    }
  }

  // ----- participants_for_sample -----

  type ByKey = map<(string, string), Participant>

  function Keyed(participants: seq<Participant>): ByKey {
    if participants == [] then map[]
    else
      var n := |participants| - 1;
      var p := participants[n];
      Keyed(participants[..n])[(p.actor, p.row.id) := p]
  }

  lemma {:induction false} KeyedIsFaithful(participants: seq<Participant>)
    ensures forall k ::
      k in Keyed(participants) ==> Keyed(participants)[k] in participants && HasKey(Keyed(participants), k)
  {
    if participants != [] { KeyedIsFaithful(participants[..|participants| - 1]); }
  }

  ghost predicate HasKey(byKey: ByKey, k: (string, string))
    requires k in byKey
  {
    byKey[k].actor == k.0 && byKey[k].row.id == k.1
  }

  function Relabelled(row: Row, id: string): Row { row.(id := id) }

  function Drawn(byKey: ByKey, actor: string, ids: seq<string>): seq<Participant> {
    if ids == [] then []
    else
      var n := |ids| - 1;
      Drawn(byKey, actor, ids[..n])
        + if (actor, ids[n]) in byKey then [Draw(byKey, actor, ids[n], Occurrences(ids, ids[n]))] else []
  }

  function Draw(byKey: ByKey, actor: string, id: string, k: nat): Participant
    requires (actor, id) in byKey
  {
    var p := byKey[(actor, id)];
    p.(row := Relabelled(p.row, Label(id, k)))
  }

  function ParticipantsFor(byKey: ByKey, sample: seq<Draws>): seq<Participant> {
    if sample == [] then []
    else
      var n := |sample| - 1;
      ParticipantsFor(byKey, sample[..n]) + Drawn(byKey, sample[n].actor, sample[n].ids)
  }

  /** `by_key` */
  method IndexByKey(participants: seq<Participant>) returns (byKey: ByKey)
    ensures byKey == Keyed(participants)
  {
    byKey := map[];
    for i := 0 to |participants|
      invariant byKey == Keyed(participants[..i])
    {
      assert participants[..i + 1][..i] == participants[..i];
      byKey := byKey[(participants[i].actor, participants[i].row.id) := participants[i]];
    }
    assert participants[..|participants|] == participants;
  }

  /** The inner loop: `seen` counts only draws that have a row. */
  method DrawRows(byKey: ByKey, actor: string, ids: seq<string>) returns (out: seq<Participant>)
    requires forall k :: k in byKey ==> HasKey(byKey, k)
    ensures out == Drawn(byKey, actor, ids)
  {
    out := [];
    var seen: map<string, nat> := map[];
    for i := 0 to |ids|
      invariant out == Drawn(byKey, actor, ids[..i])
      invariant forall id :: (actor, id) in byKey ==> (if id in seen then seen[id] else 0) == Occurrences(ids[..i], id)
    {
      var id := ids[i];
      assert ids[..i + 1][..i] == ids[..i];
      if (actor, id) !in byKey {
        continue;
      }
      seen := seen[id := (if id in seen then seen[id] else 0) + 1];
      var clone := byKey[(actor, id)];
      if seen[id] > 1 {
        clone := clone.(row := clone.row.(id := Alias(id, seen[id])));
      }
      out := out + [clone];
    }
    assert ids[..|ids|] == ids;
  }

  method ParticipantsForSample(participants: seq<Participant>, sample: seq<Draws>) returns (out: seq<Participant>)
    ensures out == ParticipantsFor(Keyed(participants), sample)
  {
    var byKey := IndexByKey(participants);
    KeyedIsFaithful(participants);
    out := [];
    for i := 0 to |sample|
      invariant out == ParticipantsFor(byKey, sample[..i])
    {
      assert sample[..i + 1][..i] == sample[..i];
      var drawn := DrawRows(byKey, sample[i].actor, sample[i].ids);
      out := out + drawn;
    }
    assert sample[..|sample|] == sample;
  }

  // ----- dimensions_for_sample and episodes_for_sample -----

  /** The rows of a table that carry an id. */
  function RowsOf(table: seq<Row>, id: string): seq<Row> {
    if table == [] then []
    else
      var n := |table| - 1;
      RowsOf(table[..n], id) + if table[n].id == id then [table[n]] else []
  }

  function RelabelledRows(rows: seq<Row>, id: string): seq<Row> {
    seq(|rows|, i requires 0 <= i < |rows| => Relabelled(rows[i], id))
  }

  /** The table so far, and the aliases already given rows. */
  datatype Table = Table(out: seq<Row>, added: set<string>)

  /** One draw: a repeat whose alias is new adds `copies(id)` under the alias. An unknown id adds nothing. */
  function AddDraw(t: Table, id: string, k: nat, known: string -> bool, copies: string -> seq<Row>): Table {
    if k > 1 && Alias(id, k) !in t.added && known(id)
    then Table(t.out + RelabelledRows(copies(id), Alias(id, k)), t.added + {Alias(id, k)})
    else t
  }

  function AddDraws(t: Table, ids: seq<string>, known: string -> bool, copies: string -> seq<Row>): Table {
    if ids == [] then t
    else
      var n := |ids| - 1;
      AddDraw(AddDraws(t, ids[..n], known, copies), ids[n], Occurrences(ids, ids[n]), known, copies)
  }

  function AddSample(t: Table, sample: seq<Draws>, known: string -> bool, copies: string -> seq<Row>): Table {
    if sample == [] then t
    else
      var n := |sample| - 1;
      AddDraws(AddSample(t, sample[..n], known, copies), sample[n].ids, known, copies)
  }

  function Anything(id: string): bool { true }

  function CopiesOf(table: seq<Row>): string -> seq<Row> { id => RowsOf(table, id) }

  /** `by_episode` gives every row of the id, and each repeat copies them all. */
  function DimensionsFor(dimensions: seq<Row>, sample: seq<Draws>): seq<Row> {
    AddSample(Table(dimensions, {}), sample, Anything, CopiesOf(dimensions)).out
  }

  function LastOf(table: seq<Row>): string -> seq<Row> {
    id => var rows := RowsOf(table, id); if rows == [] then [] else [rows[|rows| - 1]]
  }

  function Listed(table: seq<Row>): string -> bool { id => RowsOf(table, id) != [] }

  /** `by_id` gives the last row of the id, and an id without a row is passed over. */
  function EpisodesFor(episodes: seq<Row>, sample: seq<Draws>): seq<Row> {
    AddSample(Table(episodes, {}), sample, Listed(episodes), LastOf(episodes)).out
  }

  /** The shared loop of the two table methods. */
  method ExpandTable(base: seq<Row>, sample: seq<Draws>, known: string -> bool, copies: string -> seq<Row>)
      returns (out: seq<Row>)
    ensures out == AddSample(Table(base, {}), sample, known, copies).out
  {
    out := base;
    var added: set<string> := {};
    for i := 0 to |sample|
      invariant Table(out, added) == AddSample(Table(base, {}), sample[..i], known, copies)
    {
      assert sample[..i + 1][..i] == sample[..i];
      out, added := ExpandDraws(out, added, sample[i].ids, known, copies);
    }
    assert sample[..|sample|] == sample;
  }

  method ExpandDraws(base: seq<Row>, before: set<string>, ids: seq<string>, known: string -> bool,
      copies: string -> seq<Row>)
      returns (out: seq<Row>, added: set<string>)
    ensures Table(out, added) == AddDraws(Table(base, before), ids, known, copies)
  {
    out, added := base, before;
    var counts: map<string, nat> := map[];
    for i := 0 to |ids|
      invariant Table(out, added) == AddDraws(Table(base, before), ids[..i], known, copies)
      invariant forall id :: (if id in counts then counts[id] else 0) == Occurrences(ids[..i], id)
    {
      var id := ids[i];
      assert ids[..i + 1][..i] == ids[..i];
      counts := counts[id := (if id in counts then counts[id] else 0) + 1];
      if counts[id] > 1 {
        var alias := Alias(id, counts[id]);
        if alias in added || !known(id) {
          continue;
        }
        added := added + {alias};
        out := out + RelabelledRows(copies(id), alias);
      }
    }
    assert ids[..|ids|] == ids;
  }

  method DimensionsForSample(dimensions: seq<Row>, sample: seq<Draws>) returns (out: seq<Row>)
    ensures out == DimensionsFor(dimensions, sample)
  {
    out := ExpandTable(dimensions, sample, Anything, CopiesOf(dimensions));
  }

  method EpisodesForSample(episodes: seq<Row>, sample: seq<Draws>) returns (out: seq<Row>)
    ensures out == EpisodesFor(episodes, sample)
  {
    out := ExpandTable(episodes, sample, Listed(episodes), LastOf(episodes));
  }

  // ----- what a table holds under an id -----

  lemma {:induction false} RowsOfAppend(a: seq<Row>, b: seq<Row>, id: string)
    ensures RowsOf(a + b, id) == RowsOf(a, id) + RowsOf(b, id)
  {
    if b == [] {
      assert a + b == a;
    } else {
      var n := |b| - 1;
      assert (a + b)[..|a + b| - 1] == a + b[..n];
      RowsOfAppend(a, b[..n], id);
    }
  }

  lemma {:induction false} RowsOfRelabelled(rows: seq<Row>, id: string, other: string)
    ensures RowsOf(RelabelledRows(rows, id), other) == if other == id then RelabelledRows(rows, id) else []
  {
    if rows != [] {
      var n := |rows| - 1;
      assert RelabelledRows(rows, id)[..n] == RelabelledRows(rows[..n], id);
      RowsOfRelabelled(rows[..n], id, other);
    }
  }

  /** Under every alias added so far are exactly the copies of its original, and nothing else was touched. */
  ghost predicate Faithful(base: seq<Row>, t: Table, known: string -> bool, copies: string -> seq<Row>) {
    && (forall id :: id !in t.added ==> RowsOf(t.out, id) == RowsOf(base, id))
    && (forall e, k ::
      k > 1 && Alias(e, k) in t.added
      ==> known(e) && RowsOf(t.out, Alias(e, k)) == RowsOf(base, Alias(e, k)) + RelabelledRows(copies(e), Alias(e, k)))
    && (forall a :: a in t.added ==> exists e, k :: k > 1 && a == Alias(e, k))
  }

  lemma AddDrawFaithful(base: seq<Row>, t: Table, id: string, k: nat, known: string -> bool, copies: string -> seq<Row>)
    requires Faithful(base, t, known, copies)
    ensures Faithful(base, AddDraw(t, id, k, known, copies), known, copies)
    ensures k > 1 && known(id) ==> Alias(id, k) in AddDraw(t, id, k, known, copies).added
    ensures t.added <= AddDraw(t, id, k, known, copies).added
  {
    var t' := AddDraw(t, id, k, known, copies);
    if t' != t {
      var alias := Alias(id, k);
      forall other ensures RowsOf(t'.out, other)
        == RowsOf(t.out, other) + (if other == alias then RelabelledRows(copies(id), alias) else []) {
        RowsOfAppend(t.out, RelabelledRows(copies(id), alias), other);
        RowsOfRelabelled(copies(id), alias, other);
      }
      forall e, j | j > 1 && Alias(e, j) in t'.added
        ensures known(e) && RowsOf(t'.out, Alias(e, j))
          == RowsOf(base, Alias(e, j)) + RelabelledRows(copies(e), Alias(e, j))
      {
        if Alias(e, j) == alias { AliasInjective(e, j, id, k); }
      }
    }
  }

  lemma {:induction false} AddDrawsFaithful(base: seq<Row>, t: Table, ids: seq<string>, known: string -> bool,
      copies: string -> seq<Row>)
    requires Faithful(base, t, known, copies)
    ensures Faithful(base, AddDraws(t, ids, known, copies), known, copies)
    ensures t.added <= AddDraws(t, ids, known, copies).added
  {
    if ids != [] {
      var n := |ids| - 1;
      AddDrawsFaithful(base, t, ids[..n], known, copies);
      AddDrawFaithful(base, AddDraws(t, ids[..n], known, copies), ids[n], Occurrences(ids, ids[n]), known, copies);
    }
  }

  lemma {:induction false} RepeatIsAdded(t: Table, ids: seq<string>, known: string -> bool, copies: string -> seq<Row>,
      id: string, k: nat)
    requires 1 < k <= Occurrences(ids, id) && known(id)
    ensures Alias(id, k) in AddDraws(t, ids, known, copies).added
  {
    var n := |ids| - 1;
    if k <= Occurrences(ids[..n], id) { RepeatIsAdded(t, ids[..n], known, copies, id, k); }
  }

  ghost predicate IsRepeat(sample: seq<Draws>, id: string, k: nat) {
    exists i :: 0 <= i < |sample| && 1 < k <= Occurrences(sample[i].ids, id)
  }

  lemma {:induction false} AddSampleFaithful(base: seq<Row>, sample: seq<Draws>, known: string -> bool,
      copies: string -> seq<Row>)
    ensures Faithful(base, AddSample(Table(base, {}), sample, known, copies), known, copies)
  {
    if sample != [] {
      var n := |sample| - 1;
      AddSampleFaithful(base, sample[..n], known, copies);
      AddDrawsFaithful(base, AddSample(Table(base, {}), sample[..n], known, copies), sample[n].ids, known, copies);
    }
  }

  lemma {:induction false} RepeatsAreAdded(base: seq<Row>, sample: seq<Draws>, known: string -> bool,
      copies: string -> seq<Row>, id: string, k: nat)
    requires IsRepeat(sample, id, k) && known(id)
    ensures Alias(id, k) in AddSample(Table(base, {}), sample, known, copies).added
  {
    var n := |sample| - 1;
    var i :| 0 <= i < |sample| && 1 < k <= Occurrences(sample[i].ids, id);
    if i < n {
      assert sample[..n][i] == sample[i];
      RepeatsAreAdded(base, sample[..n], known, copies, id, k);
      AddSampleFaithful(base, sample[..n], known, copies);
      AddDrawsFaithful(base, AddSample(Table(base, {}), sample[..n], known, copies), sample[n].ids, known, copies);
    } else {
      RepeatIsAdded(AddSample(Table(base, {}), sample[..n], known, copies), sample[n].ids, known, copies, id, k);
    }
  }

  // ----- the three tables stay joined -----

  lemma {:induction false} RowsAreMembers(table: seq<Row>, id: string)
    ensures forall r :: r in RowsOf(table, id) <==> r in table && r.id == id
  {
    if table != [] {
      var n := |table| - 1;
      RowsAreMembers(table[..n], id);
      assert table == table[..n] + [table[n]];
    }
  }

  lemma OriginalsAreNotAdded(added: set<string>, id: string)
    requires IsOriginal(id) && forall a :: a in added ==> exists e, k :: k > 1 && a == Alias(e, k)
    ensures id !in added
  {
  }

  lemma {:induction false} AddedByDraws(t: Table, ids: seq<string>, known: string -> bool, copies: string -> seq<Row>,
      a: string)
    requires a in AddDraws(t, ids, known, copies).added && a !in t.added
    ensures exists e, k: nat :: 1 < k <= Occurrences(ids, e) && a == Alias(e, k)
  {
    var n := |ids| - 1;
    if a in AddDraws(t, ids[..n], known, copies).added {
      AddedByDraws(t, ids[..n], known, copies, a);
      var e, k: nat :| 1 < k <= Occurrences(ids[..n], e) && a == Alias(e, k);
      OccurrencesGrow(ids, e, n);
    } else {
      assert a == Alias(ids[n], Occurrences(ids, ids[n]));
    }
  }

  /** Only a repeat adds its alias. */
  lemma {:induction false} AddedByRepeat(base: seq<Row>, sample: seq<Draws>, known: string -> bool,
      copies: string -> seq<Row>, e: string, k: nat)
    requires k > 1 && Alias(e, k) in AddSample(Table(base, {}), sample, known, copies).added
    ensures IsRepeat(sample, e, k)
  {
    var n := |sample| - 1;
    var t := AddSample(Table(base, {}), sample[..n], known, copies);
    if Alias(e, k) in t.added {
      AddedByRepeat(base, sample[..n], known, copies, e, k);
      var i :| 0 <= i < n && 1 < k <= Occurrences(sample[..n][i].ids, e);
      assert sample[..n][i] == sample[i];
    } else {
      AddedByDraws(t, sample[n].ids, known, copies, Alias(e, k));
      var f, j: nat :| 1 < j <= Occurrences(sample[n].ids, f) && Alias(e, k) == Alias(f, j);
      AliasInjective(e, k, f, j);
    }
  }

  /**
   Under an alias a table holds its own rows and then, if some actor draws the original that often and it is
   known, one copy of the original's rows.
   */
  lemma LabelRows(base: seq<Row>, sample: seq<Draws>, known: string -> bool, copies: string -> seq<Row>,
      e: string, k: nat)
    requires k > 1
    ensures RowsOf(AddSample(Table(base, {}), sample, known, copies).out, Alias(e, k))
         == RowsOf(base, Alias(e, k)) + if IsRepeat(sample, e, k) && known(e)
           then RelabelledRows(copies(e), Alias(e, k)) else []
  {
    AddSampleFaithful(base, sample, known, copies);
    if Alias(e, k) in AddSample(Table(base, {}), sample, known, copies).added {
      AddedByRepeat(base, sample, known, copies, e, k);
    } else if IsRepeat(sample, e, k) && known(e) {
      RepeatsAreAdded(base, sample, known, copies, e, k);
    }
  }

  /** Under an id that is no alias nothing changes. */
  lemma OriginalRows(base: seq<Row>, sample: seq<Draws>, known: string -> bool, copies: string -> seq<Row>, id: string)
    requires IsOriginal(id)
    ensures RowsOf(AddSample(Table(base, {}), sample, known, copies).out, id) == RowsOf(base, id)
  {
    AddSampleFaithful(base, sample, known, copies);
    OriginalsAreNotAdded(AddSample(Table(base, {}), sample, known, copies).added, id);
  }

  /** Where a drawn row comes from. */
  lemma {:induction false} DrawnFrom(byKey: ByKey, actor: string, ids: seq<string>, p: Participant)
    requires p in Drawn(byKey, actor, ids)
    ensures exists id, k :: 1 <= k <= Occurrences(ids, id) && (actor, id) in byKey && p == Draw(byKey, actor, id, k)
  {
    var n := |ids| - 1;
    if p in Drawn(byKey, actor, ids[..n]) {
      DrawnFrom(byKey, actor, ids[..n], p);
      var id, k :| 1 <= k <= Occurrences(ids[..n], id) && (actor, id) in byKey && p == Draw(byKey, actor, id, k);
      OccurrencesGrow(ids, id, n);
    } else {
      assert p == Draw(byKey, actor, ids[n], Occurrences(ids, ids[n]));
    }
  }

  lemma {:induction false} ParticipantFrom(byKey: ByKey, sample: seq<Draws>, p: Participant)
    requires p in ParticipantsFor(byKey, sample)
    ensures exists i :: 0 <= i < |sample| && p in Drawn(byKey, sample[i].actor, sample[i].ids)
  {
    var n := |sample| - 1;
    if p in ParticipantsFor(byKey, sample[..n]) {
      ParticipantFrom(byKey, sample[..n], p);
      var i :| 0 <= i < n && p in Drawn(byKey, sample[..n][i].actor, sample[..n][i].ids);
      assert sample[..n][i] == sample[i];
    }
  }

  lemma SameUnderOwnId(table: seq<Row>, id: string)
    ensures RelabelledRows(RowsOf(table, id), id) == RowsOf(table, id)
  {
    RowsAreMembers(table, id);
    var rows := RowsOf(table, id);
    forall i | 0 <= i < |rows| ensures Relabelled(rows[i], id) == rows[i] { assert rows[i] in rows; }
  }

  // ----- uniqueness -----

  ghost predicate PairsUnique(rows: seq<Participant>) {
    forall i, j :: 0 <= i < j < |rows| ==> (rows[i].actor, rows[i].row.id) != (rows[j].actor, rows[j].row.id)
  }

  /** No actor has both an episode and what would be an alias of it. */
  ghost predicate AliasFree(byKey: ByKey) {
    forall actor, e, k :: k > 1 && (actor, e) in byKey ==> (actor, Alias(e, k)) !in byKey
  }

  /** Among these draws no episode is drawn together with one that carries the label of one of its draws. */
  ghost predicate Separable(byKey: ByKey, actor: string, ids: seq<string>) {
    forall e, k :: 1 < k <= Occurrences(ids, e) && (actor, e) in byKey && (actor, Alias(e, k)) in byKey ==>
                     Occurrences(ids, Alias(e, k)) == 0
  }

  lemma LabelInjective(byKey: ByKey, actor: string, ids: seq<string>, e: string, j: nat, f: string, k: nat)
    requires Separable(byKey, actor, ids) && (actor, e) in byKey && (actor, f) in byKey
    requires 1 <= j <= Occurrences(ids, e) && 1 <= k <= Occurrences(ids, f) && Label(e, j) == Label(f, k)
    ensures e == f && j == k
  {
    if j > 1 && k > 1 { AliasInjective(e, j, f, k); }
    assert Label(e, 1) == e && Label(f, 1) == f;
  }

  lemma SeparableBefore(byKey: ByKey, actor: string, ids: seq<string>)
    requires Separable(byKey, actor, ids) && ids != []
    ensures Separable(byKey, actor, ids[..|ids| - 1])
  {
    var n := |ids| - 1;
    forall e, k | 1 < k <= Occurrences(ids[..n], e) && (actor, e) in byKey && (actor, Alias(e, k)) in byKey
      ensures Occurrences(ids[..n], Alias(e, k)) == 0
    {
      OccurrencesGrow(ids, e, n);
      OccurrencesGrow(ids, Alias(e, k), n);
    }
  }

  lemma {:induction false} DrawnUnique(byKey: ByKey, actor: string, ids: seq<string>)
    requires Separable(byKey, actor, ids) && forall k :: k in byKey ==> HasKey(byKey, k)
    ensures PairsUnique(Drawn(byKey, actor, ids))
  {
    if ids != [] {
      var n := |ids| - 1;
      SeparableBefore(byKey, actor, ids);
      DrawnUnique(byKey, actor, ids[..n]);
      if (actor, ids[n]) in byKey {
        var last := Draw(byKey, actor, ids[n], Occurrences(ids, ids[n]));
        assert HasKey(byKey, (actor, ids[n]));
        forall p | p in Drawn(byKey, actor, ids[..n]) ensures p.row.id != last.row.id { NewLabel(byKey, actor, ids, p); }
      }
    }
  }

  lemma NewLabel(byKey: ByKey, actor: string, ids: seq<string>, p: Participant)
    requires Separable(byKey, actor, ids) && ids != [] && (actor, ids[|ids| - 1]) in byKey
    requires p in Drawn(byKey, actor, ids[..|ids| - 1])
    ensures p.row.id != Label(ids[|ids| - 1], Occurrences(ids, ids[|ids| - 1]))
  {
    var n := |ids| - 1;
    DrawnFrom(byKey, actor, ids[..n], p);
    var id, k :| 1 <= k <= Occurrences(ids[..n], id) && (actor, id) in byKey && p == Draw(byKey, actor, id, k);
    OccurrencesGrow(ids, id, n);
    if p.row.id == Label(ids[n], Occurrences(ids, ids[n])) {
      LabelInjective(byKey, actor, ids, id, k, ids[n], Occurrences(ids, ids[n]));
    }
  }

  lemma DrawnByActor(byKey: ByKey, actor: string, ids: seq<string>, p: Participant)
    requires p in Drawn(byKey, actor, ids) && forall k :: k in byKey ==> HasKey(byKey, k)
    ensures p.actor == actor
  {
    DrawnFrom(byKey, actor, ids, p);
    assert (actor, p.row.id).0 == actor;
  }

  ghost predicate OneEntryEach(sample: seq<Draws>) {
    forall i, j :: 0 <= i < j < |sample| ==> sample[i].actor != sample[j].actor
  }

  lemma {:induction false} ParticipantsUnique(byKey: ByKey, sample: seq<Draws>)
    requires (forall k :: k in byKey ==> HasKey(byKey, k)) && OneEntryEach(sample)
    requires forall i :: 0 <= i < |sample| ==> Separable(byKey, sample[i].actor, sample[i].ids)
    ensures PairsUnique(ParticipantsFor(byKey, sample))
  {
    if sample != [] {
      var n := |sample| - 1;
      ParticipantsUnique(byKey, sample[..n]);
      DrawnUnique(byKey, sample[n].actor, sample[n].ids);
      forall p | p in Drawn(byKey, sample[n].actor, sample[n].ids) ensures p.actor == sample[n].actor {
        DrawnByActor(byKey, sample[n].actor, sample[n].ids, p);
      }
      forall p | p in ParticipantsFor(byKey, sample[..n]) ensures p.actor != sample[n].actor {
        ParticipantFrom(byKey, sample[..n], p);
        var i :| 0 <= i < n && p in Drawn(byKey, sample[..n][i].actor, sample[..n][i].ids);
        DrawnByActor(byKey, sample[i].actor, sample[i].ids, p);
      }
    }
  }

  lemma AliasFreeUnique(byKey: ByKey, sample: seq<Draws>)
    requires AliasFree(byKey) && (forall k :: k in byKey ==> HasKey(byKey, k)) && OneEntryEach(sample)
    ensures PairsUnique(ParticipantsFor(byKey, sample))
  {
    ParticipantsUnique(byKey, sample);
  }

  /** No actor holds the same (possibly aliased) episode twice in a resample. */
  lemma PairsStayUnique(participants: seq<Participant>, sample: seq<Draws>)
    requires AliasFree(Keyed(participants)) && OneEntryEach(sample)
    ensures PairsUnique(ParticipantsFor(Keyed(participants), sample))
  {
    KeyedIsFaithful(participants);
    AliasFreeUnique(Keyed(participants), sample);
  }

  // ----- exactly when uniqueness can fail -----

  function Repeated(id: string, k: nat): seq<string> { if k == 0 then [] else Repeated(id, k - 1) + [id] }

  lemma OccurrencesNext(ids: seq<string>, next: string, id: string)
    ensures Occurrences(ids + [next], id) == Occurrences(ids, id) + if next == id then 1 else 0
  {
    assert (ids + [next])[..|ids|] == ids;
  }

  lemma {:induction false} OccurrencesRepeated(id: string, k: nat, other: string)
    ensures Occurrences(Repeated(id, k), other) == if other == id then k else 0
  {
    if k > 0 {
      OccurrencesRepeated(id, k - 1, other);
      OccurrencesNext(Repeated(id, k - 1), id, other);
    }
  }

  lemma DrawnNext(byKey: ByKey, actor: string, ids: seq<string>, id: string)
    requires (actor, id) in byKey
    ensures Drawn(byKey, actor, ids + [id])
      == Drawn(byKey, actor, ids) + [Draw(byKey, actor, id, Occurrences(ids, id) + 1)]
  {
    OccurrencesNext(ids, id, id);
    assert (ids + [id])[..|ids|] == ids;
  }

  lemma RepeatedNext(byKey: ByKey, actor: string, id: string, m: nat)
    requires (actor, id) in byKey
    ensures Drawn(byKey, actor, Repeated(id, m + 1))
      == Drawn(byKey, actor, Repeated(id, m)) + [Draw(byKey, actor, id, m + 1)]
  {
    OccurrencesRepeated(id, m, id);
    DrawnNext(byKey, actor, Repeated(id, m), id);
  }

  /** One more draw adds the next row. */
  ghost predicate Extends(byKey: ByKey, actor: string, id: string, draws: nat -> seq<Participant>, m: nat)
    requires (actor, id) in byKey
  {
    draws(m + 1) == draws(m) + [Draw(byKey, actor, id, m + 1)]
  }

  lemma {:induction false} ExtendedAt(byKey: ByKey, actor: string, id: string, draws: nat -> seq<Participant>,
      k: nat, m: nat)
    requires (actor, id) in byKey && draws(0) == [] && forall j: nat :: Extends(byKey, actor, id, draws, j)
    requires k < m
    ensures |draws(m)| == m && draws(m)[k] == Draw(byKey, actor, id, k + 1)
  {
    assert Extends(byKey, actor, id, draws, m - 1);
    if m > 1 { ExtendedAt(byKey, actor, id, draws, if k < m - 1 then k else 0, m - 1); }
  }

  lemma DrawnRepeated(byKey: ByKey, actor: string, id: string, k: nat, m: nat)
    requires (actor, id) in byKey && 1 <= k <= m
    ensures |Drawn(byKey, actor, Repeated(id, m))| == m
      && Drawn(byKey, actor, Repeated(id, m))[k - 1] == Draw(byKey, actor, id, k)
  {
    var draws := (j: nat) => Drawn(byKey, actor, Repeated(id, j));
    forall j: nat ensures Extends(byKey, actor, id, draws, j) { RepeatedNext(byKey, actor, id, j); }
    ExtendedAt(byKey, actor, id, draws, k - 1, m);
  }

  /** Draw an episode `k` times or more and then the one that carries its `k`-th alias: two labels are equal. */
  lemma AliasLikeIdCollides(byKey: ByKey, actor: string, id: string, k: nat, m: nat)
    requires 1 < k <= m && (actor, id) in byKey && (actor, Alias(id, k)) in byKey
    requires forall key :: key in byKey ==> HasKey(byKey, key)
    ensures !PairsUnique(Drawn(byKey, actor, Repeated(id, m) + [Alias(id, k)]))
  {
    var a, ids := Alias(id, k), Repeated(id, m);
    assert |a| > |id|;
    DrawnRepeated(byKey, actor, id, k, m);
    OccurrencesRepeated(id, m, a);
    DrawnNext(byKey, actor, ids, a);
    assert HasKey(byKey, (actor, id)) && HasKey(byKey, (actor, a));
    var rows := Drawn(byKey, actor, ids + [a]);
    assert rows[k - 1] == Draw(byKey, actor, id, k) && rows[m] == Draw(byKey, actor, a, 1);
  }

  lemma OneEntry(byKey: ByKey, actor: string, ids: seq<string>)
    ensures ParticipantsFor(byKey, [Draws(actor, ids)]) == Drawn(byKey, actor, ids) && OneEntryEach([Draws(actor, ids)])
  {
    assert [Draws(actor, ids)][..0] == [];
  }

  lemma CollidingSample(byKey: ByKey) returns (sample: seq<Draws>)
    requires !AliasFree(byKey) && forall k :: k in byKey ==> HasKey(byKey, k)
    ensures OneEntryEach(sample) && !PairsUnique(ParticipantsFor(byKey, sample))
  {
    var actor, e, k :| k > 1 && (actor, e) in byKey && (actor, Alias(e, k)) in byKey;
    var ids := Repeated(e, k) + [Alias(e, k)];
    AliasLikeIdCollides(byKey, actor, e, k, k);
    OneEntry(byKey, actor, ids);
    sample := [Draws(actor, ids)];
  }

  /** Every resample keeps the pairs unique if and only if no actor has an episode and its would-be alias. */
  lemma UniquenessExact(byKey: ByKey)
    requires forall k :: k in byKey ==> HasKey(byKey, k)
    ensures (forall sample :: OneEntryEach(sample) ==> PairsUnique(ParticipantsFor(byKey, sample)))
      <==> AliasFree(byKey)
  {
    if AliasFree(byKey) {
      forall sample | OneEntryEach(sample) ensures PairsUnique(ParticipantsFor(byKey, sample)) { AliasFreeUnique(byKey, sample); }
    } else {
      var sample := CollidingSample(byKey);
    }
  }

  // ----- exactly when the join can fail -----

  /** The label of a draw has an episode row, and the original's dimension rows and no others. */
  ghost predicate DrawJoined(dimensions: seq<Row>, episodes: seq<Row>, sample: seq<Draws>, id: string, k: nat) {
    && RowsOf(EpisodesFor(episodes, sample), Label(id, k)) != []
    && RowsOf(DimensionsFor(dimensions, sample), Label(id, k)) == RelabelledRows(RowsOf(dimensions, id), Label(id, k))
  }

  /** A draw of an episode the actor takes part in. */
  ghost predicate IsDraw(byKey: ByKey, sample: seq<Draws>, id: string, k: nat) {
    exists i :: 0 <= i < |sample| && (sample[i].actor, id) in byKey && 1 <= k <= Occurrences(sample[i].ids, id)
  }

  ghost predicate AllJoined(byKey: ByKey, dimensions: seq<Row>, episodes: seq<Row>) {
    forall sample, id, k ::
      OneEntryEach(sample) && IsDraw(byKey, sample, id, k) ==> DrawJoined(dimensions, episodes, sample, id, k)
  }

  /** The episode has a row, no dimension row sits under an alias of it, and it is no alias of an id that has some. */
  ghost predicate Joinable(dimensions: seq<Row>, episodes: seq<Row>, id: string) {
    && RowsOf(episodes, id) != []
    && (forall k: nat :: k > 1 ==> RowsOf(dimensions, Alias(id, k)) == [])
    && (forall e, k: nat :: k > 1 && id == Alias(e, k) ==> RowsOf(dimensions, e) == [])
  }

  lemma JoinableJoins(byKey: ByKey, dimensions: seq<Row>, episodes: seq<Row>, sample: seq<Draws>, id: string, k: nat)
    requires IsDraw(byKey, sample, id, k) && Joinable(dimensions, episodes, id)
    ensures DrawJoined(dimensions, episodes, sample, id, k)
  {
    var i :| 0 <= i < |sample| && (sample[i].actor, id) in byKey && 1 <= k <= Occurrences(sample[i].ids, id);
    if k > 1 {
      assert IsRepeat(sample, id, k);
      LabelRows(episodes, sample, Listed(episodes), LastOf(episodes), id, k);
      LabelRows(dimensions, sample, Anything, CopiesOf(dimensions), id, k);
    } else {
      SameUnderOwnId(dimensions, id);
      if IsOriginal(id) {
        OriginalRows(episodes, sample, Listed(episodes), LastOf(episodes), id);
        OriginalRows(dimensions, sample, Anything, CopiesOf(dimensions), id);
      } else {
        var e, j: nat :| j > 1 && id == Alias(e, j);
        LabelRows(episodes, sample, Listed(episodes), LastOf(episodes), e, j);
        LabelRows(dimensions, sample, Anything, CopiesOf(dimensions), e, j);
      }
    }
  }

  /**
   Every resampled participant row is a copy of an original one, under the label of one of its draws, and
   that label has its episode row and exactly the original's dimension rows in the other two tables.
   */
  lemma TablesStayJoined(participants: seq<Participant>, dimensions: seq<Row>, episodes: seq<Row>, sample: seq<Draws>,
      p: Participant)
    requires forall q :: q in participants ==> Joinable(dimensions, episodes, q.row.id)
    requires p in ParticipantsFor(Keyed(participants), sample)
    ensures exists q, k :: q in participants && p == q.(row := Relabelled(q.row, Label(q.row.id, k)))
              && RowsOf(EpisodesFor(episodes, sample), p.row.id) != []
              && RowsOf(DimensionsFor(dimensions, sample), p.row.id)
                == RelabelledRows(RowsOf(dimensions, q.row.id), p.row.id)
  {
    var byKey := Keyed(participants);
    KeyedIsFaithful(participants);
    ParticipantFrom(byKey, sample, p);
    var i :| 0 <= i < |sample| && p in Drawn(byKey, sample[i].actor, sample[i].ids);
    DrawnFrom(byKey, sample[i].actor, sample[i].ids, p);
    var id, k :| 1 <= k <= Occurrences(sample[i].ids, id) && (sample[i].actor, id) in byKey
      && p == Draw(byKey, sample[i].actor, id, k);
    var q := byKey[(sample[i].actor, id)];
    assert HasKey(byKey, (sample[i].actor, id));
    JoinableJoins(byKey, dimensions, episodes, sample, id, k);
    assert q in participants && p == q.(row := Relabelled(q.row, Label(q.row.id, k)));
  }

  lemma UnlistedBreaks(dimensions: seq<Row>, episodes: seq<Row>, actor: string, id: string)
    requires RowsOf(episodes, id) == []
    ensures !DrawJoined(dimensions, episodes, [Draws(actor, [id])], id, 1) && Occurrences([id], id) == 1
  {
    var sample := [Draws(actor, [id])];
    var t, known, copies := Table(episodes, {}), Listed(episodes), LastOf(episodes);
    assert sample[..0] == [] && [id][..0] == [] && Occurrences([id], id) == 1;
    assert AddDraws(t, [id], known, copies) == AddDraw(AddDraws(t, [], known, copies), id, 1, known, copies) == t;
    assert AddSample(t, sample, known, copies) == AddDraws(AddSample(t, [], known, copies), [id], known, copies);
  }

  lemma AliasRowsBreak(dimensions: seq<Row>, episodes: seq<Row>, actor: string, id: string, k: nat)
    requires k > 1 && RowsOf(dimensions, Alias(id, k)) != []
    ensures !DrawJoined(dimensions, episodes, [Draws(actor, Repeated(id, k))], id, k)
      && Occurrences(Repeated(id, k), id) == k
  {
    var sample := [Draws(actor, Repeated(id, k))];
    OccurrencesRepeated(id, k, id);
    assert sample[0].ids == Repeated(id, k) && IsRepeat(sample, id, k);
    LabelRows(dimensions, sample, Anything, CopiesOf(dimensions), id, k);
  }

  lemma AliasIdBreaks(dimensions: seq<Row>, episodes: seq<Row>, actor: string, id: string, e: string, k: nat)
    requires k > 1 && id == Alias(e, k) && RowsOf(dimensions, e) != []
    ensures var sample := [Draws(actor, [id]), Draws(actor + "!", Repeated(e, k))];
            OneEntryEach(sample) && !DrawJoined(dimensions, episodes, sample, id, 1) && Occurrences([id], id) == 1
  {
    var sample := [Draws(actor, [id]), Draws(actor + "!", Repeated(e, k))];
    OccurrencesRepeated(e, k, e);
    assert [id][..0] == [];
    assert sample[1].ids == Repeated(e, k) && IsRepeat(sample, e, k);
    LabelRows(dimensions, sample, Anything, CopiesOf(dimensions), e, k);
    assert |actor + "!"| > |actor|;
  }

  lemma NotJoinableBreaks(byKey: ByKey, dimensions: seq<Row>, episodes: seq<Row>, actor: string, id: string)
    requires (actor, id) in byKey && !Joinable(dimensions, episodes, id)
    ensures !AllJoined(byKey, dimensions, episodes)
  {
    var sample, k := [Draws(actor, [id])], 1;
    if RowsOf(episodes, id) == [] {
      UnlistedBreaks(dimensions, episodes, actor, id);
    } else if j: nat :| j > 1 && RowsOf(dimensions, Alias(id, j)) != [] {
      AliasRowsBreak(dimensions, episodes, actor, id, j);
      sample, k := [Draws(actor, Repeated(id, j))], j;
    } else {
      var e, j: nat :| j > 1 && id == Alias(e, j) && RowsOf(dimensions, e) != [];
      AliasIdBreaks(dimensions, episodes, actor, id, e, j);
      sample := [Draws(actor, [id]), Draws(actor + "!", Repeated(e, j))];
    }
    assert (sample[0].actor, id) in byKey && 1 <= k <= Occurrences(sample[0].ids, id);
    assert IsDraw(byKey, sample, id, k) && OneEntryEach(sample);
  }

  /** Every draw of every resample joins exactly if and only if every participant's episode is joinable. */
  lemma JoinExact(byKey: ByKey, dimensions: seq<Row>, episodes: seq<Row>)
    ensures AllJoined(byKey, dimensions, episodes)
      <==> forall key :: key in byKey ==> Joinable(dimensions, episodes, key.1)
  {
    if forall key :: key in byKey ==> Joinable(dimensions, episodes, key.1) {
      forall sample: seq<Draws>, id, k: nat | OneEntryEach(sample) && IsDraw(byKey, sample, id, k)
        ensures DrawJoined(dimensions, episodes, sample, id, k)
      {
        var i :| 0 <= i < |sample| && (sample[i].actor, id) in byKey && 1 <= k <= Occurrences(sample[i].ids, id);
        assert (sample[i].actor, id).1 == id;
        JoinableJoins(byKey, dimensions, episodes, sample, id, k);
      }
    } else {
      var key :| key in byKey && !Joinable(dimensions, episodes, key.1);
      assert (key.0, key.1) == key;
      NotJoinableBreaks(byKey, dimensions, episodes, key.0, key.1);
    }
  }
}
