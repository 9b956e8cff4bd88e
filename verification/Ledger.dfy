/**
 The raw-page ledger (src/impact/ingest/runs.py): a list of rows and an index that shares the very
 same row objects, so updating a row through the index updates the list too.
 */
module Ledger {
  import opened Collections

  datatype Status = Ok | HttpError | GraphqlError | NotFound

  /** One ledger row. An absent or empty request hash is "". */
  datatype Row = Row(hash: string, entity: string, status: Status)

  // ----- what the ledger's operations mean on the plain list of rows -----

  /** The position the index points at: the last row carrying `h`. */
  function IndexOf(rows: seq<Row>, h: string): (r: Option<nat>)
    ensures r.Some? ==> r.value < |rows| && rows[r.value].hash == h
    ensures r.Some? ==> forall i :: r.value < i < |rows| ==> rows[i].hash != h
    ensures r.None? ==> forall i :: 0 <= i < |rows| ==> rows[i].hash != h
  {
    if rows == [] then None
    else if rows[|rows| - 1].hash == h then Some(|rows| - 1)
    else IndexOf(rows[..|rows| - 1], h)
  }

  function Lookup(rows: seq<Row>, h: string): Option<Row> {
    match IndexOf(rows, h) case None => None case Some(i) => Some(rows[i])
  }

  predicate Succeeds(rows: seq<Row>, h: string) {
    h != "" && Lookup(rows, h).Some? && Lookup(rows, h).value.status == Ok
  }

  function Recorded(rows: seq<Row>, row: Row): seq<Row> {
    if row.hash != "" && IndexOf(rows, row.hash).Some?
    then rows[IndexOf(rows, row.hash).value := row]
    else rows + [row]
  }

  ghost predicate OneRowPerHash(rows: seq<Row>) {
    forall i, j :: 0 <= i < j < |rows| && rows[i].hash != "" ==> rows[i].hash != rows[j].hash
  }

  lemma IndexOfIs(rows: seq<Row>, h: string, i: nat)
    requires i < |rows| && rows[i].hash == h
    requires forall j :: i < j < |rows| ==> rows[j].hash != h
    ensures IndexOf(rows, h) == Some(i)
  {
    var r := IndexOf(rows, h);
    assert r.Some? && r.value >= i;
  }

  lemma IndexOfAppended(rows: seq<Row>, row: Row)
    ensures forall h :: IndexOf(rows + [row], h) == if h == row.hash then Some(|rows|) else IndexOf(rows, h)
  {
    assert (rows + [row])[..|rows|] == rows;
  }

  lemma IndexOfReplaced(rows: seq<Row>, k: nat, row: Row)
    requires k < |rows| && rows[k].hash == row.hash
    ensures forall h :: IndexOf(rows[k := row], h) == IndexOf(rows, h)
  {
    forall h ensures IndexOf(rows[k := row], h) == IndexOf(rows, h) {
      if IndexOf(rows, h).Some? { IndexOfIs(rows[k := row], h, IndexOf(rows, h).value); }
    }
  }

  /** Recording a row changes what the ledger says about that request and about nothing else. */
  lemma RecordedLookup(rows: seq<Row>, row: Row, h: string)
    requires row.hash != ""
    ensures Lookup(Recorded(rows, row), h) == if h == row.hash then Some(row) else Lookup(rows, h)
  {
    var r := Recorded(rows, row);
    var k := IndexOf(rows, row.hash);
    if h == row.hash {
      IndexOfIs(r, h, if k.Some? then k.value else |rows|);
    } else if IndexOf(rows, h).Some? {
      IndexOfIs(r, h, IndexOf(rows, h).value);
    }
  }

  lemma RecordedKeepsOneRowPerHash(rows: seq<Row>, row: Row)
    requires OneRowPerHash(rows)
    ensures OneRowPerHash(Recorded(rows, row))
    ensures forall r :: r in Recorded(rows, row) ==> r in rows || r == row
  {
  }

  lemma LookupIsARow(rows: seq<Row>, h: string)
    requires Lookup(rows, h).Some?
    ensures Lookup(rows, h).value in rows && Lookup(rows, h).value.hash == h
  {
  }

  // ----- the ledger object -----

  class RowObject {
    var data: Row
    constructor (row: Row)
      ensures data == row
    {
      data := row;
    }
  }

  /** `index` maps every hash in use, and no other, to the object at the indexed position. */
  ghost predicate IndexFor(index: map<string, RowObject>, objects: seq<RowObject>, data: seq<Row>)
    requires |objects| == |data|
  {
    && "" !in index
    && (forall h :: h in index ==> IndexOf(data, h).Some? && index[h] == objects[IndexOf(data, h).value])
    && (forall i :: 0 <= i < |data| && data[i].hash != "" ==> data[i].hash in index)
  }

  lemma IndexForAppended(index: map<string, RowObject>, objects: seq<RowObject>, data: seq<Row>, entry: RowObject,
      row: Row)
    requires |objects| == |data| && IndexFor(index, objects, data)
    ensures var index' := if row.hash != "" then index[row.hash := entry] else index;
            IndexFor(index', objects + [entry], data + [row])
  {
    IndexOfAppended(data, row);
  }

  lemma IndexForReplaced(index: map<string, RowObject>, objects: seq<RowObject>, data: seq<Row>, k: nat, row: Row)
    requires |objects| == |data| && IndexFor(index, objects, data) && k < |data| && data[k].hash == row.hash
    ensures IndexFor(index, objects, data[k := row])
  {
    IndexOfReplaced(data, k, row);
  }

  /** The dictionary comprehension of `load`: later rows overwrite earlier ones. */
  method IndexRows(rows: seq<RowObject>, ghost saved: seq<Row>) returns (index: map<string, RowObject>)
    requires |rows| == |saved| && forall k :: 0 <= k < |rows| ==> rows[k].data == saved[k]
    ensures IndexFor(index, rows, saved)
  {
    index := map[];
    var i := 0;
    while i < |rows|
      invariant 0 <= i <= |rows| && IndexFor(index, rows[..i], saved[..i])
    {
      IndexForAppended(index, rows[..i], saved[..i], rows[i], saved[i]);
      assert saved[..i + 1] == saved[..i] + [saved[i]] && rows[..i + 1] == rows[..i] + [rows[i]];
      if rows[i].data.hash != "" {
        index := index[rows[i].data.hash := rows[i]];
      }
      i := i + 1;
    }
    assert saved[..i] == saved && rows[..i] == rows;
  }

  class RawPageLedger {
    var rows: seq<RowObject>
    var index: map<string, RowObject>

    ghost function Contents(): (c: seq<Row>)
      reads this, rows
    {
      seq(|rows|, i requires 0 <= i < |rows| reads this, rows => rows[i].data)
    }

    ghost predicate Valid()
      reads this, rows
    {
      && (forall i, j :: 0 <= i < j < |rows| ==> rows[i] != rows[j])
      && IndexFor(index, rows, Contents())
    }

    constructor Load(saved: seq<Row>)
      ensures Valid() && fresh(rows)
      ensures Contents() == saved
    {
      rows := [];
      index := map[];
      new;
      var i := 0;
      while i < |saved|
        invariant 0 <= i <= |saved| && |rows| == i && fresh(rows)
        invariant index == map[]
        invariant forall a, b :: 0 <= a < b < |rows| ==> rows[a] != rows[b]
        invariant forall k :: 0 <= k < i ==> rows[k].data == saved[k]
      {
        var entry := new RowObject(saved[i]);
        rows := rows + [entry];
        i := i + 1;
      }
      assert Contents() == saved;
      index := IndexRows(rows, saved);
      assert Contents() == saved;
    }

    method Succeeded(h: string) returns (ok: bool)
      requires Valid()
      ensures ok <==> Succeeds(Contents(), h)
    {
      ok := h in index && index[h].data.status == Ok;
    }

    method Record(row: Row)
      requires Valid()
      modifies this, rows
      ensures Valid() && fresh(set o | o in rows && o !in old(rows))
      ensures Contents() == Recorded(old(Contents()), row)
    {
      ghost var was := Contents();
      var key := row.hash;
      if key != "" && key in index {
        ghost var k := IndexOf(was, key).value;
        index[key].data := row;
        assert Contents() == was[k := row];
        IndexForReplaced(index, rows, was, k, row);
      } else {
        var entry := new RowObject(row);
        IndexForAppended(index, rows, was, entry, row);
        rows := rows + [entry];
        if key != "" {
          index := index[key := entry];
        }
        assert Contents() == was + [row];
      }
    }

    /** `flush` writes the list; the file then loads back to a ledger with the same contents. */
    method Flush() returns (saved: seq<Row>)
      requires Valid()
      ensures saved == Contents()
    {
      saved := [];
      var i := 0;
      while i < |rows|
        invariant 0 <= i <= |rows|
        invariant saved == Contents()[..i]
      {
        saved := saved + [rows[i].data];
        i := i + 1;
      }
    }
  }
}
