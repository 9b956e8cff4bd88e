/** Content-addressed identifiers (src/impact2/ids.py), up to the digest: the texts that are hashed. */
module Ids {
  import opened Collections
  import opened Json
  import opened Ordering

  // ----- episode_id -----

  /** `",".join(str(n) for n in members)` */
  function Joined(members: seq<int>): string {
    if members == [] then ""
    else if |members| == 1 then IntText(members[0])
    else IntText(members[0]) + "," + Joined(members[1..])
  }

  /** The text behind an episode's id; an episode without PRs has none. */
  ghost function EpisodePreimage(prs: set<int>): Option<string> {
    if prs == {} then None else Some(Joined(SortedSet(prs, IntLe)))
  }

  lemma IntTextsAreNumerals(n: int)
    ensures forall i :: 0 <= i < |IntText(n)| ==> IsNumeral(IntText(n)[i])
  {
  }

  /** One number at the head of a list, and how the list goes on. */
  lemma JoinedHead(members: seq<int>) returns (rest: string)
    requires members != []
    ensures Joined(members) == IntText(members[0]) + rest && Ends(rest)
    ensures rest == if |members| == 1 then "" else "," + Joined(members[1..])
  {
    if |members| == 1 {
      rest := "";
      assert IntText(members[0]) + rest == IntText(members[0]);
    } else {
      rest := "," + Joined(members[1..]);
      assert (IntText(members[0]) + ",") + Joined(members[1..]) == IntText(members[0]) + rest;
    }
  }

  lemma {:induction false} JoinedInjective(a: seq<int>, b: seq<int>)
    requires a != [] && b != [] && Joined(a) == Joined(b)
    ensures a == b
  {
    var r := JoinedHead(a);
    var u := JoinedHead(b);
    IntTextsAreNumerals(a[0]);
    IntTextsAreNumerals(b[0]);
    NumeralsUnambiguous(IntText(a[0]), IntText(b[0]), r, u);
    IntTextInjective(a[0], b[0]);
    if |a| > 1 {
      assert |b| > 1;
      Tail(',', Joined(a[1..]), Joined(b[1..]));
      JoinedInjective(a[1..], b[1..]);
      assert a == [a[0]] + a[1..] && b == [b[0]] + b[1..];
    } else {
      assert |b| == 1;
    }
  }

  /** Two episodes hash the same text exactly when they have the same member PRs. */
  lemma EpisodeIdentity(a: set<int>, b: set<int>)
    ensures EpisodePreimage(a) == EpisodePreimage(b) <==> a == b
  {
    if a != {} && b != {} && EpisodePreimage(a) == EpisodePreimage(b) {
      var sa, sb := SortedSet(a, IntLe), SortedSet(b, IntLe);
      SortedSetElements(a, IntLe);
      SortedSetElements(b, IntLe);
      var x :| x in a;
      var y :| y in b;
      assert x in sa && y in sb;
      JoinedInjective(sa, sb);
      assert forall n :: n in a <==> n in b;
    }
  }

  /** The readable part of the id is the smallest member. */
  lemma EpisodeRootIsSmallest(prs: set<int>)
    requires prs != {}
    ensures SortedSet(prs, IntLe) != [] && SortedSet(prs, IntLe)[0] in prs
    ensures forall n :: n in prs ==> SortedSet(prs, IntLe)[0] <= n
  {
    var s := SortedSet(prs, IntLe);
    SortedSetElements(prs, IntLe);
    SortedSetSorted(prs, IntLe);
    var x :| x in prs;
    assert x in s;
    forall n | n in prs ensures s[0] <= n {
      var i :| 0 <= i < |s| && s[i] == n;
    }
  }

  // ----- claim_id -----

  function Strings(texts: seq<string>): (r: seq<Value>)
    ensures |r| == |texts| && forall i :: 0 <= i < |texts| ==> r[i] == Str(texts[i])
  {
    seq(|texts|, i requires 0 <= i < |texts| => Str(texts[i]))
  }

  function ClaimObject(text: string, subject: string, evidence: seq<string>): Value {
    Obj(map["t" := Str(text), "s" := Str(subject), "e" := List(Strings(Sort(evidence, StringLe)))])
  }

  ghost function ClaimPreimage(text: string, subject: string, evidence: seq<string>): string {
    CanonicalJson(ClaimObject(text, subject, evidence))
  }

  lemma SameClaim(text: string, subject: string, e: seq<string>, text': string, subject': string, e': seq<string>,
                  m: map<string, Value>, m': map<string, Value>)
    requires m == map["t" := Str(text), "s" := Str(subject), "e" := List(Strings(e))]
    requires m' == map["t" := Str(text'), "s" := Str(subject'), "e" := List(Strings(e'))] && m == m'
    ensures text == text' && subject == subject' && e == e'
  {
    assert m["t"] == m'["t"] && m["s"] == m'["s"] && m["e"] == m'["e"];
    assert Strings(e) == Strings(e');
    forall i | 0 <= i < |e| ensures e[i] == e'[i] { assert Strings(e)[i] == Strings(e')[i]; }
  }

  /** A claim's identity is its text, its subject and the evidence it rests on, in any order. */
  lemma ClaimIdentity(text: string, subject: string, evidence: seq<string>, text': string, subject': string,
      evidence': seq<string>)
    ensures ClaimPreimage(text, subject, evidence) == ClaimPreimage(text', subject', evidence') <==>
            text == text' && subject == subject' && multiset(evidence) == multiset(evidence')
  {
    var v, w := ClaimObject(text, subject, evidence), ClaimObject(text', subject', evidence');
    CanonicalJsonInjective(v, w);
    if v == w {
      SameClaim(text, subject, Sort(evidence, StringLe), text', subject', Sort(evidence', StringLe), v.m, w.m);
    }
    if multiset(evidence) == multiset(evidence') {
      StringLeIsTotalOrder();
      SortOrderFree(evidence, evidence', StringLe);
    }
  }

  // ----- content_hash -----

  type Row = map<string, Value>

  /** A row all of whose cells are canonical values. */
  type GoodRow = r: Row | Valid(Obj(r)) witness map[]

  function Dropped(row: GoodRow, exclude: set<string>): GoodRow {
    map k | k in row && k !in exclude :: row[k]
  }

  /** The rows agree on every column that is not excluded. */
  ghost predicate AgreeApartFrom(r: GoodRow, s: GoodRow, exclude: set<string>) {
    forall k :: k !in exclude ==> (k in r <==> k in s) && (k in r ==> r[k] == s[k])
  }

  lemma DroppedExactly(r: GoodRow, s: GoodRow, exclude: set<string>)
    ensures Dropped(r, exclude) == Dropped(s, exclude) <==> AgreeApartFrom(r, s, exclude)
  {
    var a, b := Dropped(r, exclude), Dropped(s, exclude);
    if a == b {
      forall k | k !in exclude ensures (k in r <==> k in s) && (k in r ==> r[k] == s[k]) {
        assert k in a <==> k in r;
        assert k in b <==> k in s;
        assert k in a ==> a[k] == b[k];
      }
    }
  }

  function AllDropped(rows: seq<GoodRow>, exclude: set<string>): (r: seq<GoodRow>)
    ensures |r| == |rows| && forall i :: 0 <= i < |rows| ==> r[i] == Dropped(rows[i], exclude)
  {
    seq(|rows|, i requires 0 <= i < |rows| => Dropped(rows[i], exclude))
  }

  ghost predicate RowLe(a: GoodRow, b: GoodRow) {
    StringLe(CanonicalJson(Obj(a)), CanonicalJson(Obj(b)))
  }

  lemma RowLeIsTotalOrder()
    ensures IsTotalOrder(RowLe)
  {
    StringLeIsTotalOrder();
    forall a: GoodRow, b: GoodRow | RowLe(a, b) && RowLe(b, a) ensures a == b {
      CanonicalJsonInjective(Obj(a), Obj(b));
    }
  }

  /** What the digest is fed: each row's canonical text and a newline. */
  ghost function Stream(rows: seq<GoodRow>): string {
    if rows == [] then "" else Emit(Obj(rows[0]), "\n" + Stream(rows[1..]))
  }

  ghost function ContentStream(rows: seq<GoodRow>, exclude: set<string>): string {
    Stream(Sort(AllDropped(rows, exclude), RowLe))
  }

  lemma StreamStarts(a: seq<GoodRow>)
    ensures (Stream(a) == "") == (a == [])
  {
    if a != [] { FirstCharacter(Obj(a[0]), "\n" + Stream(a[1..])); }
  }

  lemma StreamHeads(a: seq<GoodRow>, b: seq<GoodRow>)
    requires a != [] && b != [] && Stream(a) == Stream(b)
    ensures a[0] == b[0] && Stream(a[1..]) == Stream(b[1..])
  {
    Unambiguous(Obj(a[0]), Obj(b[0]), "\n" + Stream(a[1..]), "\n" + Stream(b[1..]));
    Tail('\n', Stream(a[1..]), Stream(b[1..]));
  }

  lemma {:induction false} StreamInjective(a: seq<GoodRow>, b: seq<GoodRow>)
    requires Stream(a) == Stream(b)
    ensures a == b
  {
    StreamStarts(a);
    StreamStarts(b);
    if a != [] {
      StreamHeads(a, b);
      StreamInjective(a[1..], b[1..]);
      assert a == [a[0]] + a[1..] && b == [b[0]] + b[1..];
    }
  }

  /**
   A table's hash input is the same for two tables exactly when they hold the same rows, as often,
   in whatever order, apart from the excluded columns.
   */
  lemma ContentIdentity(a: seq<GoodRow>, b: seq<GoodRow>, exclude: set<string>)
    ensures ContentStream(a, exclude) == ContentStream(b, exclude) <==>
            multiset(AllDropped(a, exclude)) == multiset(AllDropped(b, exclude))
  {
    var x, y := AllDropped(a, exclude), AllDropped(b, exclude);
    if ContentStream(a, exclude) == ContentStream(b, exclude) {
      StreamInjective(Sort(x, RowLe), Sort(y, RowLe));
    }
    if multiset(x) == multiset(y) {
      RowLeIsTotalOrder();
      SortOrderFree(x, y, RowLe);
    }
  }

  lemma StreamLine(rows: seq<GoodRow>, i: nat, fed: string)
    requires i < |rows| && fed + Stream(rows[i..]) == Stream(rows)
    ensures (fed + (CanonicalJson(Obj(rows[i])) + "\n")) + Stream(rows[i + 1..]) == Stream(rows)
  {
    var line, tail := CanonicalJson(Obj(rows[i])), Stream(rows[i + 1..]);
    assert rows[i..][1..] == rows[i + 1..];
    EmitAppend(Obj(rows[i]), "", "\n" + tail);
    assert "" + ("\n" + tail) == "\n" + tail;
    Associate(line, "\n", tail);
    Associate(fed, line + "\n", tail);
  }

  /** The loop that feeds the digest. */
  method Feed(rows: seq<GoodRow>, canonical: Value -> string) returns (fed: string)
    requires forall v :: canonical(v) == CanonicalJson(v)
    ensures fed == Stream(rows)
  {
    fed := "";
    var i := 0;
    assert rows[0..] == rows;
    while i < |rows|
      invariant 0 <= i <= |rows|
      invariant fed + Stream(rows[i..]) == Stream(rows)
    {
      StreamLine(rows, i, fed);
      fed := fed + (canonical(Obj(rows[i])) + "\n");
      i := i + 1;
    }
  }

  /** `content_hash` as it runs, given the serialiser: drop columns, sort, feed the digest. */
  method ContentHashInput(rows: seq<GoodRow>, exclude: set<string>, canonical: Value -> string) returns (fed: string)
    requires forall v :: canonical(v) == CanonicalJson(v)
    ensures fed == ContentStream(rows, exclude)
  {
    var materialised: seq<GoodRow> := [];
    for i := 0 to |rows|
      invariant materialised == AllDropped(rows, exclude)[..i]
    {
      var row: GoodRow := map k | k in rows[i] && k !in exclude :: rows[i][k];
      materialised := materialised + [row];
    }
    assert materialised == AllDropped(rows, exclude);
    var key := (a: GoodRow, b: GoodRow) => StringLe(canonical(Obj(a)), canonical(Obj(b)));
    SortAgrees(materialised, key, RowLe);
    fed := Feed(Sort(materialised, key), canonical);
  }

  lemma {:induction false} SortAgrees<T>(s: seq<T>, le: (T, T) -> bool, le': (T, T) -> bool)
    requires forall a, b :: le(a, b) == le'(a, b)
    ensures Sort(s, le) == Sort(s, le')
  {
    if s != [] {
      SortAgrees(s[1..], le, le');
      InsertAgrees(s[0], Sort(s[1..], le), le, le');
    }
  }

  lemma {:induction false} InsertAgrees<T>(x: T, s: seq<T>, le: (T, T) -> bool, le': (T, T) -> bool)
    requires forall a, b :: le(a, b) == le'(a, b)
    ensures Insert(x, s, le) == Insert(x, s, le')
  {
    if s != [] { InsertAgrees(x, s[1..], le, le'); }
  }
}
