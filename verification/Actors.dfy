/**
 Actor identity (src/impact/normalize/actors.py): the two-pass union-find, the resolver that feeds it, and
 the reason its e-mail clustering never merges anything. Hashing and the e-mail patterns are parameters.
 */
module Actors {
  import opened Collections
  import opened Forests
  import opened Ordering

  // ----- UnionFind -----

  /** The nodes met going up from `key` to the root of its tree. */
  ghost predicate IsClimb(parent: map<string, string>, path: seq<string>, key: string, root: string) {
    && IsAscent(parent, path, key) && path[|path| - 1] == root
    && root in parent && parent[root] == root
  }

  ghost predicate IsAscent(parent: map<string, string>, path: seq<string>, key: string) {
    && path != [] && path[0] == key
    && (forall i ::
      0 <= i < |path| - 1 ==> path[i] in parent && parent[path[i]] == path[i + 1] && path[i + 1] != path[i])
  }

  lemma {:induction false} ClimbDescends(parent: map<string, string>, rep: map<string, string>, path: seq<string>,
      key: string, i: nat, j: nat)
    requires IsForest(StringLe, parent, rep) && IsAscent(parent, path, key)
    requires i < j < |path|
    ensures StringLe(path[j], path[i]) && path[j] != path[i]
    decreases j
  {
    assert path[j - 1] in parent && parent[path[j - 1]] == path[j - 1 + 1];
    assert Fits(StringLe, parent, rep, path[j - 1]);
    if i < j - 1 {
      ClimbDescends(parent, rep, path, key, i, j - 1);
      StringLeTransitive(path[j], path[j - 1], path[i]);
      StringLeTotal(path[j - 1], path[i]);
    }
  }

  /** The keys strictly below `x`: what is left to climb. */
  ghost function Below(keys: set<string>, x: string): set<string> {
    set y | y in keys && StringLe(y, x) && y != x
  }

  lemma BelowShrinks(keys: set<string>, x: string, y: string)
    requires y in keys && StringLe(y, x) && y != x
    ensures Below(keys, y) < Below(keys, x)
  {
    assert y in Below(keys, x) && y !in Below(keys, y);
    forall z | z in Below(keys, y) ensures z in Below(keys, x) {
      StringLeTransitive(z, y, x);
      StringLeTotal(x, y);
    }
  }

  lemma NewKey(parent: map<string, string>, rep: map<string, string>, key: string)
    requires IsForest(StringLe, parent, rep) && key !in parent
    ensures IsForest(StringLe, parent[key := key], rep[key := key])
  {
    StringLeIsTotalOrder();
    NewNode(StringLe, parent, rep, key);
  }

  lemma OneUp(parent: map<string, string>, rep: map<string, string>, x: string)
    requires IsForest(StringLe, parent, rep) && x in parent
    ensures parent[x] in parent && rep[parent[x]] == rep[x] && (parent[x] == x <==> rep[x] == x)
    ensures parent[x] != x ==> Below(parent.Keys, parent[x]) < Below(parent.Keys, x)
  {
    assert Fits(StringLe, parent, rep, x);
    if parent[x] != x { BelowShrinks(parent.Keys, x, parent[x]); }
  }

  lemma PointAtRoot(parent: map<string, string>, rep: map<string, string>, key: string)
    requires IsForest(StringLe, parent, rep) && key in parent
    ensures rep[key] in parent && IsForest(StringLe, parent[key := rep[key]], rep)
  {
    assert Settled(StringLe, rep, key);
    Repoint(StringLe, parent, rep, key, rep[key]);
  }

  lemma HangLarger(parent: map<string, string>, rep: map<string, string>, a: string, b: string)
    requires IsForest(StringLe, parent, rep) && a in rep && b in rep && rep[a] != rep[b]
    ensures var lo, hi := if StringLe(rep[a], rep[b]) then rep[a] else rep[b], if StringLe(rep[a], rep[b]) then rep[b]
      else rep[a];
            IsForest(StringLe, parent[hi := lo], Merged(StringLe, rep, a, b))
  {
    StringLeIsTotalOrder();
    var lo, hi := if StringLe(rep[a], rep[b]) then rep[a] else rep[b], if StringLe(rep[a], rep[b]) then rep[b]
      else rep[a];
    StringLeTotal(rep[a], rep[b]);
    assert Settled(StringLe, rep, a) && Settled(StringLe, rep, b);
    Hang(StringLe, parent, rep, a, b, lo, hi);
  }

  /** One step of the compression pass, at the `i`-th node of the climb. */
  lemma CompressStep(before: map<string, string>, rep: map<string, string>, path: seq<string>, start: string, i: nat,
      parent: map<string, string>)
    requires IsForest(StringLe, before, rep) && IsForest(StringLe, parent, rep) && IsAscent(before, path, start)
      && i < |path|
    requires parent.Keys == before.Keys && path[i] in parent && parent[path[i]] != rep[path[i]]
    requires forall y :: y in parent ==> parent[y] == if y in path[..i] then rep[path[i]] else before[y]
    requires IsClimb(before, path, start, rep[path[i]])
    ensures i + 1 < |path| && parent[path[i]] == path[i + 1] && path[i + 1] in parent
      && rep[path[i + 1]] == rep[path[i]]
    ensures IsForest(StringLe, parent[path[i] := rep[path[i]]], rep)
    ensures path[..i + 1] == path[..i] + [path[i]]
  {
    CompressNext(before, rep, path, start, i, parent);
    PointAtRoot(parent, rep, path[i]);
  }

  lemma CompressNext(before: map<string, string>, rep: map<string, string>, path: seq<string>, start: string, i: nat,
      parent: map<string, string>)
    requires IsForest(StringLe, before, rep) && IsForest(StringLe, parent, rep) && IsAscent(before, path, start)
      && i < |path|
    requires parent.Keys == before.Keys && path[i] in parent && parent[path[i]] != rep[path[i]]
    requires forall y :: y in parent ==> parent[y] == if y in path[..i] then rep[path[i]] else before[y]
    requires IsClimb(before, path, start, rep[path[i]])
    ensures i + 1 < |path| && parent[path[i]] == path[i + 1] && path[i + 1] in parent
      && rep[path[i + 1]] == rep[path[i]]
  {
    NotYetVisited(before, rep, path, start, i);
    OneUp(parent, rep, path[i]);
  }

  class UnionFind {
    var parent: map<string, string>
    ghost var rep: map<string, string>

    ghost predicate Valid()
      reads this
    {
      IsForest(StringLe, parent, rep)
    }

    constructor ()
      ensures Valid() && parent == map[] && rep == map[]
    {
      parent, rep := map[], map[];
    }

    method Add(key: string)
      requires Valid()
      modifies this
      ensures Valid() && parent == WithNode(old(parent), key) && rep == WithNode(old(rep), key)
    {
      if key !in parent {
        NewKey(parent, rep, key);
        parent, rep := parent[key := key], rep[key := key];
      }
    }

    method Climb(key: string) returns (root: string, ghost path: seq<string>)
      requires Valid() && key in parent
      ensures IsClimb(parent, path, key, root) && root == rep[key]
    {
      root, path := key, [key];
      OneUp(parent, rep, root);
      while parent[root] != root
        invariant root in parent && rep[root] == rep[key]
        invariant IsAscent(parent, path, key) && path[|path| - 1] == root
        decreases Below(parent.Keys, root)
      {
        OneUp(parent, rep, root);
        path := path + [parent[root]];
        root := parent[root];
      }
      OneUp(parent, rep, root);
    }

    /** The compression pass: every node of the climb ends up pointing at the root. */
    method Compress(start: string, root: string, ghost path: seq<string>)
      requires Valid() && start in parent && IsClimb(parent, path, start, root) && root == rep[start]
      modifies this
      ensures Valid() && rep == old(rep)
      ensures forall y :: y in parent ==> parent[y] == if y in path then root else old(parent)[y]
    {
      ghost var before, i := parent, 0;
      var key := start;
      while parent[key] != root
        invariant Valid() && rep == old(rep) && parent.Keys == before.Keys
        invariant 0 <= i < |path| && key == path[i] && key in parent && rep[key] == root
        invariant forall y :: y in parent ==> parent[y] == if y in path[..i] then root else before[y]
        decreases |path| - i
      {
        CompressStep(before, rep, path, start, i, parent);
        var next := parent[key];
        parent := parent[key := root];
        key, i := next, i + 1;
      }
      RestPointsAtRoot(before, rep, path, start, root, i, parent);
    }

    method Find(key: string) returns (root: string, ghost path: seq<string>)
      requires Valid()
      modifies this
      ensures Valid() && rep == WithNode(old(rep), key) && root == rep[key]
      ensures IsClimb(WithNode(old(parent), key), path, key, root)
      ensures forall y :: y in parent ==> parent[y] == if y in path then root else WithNode(old(parent), key)[y]
    {
      Add(key);
      root, path := Climb(key);
      Compress(key, root, path);
    }

    method Union(a: string, b: string)
      requires Valid()
      modifies this
      ensures Valid() && rep == Merged(StringLe, WithNode(WithNode(old(rep), a), b), a, b)
    {
      ghost var path;
      var ra, rb;
      ra, path := Find(a);
      rb, path := Find(b);
      if ra != rb {
        HangLarger(parent, rep, a, b);
        var lo, hi := if StringLe(ra, rb) then ra else rb, if StringLe(ra, rb) then rb else ra;
        parent, rep := parent[hi := lo], Merged(StringLe, rep, a, b);
      } else {
        MergedWithItself(StringLe, rep, a, b);
      }
    }
  }

  lemma NotYetVisited(parent: map<string, string>, rep: map<string, string>, path: seq<string>, start: string, i: nat)
    requires IsForest(StringLe, parent, rep) && IsAscent(parent, path, start) && i < |path|
    ensures path[i] !in path[..i]
  {
    forall j | 0 <= j < i ensures path[j] != path[i] { ClimbDescends(parent, rep, path, start, j, i); }
  }

  lemma RestPointsAtRoot(before: map<string, string>, rep: map<string, string>, path: seq<string>, start: string,
      root: string, i: nat, after: map<string, string>)
    requires IsForest(StringLe, before, rep) && IsClimb(before, path, start, root) && i < |path|
    requires after.Keys == before.Keys && path[i] in after && after[path[i]] == root
    requires forall y :: y in after ==> after[y] == if y in path[..i] then root else before[y]
    ensures forall y :: y in after ==> after[y] == if y in path then root else before[y]
  {
    NotYetVisited(before, rep, path, start, i);
    var last := |path| - 1;
    if i + 1 < last {
      ClimbDescends(before, rep, path, start, i + 1, last);
    }
    forall y | y in after ensures after[y] == if y in path then root else before[y] {
      if y in path {
        var k :| 0 <= k < |path| && path[k] == y;
        if k < i { assert path[..i][k] == y; }
      }
    }
  }

  // ----- ActorResolver -----

  /** The e-mail patterns, the text normalisation and the digest, as the configuration fixes them. */
  datatype Config = Config(
    clusterOnEmail: bool, parseNoreply: bool,
    normalise: string -> string, strip: string -> string, digest: string -> string,
    noreplyLogin: string -> Option<string>, isEmail: string -> bool, isAiEmail: string -> bool)

  datatype Record = Record(
    login: Option<string>, displayName: Option<string>, databaseId: Option<int>, typeName: Option<string>,
    emails: set<string>, gitNames: set<string>, sources: set<string>, isAi: bool)

  const BLANK: Record := Record(None, None, None, None, {}, {}, {}, false)

  /** What GitHub says of an account besides its login. Missing and empty values are `None`. */
  datatype Account = Account(name: Option<string>, databaseId: Option<int>, typeName: Option<string>)

  function OrElse<T>(a: Option<T>, b: Option<T>): Option<T> { if a.Some? then a else b }

  function LoginKey(c: Config, login: string): string { "github/user/" + c.normalise(login) }

  function FallbackKey(c: Config, text: string): string {
    if text == "" then "unknown/actor" else "git/email/" + c.digest(c.normalise(text))
  }

  /** The login inside a GitHub no-reply address. */
  function LoginIn(c: Config, email: string): Option<string> {
    if c.parseNoreply && email != "" && c.noreplyLogin(email).Some? && c.noreplyLogin(email).value != ""
    then c.noreplyLogin(email) else None
  }

  function IdentityKey(c: Config, name: string, email: string): string {
    if LoginIn(c, email).Some? then LoginKey(c, LoginIn(c, email).value)
    else FallbackKey(c, if email != "" then email else name)
  }

  /** The record key of an address, which no name can change. */
  function EmailKey(c: Config, email: string): string { IdentityKey(c, "", email) }

  function RecordOr(records: map<string, Record>, key: string): Record {
    if key in records then records[key] else BLANK
  }

  /** The first display name stays; an id or a type name is overwritten by a later one. */
  function WithActor(c: Config, records: map<string, Record>, login: string, account: Account,
      source: string): map<string, Record> {
    var was := RecordOr(records, LoginKey(c, login));
    records[LoginKey(c, login) := was.(
      login := Some(login), displayName := OrElse(was.displayName, account.name),
      databaseId := OrElse(account.databaseId, was.databaseId), typeName := OrElse(account.typeName, was.typeName),
      sources := was.sources + {source})]
  }

  function WithIdentity(c: Config, records: map<string, Record>, name: string, email: string,
      source: string): map<string, Record> {
    var key := IdentityKey(c, name, email);
    var was := RecordOr(records, key);
    records[key := was.(
      login := if LoginIn(c, email).Some? then LoginIn(c, email) else was.login,
      emails := if email != "" && c.isEmail(email) then was.emails + {email} else was.emails,
      gitNames := if name != "" then was.gitNames + {name} else was.gitNames,
      sources := was.sources + {source},
      isAi := was.isAi || c.isAiEmail(email))]
  }

  /** Each address sits on the record its own key names. */
  ghost predicate EmailsAtHome(c: Config, records: map<string, Record>) {
    forall k, e {:trigger e in records[k].emails} ::
      k in records && e in records[k].emails ==> e != "" && EmailKey(c, e) == k
  }

  /** An address is never on two records, so there is never anything to cluster on. */
  lemma NoSharedEmail(c: Config, records: map<string, Record>, j: string, k: string, email: string)
    requires EmailsAtHome(c, records) && j in records && k in records
    requires email in records[j].emails && email in records[k].emails
    ensures j == k
  {
    assert EmailKey(c, email) == j;
    assert EmailKey(c, email) == k;
  }

  lemma AddsKeepEmailsAtHome(c: Config, records: map<string, Record>, login: string, account: Account, name: string,
      email: string, source: string)
    requires EmailsAtHome(c, records)
    ensures EmailsAtHome(c, WithActor(c, records, login, account, source))
    ensures EmailsAtHome(c, WithIdentity(c, records, name, email, source))
  {
    OneRecordChanged(c, records, LoginKey(c, login), WithActor(c, records, login, account, source), "");
    OneRecordChanged(c, records, IdentityKey(c, name, email), WithIdentity(c, records, name, email, source), email);
  }

  lemma OneRecordChanged(c: Config, records: map<string, Record>, key: string, records': map<string, Record>,
      email: string)
    requires EmailsAtHome(c, records) && key in records' && records' == records[key := records'[key]]
    requires forall e :: e in records'[key].emails ==>
               e in RecordOr(records, key).emails || (e == email && e != "" && EmailKey(c, e) == key)
    ensures EmailsAtHome(c, records')
  {
    forall k, e | k in records' && e in records'[k].emails ensures e != "" && EmailKey(c, e) == k {
      if k == key {
        if e in RecordOr(records, key).emails { assert key in records && e in records[key].emails; }
      } else {
        assert e in records[k].emails;
      }
    }
  }

  // ----- every sequence of adds -----

  datatype Add = GithubAdd(login: string, account: Account, source: string)
    | GitAdd(name: string, email: string, source: string)

  function Applied(c: Config, records: map<string, Record>, add: Add): map<string, Record> {
    match add
    case GithubAdd(login, account, source) =>
      if c.strip(login) == "" then records else WithActor(c, records, c.strip(login), account, source)
    case GitAdd(name, email, source) => WithIdentity(c, records, c.strip(name), c.normalise(email), source)
  }

  /** The records after any adds, in any order. */
  function After(c: Config, adds: seq<Add>): map<string, Record> {
    if adds == [] then map[] else Applied(c, After(c, adds[..|adds| - 1]), adds[|adds| - 1])
  }

  lemma AfterNext(c: Config, adds: seq<Add>, add: Add)
    ensures After(c, adds + [add]) == Applied(c, After(c, adds), add)
  {
    assert (adds + [add])[..|adds|] == adds;
  }

  /**
   Whom an add is about: an account, named by GitHub or by a no-reply address; without one, whoever has the
   e-mail or else the name; or nobody in particular.
   */
  datatype Person = User(login: string) | Author(text: string) | Nobody

  function WhoIs(c: Config, name: string, email: string): Person {
    if c.parseNoreply && email != "" && c.noreplyLogin(email).Some? && c.noreplyLogin(email).value != ""
    then User(c.normalise(c.noreplyLogin(email).value))
    else if email != "" then Author(c.normalise(email))
    else if name != "" then Author(c.normalise(name))
    else Nobody
  }

  function Who(c: Config, add: Add): Option<Person> {
    match add
    case GithubAdd(login, _, _) => if c.strip(login) == "" then None else Some(User(c.normalise(c.strip(login))))
    case GitAdd(name, email, _) => Some(WhoIs(c, c.strip(name), c.normalise(email)))
  }

  function KeyFor(c: Config, person: Person): string {
    match person
    case User(login) => "github/user/" + login
    case Author(text) => "git/email/" + c.digest(text)
    case Nobody => "unknown/actor"
  }

  lemma KeyIsWho(c: Config, name: string, email: string)
    ensures IdentityKey(c, name, email) == KeyFor(c, WhoIs(c, name, email))
  {
  }

  ghost predicate DigestsDiffer(c: Config) { forall s, t :: c.digest(s) == c.digest(t) ==> s == t }

  /** Different people have different keys, as far as digests do. */
  lemma KeysAreApart(c: Config, a: Person, b: Person)
    requires DigestsDiffer(c)
    ensures KeyFor(c, a) == KeyFor(c, b) <==> a == b
  {
    var k, l := KeyFor(c, a), KeyFor(c, b);
    KindAt(c, a);
    KindAt(c, b);
    if k == l {
      if a.User? && b.User? {
        assert a.login == k[12..] && b.login == l[12..];
      } else if a.Author? && b.Author? {
        assert c.digest(a.text) == k[10..] && c.digest(b.text) == l[10..];
      }
    }
  }

  /** The fourth character of a key tells its kind. */
  lemma KindAt(c: Config, a: Person)
    ensures |KeyFor(c, a)| > 3
    ensures KeyFor(c, a)[3] == match a case User(_) => 'h' case Author(_) => '/' case Nobody => 'n'
  {
  }

  /** The add gives this record something. */
  ghost predicate Reaches(c: Config, add: Add, key: string) { Who(c, add).Some? && KeyFor(c, Who(c, add).value) == key }

  lemma AppliedElsewhere(c: Config, records: map<string, Record>, add: Add, key: string)
    ensures !Reaches(c, add, key) ==> (key in Applied(c, records, add) <==> key in records)
    ensures !Reaches(c, add, key) && key in records ==> Applied(c, records, add)[key] == records[key]
    ensures Reaches(c, add, key) ==> key in Applied(c, records, add)
  {
    if add.GitAdd? { KeyIsWho(c, c.strip(add.name), c.normalise(add.email)); }
  }

  /** The records are those of the people the adds are about, one each. */
  lemma {:induction false} RecordsExact(c: Config, adds: seq<Add>, key: string)
    ensures key in After(c, adds) <==> exists add :: add in adds && Reaches(c, add, key)
  {
    if adds != [] {
      var n := |adds| - 1;
      assert adds == adds[..n] + [adds[n]];
      RecordsExact(c, adds[..n], key);
      AppliedElsewhere(c, After(c, adds[..n]), adds[n], key);
    }
  }

  /** An add of this record brings the address, which is valid. */
  ghost predicate BringsEmail(c: Config, add: Add, key: string, email: string) {
    add.GitAdd? && Reaches(c, add, key) && c.normalise(add.email) == email && email != "" && c.isEmail(email)
  }

  ghost predicate BringsName(c: Config, add: Add, key: string, name: string) {
    add.GitAdd? && Reaches(c, add, key) && c.strip(add.name) == name && name != ""
  }

  function RecordAfter(c: Config, adds: seq<Add>, key: string): Record { RecordOr(After(c, adds), key) }

  lemma RecordNext(c: Config, adds: seq<Add>, key: string)
    requires adds != []
    ensures var n := |adds| - 1; var was := RecordAfter(c, adds[..n], key); var now := RecordAfter(c, adds, key);
            && (forall e :: e in now.emails <==> e in was.emails || BringsEmail(c, adds[n], key, e))
            && (forall t :: t in now.gitNames <==> t in was.gitNames || BringsName(c, adds[n], key, t))
            && (forall s :: s in now.sources <==> s in was.sources || (Reaches(c, adds[n], key) && adds[n].source == s))
  {
    var add := adds[|adds| - 1];
    AppliedElsewhere(c, After(c, adds[..|adds| - 1]), add, key);
    if add.GitAdd? { KeyIsWho(c, c.strip(add.name), c.normalise(add.email)); }
  }

  /** A record holds exactly the valid addresses, the names and the sources that the adds of its person bring. */
  lemma {:induction false} RecordHoldsExactly(c: Config, adds: seq<Add>, key: string, text: string)
    ensures text in RecordAfter(c, adds, key).emails <==> exists add :: add in adds && BringsEmail(c, add, key, text)
    ensures text in RecordAfter(c, adds, key).gitNames <==> exists add :: add in adds && BringsName(c, add, key, text)
    ensures text in RecordAfter(c, adds, key).sources
      <==> exists add :: add in adds && Reaches(c, add, key) && add.source == text
  {
    if adds != [] {
      var n := |adds| - 1;
      RecordHoldsExactly(c, adds[..n], key, text);
      RecordNext(c, adds, key);
      assert adds == adds[..n] + [adds[n]];
    }
  }

  /**
   People stay apart: with digests that differ, two addresses on one record are the same address, or both name
   the same account.
   */
  lemma PeopleStayApart(c: Config, adds: seq<Add>, key: string, e: string, f: string)
    requires DigestsDiffer(c) && forall s :: c.normalise(c.normalise(s)) == c.normalise(s)
    requires e in RecordAfter(c, adds, key).emails && f in RecordAfter(c, adds, key).emails
    ensures e == f || (WhoIs(c, "", e) == WhoIs(c, "", f) && WhoIs(c, "", e).User?)
  {
    RecordHoldsExactly(c, adds, key, e);
    RecordHoldsExactly(c, adds, key, f);
    var a :| a in adds && BringsEmail(c, a, key, e);
    var b :| b in adds && BringsEmail(c, b, key, f);
    KeysAreApart(c, Who(c, a).value, Who(c, b).value);
  }

  /** `m.setdefault(k, []).append(v)` */
  function Appended(m: map<string, seq<string>>, k: string, v: string): map<string, seq<string>> {
    m[k := (if k in m then m[k] else []) + [v]]
  }

  function LookupOr(m: map<string, seq<string>>, k: string, default: seq<string>): seq<string> {
    if k in m then m[k] else default
  }

  /** In a forest of single nodes a climb stays where it is. */
  lemma SingleClimb(parent: map<string, string>, path: seq<string>, key: string, root: string)
    requires AllSingle(parent) && IsClimb(parent, path, key, root)
    ensures path == [key] && root == key
  {
    FirstStep(parent, path, key);
  }

  lemma FirstStep(parent: map<string, string>, path: seq<string>, key: string)
    requires IsAscent(parent, path, key)
    ensures |path| > 1 ==> key in parent && parent[key] != key
  {
    if |path| > 1 { assert path[0] in parent && parent[path[0]] == path[0 + 1]; }
  }

  ghost predicate OneClass(rep: map<string, string>, keys: seq<string>) {
    keys != [] && keys[0] in rep && forall i :: 0 <= i < |keys| ==> keys[i] in rep && rep[keys[i]] == rep[keys[0]]
  }

  lemma OneMoreInClass(rep: map<string, string>, keys: seq<string>, i: nat)
    requires 0 < i < |keys| && (i > 1 ==> OneClass(rep, keys[..i])) && IsRepresentation(StringLe, rep)
    ensures OneClass(Merged(StringLe, WithNode(WithNode(rep, keys[0]), keys[i]), keys[0], keys[i]), keys[..i + 1])
  {
    assert keys[..i + 1] == keys[..i] + [keys[i]] && keys[..i][0] == keys[0];
  }

  /** Links a list of keys into one class; a single key is left alone. */
  method LinkAll(uf: UnionFind, keys: seq<string>)
    requires uf.Valid() && keys != []
    modifies uf
    ensures uf.Valid()
    ensures |keys| == 1 ==> uf.parent == old(uf.parent) && uf.rep == old(uf.rep)
    ensures |keys| > 1 ==> OneClass(uf.rep, keys)
  {
    for i := 1 to |keys|
      invariant uf.Valid()
      invariant i == 1 ==> uf.parent == old(uf.parent) && uf.rep == old(uf.rep)
      invariant i > 1 ==> OneClass(uf.rep, keys[..i])
    {
      ghost var rep := uf.rep;
      uf.Union(keys[0], keys[i]);
      OneMoreInClass(rep, keys, i);
    }
    assert keys[..|keys|] == keys;
  }

  ghost predicate AllSingle(uf: map<string, string>) { forall k :: k in uf ==> uf[k] == k }

  datatype Row = Row(key: string, login: Option<string>, clusterId: string, members: seq<string>, sharedEmail: bool)

  ghost predicate SomeoneReaches(c: Config, adds: seq<Add>, key: string) {
    exists add :: add in adds && Reaches(c, add, key)
  }

  ghost predicate HasRow(rows: seq<Row>, key: string) {
    exists i :: 0 <= i < |rows| && rows[i].key == key
  }

  /** The rows stand for exactly the people the adds are about. */
  ghost predicate AreRowsOf(c: Config, adds: seq<Add>, rows: seq<Row>) {
    forall key :: HasRow(rows, key) <==> SomeoneReaches(c, adds, key)
  }

  lemma RowsAreOf(c: Config, adds: seq<Add>, records: map<string, Record>, rows: seq<Row>)
    requires records == After(c, adds)
    requires forall key :: HasRow(rows, key) <==> key in records
    ensures AreRowsOf(c, adds, rows)
  {
    forall key ensures HasRow(rows, key) <==> SomeoneReaches(c, adds, key) {
      RecordsExact(c, adds, key);
    }
  }

  lemma RowKeys(keys: seq<string>, rows: seq<Row>, key: string)
    requires |rows| == |keys| && forall i :: 0 <= i < |rows| ==> rows[i].key == keys[i]
    ensures HasRow(rows, key) <==> key in keys
  {
    if key in keys {
      var i :| 0 <= i < |keys| && keys[i] == key;
      assert rows[i].key == key;
    }
  }

  /** With digests that differ, two adds have one row if they are about one person, and different rows otherwise. */
  lemma RowsTellPeopleApart(c: Config, adds: seq<Add>, rows: seq<Row>, a: Add, b: Add, p: Person, q: Person)
    requires DigestsDiffer(c) && AreRowsOf(c, adds, rows)
    requires a in adds && b in adds && Who(c, a) == Some(p) && Who(c, b) == Some(q)
    ensures HasRow(rows, KeyFor(c, p)) && HasRow(rows, KeyFor(c, q))
    ensures KeyFor(c, p) == KeyFor(c, q) <==> p == q
  {
    KeysAreApart(c, p, q);
    assert Reaches(c, a, KeyFor(c, p)) && Reaches(c, b, KeyFor(c, q));
    assert SomeoneReaches(c, adds, KeyFor(c, p)) && SomeoneReaches(c, adds, KeyFor(c, q));
  }

  class ActorResolver {
    const config: Config
    var records: map<string, Record>
    const uf: UnionFind
    ghost var adds: seq<Add>

    ghost predicate Valid()
      reads this, uf
    {
      && uf.Valid() && EmailsAtHome(config, records) && records == After(config, adds)
      && records.Keys <= uf.parent.Keys && AllSingle(uf.parent) && AllSingle(uf.rep)
    }

    constructor (config: Config)
      ensures Valid() && fresh(uf) && this.config == config && records == map[] && adds == []
    {
      this.config := config;
      records := map[];
      adds := [];
      uf := new UnionFind();
    }

    method AddGithubActor(login: string, account: Account, source: string) returns (key: Option<string>)
      requires Valid()
      modifies this, uf
      ensures Valid()
      ensures var text := config.strip(login);
              records == (if text == "" then old(records) else WithActor(config, old(records), text, account, source))
              && key == (if text == "" then None else Some(LoginKey(config, text)))
      ensures adds == old(adds) + [GithubAdd(login, account, source)]
    {
      ghost var add := GithubAdd(login, account, source);
      var text := config.strip(login);
      if text == "" {
        AfterNext(config, adds, add);
        adds := adds + [add];
        return None;
      }
      var k := LoginKey(config, text);
      var record := RecordOr(records, k).(login := Some(text));
      if record.displayName.None? { record := record.(displayName := account.name); }
      if account.databaseId.Some? { record := record.(databaseId := account.databaseId); }
      if account.typeName.Some? { record := record.(typeName := account.typeName); }
      record := record.(sources := record.sources + {source});
      AddsKeepEmailsAtHome(config, records, text, account, "", "", source);
      Store(k, record, add);
      key := Some(k);
    }

    /** Puts a record back under its key and makes the key a node. */
    method Store(key: string, record: Record, ghost add: Add)
      requires Valid() && EmailsAtHome(config, records[key := record])
        && Applied(config, records, add) == records[key := record]
      modifies this, uf
      ensures Valid() && records == old(records)[key := record] && adds == old(adds) + [add]
    {
      AfterNext(config, adds, add);
      records := records[key := record];
      adds := adds + [add];
      uf.Add(key);
    }

    method AddGitIdentity(name: string, email: string, source: string) returns (key: string)
      requires Valid()
      modifies this, uf
      ensures Valid()
      ensures records == WithIdentity(config, old(records), config.strip(name), config.normalise(email), source)
      ensures key == IdentityKey(config, config.strip(name), config.normalise(email))
      ensures adds == old(adds) + [GitAdd(name, email, source)]
    {
      var address, text := config.normalise(email), config.strip(name);
      var login := None;
      if config.parseNoreply && address != "" {
        var found := config.noreplyLogin(address);
        if found.Some? && found.value != "" { login := found; }
      }
      var record;
      if login.Some? {
        key := LoginKey(config, login.value);
        record := RecordOr(records, key).(login := login);
      } else {
        key := FallbackKey(config, if address != "" then address else text);
        record := RecordOr(records, key);
      }
      if address != "" && config.isEmail(address) { record := record.(emails := record.emails + {address}); }
      if text != "" { record := record.(gitNames := record.gitNames + {text}); }
      record := record.(sources := record.sources + {source});
      if config.isAiEmail(address) { record := record.(isAi := true); }
      AddsKeepEmailsAtHome(config, records, "", Account(None, None, None), text, address, source);
      Store(key, record, GitAdd(name, email, source));
    }

    /** `by_email`: the keys of the records that hold each address. */
    method KeysByEmail() returns (byEmail: map<string, seq<string>>)
      requires Valid()
      ensures forall e :: e in byEmail ==> byEmail[e] == [EmailKey(config, e)] && EmailKey(config, e) in records
    {
      byEmail := map[];
      var rest := records.Keys;
      while rest != {}
        invariant rest <= records.Keys
        invariant forall e :: e in byEmail ==>
                    byEmail[e] == [EmailKey(config, e)] && EmailKey(config, e) in records.Keys - rest
        decreases rest
      {
        var key :| key in rest;
        rest := rest - {key};
        var emails := records[key].emails;
        while emails != {}
          invariant emails <= records[key].emails
          invariant forall e :: e in byEmail ==>
                      byEmail[e] == [EmailKey(config, e)] && EmailKey(config, e) in records.Keys - rest
          invariant forall e :: e in emails ==> e !in byEmail
          decreases emails
        {
          var email :| email in emails;
          emails := emails - {email};
          byEmail := Appended(byEmail, email, key);
        }
      }
    }

    /**
     `_link_by_email`: an address whose records carry several logins is reported as shared, any other links
     its records. In every reachable state it reports nothing and links nothing.
     */
    method LinkByEmail() returns (shared: map<string, set<string>>)
      requires Valid()
      modifies uf
      ensures Valid() && shared == map[] && uf.rep == old(uf.rep) && uf.parent == old(uf.parent)
    {
      shared := map[];
      if !config.clusterOnEmail { return; }
      var byEmail := KeysByEmail();
      var rest := byEmail.Keys;
      while rest != {}
        invariant Valid() && rest <= byEmail.Keys && shared == map[]
        invariant uf.rep == old(uf.rep) && uf.parent == old(uf.parent)
        decreases rest
      {
        var email :| email in rest;
        rest := rest - {email};
        var keys := byEmail[email];
        var logins := set k | k in keys && records[k].login.Some? :: records[k].login.value;
        OneLogin(records, keys, logins);
        if |logins| > 1 {
          shared := shared[email := logins];
          continue;
        }
        LinkAll(uf, keys);
      }
    }

    /** `finalize`: after linking, one row per record, in key order, and one record per person ever added. */
    method Finalize() returns (rows: seq<Row>)
      requires Valid()
      modifies uf
      ensures Valid() && |rows| == |records|
      ensures forall i ::
        0 <= i < |rows| ==> rows[i].key in records && rows[i] == RowOf(rows[i].key, records[rows[i].key])
      ensures forall i, j :: 0 <= i < j < |rows| ==> StringLe(rows[i].key, rows[j].key) && rows[i].key != rows[j].key
      ensures AreRowsOf(config, adds, rows)
    {
      var shared := LinkByEmail();
      var clusters := Clusters();
      var keys := KeysInOrder();
      rows := MakeRows(keys, clusters, shared);
      forall key ensures HasRow(rows, key) <==> key in records { RowKeys(keys, rows, key); }
      RowsAreOf(config, adds, records, rows);
    }

    method MakeRows(keys: seq<string>, clusters: map<string, seq<string>>, shared: map<string, set<string>>)
        returns (rows: seq<Row>)
      requires Valid() && shared == map[] && forall i :: 0 <= i < |keys| ==> keys[i] in records
      requires clusters.Keys == records.Keys && forall k :: k in clusters ==> clusters[k] == [k]
      modifies uf
      ensures Valid() && |rows| == |keys| && forall i :: 0 <= i < |rows| ==> rows[i] == RowOf(keys[i], records[keys[i]])
    {
      rows := [];
      for i := 0 to |keys|
        invariant Valid() && |rows| == i
        invariant forall j :: 0 <= j < i ==> rows[j] == RowOf(keys[j], records[keys[j]])
      {
        assert keys[i] in records;
        var row := MakeRow(keys[i], clusters, shared);
        rows := rows + [row];
      }
    }

    method KeysInOrder() returns (keys: seq<string>)
      ensures |keys| == |records| && (forall i :: 0 <= i < |keys| ==> keys[i] in records)
        && forall k :: k in records ==> k in keys
      ensures forall i, j :: 0 <= i < j < |keys| ==> StringLe(keys[i], keys[j]) && keys[i] != keys[j]
    {
      StringLeIsTotalOrder();
      keys := SortSet(records.Keys, StringLe);
      SortedSetSorted(records.Keys, StringLe);
      SortedSetElements(records.Keys, StringLe);
      SortedSetDistinct(records.Keys, StringLe);
      assert |multiset(keys)| == |keys| && |multiset(records.Keys)| == |records.Keys|;
      forall i | 0 <= i < |keys| ensures keys[i] in records { assert keys[i] in keys; }
    }

    method MakeRow(key: string, clusters: map<string, seq<string>>, shared: map<string, set<string>>) returns (row: Row)
      requires Valid() && key in records && key in clusters && clusters[key] == [key] && shared == map[]
      modifies uf
      ensures Valid() && row == RowOf(key, records[key])
    {
      var root := ClusterOf(key);
      var members := LookupOr(clusters, root, [key]);
      row := Row(key, records[key].login, root, Sort(members, StringLe), exists e ::
        e in records[key].emails && e in shared);
    }

    /** `cluster_of`: any actor, known or not, is its own cluster. */
    method ClusterOf(key: string) returns (root: string)
      requires Valid()
      modifies uf
      ensures Valid() && root == key
    {
      ghost var before := WithNode(uf.parent, key);
      ghost var path;
      root, path := uf.Find(key);
      SingleClimb(before, path, key, root);
    }

    method Clusters() returns (clusters: map<string, seq<string>>)
      requires Valid()
      modifies uf
      ensures Valid() && clusters.Keys == records.Keys && forall k :: k in clusters ==> clusters[k] == [k]
    {
      clusters := map[];
      var rest := records.Keys;
      while rest != {}
        invariant Valid() && rest <= records.Keys && clusters.Keys == records.Keys - rest
        invariant forall k :: k in clusters ==> clusters[k] == [k]
        decreases rest
      {
        var key :| key in rest;
        rest := rest - {key};
        var root := ClusterOf(key);
        clusters := Appended(clusters, root, key);
      }
    }
  }

  lemma OneLogin(records: map<string, Record>, keys: seq<string>, logins: set<string>)
    requires |keys| == 1 && keys[0] in records
    requires logins == set k | k in keys && records[k].login.Some? :: records[k].login.value
    ensures |logins| <= 1
  {
    if logins != {} {
      assert logins == {records[keys[0]].login.value};
    }
  }

  /** What `finalize` says of a record: its own cluster, alone in it, no shared address. */
  function RowOf(key: string, record: Record): Row { Row(key, record.login, key, [key], false) }
}
