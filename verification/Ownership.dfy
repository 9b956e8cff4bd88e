/**
 Owner resolution (src/impact/normalize/components.py): the scan over directories sorted by length, against
 "the innermost enclosing directory that has an answer". Pattern matching is a parameter.
 */
module Ownership {
  import opened Collections
  import opened Ordering

  datatype Rule = Rule(patterns: seq<string>, owners: seq<string>)

  datatype Spec = Spec(rules: seq<Rule>, defaults: seq<string>)

  datatype CodeOwner = CodeOwner(pattern: string, owners: seq<string>)

  datatype Answer = FromDirectory(directory: string, owners: seq<string>, pattern: string)
    | FromCodeOwners(entry: CodeOwner) | Nobody

  const DEFAULT_PATTERN := "<default>"

  /** The root directory is the empty string. */
  predicate Encloses(directory: string, path: string) {
    directory == "" || path == directory || directory + "/" <= path
  }

  function Relative(directory: string, path: string): string {
    if directory == "" then path else if |directory| + 1 <= |path| then path[|directory| + 1..] else ""
  }

  // ----- last match wins -----

  datatype Hit = Hit(owners: seq<string>, pattern: string)

  function Flattened(rules: seq<Rule>): seq<Hit> {
    if rules == [] then []
    else
      var n := |rules| - 1;
      Flattened(rules[..n]) + RuleHits(rules[n])
  }

  function RuleHits(rule: Rule): seq<Hit> {
    seq(|rule.patterns|, i requires 0 <= i < |rule.patterns| => Hit(rule.owners, rule.patterns[i]))
  }

  /** The last hit whose pattern matches. */
  ghost predicate IsLastMatch(hits: seq<Hit>, matches: string -> bool, r: Option<Hit>) {
    match r
    case None => forall i :: 0 <= i < |hits| ==> !matches(hits[i].pattern)
    case Some(h) => exists i :: 0 <= i < |hits| && hits[i] == h && matches(h.pattern)
                      && forall j :: i < j < |hits| ==> !matches(hits[j].pattern)
  }

  function LastMatch(hits: seq<Hit>, matches: string -> bool): Option<Hit> {
    if hits == [] then None
    else
      var n := |hits| - 1;
      if matches(hits[n].pattern) then Some(hits[n]) else LastMatch(hits[..n], matches)
  }

  lemma {:induction false} LastMatchIsLast(hits: seq<Hit>, matches: string -> bool)
    ensures IsLastMatch(hits, matches, LastMatch(hits, matches))
  {
    if hits != [] {
      var n := |hits| - 1;
      if !matches(hits[n].pattern) {
        LastMatchIsLast(hits[..n], matches);
        if LastMatch(hits, matches).Some? {
          var h := LastMatch(hits, matches).value;
          var i :| 0 <= i < n && hits[..n][i] == h && matches(h.pattern)
            && forall j :: i < j < n ==> !matches(hits[..n][j].pattern);
          forall j | i < j < |hits| ensures !matches(hits[j].pattern) {
            if j < n { assert hits[..n][j] == hits[j]; }
          }
          assert hits[i] == h;
        } else {
          forall i | 0 <= i < |hits| ensures !matches(hits[i].pattern) {
            if i < n { assert hits[..n][i] == hits[i]; }
          }
        }
      }
    }
  }

  /** The nested loops over rules and patterns. */
  method ScanRules(rules: seq<Rule>, matches: string -> bool) returns (hit: Option<Hit>)
    ensures hit == LastMatch(Flattened(rules), matches)
  {
    hit := None;
    for i := 0 to |rules|
      invariant hit == LastMatch(Flattened(rules[..i]), matches)
    {
      assert rules[..i + 1][..i] == rules[..i];
      ghost var before := Flattened(rules[..i]);
      hit := ScanPatterns(rules[i], matches, hit, before);
    }
    assert rules[..|rules|] == rules;
  }

  /** The inner loop over one rule's patterns. */
  method ScanPatterns(rule: Rule, matches: string -> bool, found: Option<Hit>, ghost before: seq<Hit>)
      returns (hit: Option<Hit>)
    requires found == LastMatch(before, matches)
    ensures hit == LastMatch(before + RuleHits(rule), matches)
  {
    hit := found;
    ghost var own := RuleHits(rule);
    assert before + own[..0] == before;
    for j := 0 to |rule.patterns|
      invariant hit == LastMatch(before + own[..j], matches)
    {
      assert before + own[..j + 1] == (before + own[..j]) + [own[j]];
      LastMatchOneMore(before + own[..j], own[j], matches);
      if matches(rule.patterns[j]) { hit := Some(Hit(rule.owners, rule.patterns[j])); }
    }
    assert own[..|rule.patterns|] == own;
  }

  lemma LastMatchOneMore(hits: seq<Hit>, hit: Hit, matches: string -> bool)
    ensures LastMatch(hits + [hit], matches) == if matches(hit.pattern) then Some(hit) else LastMatch(hits, matches)
  {
    assert (hits + [hit])[..|hits|] == hits;
  }

  // ----- the directories -----

  type Matcher = (string, string) -> bool

  /** Which patterns match the path as seen from a directory. */
  function At(directory: string, path: string, matches: Matcher): string -> bool {
    p => matches(p, Relative(directory, path))
  }

  /** What one enclosing directory says of the path: its last matching rule, else its defaults, else nothing. */
  function Says(spec: Spec, directory: string, path: string, matches: Matcher): Option<Hit> {
    var hit := LastMatch(Flattened(spec.rules), At(directory, path, matches));
    if hit.Some? then hit else if spec.defaults != [] then Some(Hit(spec.defaults, DEFAULT_PATTERN)) else None
  }

  ghost predicate Answers(specs: map<string, Spec>, d: string, path: string, matches: Matcher) {
    d in specs && Encloses(d, path) && Says(specs[d], d, path, matches).Some?
  }

  /** A directory encloses itself and what lies below it. */
  lemma EnclosesExactly(d: string, path: string)
    ensures Encloses(d, path) <==> d == "" || path == d || exists rest :: path == d + "/" + rest
  {
    if d + "/" <= path {
      assert path == d + "/" + path[|d| + 1..];
    }
    if rest :| path == d + "/" + rest {
      assert d + "/" <= path;
    }
  }

  /** The path as the directory's patterns see it. */
  ghost predicate SeenAs(d: string, path: string, rest: string) {
    if d == "" then rest == path else path == d + "/" + rest || (path == d && rest == "")
  }

  /**
   A directory answers with its last rule pattern that matches the rest of the path below it, then with its
   defaults, then not at all.
   */
  lemma AnswerIsOnTheRest(spec: Spec, d: string, path: string, rest: string, matches: Matcher)
    requires SeenAs(d, path, rest)
    ensures var below := (p: string) => matches(p, rest);
            && Encloses(d, path)
            && (HasMatch(spec.rules, below) ==> Says(spec, d, path, matches).Some? && IsLastMatch(Flattened(spec.rules), below, Says(spec, d, path, matches)))
            && (!HasMatch(spec.rules, below) && spec.defaults != []
              ==> Says(spec, d, path, matches) == Some(Hit(spec.defaults, "<default>")))
            && (!HasMatch(spec.rules, below) && spec.defaults == [] ==> Says(spec, d, path, matches) == None)
  {
    EnclosesExactly(d, path);
    assert Relative(d, path) == rest;
    var here, below := At(d, path, matches), (p: string) => matches(p, rest);
    assert forall p :: here(p) == below(p);
    SameMatches(Flattened(spec.rules), here, below);
    MatchFound(spec.rules, below);
    LastMatchIsLast(Flattened(spec.rules), below);
  }

  lemma {:induction false} SameMatches(hits: seq<Hit>, f: string -> bool, g: string -> bool)
    requires forall p :: f(p) == g(p)
    ensures LastMatch(hits, f) == LastMatch(hits, g)
  {
    if hits != [] { SameMatches(hits[..|hits| - 1], f, g); }
  }

  predicate Longer(a: string, b: string) { |a| >= |b| }

  /** `sorted(owners_files, key=len, reverse=True)`, for any listing of the dictionary. */
  function ScanOrder(listing: seq<string>): seq<string> { Sort(listing, Longer) }

  lemma {:induction false} SamePrefix(a: string, b: string, path: string)
    requires |a| == |b| && Encloses(a, path) && Encloses(b, path)
    ensures a == b
  {
    EnclosingPrefix(a, path);
    EnclosingPrefix(b, path);
  }

  lemma EnclosingPrefix(a: string, path: string)
    requires Encloses(a, path)
    ensures |a| <= |path| && path[..|a|] == a
  {
    if a != "" && path != a { assert path[..|a| + 1] == a + "/"; }
  }

  /** Enclosing directories are nested: the shorter one is an ancestor of the longer one. */
  lemma EnclosingAreNested(a: string, b: string, path: string)
    requires Encloses(a, path) && Encloses(b, path) && |a| < |b|
    ensures Encloses(a, b)
  {
    EnclosingPrefix(b, path);
    if a != "" {
      EnclosingPrefix(a, path);
      assert path != a;
      assert path[..|a| + 1] == a + "/";
      assert b[..|a| + 1] == path[..|a| + 1];
    }
  }

  /** The answer is that of the innermost enclosing directory that has one, or no directory's. */
  ghost predicate IsInnermost(specs: map<string, Spec>, path: string, matches: Matcher, answer: Answer) {
    if answer.FromDirectory? then
      && Answers(specs, answer.directory, path, matches)
      && Hit(answer.owners, answer.pattern) == Says(specs[answer.directory], answer.directory, path, matches).value
      && forall d :: Answers(specs, d, path, matches) ==> Encloses(d, answer.directory)
    else forall d :: !Answers(specs, d, path, matches)
  }

  lemma NoneAnswers(specs: map<string, Spec>, order: seq<string>, path: string, matches: Matcher)
    requires (forall d :: d in specs ==> d in order)
      && forall j :: 0 <= j < |order| ==> !Answers(specs, order[j], path, matches)
    ensures forall d :: !Answers(specs, d, path, matches)
  {
    forall d ensures !Answers(specs, d, path, matches) {
      if d in specs { assert d in order; }
    }
  }

  /** The scan over `_owner_dirs`, for any order the dictionary lists its directories in. */
  method ScanDirectories(specs: map<string, Spec>, listing: seq<string>, path: string, matches: Matcher)
      returns (answer: Answer)
    requires forall d :: d in listing <==> d in specs
    ensures answer.FromDirectory? || answer.Nobody?
    ensures IsInnermost(specs, path, matches, answer)
  {
    var order := ScanOrder(listing);
    SortSorted(listing, Longer);
    SameElements(listing, order);
    for i := 0 to |order|
      invariant forall j :: 0 <= j < i ==> !Answers(specs, order[j], path, matches)
    {
      var directory := order[i];
      assert directory in order;
      if !Encloses(directory, path) {
        continue;
      }
      var said := Consult(specs[directory], directory, path, matches);
      if said.Some? {
        FirstAnswerIsInnermost(specs, order, i, path, matches);
        return FromDirectory(directory, said.value.owners, said.value.pattern);
      }
    }
    NoneAnswers(specs, order, path, matches);
    answer := Nobody;
  }

  method Consult(spec: Spec, directory: string, path: string, matches: Matcher) returns (said: Option<Hit>)
    ensures said == Says(spec, directory, path, matches)
  {
    var hit := ScanRules(spec.rules, At(directory, path, matches));
    if hit.Some? { return hit; }
    said := if spec.defaults != [] then Some(Hit(spec.defaults, DEFAULT_PATTERN)) else None;
  }

  ghost predicate IsLastOwner(codeOwners: seq<CodeOwner>, n: nat, path: string, ownerMatches: Matcher, answer: Answer)
    requires n <= |codeOwners|
  {
    match answer
    case FromDirectory(_, _, _) => false
    case Nobody => forall i :: 0 <= i < n ==> !ownerMatches(codeOwners[i].pattern, path)
    case FromCodeOwners(entry) =>
      exists i :: 0 <= i < n && codeOwners[i] == entry && ownerMatches(entry.pattern, path)
        && forall j :: i < j < n ==> !ownerMatches(codeOwners[j].pattern, path)
  }

  method ScanCodeOwners(codeOwners: seq<CodeOwner>, path: string, ownerMatches: Matcher) returns (answer: Answer)
    ensures IsLastOwner(codeOwners, |codeOwners|, path, ownerMatches, answer)
  {
    answer := Nobody;
    for i := 0 to |codeOwners|
      invariant IsLastOwner(codeOwners, i, path, ownerMatches, answer)
    {
      if ownerMatches(codeOwners[i].pattern, path) { answer := FromCodeOwners(codeOwners[i]); }
    }
  }

  /**
   `_resolve_owner`: the innermost enclosing directory that has an answer, and only when no directory has
   one, the last matching CODEOWNERS line.
   */
  method ResolveOwner(specs: map<string, Spec>, listing: seq<string>, codeOwners: seq<CodeOwner>, path: string,
                      matches: Matcher, ownerMatches: Matcher) returns (answer: Answer)
    requires forall d :: d in listing <==> d in specs
    ensures IsInnermost(specs, path, matches, answer)
    ensures !answer.FromDirectory? ==> IsLastOwner(codeOwners, |codeOwners|, path, ownerMatches, answer)
  {
    answer := ScanDirectories(specs, listing, path, matches);
    if answer.Nobody? { answer := ScanCodeOwners(codeOwners, path, ownerMatches); }
  }

  // ----- is it the nearest owners file? -----

  /** The innermost directory with an owners file that encloses the path. */
  ghost predicate IsNearest(specs: map<string, Spec>, d: string, path: string) {
    d in specs && Encloses(d, path) && forall e :: e in specs && Encloses(e, path) ==> Encloses(e, d)
  }

  ghost predicate RuleMatches(rule: Rule, matches: string -> bool) {
    exists p :: p in rule.patterns && matches(p)
  }

  ghost predicate HasMatch(rules: seq<Rule>, matches: string -> bool) {
    exists rule :: rule in rules && RuleMatches(rule, matches)
  }

  lemma {:induction false} LastMatchAppend(a: seq<Hit>, b: seq<Hit>, matches: string -> bool)
    ensures LastMatch(a + b, matches) == if LastMatch(b, matches).Some? then LastMatch(b, matches)
      else LastMatch(a, matches)
  {
    if b == [] {
      assert a + b == a;
    } else {
      var n := |b| - 1;
      assert a + b == (a + b[..n]) + [b[n]];
      LastMatchOneMore(a + b[..n], b[n], matches);
      LastMatchAppend(a, b[..n], matches);
    }
  }

  lemma RuleHitsMatch(rule: Rule, matches: string -> bool)
    ensures LastMatch(RuleHits(rule), matches).Some? <==> RuleMatches(rule, matches)
  {
    var own := RuleHits(rule);
    LastMatchIsLast(own, matches);
    if RuleMatches(rule, matches) {
      var p :| p in rule.patterns && matches(p);
      var j :| 0 <= j < |rule.patterns| && rule.patterns[j] == p;
      assert own[j].pattern == p;
    }
    if LastMatch(own, matches).Some? {
      var i :| 0 <= i < |own| && own[i] == LastMatch(own, matches).value;
      assert rule.patterns[i] in rule.patterns && matches(rule.patterns[i]);
    }
  }

  lemma {:induction false} MatchFound(rules: seq<Rule>, matches: string -> bool)
    ensures LastMatch(Flattened(rules), matches).Some? <==> HasMatch(rules, matches)
  {
    if rules != [] {
      var n := |rules| - 1;
      MatchFound(rules[..n], matches);
      RuleHitsMatch(rules[n], matches);
      LastMatchAppend(Flattened(rules[..n]), RuleHits(rules[n]), matches);
      assert forall rule :: rule in rules <==> rule in rules[..n] || rule == rules[n];
    }
  }

  /** The nearest owners file decides exactly when it has a matching rule or defaults. */
  lemma NearestDecidesExactly(specs: map<string, Spec>, d: string, path: string, matches: Matcher, answer: Answer)
    requires IsNearest(specs, d, path) && IsInnermost(specs, path, matches, answer)
    ensures answer.FromDirectory? && answer.directory == d <==>
            HasMatch(specs[d].rules, At(d, path, matches)) || specs[d].defaults != []
  {
    MatchFound(specs[d].rules, At(d, path, matches));
    if Answers(specs, d, path, matches) && answer.FromDirectory? { InnermostIsUnique(d, answer.directory); }
  }

  /** An empty owners file in `src` does not keep the root's defaults from applying there. */
  lemma NearestIsPassedOver(matches: Matcher, answer: Answer)
    ensures var specs := map["" := Spec([], ["team"]), "src" := Spec([], [])];
            && IsNearest(specs, "src", "src/a.ts")
            && (IsInnermost(specs, "src/a.ts", matches, answer)
              ==> answer == FromDirectory("", ["team"], DEFAULT_PATTERN))
  {
    var specs := map["" := Spec([], ["team"]), "src" := Spec([], [])];
    assert "src" + "/" <= "src/a.ts";
    if IsInnermost(specs, "src/a.ts", matches, answer) {
      assert Answers(specs, "", "src/a.ts", matches);
      assert Says(specs["src"], "src", "src/a.ts", matches) == None;
    }
  }

  /** There is only one innermost directory, so the order of the dictionary does not matter. */
  lemma InnermostIsUnique(a: string, b: string)
    requires Encloses(a, b) && Encloses(b, a)
    ensures a == b
  {
    EnclosingPrefix(a, b);
    EnclosingPrefix(b, a);
  }

  /** The first answering directory in length order encloses no other answering directory. */
  lemma FirstAnswerIsInnermost(specs: map<string, Spec>, order: seq<string>, i: nat, path: string, matches: Matcher)
    requires i < |order| && SortedBy(order, Longer) && (forall d :: d in specs ==> d in order)
    requires Encloses(order[i], path)
    requires forall j :: 0 <= j < i ==> !Answers(specs, order[j], path, matches)
    ensures forall d :: Answers(specs, d, path, matches) ==> Encloses(d, order[i])
  {
    forall d | Answers(specs, d, path, matches) ensures Encloses(d, order[i]) {
      var j :| 0 <= j < |order| && order[j] == d;
      if j > i {
        assert Longer(order[i], order[j]);
        if |d| < |order[i]| { EnclosingAreNested(d, order[i], path); } else { SamePrefix(d, order[i], path); }
      }
    }
  }
}
