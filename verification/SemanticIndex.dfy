/**
 The TF-IDF index behind the semantic candidate edges (src/impact2/graph/semantic.py), in exact
 arithmetic. A document is the list of its tokens.
 */
module SemanticIndex {
  import opened Collections
  import opened Ordering

  type Vector = map<string, real>

  // ----- similarity -----

  function Weight(v: Vector, t: string): real { if t in v then v[t] else 0.0 }

  ghost function Sum(s: set<string>, f: string -> real): real {
    if s == {} then 0.0
    else
      var t :| t in s;
      f(t) + Sum(s - {t}, f)
  }

  lemma {:induction false} SumSplit(s: set<string>, f: string -> real, x: string)
    requires x in s
    ensures Sum(s, f) == f(x) + Sum(s - {x}, f)
  {
    var t :| t in s && Sum(s, f) == f(t) + Sum(s - {t}, f);
    if t != x {
      SumSplit(s - {t}, f, x);
      SumSplit(s - {x}, f, t);
      assert s - {t} - {x} == s - {x} - {t};
    }
  }

  lemma {:induction false} SumSame(s: set<string>, f: string -> real, g: string -> real)
    requires forall t :: t in s ==> f(t) == g(t)
    ensures Sum(s, f) == Sum(s, g)
  {
    if s != {} {
      var t :| t in s;
      SumSplit(s, f, t);
      SumSplit(s, g, t);
      SumSame(s - {t}, f, g);
    }
  }

  /** Terms that are zero may be left out. */
  lemma {:induction false} SumPart(part: set<string>, s: set<string>, f: string -> real)
    requires part <= s && forall t :: t in s && t !in part ==> f(t) == 0.0
    ensures Sum(part, f) == Sum(s, f)
    decreases s
  {
    if part != s {
      var t :| t in s && t !in part;
      SumSplit(s, f, t);
      SumPart(part, s - {t}, f);
    }
  }

  lemma {:induction false} SumNonnegative(s: set<string>, f: string -> real)
    requires forall t :: t in s ==> f(t) >= 0.0
    ensures Sum(s, f) >= 0.0
  {
    if s != {} {
      var t :| t in s;
      SumSplit(s, f, t);
      SumNonnegative(s - {t}, f);
    }
  }

  lemma {:induction false} SumMore(part: set<string>, s: set<string>, f: string -> real)
    requires part <= s && forall t :: t in s ==> f(t) >= 0.0
    ensures Sum(part, f) <= Sum(s, f)
    decreases s
  {
    if part != s {
      var t :| t in s && t !in part;
      SumSplit(s, f, t);
      SumMore(part, s - {t}, f);
    }
  }

  lemma {:induction false} SumMeans(s: set<string>, f: string -> real, g: string -> real, h: string -> real)
    requires forall t :: t in s ==> 2.0 * f(t) <= g(t) + h(t)
    ensures 2.0 * Sum(s, f) <= Sum(s, g) + Sum(s, h)
  {
    if s != {} {
      var t :| t in s;
      SumSplit(s, f, t);
      SumSplit(s, g, t);
      SumSplit(s, h, t);
      SumMeans(s - {t}, f, g, h);
    }
  }

  lemma {:induction false} SumScaled(s: set<string>, f: string -> real, g: string -> real, k: real)
    requires forall t :: t in s ==> f(t) * k == g(t)
    ensures Sum(s, f) * k == Sum(s, g)
  {
    if s != {} {
      var t :| t in s;
      SumSplit(s, f, t);
      SumSplit(s, g, t);
      SumScaled(s - {t}, f, g, k);
      Distribute(f(t), Sum(s - {t}, f), k);
    }
  }

  lemma Distribute(a: real, b: real, k: real)
    ensures (a + b) * k == a * k + b * k
  {
  }

  /** The products that `similarity` adds up. */
  ghost function Products(u: Vector, v: Vector): string -> real { t => Weight(u, t) * Weight(v, t) }

  ghost function Dot(s: set<string>, u: Vector, v: Vector): real { Sum(s, Products(u, v)) }

  lemma DotSymmetric(s: set<string>, u: Vector, v: Vector)
    ensures Dot(s, u, v) == Dot(s, v, u)
  {
    SumSame(s, Products(u, v), Products(v, u));
  }

  /** Tokens that one side lacks contribute nothing. */
  lemma DotShared(s: set<string>, u: Vector, v: Vector)
    requires u.Keys * v.Keys <= s
    ensures Dot(s, u, v) == Dot(u.Keys * v.Keys, u, v)
  {
    SumPart(u.Keys * v.Keys, s, Products(u, v));
  }

  lemma DotMeans(s: set<string>, u: Vector, v: Vector)
    ensures 2.0 * Dot(s, u, v) <= Dot(s, u, u) + Dot(s, v, v)
  {
    var f, g, h := Products(u, v), Products(u, u), Products(v, v);
    forall t | t in s ensures 2.0 * f(t) <= g(t) + h(t) { MeansOfTwo(Weight(u, t), Weight(v, t)); }
    SumMeans(s, f, g, h);
  }

  lemma MeansOfTwo(a: real, b: real)
    ensures 2.0 * (a * b) <= a * a + b * b
  {
    assert (a - b) * (a - b) >= 0.0;
    assert (a - b) * (a - b) == a * a - 2.0 * (a * b) + b * b;
  }

  ghost predicate Nonnegative(v: Vector) { forall t :: t in v ==> v[t] >= 0.0 }

  lemma DotNonnegative(s: set<string>, u: Vector, v: Vector)
    requires Nonnegative(u) && Nonnegative(v)
    ensures Dot(s, u, v) >= 0.0
  {
    SumNonnegative(s, Products(u, v));
  }

  lemma DotMore(part: set<string>, s: set<string>, u: Vector)
    requires part <= s
    ensures Dot(part, u, u) <= Dot(s, u, u)
  {
    SumMore(part, s, Products(u, u));
  }

  /** `TfidfIndex.similarity`: the sum runs over the shorter vector. */
  ghost function Similarity(u: Vector, v: Vector): real {
    if u == map[] || v == map[] then 0.0
    else if |u| > |v| then Dot(v.Keys, v, u)
    else Dot(u.Keys, u, v)
  }

  lemma SimilarityIsShared(u: Vector, v: Vector)
    ensures Similarity(u, v) == Dot(u.Keys * v.Keys, u, v)
  {
    if u == map[] || v == map[] {
      assert u.Keys * v.Keys == {};
    } else if |u| > |v| {
      DotShared(v.Keys, v, u);
      DotSymmetric(v.Keys * u.Keys, v, u);
      assert v.Keys * u.Keys == u.Keys * v.Keys;
    } else {
      DotShared(u.Keys, u, v);
    }
  }

  ghost predicate IsUnit(v: Vector) { v == map[] || Dot(v.Keys, v, v) == 1.0 }

  /** Which argument is scanned does not matter, and unit vectors never score outside [0, 1]. */
  lemma SimilarityBounded(u: Vector, v: Vector)
    requires Nonnegative(u) && Nonnegative(v) && IsUnit(u) && IsUnit(v)
    ensures Similarity(u, v) == Similarity(v, u)
    ensures 0.0 <= Similarity(u, v) <= 1.0
    ensures Similarity(u, v) > 0.0 ==> exists t :: t in u && t in v
  {
    var shared := u.Keys * v.Keys;
    assert v.Keys * u.Keys == shared;
    SimilarityIsShared(u, v);
    SimilarityIsShared(v, u);
    DotSymmetric(shared, u, v);
    DotNonnegative(shared, u, v);
    DotMeans(shared, u, v);
    DotMore(shared, u.Keys, u);
    DotMore(shared, v.Keys, v);
    if Similarity(u, v) > 0.0 {
      assert shared != {};
      var t :| t in shared;
    }
  }

  method AddProducts(u: Vector, v: Vector) returns (score: real)
    ensures score == Dot(u.Keys, u, v)
  {
    score := 0.0;
    ghost var f := Products(u, v);
    var rest := u.Keys;
    while rest != {}
      invariant rest <= u.Keys
      invariant score + Sum(rest, f) == Sum(u.Keys, f)
      decreases rest
    {
      var token :| token in rest;
      var term := Term(u, v, token, f);
      SumSplit(rest, f, token);
      score := score + term;
      rest := rest - {token};
    }
  }

  /** `weight * vb.get(token, 0.0)` */
  function Term(u: Vector, v: Vector, token: string, ghost f: string -> real): (r: real)
    requires token in u && f == Products(u, v)
    ensures r == f(token)
  {
    u[token] * Weight(v, token)
  }

  method ComputeSimilarity(a: Vector, b: Vector) returns (score: real)
    ensures score == Similarity(a, b)
  {
    if a == map[] || b == map[] { return 0.0; }
    var u, v := a, b;
    if |u| > |v| { u, v := v, u; }
    score := AddProducts(u, v);
  }

  // ----- normalisation -----

  /** What `math.sqrt` is used for. */
  ghost predicate IsSquareRoot(root: real -> real) {
    forall x :: x > 0.0 ==> root(x) > 0.0 && root(x) * root(x) == x
  }

  function Scaled(v: Vector, norm: real): Vector
    requires norm != 0.0
  {
    map t | t in v :: v[t] / norm
  }

  lemma DotScaled(v: Vector, norm: real, square: real)
    requires norm != 0.0 && norm * norm == square && square == Dot(v.Keys, v, v)
    ensures Dot(v.Keys, Scaled(v, norm), Scaled(v, norm)) == 1.0
  {
    var w := Scaled(v, norm);
    var f, g := Products(w, w), Products(v, v);
    forall t | t in v.Keys ensures f(t) * square == g(t) { ScaledSquare(v[t], norm, square); }
    SumIsOne(v.Keys, f, g, square);
    SquareIsPositive(norm, square);
  }

  lemma SumIsOne(s: set<string>, f: string -> real, g: string -> real, k: real)
    requires forall t :: t in s ==> f(t) * k == g(t)
    requires Sum(s, g) == k
    ensures k != 0.0 ==> Sum(s, f) == 1.0
  {
    SumScaled(s, f, g, k);
    if k != 0.0 { UnitFactor(Sum(s, f), k); }
  }

  lemma ScaledSquare(x: real, norm: real, square: real)
    requires norm != 0.0 && norm * norm == square
    ensures ((x / norm) * (x / norm)) * square == x * x
  {
    var y := x / norm;
    assert y * norm == x;
    assert (y * y) * (norm * norm) == (y * norm) * (y * norm);
  }

  lemma SumPositive(s: set<string>, f: string -> real, x: string)
    requires x in s && f(x) > 0.0 && forall t :: t in s ==> f(t) >= 0.0
    ensures Sum(s, f) > 0.0
  {
    SumSplit(s, f, x);
    SumNonnegative(s - {x}, f);
  }

  lemma PositiveSquares(v: Vector)
    requires v != map[] && forall t :: t in v ==> v[t] > 0.0
    ensures Dot(v.Keys, v, v) > 0.0
  {
    var f := Products(v, v);
    forall t | t in v.Keys ensures f(t) > 0.0 { SquareIsPositive(Weight(v, t), f(t)); }
    var t :| t in v;
    SumPositive(v.Keys, f, t);
  }

  lemma ProductIsPositive(x: real, y: real, product: real)
    requires x > 0.0 && y > 0.0 && product == x * y
    ensures product > 0.0
  {
  }

  lemma SquareIsPositive(x: real, square: real)
    requires x != 0.0 && square == x * x
    ensures square > 0.0
  {
    if x < 0.0 {
      assert (-x) * (-x) == square;
      ProductIsPositive(-x, -x, square);
    } else {
      ProductIsPositive(x, x, square);
    }
  }

  lemma PositiveQuotient(x: real, y: real)
    requires x > 0.0 && y > 0.0
    ensures x / y > 0.0
  {
  }

  /** Dividing positive weights by their norm gives a unit vector of positive weights. */
  lemma ScaledIsUnit(v: Vector, root: real -> real)
    requires IsSquareRoot(root) && v != map[] && forall t :: t in v ==> v[t] > 0.0
    ensures var norm := root(Dot(v.Keys, v, v));
            && norm > 0.0 && IsUnit(Scaled(v, norm))
            && forall t :: t in v ==> Scaled(v, norm)[t] > 0.0
  {
    PositiveSquares(v);
    var square := Dot(v.Keys, v, v);
    var norm := root(square);
    assert norm > 0.0 && norm * norm == square;
    var w := Scaled(v, norm);
    DotScaled(v, norm, square);
    assert w.Keys == v.Keys;
    forall t | t in v ensures w[t] > 0.0 { PositiveQuotient(v[t], norm); }
  }

  lemma UnitFactor(x: real, y: real)
    requires y != 0.0 && x * y == y
    ensures x == 1.0
  {
    assert (x - 1.0) * y == 0.0;
  }

  // ----- the index -----

  type Document = seq<string>

  /** How a document weighs one of its tokens: count in the document, document frequency, documents. */
  type Weighing = (nat, nat, nat) -> real

  datatype Index = Index(df: map<string, nat>, vectors: map<nat, Vector>, postings: map<string, seq<nat>>)

  /** The document-frequency limit: `max(2, int(count * ratio))`. */
  function MaxDf(count: nat, ratio: real): nat {
    var product := count as real * ratio;
    if product < 3.0 then 2 else product.Floor
  }

  /** It is the whole part of the product, but never below two. */
  lemma MaxDfExact(count: nat, ratio: real)
    ensures MaxDf(count, ratio) >= 2
    ensures MaxDf(count, ratio) == 2 || MaxDf(count, ratio) as real <= count as real * ratio
    ensures count as real * ratio < MaxDf(count, ratio) as real + 1.0
  {
  }

  ghost function HoldersIn(docs: map<nat, Document>, done: set<nat>, t: string): set<nat> {
    set d | d in done && d in docs && t in docs[d]
  }

  ghost function Holders(docs: map<nat, Document>, t: string): set<nat> { HoldersIn(docs, docs.Keys, t) }

  /** A token survives when at least two documents hold it and not too many do. */
  ghost predicate Kept(docs: map<nat, Document>, maxDf: nat, t: string) { 1 < |Holders(docs, t)| <= maxDf }

  ghost function RawVector(docs: map<nat, Document>, maxDf: nat, weigh: Weighing, d: nat): Vector
    requires d in docs
  {
    map t | t in docs[d] && Kept(docs, maxDf, t) ::
      weigh(multiset(docs[d])[t], |Holders(docs, t)|, if |docs| > 1 then |docs| else 1)
  }

  ghost function Norm(raw: Vector, root: real -> real): real {
    var norm := root(Dot(raw.Keys, raw, raw));
    if norm == 0.0 then 1.0 else norm
  }

  ghost predicate Ascending(p: seq<nat>) { forall i, j :: 0 <= i < j < |p| ==> p[i] < p[j] }

  ghost predicate IsIndex(docs: map<nat, Document>, maxDf: nat, weigh: Weighing, root: real -> real, index: Index) {
    && (forall t :: t in index.df <==> Kept(docs, maxDf, t))
    && (forall t :: t in index.df ==> index.df[t] == |Holders(docs, t)|)
    && index.vectors.Keys == docs.Keys
    && (forall d :: d in docs ==> index.vectors[d] == NormalVector(docs, maxDf, weigh, root, d))
    && ArePostings(index.vectors, index.postings)
  }

  ghost function NormalVector(docs: map<nat, Document>, maxDf: nat, weigh: Weighing, root: real -> real, d: nat): Vector
    requires d in docs
  {
    var raw := RawVector(docs, maxDf, weigh, d);
    Scaled(raw, Norm(raw, root))
  }

  /** Each posting list holds, in ascending order, exactly the documents whose vector has the token. */
  ghost predicate ArePostings(vectors: map<nat, Vector>, postings: map<string, seq<nat>>) {
    PostingsOf(vectors, vectors.Keys, postings)
  }

  ghost predicate PostingsOf(vectors: map<nat, Vector>, done: set<nat>, postings: map<string, seq<nat>>)
    requires done <= vectors.Keys
  {
    && (forall t :: t in postings ==> PostingOf(vectors, done, t, postings[t]))
    && (forall d, t :: d in done && t in vectors[d] ==> t in postings)
  }

  ghost predicate PostingOf(vectors: map<nat, Vector>, done: set<nat>, t: string, posting: seq<nat>)
    requires done <= vectors.Keys
  {
    Ascending(posting) && forall d :: d in posting <==> d in done && t in vectors[d]
  }

  lemma PostingStep(vectors: map<nat, Vector>, done: set<nat>, t: string, posting: seq<nat>, number: nat)
    requires done <= vectors.Keys && number in vectors && (forall d :: d in done ==> d < number)
    requires PostingOf(vectors, done, t, posting)
    ensures PostingOf(vectors, done + {number}, t, posting + if t in vectors[number] then [number] else [])
  {
    forall i | 0 <= i < |posting| ensures posting[i] < number {
      assert posting[i] in posting;
    }
  }

  lemma PostingsStep(vectors: map<nat, Vector>, done: set<nat>, before: map<string, seq<nat>>, number: nat,
      after: map<string, seq<nat>>)
    requires done <= vectors.Keys && number in vectors && (forall d :: d in done ==> d < number)
    requires PostingsOf(vectors, done, before)
    requires forall t :: t in after <==> t in before || t in vectors[number]
    requires forall t :: t in after ==>
              after[t] == (if t in before then before[t] else []) + (if t in vectors[number] then [number] else [])
    ensures PostingsOf(vectors, done + {number}, after)
  {
    forall t | t in after ensures PostingOf(vectors, done + {number}, t, after[t]) {
      PostingStep(vectors, done, t, if t in before then before[t] else [], number);
    }
  }

  /** Adds one to the frequency of each of a document's tokens. */
  method CountOnce(df: map<string, nat>, tokens: Document) returns (r: map<string, nat>)
    ensures forall t :: t in r <==> t in df || t in tokens
    ensures forall t :: t in r ==> r[t] == (if t in df then df[t] else 0) + (if t in tokens then 1 else 0)
  {
    r := df;
    ghost var all := set t | t in tokens;
    var rest := set t | t in tokens;
    while rest != {}
      invariant rest <= all
      invariant forall t :: t in r <==> t in df || t in all - rest
      invariant forall t :: t in r ==> r[t] == (if t in df then df[t] else 0) + (if t in all - rest then 1 else 0)
      decreases rest
    {
      var token :| token in rest;
      r := r[token := (if token in r then r[token] else 0) + 1];
      rest := rest - {token};
    }
  }

  lemma OneMoreHolder(docs: map<nat, Document>, done: set<nat>, d: nat, t: string)
    requires d in docs && d !in done
    ensures |HoldersIn(docs, done + {d}, t)| == |HoldersIn(docs, done, t)| + (if t in docs[d] then 1 else 0)
  {
    assert HoldersIn(docs, done + {d}, t) == HoldersIn(docs, done, t) + (if t in docs[d] then {d} else {});
  }

  /** `df[t]` counts the holders of `t` among the documents done so far. */
  ghost predicate Frequencies(docs: map<nat, Document>, done: set<nat>, df: map<string, nat>) {
    && (forall t :: t in df <==> |HoldersIn(docs, done, t)| > 0)
    && (forall t :: t in df ==> df[t] == |HoldersIn(docs, done, t)|)
  }

  method DocumentFrequencies(docs: map<nat, Document>) returns (df: map<string, nat>)
    ensures Frequencies(docs, docs.Keys, df)
  {
    df := map[];
    var rest := docs.Keys;
    while rest != {}
      invariant rest <= docs.Keys
      invariant Frequencies(docs, docs.Keys - rest, df)
      decreases rest
    {
      var d :| d in rest;
      ghost var done, before := docs.Keys - rest, df;
      df := CountOnce(df, docs[d]);
      rest := rest - {d};
      assert docs.Keys - rest == done + {d};
      forall t ensures |HoldersIn(docs, done + {d}, t)|
        == |HoldersIn(docs, done, t)| + (if t in docs[d] then 1 else 0) {
        OneMoreHolder(docs, done, d, t);
      }
    }
    assert docs.Keys - rest == docs.Keys;
  }

  /** How often each surviving token occurs in a document. */
  method CountTokens(tokens: Document, df: map<string, nat>) returns (counts: map<string, nat>)
    ensures forall t :: t in counts <==> t in tokens && t in df
    ensures forall t :: t in counts ==> counts[t] == multiset(tokens)[t]
  {
    counts := map[];
    for i := 0 to |tokens|
      invariant forall t :: t in counts <==> t in tokens[..i] && t in df
      invariant forall t :: t in counts ==> counts[t] == multiset(tokens[..i])[t]
    {
      var token := tokens[i];
      assert tokens[..i + 1] == tokens[..i] + [token];
      if token in df {
        counts := counts[token := (if token in counts then counts[token] else 0) + 1];
      }
    }
    assert tokens[..|tokens|] == tokens;
  }

  method WeighTokens(counts: map<string, nat>, df: map<string, nat>, docCount: nat, weigh: Weighing)
      returns (vector: Vector)
    requires counts.Keys <= df.Keys
    ensures vector == map t | t in counts :: weigh(counts[t], df[t], docCount)
  {
    vector := map[];
    var rest := counts.Keys;
    while rest != {}
      invariant rest <= counts.Keys
      invariant vector == map t | t in counts && t !in rest :: weigh(counts[t], df[t], docCount)
      decreases rest
    {
      var token :| token in rest;
      vector := vector[token := weigh(counts[token], df[token], docCount)];
      rest := rest - {token};
    }
  }

  method Normalise(raw: Vector, root: real -> real) returns (vector: Vector)
    ensures vector == Scaled(raw, Norm(raw, root))
  {
    if raw == map[] {
      assert Scaled(raw, Norm(raw, root)) == map[];
      return map[];
    }
    var square := AddProducts(raw, raw);
    var norm := root(square);
    if norm == 0.0 { norm := 1.0; }
    vector := Scaled(raw, norm);
  }

  method AddPostings(postings: map<string, seq<nat>>, number: nat, vector: Vector) returns (r: map<string, seq<nat>>)
    ensures forall t :: t in r <==> t in postings || t in vector
    ensures forall t :: t in r ==>
              r[t] == (if t in postings then postings[t] else []) + (if t in vector then [number] else [])
  {
    r := postings;
    var rest := vector.Keys;
    while rest != {}
      invariant rest <= vector.Keys
      invariant forall t :: t in r <==> t in postings || t in vector.Keys - rest
      invariant forall t :: t in r ==>
                  r[t] == (if t in postings then postings[t] else [])
                    + (if t in vector.Keys - rest then [number] else [])
      decreases rest
    {
      var token :| token in rest;
      r := r[token := (if token in r then r[token] else []) + [number]];
      rest := rest - {token};
    }
  }

  method Post(vectors: map<nat, Vector>, ghost done: set<nat>, postings: map<string, seq<nat>>, number: nat)
      returns (r: map<string, seq<nat>>)
    requires done <= vectors.Keys && number in vectors && (forall d :: d in done ==> d < number)
    requires PostingsOf(vectors, done, postings)
    ensures PostingsOf(vectors, done + {number}, r)
  {
    r := AddPostings(postings, number, vectors[number]);
    PostingsStep(vectors, done, postings, number, r);
  }

  method Ascend(s: set<nat>) returns (numbers: seq<nat>)
    ensures Ascending(numbers) && forall d :: d in numbers <==> d in s
  {
    assert IsTotalOrder(NatLe);
    numbers := SortSet(s, NatLe);
    SortedSetSorted(s, NatLe);
    SortedSetElements(s, NatLe);
    SortedSetDistinct(s, NatLe);
    assert forall i, j :: 0 <= i < j < |numbers| ==> NatLe(numbers[i], numbers[j]) && numbers[i] != numbers[j];
  }

  ghost function Below(numbers: seq<nat>, i: nat): set<nat>
    requires i <= |numbers|
  {
    set k | 0 <= k < i :: numbers[k]
  }

  lemma BelowNext(numbers: seq<nat>, i: nat)
    requires i < |numbers| && Ascending(numbers)
    ensures Below(numbers, i + 1) == Below(numbers, i) + {numbers[i]}
    ensures forall d :: d in Below(numbers, i) ==> d < numbers[i]
  {
  }

  method InvertIndex(vectors: map<nat, Vector>) returns (postings: map<string, seq<nat>>)
    ensures ArePostings(vectors, postings)
  {
    var numbers := Ascend(vectors.Keys);
    postings := map[];
    for i := 0 to |numbers|
      invariant Below(numbers, i) <= vectors.Keys && PostingsOf(vectors, Below(numbers, i), postings)
    {
      BelowNext(numbers, i);
      assert numbers[i] in numbers;
      postings := Post(vectors, Below(numbers, i), postings, numbers[i]);
    }
    assert Below(numbers, |numbers|) == vectors.Keys by {
      assert forall d :: d in vectors ==> d in numbers;
    }
  }

  ghost predicate Vectored(docs: map<nat, Document>, maxDf: nat, weigh: Weighing, root: real -> real,
      vectors: map<nat, Vector>) {
    forall d :: d in vectors ==> d in docs && vectors[d] == NormalVector(docs, maxDf, weigh, root, d)
  }

  lemma RawVectorIs(docs: map<nat, Document>, maxDf: nat, weigh: Weighing, d: nat, df: map<string, nat>,
      counts: map<string, nat>)
    requires d in docs
    requires forall t :: t in df <==> Kept(docs, maxDf, t)
    requires forall t :: t in df ==> df[t] == |Holders(docs, t)|
    requires forall t :: t in counts <==> t in docs[d] && t in df
    requires forall t :: t in counts ==> counts[t] == multiset(docs[d])[t]
    ensures RawVector(docs, maxDf, weigh, d)
         == map t | t in counts :: weigh(counts[t], df[t], if |docs| > 1 then |docs| else 1)
  {
  }

  method BuildVectors(docs: map<nat, Document>, maxDf: nat, df: map<string, nat>, weigh: Weighing, root: real -> real)
      returns (vectors: map<nat, Vector>)
    requires forall t :: t in df <==> Kept(docs, maxDf, t)
    requires forall t :: t in df ==> df[t] == |Holders(docs, t)|
    ensures vectors.Keys == docs.Keys && Vectored(docs, maxDf, weigh, root, vectors)
  {
    vectors := map[];
    var rest := docs.Keys;
    while rest != {}
      invariant rest <= docs.Keys && vectors.Keys == docs.Keys - rest
      invariant Vectored(docs, maxDf, weigh, root, vectors)
      decreases rest
    {
      var number :| number in rest;
      var counts := CountTokens(docs[number], df);
      var raw := WeighTokens(counts, df, if |docs| > 1 then |docs| else 1, weigh);
      RawVectorIs(docs, maxDf, weigh, number, df, counts);
      var vector := Normalise(raw, root);
      vectors := vectors[number := vector];
      rest := rest - {number};
    }
  }

  /** `self.df`: the frequencies that lie strictly above one and at most at the limit. */
  method Prune(docs: map<nat, Document>, all: map<string, nat>, maxDf: nat) returns (df: map<string, nat>)
    requires Frequencies(docs, docs.Keys, all)
    ensures forall t :: t in df <==> Kept(docs, maxDf, t)
    ensures forall t :: t in df ==> df[t] == |Holders(docs, t)|
  {
    df := map t | t in all && 1 < all[t] <= maxDf :: all[t];
  }

  lemma IndexIs(docs: map<nat, Document>, maxDf: nat, weigh: Weighing, root: real -> real, index: Index)
    requires forall t :: t in index.df <==> Kept(docs, maxDf, t)
    requires forall t :: t in index.df ==> index.df[t] == |Holders(docs, t)|
    requires index.vectors.Keys == docs.Keys && Vectored(docs, maxDf, weigh, root, index.vectors)
    requires ArePostings(index.vectors, index.postings)
    ensures IsIndex(docs, maxDf, weigh, root, index)
  {
  }

  /** `TfidfIndex.__init__`, on token lists. */
  method BuildIndex(docs: map<nat, Document>, ratio: real, weigh: Weighing, root: real -> real) returns (index: Index)
    ensures IsIndex(docs, MaxDf(if |docs| > 1 then |docs| else 1, ratio), weigh, root, index)
  {
    var maxDf := MaxDf(if |docs| > 1 then |docs| else 1, ratio);
    var all := DocumentFrequencies(docs);
    var df := Prune(docs, all, maxDf);
    var vectors := BuildVectors(docs, maxDf, df, weigh, root);
    var postings := InvertIndex(vectors);
    index := Index(df, vectors, postings);
    IndexIs(docs, maxDf, weigh, root, index);
  }

  lemma VectorTokens(docs: map<nat, Document>, maxDf: nat, weigh: Weighing, root: real -> real, index: Index, d: nat,
      t: string)
    requires IsIndex(docs, maxDf, weigh, root, index) && d in index.vectors
    ensures t in index.vectors[d] <==> t in docs[d] && Kept(docs, maxDf, t)
  {
  }

  lemma HoldersFit(docs: map<nat, Document>, t: string)
    ensures |Holders(docs, t)| <= |docs|
  {
    SubsetSize(Holders(docs, t), docs.Keys);
  }

  /** With positive weights, for the counts and frequencies that occur, every vector of the index is empty or of length one. */
  lemma VectorsAreUnit(docs: map<nat, Document>, maxDf: nat, weigh: Weighing, root: real -> real, index: Index, d: nat)
    requires IsIndex(docs, maxDf, weigh, root, index) && d in index.vectors
    requires IsSquareRoot(root) && forall c, f, n :: 1 <= c && 1 < f <= n ==> weigh(c, f, n) > 0.0
    ensures IsUnit(index.vectors[d]) && Nonnegative(index.vectors[d])
  {
    var raw := RawVector(docs, maxDf, weigh, d);
    forall t | t in raw ensures raw[t] > 0.0 {
      HoldersFit(docs, t);
      assert multiset(docs[d])[t] >= 1;
    }
    if raw == map[] {
      assert Scaled(raw, Norm(raw, root)) == map[];
    } else {
      ScaledIsUnit(raw, root);
    }
  }

  lemma {:induction false} AscendingSize(p: seq<nat>, s: set<nat>)
    requires Ascending(p) && forall d :: d in p <==> d in s
    ensures |p| == |s|
  {
    if p == [] {
      assert s == {};
    } else {
      var n := |p| - 1;
      assert p[n] in p;
      forall d ensures d in p[..n] <==> d in s - {p[n]} {
        if d in s - {p[n]} { assert d in p; }
      }
      AscendingSize(p[..n], s - {p[n]});
    }
  }

  /** A posting list is as long as the token's document frequency, so never above the pruning limit. */
  lemma PostingLength(docs: map<nat, Document>, maxDf: nat, weigh: Weighing, root: real -> real, index: Index,
      t: string)
    requires IsIndex(docs, maxDf, weigh, root, index) && t in index.postings
    ensures t in index.df ==> |index.postings[t]| == index.df[t]
    ensures |index.postings[t]| <= maxDf
  {
    forall d ensures d in index.postings[t] <==> d in Holders(docs, t) && Kept(docs, maxDf, t) {
      if d in docs { VectorTokens(docs, maxDf, weigh, root, index, d, t); }
    }
    AscendingSize(index.postings[t], if Kept(docs, maxDf, t) then Holders(docs, t) else {});
  }

  // ----- candidates -----

  /** Documents that share with `number` a token whose posting list is not skipped. */
  ghost function Candidates(index: Index, number: nat, maxPostings: nat): set<nat> {
    (set t, o | number in index.vectors && t in index.vectors[number] && t in index.postings
        && |index.postings[t]| <= maxPostings && o in index.postings[t] :: o) - {number}
  }

  method FindCandidates(index: Index, number: nat, maxPostings: nat) returns (out: set<nat>)
    ensures out == Candidates(index, number, maxPostings)
  {
    var vector := if number in index.vectors then index.vectors[number] else map[];
    out := {};
    var rest := vector.Keys;
    while rest != {}
      invariant rest <= vector.Keys
      invariant out == set t, o | t in vector && t !in rest && t in index.postings
                                  && |index.postings[t]| <= maxPostings && o in index.postings[t] :: o
      decreases rest
    {
      var token :| token in rest;
      rest := rest - {token};
      var posting := if token in index.postings then index.postings[token] else [];
      if |posting| > maxPostings {
        continue;
      }
      out := out + set o | o in posting;
    }
    out := out - {number};
  }

  /** `t` is in both vectors and its posting list is not skipped. */
  ghost predicate SharesToken(index: Index, maxPostings: nat, a: nat, b: nat, t: string)
    requires a in index.vectors && b in index.vectors
  {
    && t in index.vectors[a] && t in index.vectors[b]
    && t in index.postings && |index.postings[t]| <= maxPostings
  }

  /** Candidates are exactly the documents that share a scanned token, so being one is mutual. */
  lemma CandidatesExact(index: Index, maxPostings: nat, a: nat, b: nat)
    requires ArePostings(index.vectors, index.postings) && a in index.vectors && b in index.vectors
    ensures b in Candidates(index, a, maxPostings) <==> a != b && exists t :: SharesToken(index, maxPostings, a, b, t)
  {
    if a != b {
      if t :| SharesToken(index, maxPostings, a, b, t) {
        InPosting(index, b, t);
        assert b in index.postings[t];
      }
      if b in Candidates(index, a, maxPostings) {
        var t, o :| t in index.vectors[a] && t in index.postings && |index.postings[t]| <= maxPostings
          && o in index.postings[t] && o == b;
        InPosting(index, b, t);
        assert SharesToken(index, maxPostings, a, b, t);
      }
    }
  }

  lemma InPosting(index: Index, d: nat, t: string)
    requires ArePostings(index.vectors, index.postings) && d in index.vectors && t in index.postings
    ensures d in index.postings[t] <==> t in index.vectors[d]
  {
    assert PostingOf(index.vectors, index.vectors.Keys, t, index.postings[t]);
  }

  lemma CandidatesMutual(index: Index, maxPostings: nat, a: nat, b: nat)
    requires ArePostings(index.vectors, index.postings) && a in index.vectors && b in index.vectors
    ensures b in Candidates(index, a, maxPostings) <==> a in Candidates(index, b, maxPostings)
  {
    CandidatesExact(index, maxPostings, a, b);
    CandidatesExact(index, maxPostings, b, a);
    forall t ensures SharesToken(index, maxPostings, a, b, t) <==> SharesToken(index, maxPostings, b, a, t) {}
  }

  lemma CandidatesKnown(index: Index, maxPostings: nat, a: nat)
    requires ArePostings(index.vectors, index.postings)
    ensures Candidates(index, a, maxPostings) <= index.vectors.Keys - {a}
  {
    forall b | b in Candidates(index, a, maxPostings) ensures b in index.vectors {
      var t, o :| t in index.vectors[a] && t in index.postings && |index.postings[t]| <= maxPostings
        && o in index.postings[t] && o == b;
      assert PostingOf(index.vectors, index.vectors.Keys, t, index.postings[t]);
    }
  }

  /** When the pruning limit is within the posting limit, no pair with any similarity is missed. */
  lemma {:induction false} SimilarAreCandidates(docs: map<nat, Document>, maxDf: nat, weigh: Weighing,
      root: real -> real, index: Index, maxPostings: nat, a: nat, b: nat)
    requires IsIndex(docs, maxDf, weigh, root, index) && maxDf <= maxPostings
    requires a in docs && b in docs && a != b
    requires Similarity(index.vectors[a], index.vectors[b]) != 0.0
    ensures b in Candidates(index, a, maxPostings)
  {
    var u, v := index.vectors[a], index.vectors[b];
    SimilarityIsShared(u, v);
    assert u.Keys * v.Keys != {};
    var t :| t in u.Keys * v.Keys;
    InPostings(index, a, t);
    PostingLength(docs, maxDf, weigh, root, index, t);
    assert SharesToken(index, maxPostings, a, b, t);
    CandidatesExact(index, maxPostings, a, b);
  }

  lemma InPostings(index: Index, d: nat, t: string)
    requires ArePostings(index.vectors, index.postings) && d in index.vectors && t in index.vectors[d]
    ensures t in index.postings
  {
  }
}
