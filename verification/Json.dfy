/**
 Canonical JSON (src/impact2/ids.py): the text that every content-addressed identifier hashes, and
 why two different values never share it. Strings are escaped as section 7 of RFC 8259 requires and
 as Python's encoder does without ASCII folding.
 */
module Json {
  import opened Ordering
  import opened Decimal

  /** A value after `_canonicalise`. A float is kept as the text Python prints for it. */
  datatype Value =
    | Null
    | Bool(b: bool)
    | Int(n: int)
    | Float(text: string)
    | Str(s: string)
    | List(items: seq<Value>)
    | Obj(m: map<string, Value>)

  predicate IsNumeral(c: char) { IsDigit(c) || c in "+-.e" }

  /** Python prints every finite float with a point or an exponent. */
  predicate FloatText(t: string) {
    && t != "" && (IsDigit(t[0]) || t[0] == '-')
    && (forall i :: 0 <= i < |t| ==> IsNumeral(t[i]))
    && exists i :: 0 <= i < |t| && t[i] in ".e"
  }

  ghost predicate Valid(v: Value) {
    match v
    case Float(t) => FloatText(t)
    case List(items) => forall i :: 0 <= i < |items| ==> Valid(items[i])
    case Obj(m) => forall k :: k in m ==> Valid(m[k])
    case _ => true
  }

  // ----- printing; `rest` is whatever text follows -----

  function Hex(d: nat): char
    requires d < 16
  {
    if d < 10 then DigitOf(d) else ('a' as int + d - 10) as char
  }

  function EscapeChar(c: char): string {
    if c == '"' then "\\\""
    else if c == '\\' then "\\\\"
    else if c == '\n' then "\\n"
    else if c == '\r' then "\\r"
    else if c == '\t' then "\\t"
    else if c == '\U{0008}' then "\\b"
    else if c == '\U{000C}' then "\\f"
    else if c < ' ' then ['\\', 'u', '0', '0', Hex(c as int / 16), Hex(c as int % 16)]
    else [c]
  }

  /** The rest of a string literal after its opening quote. */
  function EmitString(s: string, rest: string): string {
    if s == "" then "\"" + rest else EscapeChar(s[0]) + EmitString(s[1..], rest)
  }

  function IntText(n: int): (t: string)
    ensures t != "" && (IsDigit(t[0]) || t[0] == '-')
    ensures forall i :: 0 <= i < |t| ==> IsDigit(t[i]) || t[i] == '-'
  {
    if n < 0 then "-" + Show(-n) else Show(n)
  }

  ghost function Emit(v: Value, rest: string): string
    decreases v, 1, 0
  {
    match v
    case Null => "null" + rest
    case Bool(b) => (if b then "true" else "false") + rest
    case Int(n) => IntText(n) + rest
    case Float(t) => t + rest
    case Str(s) => "\"" + EmitString(s, rest)
    case List(items) => "[" + EmitItems(v, 0, rest)
    case Obj(m) =>
      SortedSetElements(m.Keys, StringLe);
      "{" + EmitFields(v, SortedSet(m.Keys, StringLe), 0, rest)
  }

  ghost function EmitItems(v: Value, i: nat, rest: string): string
    requires v.List? && i <= |v.items|
    decreases v, 0, |v.items| - i
  {
    if i == |v.items| then "]" + rest
    else (if i == 0 then "" else ",") + Emit(v.items[i], EmitItems(v, i + 1, rest))
  }

  /** Members in key order, as `sort_keys` asks. */
  ghost function EmitFields(v: Value, keys: seq<string>, i: nat, rest: string): string
    requires v.Obj? && (forall k :: k in keys ==> k in v.m) && i <= |keys|
    decreases v, 0, |keys| - i
  {
    if i == |keys| then "}" + rest
    else (if i == 0 then "" else ",") + "\"" + EmitString(keys[i], ":" + Emit(v.m[keys[i]], EmitFields(v, keys, i + 1, rest)))
  }

  ghost function CanonicalJson(v: Value): string { Emit(v, "") }

  // ----- strings -----

  lemma EscapesArePrefixFree(c: char, d: char, t: string, u: string)
    requires EscapeChar(c) + t == EscapeChar(d) + u
    ensures c == d && t == u
  {
    var x, y := EscapeChar(c), EscapeChar(d);
    assert (x + t)[0] == (y + u)[0];
    EscapeShape(c);
    EscapeShape(d);
    if |x| > 1 { assert (x + t)[1] == x[1] && (y + u)[1] == y[1]; }
    assert |x| == |y|;
    assert x == (x + t)[..|x|] && y == (y + u)[..|y|];
    assert t == (x + t)[|x|..] && u == (y + u)[|y|..];
    EscapeInjective(c, d);
  }

  lemma EscapeShape(c: char)
    ensures var x := EscapeChar(c);
            && ((x == [c] && c !in "\"\\" && c >= ' ') || (|x| > 1 && x[0] == '\\'))
            && (|x| > 1 ==> |x| == if x[1] == 'u' then 6 else 2)
  {
  }

  lemma EscapeInjective(c: char, d: char)
    requires EscapeChar(c) == EscapeChar(d)
    ensures c == d
  {
  }

  lemma {:induction false} StringsUnambiguous(s: string, t: string, r: string, u: string)
    requires EmitString(s, r) == EmitString(t, u)
    ensures s == t && r == u
  {
    var x, y := EmitString(s, r), EmitString(t, u);
    if s != "" { EscapeShape(s[0]); }
    if t != "" { EscapeShape(t[0]); }
    if s == "" || t == "" {
      assert x[0] == y[0];
      assert s == "" && t == "";
      assert r == x[1..] && u == y[1..];
    } else {
      EscapesArePrefixFree(s[0], t[0], EmitString(s[1..], r), EmitString(t[1..], u));
      StringsUnambiguous(s[1..], t[1..], r, u);
      assert s == [s[0]] + s[1..] && t == [t[0]] + t[1..];
    }
  }

  // ----- numbers -----

  /** What may follow a value: the end, or a character no value's text continues with. */
  predicate Ends(rest: string) { rest == "" || rest[0] in ",]}\n" }

  lemma NumeralsUnambiguous(a: string, b: string, r: string, u: string)
    requires a + r == b + u && Ends(r) && Ends(u)
    requires forall i :: 0 <= i < |a| ==> IsNumeral(a[i])
    requires forall i :: 0 <= i < |b| ==> IsNumeral(b[i])
    ensures a == b && r == u
  {
    var x := a + r;
    assert forall i :: 0 <= i < |a| ==> IsNumeral(x[i]);
    assert forall i :: 0 <= i < |b| ==> x[i] == b[i] && IsNumeral(x[i]);
    assert r != "" ==> x[|a|] == r[0];
    assert u != "" ==> x[|b|] == u[0];
    assert |a| == |b|;
    assert a == x[..|a|] && b == x[..|b|] && r == x[|a|..] && u == x[|b|..];
  }

  lemma IntTextInjective(m: int, n: int)
    requires IntText(m) == IntText(n)
    ensures m == n
  {
    if m < 0 {
      assert IntText(n)[0] == '-';
      assert IntText(m)[1..] == Show(-m) && IntText(n)[1..] == Show(-n);
      ShowInjective(-m, -n);
    } else {
      assert IsDigit(IntText(n)[0]);
      ShowInjective(m, n);
    }
  }

  // ----- values -----

  /** What a value's text starts with tells which kind of value it is. */
  predicate StartsAs(v: Value, c: char) {
    match v
    case Null => c == 'n'
    case Bool(b) => c == if b then 't' else 'f'
    case Int(_) => IsDigit(c) || c == '-'
    case Float(_) => IsDigit(c) || c == '-'
    case Str(_) => c == '"'
    case List(_) => c == '['
    case Obj(_) => c == '{'
  }

  lemma FirstCharacter(v: Value, rest: string)
    requires Valid(v)
    ensures Emit(v, rest) != "" && StartsAs(v, Emit(v, rest)[0])
  {
  }

  lemma Tail(c: char, t: string, u: string)
    requires [c] + t == [c] + u
    ensures t == u
  {
    assert t == ([c] + t)[1..] && u == ([c] + u)[1..];
  }

  /** A value's text is a prefix code: whatever may follow it, it can be read in only one way. */
  lemma {:induction false} Unambiguous(v: Value, w: Value, r: string, u: string)
    requires Valid(v) && Valid(w) && Ends(r) && Ends(u)
    requires Emit(v, r) == Emit(w, u)
    ensures v == w && r == u
    decreases v, 1, 0
  {
    SameKind(v, w, r, u);
    match v
    case Null => Word("null", r, u);
    case Bool(b) => Word(if b then "true" else "false", r, u);
    case Int(_) => NumbersUnambiguous(v, w, r, u);
    case Float(_) => NumbersUnambiguous(v, w, r, u);
    case Str(_) =>
      Tail('"', EmitString(v.s, r), EmitString(w.s, u));
      StringsUnambiguous(v.s, w.s, r, u);
    case List(_) => ListsUnambiguous(v, w, r, u);
    case Obj(_) => ObjectsUnambiguous(v, w, r, u);
  }

  /** The first character tells the kind of value. */
  lemma SameKind(v: Value, w: Value, r: string, u: string)
    requires Valid(v) && Valid(w) && Emit(v, r) == Emit(w, u)
    ensures v.Null? || v.Bool? ==> v == w
    ensures v.Int? || v.Float? ==> w.Int? || w.Float?
    ensures (v.Str? ==> w.Str?) && (v.List? ==> w.List?) && (v.Obj? ==> w.Obj?)
  {
    FirstCharacter(v, r);
    FirstCharacter(w, u);
  }

  lemma ListsUnambiguous(v: Value, w: Value, r: string, u: string)
    requires v.List? && w.List? && Valid(v) && Valid(w) && Ends(r) && Ends(u)
    requires Emit(v, r) == Emit(w, u)
    ensures v == w && r == u
    decreases v, 0, |v.items| + 1
  {
    Tail('[', EmitItems(v, 0, r), EmitItems(w, 0, u));
    ItemsUnambiguous(v, w, 0, r, u);
    assert v.items[0..] == v.items && w.items[0..] == w.items;
  }

  lemma ObjectsUnambiguous(v: Value, w: Value, r: string, u: string)
    requires v.Obj? && w.Obj? && Valid(v) && Valid(w) && Ends(r) && Ends(u)
    requires Emit(v, r) == Emit(w, u)
    ensures v == w && r == u
    decreases v, 0, |SortedSet(v.m.Keys, StringLe)| + 1
  {
    SortedSetElements(v.m.Keys, StringLe);
    SortedSetElements(w.m.Keys, StringLe);
    var ks, ls := SortedSet(v.m.Keys, StringLe), SortedSet(w.m.Keys, StringLe);
    Tail('{', EmitFields(v, ks, 0, r), EmitFields(w, ls, 0, u));
    FieldsUnambiguous(v, w, ks, ls, 0, r, u);
    assert ks[0..] == ks && ls[0..] == ls;
    SameEntries(v.m, w.m, ks);
  }

  lemma SameEntries(m: map<string, Value>, n: map<string, Value>, keys: seq<string>)
    requires (forall k :: k in keys <==> k in m) && (forall k :: k in keys <==> k in n)
    requires forall k :: k in keys ==> k in m && k in n && m[k] == n[k]
    ensures m == n
  {
    assert forall k :: k in m <==> k in n;
  }

  lemma Word(t: string, r: string, u: string)
    requires t + r == t + u
    ensures r == u
  {
    assert r == (t + r)[|t|..] && u == (t + u)[|t|..];
  }

  function NumberText(v: Value): string
    requires v.Int? || v.Float?
  {
    if v.Int? then IntText(v.n) else v.text
  }

  lemma NumbersUnambiguous(v: Value, w: Value, r: string, u: string)
    requires (v.Int? || v.Float?) && (w.Int? || w.Float?) && Valid(v) && Valid(w) && Ends(r) && Ends(u)
    requires Emit(v, r) == Emit(w, u)
    ensures v == w && r == u
  {
    NumeralsUnambiguous(NumberText(v), NumberText(w), r, u);
    if v.Int? && w.Int? {
      IntTextInjective(v.n, w.n);
    } else if v.Int? {
      NoPointInInteger(v.n, w.text);
    } else if w.Int? {
      NoPointInInteger(w.n, v.text);
    }
  }

  lemma NoPointInInteger(n: int, t: string)
    requires FloatText(t)
    ensures IntText(n) != t
  {
    var i :| 0 <= i < |t| && t[i] in ".e";
    assert i < |IntText(n)| ==> IsDigit(IntText(n)[i]) || IntText(n)[i] == '-';
  }

  lemma {:induction false} ItemsUnambiguous(v: Value, w: Value, i: nat, r: string, u: string)
    requires v.List? && w.List? && Valid(v) && Valid(w) && i <= |v.items| && i <= |w.items| && Ends(r) && Ends(u)
    requires EmitItems(v, i, r) == EmitItems(w, i, u)
    ensures v.items[i..] == w.items[i..] && r == u
    decreases v, 0, |v.items| - i
  {
    ItemsEnd(v, i, r);
    ItemsEnd(w, i, u);
    if i == |v.items| {
      Tail(']', r, u);
    } else {
      ItemsEnd(v, i + 1, r);
      ItemsEnd(w, i + 1, u);
      ItemsHere(v, w, i, r, u);
      Unambiguous(v.items[i], w.items[i], EmitItems(v, i + 1, r), EmitItems(w, i + 1, u));
      ItemsUnambiguous(v, w, i + 1, r, u);
      SameRest(v.items, w.items, i);
    }
  }

  lemma SameRest<T>(a: seq<T>, b: seq<T>, i: nat)
    requires i < |a| && i < |b| && a[i] == b[i] && a[i + 1..] == b[i + 1..]
    ensures a[i..] == b[i..] && a[i..] == [a[i]] + a[i + 1..]
  {
    assert a[i..] == [a[i]] + a[i + 1..] && b[i..] == [b[i]] + b[i + 1..];
  }

  lemma ItemsHere(v: Value, w: Value, i: nat, r: string, u: string)
    requires v.List? && w.List? && i < |v.items| && i < |w.items|
    requires EmitItems(v, i, r) == EmitItems(w, i, u)
    ensures Emit(v.items[i], EmitItems(v, i + 1, r)) == Emit(w.items[i], EmitItems(w, i + 1, u))
  {
    PrefixTail(if i == 0 then "" else ",", EmitItems(v, i, r), EmitItems(w, i, u),
               Emit(v.items[i], EmitItems(v, i + 1, r)), Emit(w.items[i], EmitItems(w, i + 1, u)));
  }

  /** A list goes on with a comma exactly until its closing bracket. */
  lemma ItemsEnd(v: Value, i: nat, rest: string)
    requires v.List? && Valid(v) && i <= |v.items|
    ensures var x := EmitItems(v, i, rest); x != "" && (x[0] == ']' <==> i == |v.items|) && (i > 0 ==> Ends(x))
  {
    if i < |v.items| {
      FirstCharacter(v.items[i], EmitItems(v, i + 1, rest));
    }
  }

  lemma {:induction false} FieldsUnambiguous(v: Value, w: Value, ks: seq<string>, ls: seq<string>, i: nat, r: string,
      u: string)
    requires v.Obj? && w.Obj? && Valid(v) && Valid(w) && i <= |ks| && i <= |ls| && Ends(r) && Ends(u)
    requires (forall k :: k in ks ==> k in v.m) && (forall l :: l in ls ==> l in w.m)
    requires EmitFields(v, ks, i, r) == EmitFields(w, ls, i, u)
    ensures ks[i..] == ls[i..] && r == u
    ensures forall k :: k in ks[i..] ==> k in w.m && v.m[k] == w.m[k]
    decreases v, 0, |ks| - i
  {
    FieldsEnd(v, ks, i, r);
    FieldsEnd(w, ls, i, u);
    if i == |ks| {
      Tail('}', r, u);
    } else {
      FieldsEnd(v, ks, i + 1, r);
      FieldsEnd(w, ls, i + 1, u);
      FieldsHere(v, w, ks, ls, i, r, u);
      Unambiguous(v.m[ks[i]], w.m[ls[i]], EmitFields(v, ks, i + 1, r), EmitFields(w, ls, i + 1, u));
      FieldsUnambiguous(v, w, ks, ls, i + 1, r, u);
      SameRest(ks, ls, i);
    }
  }

  lemma FieldText(v: Value, ks: seq<string>, i: nat, r: string, tail: string)
    requires v.Obj? && i < |ks| && (forall k :: k in ks ==> k in v.m)
    requires tail == Emit(v.m[ks[i]], EmitFields(v, ks, i + 1, r))
    ensures EmitFields(v, ks, i, r) == (if i == 0 then "\"" else ",\"") + EmitString(ks[i], ":" + tail)
  {
    if i > 0 { assert "," + "\"" == ",\""; } else { assert "" + "\"" == "\""; }
  }

  lemma FieldsHere(v: Value, w: Value, ks: seq<string>, ls: seq<string>, i: nat, r: string, u: string)
    requires v.Obj? && w.Obj? && i < |ks| && i < |ls|
    requires (forall k :: k in ks ==> k in v.m) && (forall l :: l in ls ==> l in w.m)
    requires EmitFields(v, ks, i, r) == EmitFields(w, ls, i, u)
    ensures ks[i] == ls[i]
    ensures Emit(v.m[ks[i]], EmitFields(v, ks, i + 1, r)) == Emit(w.m[ls[i]], EmitFields(w, ls, i + 1, u))
  {
    var t, t' := Emit(v.m[ks[i]], EmitFields(v, ks, i + 1, r)), Emit(w.m[ls[i]], EmitFields(w, ls, i + 1, u));
    FieldText(v, ks, i, r, t);
    FieldText(w, ls, i, u, t');
    FieldHead(if i == 0 then "\"" else ",\"", ks[i], ls[i], t, t', EmitFields(v, ks, i, r), EmitFields(w, ls, i, u));
  }

  /** A member's opening, key and colon are read in only one way. */
  lemma FieldHead(p: string, k: string, l: string, t: string, u: string, x: string, y: string)
    requires x == p + EmitString(k, ":" + t) && y == p + EmitString(l, ":" + u) && x == y
    ensures k == l && t == u
  {
    PrefixTail(p, x, y, EmitString(k, ":" + t), EmitString(l, ":" + u));
    StringsUnambiguous(k, l, ":" + t, ":" + u);
    Tail(':', t, u);
  }

  lemma PrefixTail(p: string, x: string, y: string, t: string, u: string)
    requires x == p + t && y == p + u && x == y
    ensures t == u
  {
    assert t == x[|p|..] && u == y[|p|..];
  }

  lemma FieldsEnd(v: Value, ks: seq<string>, i: nat, rest: string)
    requires v.Obj? && Valid(v) && (forall k :: k in ks ==> k in v.m) && i <= |ks|
    ensures var x := EmitFields(v, ks, i, rest); x != "" && (x[0] == '}' <==> i == |ks|) && (i > 0 ==> Ends(x))
  {
  }

  /** Two values have the same canonical text exactly when they are the same value. */
  lemma CanonicalJsonInjective(v: Value, w: Value)
    requires Valid(v) && Valid(w)
    ensures CanonicalJson(v) == CanonicalJson(w) <==> v == w
  {
    if CanonicalJson(v) == CanonicalJson(w) { Unambiguous(v, w, "", ""); }
  }

  // ----- what follows a value does not change its text -----

  lemma Associate(x: string, a: string, b: string)
    ensures (x + a) + b == x + (a + b)
  {
  }

  lemma {:induction false} EmitStringAppend(s: string, a: string, b: string)
    ensures EmitString(s, a + b) == EmitString(s, a) + b
  {
    if s == "" {
      Associate("\"", a, b);
    } else {
      EmitStringAppend(s[1..], a, b);
      Associate(EscapeChar(s[0]), EmitString(s[1..], a), b);
    }
  }

  lemma {:induction false} EmitAppend(v: Value, a: string, b: string)
    ensures Emit(v, a + b) == Emit(v, a) + b
    decreases v, 1, 0
  {
    match v
    case Null => Associate("null", a, b);
    case Bool(x) => Associate(if x then "true" else "false", a, b);
    case Int(n) => Associate(IntText(n), a, b);
    case Float(t) => Associate(t, a, b);
    case Str(s) =>
      EmitStringAppend(s, a, b);
      Associate("\"", EmitString(s, a), b);
    case List(_) =>
      EmitItemsAppend(v, 0, a, b);
      Associate("[", EmitItems(v, 0, a), b);
    case Obj(m) =>
      SortedSetElements(m.Keys, StringLe);
      var keys := SortedSet(m.Keys, StringLe);
      EmitFieldsAppend(v, keys, 0, a, b);
      Associate("{", EmitFields(v, keys, 0, a), b);
  }

  lemma {:induction false} EmitItemsAppend(v: Value, i: nat, a: string, b: string)
    requires v.List? && i <= |v.items|
    ensures EmitItems(v, i, a + b) == EmitItems(v, i, a) + b
    decreases v, 0, |v.items| - i
  {
    if i == |v.items| {
      Associate("]", a, b);
    } else {
      EmitItemsAppend(v, i + 1, a, b);
      EmitAppend(v.items[i], EmitItems(v, i + 1, a), b);
      Associate(if i == 0 then "" else ",", Emit(v.items[i], EmitItems(v, i + 1, a)), b);
    }
  }

  lemma {:induction false} EmitFieldsAppend(v: Value, keys: seq<string>, i: nat, a: string, b: string)
    requires v.Obj? && (forall k :: k in keys ==> k in v.m) && i <= |keys|
    ensures EmitFields(v, keys, i, a + b) == EmitFields(v, keys, i, a) + b
    decreases v, 0, |keys| - i
  {
    if i == |keys| {
      Associate("}", a, b);
    } else {
      EmitFieldsAppend(v, keys, i + 1, a, b);
      var t, t' := Emit(v.m[keys[i]], EmitFields(v, keys, i + 1, a)),
        Emit(v.m[keys[i]], EmitFields(v, keys, i + 1, a + b));
      EmitAppend(v.m[keys[i]], EmitFields(v, keys, i + 1, a), b);
      FieldText(v, keys, i, a, t);
      FieldText(v, keys, i, a + b, t');
      Associate(":", t, b);
      EmitStringAppend(keys[i], ":" + t, b);
      Associate(if i == 0 then "\"" else ",\"", EmitString(keys[i], ":" + t), b);
    }
  }
}
