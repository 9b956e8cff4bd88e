/**
 A reader of JSON text as RFC 8259 defines it (sections 2 to 7, without insignificant white space), and the
 proof that it reads every canonical text back: what is hashed is JSON, and says exactly the value.
 */
module JsonReader {
  import opened Collections
  import opened Decimal
  import opened Ordering
  import opened Json

  // ----- strings (section 7) -----

  function HexValue(c: char): Option<nat> {
    if '0' <= c <= '9' then Some(c as int - '0' as int)
    else if 'a' <= c <= 'f' then Some(c as int - 'a' as int + 10)
    else if 'A' <= c <= 'F' then Some(c as int - 'A' as int + 10)
    else None
  }

  /** The character that a backslash and `c` stand for. */
  function Escaped(c: char): Option<char> {
    if c == '"' || c == '\\' || c == '/' then Some(c)
    else if c == 'b' then Some('\U{0008}')
    else if c == 'f' then Some('\U{000C}')
    else if c == 'n' then Some('\n')
    else if c == 'r' then Some('\r')
    else if c == 't' then Some('\t')
    else None
  }

  /** The four hexadecimal digits after `\u`, outside the surrogates. */
  function CodePoint(t: string): Option<char>
    requires |t| == 4
  {
    var a, b, c, d := HexValue(t[0]), HexValue(t[1]), HexValue(t[2]), HexValue(t[3]);
    if a.None? || b.None? || c.None? || d.None? then None
    else
      var n := ((a.value * 16 + b.value) * 16 + c.value) * 16 + d.value;
      if n < 0xD800 then Some(n as char) else None
  }

  /** The first character of a string literal's rest, and how many characters of text it takes. */
  function ReadChar(t: string): Option<(char, nat)>
    requires t != ""
    ensures ReadChar(t).Some? ==> 1 <= ReadChar(t).value.1 <= |t|
  {
    if t[0] == '\\' then
      if |t| >= 6 && t[1] == 'u' then match CodePoint(t[2..6]) case None => None case Some(c) => Some((c, 6))
      else if |t| >= 2 then match Escaped(t[1]) case None => None case Some(c) => Some((c, 2))
      else None
    else if t[0] < ' ' then None
    else Some((t[0], 1))
  }

  /** A string literal after its opening quote, and the text after its closing quote. */
  function ReadString(t: string): (r: Option<(string, string)>)
    ensures r.Some? ==> |r.value.1| < |t|
    decreases |t|
  {
    if t == "" then None
    else if t[0] == '"' then Some(("", t[1..]))
    else
      match ReadChar(t)
      case None => None
      case Some(first) =>
        match ReadString(t[first.1..])
        case None => None
        case Some(more) => Some(([first.0] + more.0, more.1))
  }

  // ----- numbers (section 6) -----

  predicate IsNumberChar(c: char) { '0' <= c <= '9' || c == '-' || c == '+' || c == '.' || c == 'e' || c == 'E' }

  function NumberLength(t: string): (n: nat)
    ensures n <= |t|
  {
    if t != "" && IsNumberChar(t[0]) then 1 + NumberLength(t[1..]) else 0
  }

  /** Without a point or an exponent a number is an integer; a float keeps its text. */
  function ReadNumber(t: string): Option<Value> {
    if exists i :: 0 <= i < |t| && (t[i] == '.' || t[i] == 'e' || t[i] == 'E') then Some(Float(t))
    else if t != "" && AllDigits(t) then Some(Int(Read(t)))
    else if |t| > 1 && t[0] == '-' && AllDigits(t[1..]) then Some(Int(0 - Read(t[1..])))
    else None
  }

  // ----- values (sections 3 to 5) -----

  function ReadValue(t: string): (r: Option<(Value, string)>)
    ensures r.Some? ==> |r.value.1| < |t|
    decreases |t|, 1
  {
    if "null" <= t then Some((Null, t[4..]))
    else if "true" <= t then Some((Bool(true), t[4..]))
    else if "false" <= t then Some((Bool(false), t[5..]))
    else if t == "" then None
    else if t[0] == '"' then
      match ReadString(t[1..]) case None => None case Some(s) => Some((Str(s.0), s.1))
    else if t[0] == '[' then
      if |t| > 1 && t[1] == ']' then Some((List([]), t[2..]))
      else match ReadItems(t[1..]) case None => None case Some(r) => Some((List(r.0), r.1))
    else if t[0] == '{' then
      if |t| > 1 && t[1] == '}' then Some((Obj(map[]), t[2..]))
      else match ReadMembers(t[1..]) case None => None case Some(r) => Some((Obj(r.0), r.1))
    else
      var n := NumberLength(t);
      if n == 0 then None
      else match ReadNumber(t[..n]) case None => None case Some(v) => Some((v, t[n..]))
  }

  /** Values with commas between them, and the closing bracket. */
  function ReadItems(t: string): (r: Option<(seq<Value>, string)>)
    ensures r.Some? ==> |r.value.1| < |t|
    decreases |t|, 2
  {
    match ReadValue(t)
    case None => None
    case Some(first) =>
      if first.1 == "" then None
      else if first.1[0] == ']' then Some(([first.0], first.1[1..]))
      else if first.1[0] != ',' then None
      else match ReadItems(first.1[1..]) case None => None case Some(more) => Some(([first.0] + more.0, more.1))
  }

  /** Members with commas between them, and the closing brace. Of equal names the last counts. */
  function ReadMembers(t: string): (r: Option<(map<string, Value>, string)>)
    ensures r.Some? ==> |r.value.1| < |t|
    decreases |t|, 2
  {
    if t == "" || t[0] != '"' then None
    else
      match ReadString(t[1..])
      case None => None
      case Some(name) =>
        if name.1 == "" || name.1[0] != ':' then None
        else
          match ReadValue(name.1[1..])
          case None => None
          case Some(first) =>
            if first.1 == "" then None
            else if first.1[0] == '}' then Some((map[name.0 := first.0], first.1[1..]))
            else if first.1[0] != ',' then None
            else
              match ReadMembers(first.1[1..])
              case None => None
              case Some(more) => Some((map[name.0 := first.0] + more.0, more.1))
  }

  // ----- reading back -----

  lemma WordReadBack(b: bool, rest: string)
    ensures ReadValue("null" + rest) == Some((Null, rest))
    ensures ReadValue((if b then "true" else "false") + rest) == Some((Bool(b), rest))
  {
    assert ("null" + rest)[4..] == rest;
    var t := (if b then "true" else "false") + rest;
    assert t[0] == if b then 't' else 'f';
    assert t[if b then 4 else 5..] == rest;
  }

  lemma ArrayStarts(t: string)
    requires t != "" && t[0] == '['
    ensures |t| > 1 && t[1] == ']' ==> ReadValue(t) == Some((List([]), t[2..]))
    ensures |t| > 1 && t[1] != ']' && ReadItems(t[1..]).Some? ==>
              ReadValue(t) == Some((List(ReadItems(t[1..]).value.0), ReadItems(t[1..]).value.1))
  {
  }

  lemma ObjectStarts(t: string)
    requires t != "" && t[0] == '{'
    ensures |t| > 1 && t[1] == '}' ==> ReadValue(t) == Some((Obj(map[]), t[2..]))
    ensures |t| > 1 && t[1] != '}' && ReadMembers(t[1..]).Some? ==>
              ReadValue(t) == Some((Obj(ReadMembers(t[1..]).value.0), ReadMembers(t[1..]).value.1))
  {
  }

  lemma NumberStarts(t: string, n: nat, v: Value)
    requires t != "" && IsNumberChar(t[0]) && t[0] != 'e' && NumberLength(t) == n && ReadNumber(t[..n]) == Some(v)
    ensures ReadValue(t) == Some((v, t[n..]))
  {
  }

  lemma CharReadBack(c: char, rest: string)
    ensures var t := EscapeChar(c) + rest; t[0] != '"' && ReadChar(t) == Some((c, |EscapeChar(c)|)) && t[|EscapeChar(c)|..] == rest
  {
    var x := EscapeChar(c);
    var t := x + rest;
    assert forall i :: 0 <= i < |x| ==> t[i] == x[i];
    if |x| == 6 {
      assert t[2..6] == x[2..6];
      ControlCode(c);
    }
  }

  /** A control character is written with its own code. */
  lemma ControlCode(c: char)
    requires |EscapeChar(c)| == 6
    ensures CodePoint(EscapeChar(c)[2..6]) == Some(c)
  {
    var n := c as int;
    assert n < 32;
    assert HexValue(Hex(n / 16)) == Some(n / 16) && HexValue(Hex(n % 16)) == Some(n % 16);
  }

  lemma {:induction false} StringReadBack(s: string, rest: string)
    ensures ReadString(EmitString(s, rest)) == Some((s, rest))
  {
    if s == "" {
      assert ("\"" + rest)[1..] == rest;
    } else {
      StringReadBack(s[1..], rest);
      CharReadBack(s[0], EmitString(s[1..], rest));
      assert s == [s[0]] + s[1..];
    }
  }

  lemma QuotedReadsBack(s: string, rest: string)
    ensures ReadValue("\"" + EmitString(s, rest)) == Some((Str(s), rest))
  {
    var t := "\"" + EmitString(s, rest);
    StringReadBack(s, rest);
    assert t[0] == '"' && t[1..] == EmitString(s, rest);
  }

  lemma {:induction false} NumberSpan(a: string, rest: string)
    requires (forall i :: 0 <= i < |a| ==> IsNumberChar(a[i])) && (rest == "" || !IsNumberChar(rest[0]))
    ensures NumberLength(a + rest) == |a|
  {
    if a == "" {
      assert a + rest == rest;
    } else {
      assert (a + rest)[1..] == a[1..] + rest;
      NumberSpan(a[1..], rest);
    }
  }

  lemma DigitsReadBack(t: string)
    requires t != "" && AllDigits(t)
    ensures ReadNumber(t) == Some(Int(Read(t))) && ReadNumber("-" + t) == Some(Int(0 - Read(t)))
  {
    var u := "-" + t;
    assert u[1..] == t;
    assert forall i :: 0 < i < |u| ==> u[i] == t[i - 1];
    assert !AllDigits(u) by { assert !IsDigit(u[0]); }
  }

  lemma NumberReadBack(v: Value)
    requires (v.Int? || v.Float?) && Valid(v)
    ensures ReadNumber(NumberText(v)) == Some(v)
  {
    if v.Int? {
      var size := if v.n < 0 then -v.n else v.n;
      ReadShow(size);
      DigitsReadBack(Show(size));
    }
  }

  lemma NumbersReadBack(v: Value, rest: string)
    requires (v.Int? || v.Float?) && Valid(v) && Ends(rest)
    ensures ReadValue(Emit(v, rest)) == Some((v, rest))
  {
    var a := NumberText(v);
    var t := a + rest;
    NumberReadBack(v);
    NumberSpan(a, rest);
    assert t[0] == a[0] && t[..|a|] == a && t[|a|..] == rest;
    NumberStarts(t, |a|, v);
  }

  /** Whatever may follow, the reader takes exactly the value and stops there. */
  lemma {:induction false} ReadsBack(v: Value, rest: string)
    requires Valid(v) && Ends(rest)
    ensures ReadValue(Emit(v, rest)) == Some((v, rest))
    decreases v, 1, 0
  {
    match v
    case Null => WordReadBack(true, rest);
    case Bool(b) => WordReadBack(b, rest);
    case Int(_) => NumbersReadBack(v, rest);
    case Float(_) => NumbersReadBack(v, rest);
    case Str(s) => QuotedReadsBack(s, rest);
    case List(items) => ListReadsBack(v, rest);
    case Obj(m) => ObjectReadsBack(v, rest);
  }

  lemma ListReadsBack(v: Value, rest: string)
    requires v.List? && Valid(v) && Ends(rest)
    ensures ReadValue(Emit(v, rest)) == Some((v, rest))
    decreases v, 0, |v.items| + 2
  {
    var body := EmitItems(v, 0, rest);
    BracketedReadsBack(v, rest, "[" + body, body);
  }

  lemma BracketedReadsBack(v: Value, rest: string, t: string, body: string)
    requires v.List? && Valid(v) && Ends(rest)
    requires body == EmitItems(v, 0, rest) && t == "[" + body
    ensures ReadValue(t) == Some((v, rest))
    decreases v, 0, |v.items| + 1
  {
    ItemsEnd(v, 0, rest);
    ArrayStarts(t);
    assert t[1..] == body && t[1] == body[0];
    if v.items == [] {
      assert body == "]" + rest && t[2..] == rest;
    } else {
      ItemsStart(v, rest);
      ItemsReadBack(v, 0, rest);
      assert v.items[0..] == v.items;
    }
  }

  lemma ItemsStart(v: Value, rest: string)
    requires v.List? && v.items != []
    ensures EmitItems(v, 0, rest) == ItemsText(v, 0, rest)
  {
    assert "" + ItemsText(v, 0, rest) == ItemsText(v, 0, rest);
  }

  /** The items from the `i`-th on, without a comma before it. */
  ghost function ItemsText(v: Value, i: nat, rest: string): string
    requires v.List? && i < |v.items|
  {
    Emit(v.items[i], EmitItems(v, i + 1, rest))
  }

  lemma LastItem(items: seq<Value>, i: nat, t: string, rest: string)
    requires i + 1 == |items| && ReadValue(t) == Some((items[i], "]" + rest))
    ensures ReadItems(t) == Some((items[i..], rest))
  {
    assert ("]" + rest)[1..] == rest && items[i..] == [items[i]];
  }

  lemma MoreItems(items: seq<Value>, i: nat, t: string, more: string, rest: string)
    requires i + 1 < |items| && ReadValue(t) == Some((items[i], "," + more))
      && ReadItems(more) == Some((items[i + 1..], rest))
    ensures ReadItems(t) == Some((items[i..], rest))
  {
    assert ("," + more)[1..] == more && items[i..] == [items[i]] + items[i + 1..];
  }

  lemma {:induction false} ItemsReadBack(v: Value, i: nat, rest: string)
    requires v.List? && Valid(v) && i < |v.items| && Ends(rest)
    ensures ReadItems(ItemsText(v, i, rest)) == Some((v.items[i..], rest))
    decreases v, 0, |v.items| - i
  {
    ItemsEnd(v, i + 1, rest);
    ReadsBack(v.items[i], EmitItems(v, i + 1, rest));
    if i + 1 == |v.items| {
      LastItem(v.items, i, ItemsText(v, i, rest), rest);
    } else {
      ItemsReadBack(v, i + 1, rest);
      MoreItems(v.items, i, ItemsText(v, i, rest), ItemsText(v, i + 1, rest), rest);
    }
  }

  /** The members from the `i`-th on, without a comma before it. */
  ghost function MembersText(v: Value, ks: seq<string>, i: nat, rest: string): string
    requires v.Obj? && i < |ks| && forall k :: k in ks ==> k in v.m
  {
    "\"" + EmitString(ks[i], ":" + Emit(v.m[ks[i]], EmitFields(v, ks, i + 1, rest)))
  }

  ghost function Part(m: map<string, Value>, ks: seq<string>): map<string, Value>
    requires forall k :: k in ks ==> k in m
  {
    map k | k in ks :: m[k]
  }

  lemma PartNext(m: map<string, Value>, ks: seq<string>, i: nat)
    requires i < |ks| && forall k :: k in ks ==> k in m
    ensures Part(m, ks[i..]) == map[ks[i] := m[ks[i]]] + Part(m, ks[i + 1..])
    ensures i + 1 == |ks| ==> Part(m, ks[i..]) == map[ks[i] := m[ks[i]]]
  {
    assert ks[i..] == [ks[i]] + ks[i + 1..];
  }

  lemma MembersStart(v: Value, ks: seq<string>, i: nat, rest: string)
    requires v.Obj? && i < |ks| && forall k :: k in ks ==> k in v.m
    ensures EmitFields(v, ks, i, rest) == (if i == 0 then "" else ",") + MembersText(v, ks, i, rest)
  {
    var tail := Emit(v.m[ks[i]], EmitFields(v, ks, i + 1, rest));
    FieldText(v, ks, i, rest, tail);
    if i > 0 { assert ",\"" + EmitString(ks[i], ":" + tail) == "," + MembersText(v, ks, i, rest); }
  }

  lemma {:induction false} MembersReadBack(v: Value, ks: seq<string>, i: nat, rest: string)
    requires v.Obj? && Valid(v) && i < |ks| && (forall k :: k in ks ==> k in v.m) && Ends(rest)
    ensures ReadMembers(MembersText(v, ks, i, rest)) == Some((Part(v.m, ks[i..]), rest))
    decreases v, 0, |ks| - i
  {
    var tail := EmitFields(v, ks, i + 1, rest);
    var value := Emit(v.m[ks[i]], tail);
    var t := MembersText(v, ks, i, rest);
    FieldsEnd(v, ks, i + 1, rest);
    ReadsBack(v.m[ks[i]], tail);
    StringReadBack(ks[i], ":" + value);
    assert t[1..] == EmitString(ks[i], ":" + value) && (":" + value)[1..] == value;
    PartNext(v.m, ks, i);
    if i + 1 == |ks| {
      assert tail == "}" + rest && tail[1..] == rest;
    } else {
      MembersStart(v, ks, i + 1, rest);
      assert tail[1..] == MembersText(v, ks, i + 1, rest);
      MembersReadBack(v, ks, i + 1, rest);
    }
  }

  lemma ObjectReadsBack(v: Value, rest: string)
    requires v.Obj? && Valid(v) && Ends(rest)
    ensures ReadValue(Emit(v, rest)) == Some((v, rest))
    decreases v, 0, |SortedSet(v.m.Keys, StringLe)| + 2
  {
    SortedSetElements(v.m.Keys, StringLe);
    var ks := SortedSet(v.m.Keys, StringLe);
    var body := EmitFields(v, ks, 0, rest);
    BracedReadsBack(v, ks, rest, "{" + body, body);
  }

  lemma BracedReadsBack(v: Value, ks: seq<string>, rest: string, t: string, body: string)
    requires v.Obj? && Valid(v) && Ends(rest) && forall k :: k in ks <==> k in v.m
    requires body == EmitFields(v, ks, 0, rest) && t == "{" + body
    ensures ReadValue(t) == Some((v, rest))
    decreases v, 0, |ks| + 1
  {
    FieldsEnd(v, ks, 0, rest);
    ObjectStarts(t);
    assert t[1..] == body && t[1] == body[0];
    WholePart(v.m, ks);
    if ks == [] {
      assert body == "}" + rest && t[2..] == rest;
    } else {
      MembersStart(v, ks, 0, rest);
      assert "" + MembersText(v, ks, 0, rest) == MembersText(v, ks, 0, rest);
      MembersReadBack(v, ks, 0, rest);
    }
  }

  lemma WholePart(m: map<string, Value>, ks: seq<string>)
    requires forall k :: k in ks <==> k in m
    ensures ks == [] ==> m == map[]
    ensures Part(m, ks[0..]) == m
  {
    assert ks[0..] == ks;
  }

  /** The canonical text of a value is JSON text, and reads as that value. */
  lemma CanonicalJsonReadsBack(v: Value)
    requires Valid(v)
    ensures ReadValue(CanonicalJson(v)) == Some((v, ""))
  {
    ReadsBack(v, "");
  }
}
