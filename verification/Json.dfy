/** The compact JSON text that `serde_json::to_vec` writes, and the proof that it is
    unambiguous: two values with the same text are the same value. `content_bytes` of an
    entry and of a checkpoint are such texts, so what a content hash commits to is fixed. */
module Json {
  import opened ByteStrings

  predicate NumeralChar(c: char) {
    '0' <= c <= '9' || c == '-' || c == '+' || c == '.' || c == 'e' || c == 'E'
  }

  predicate IsNumeral(s: string) {
    |s| > 0 && forall i :: 0 <= i < |s| ==> NumeralChar(s[i])
  }

  /** The text of a number; integers and floats are kept as the digits that are written. */
  type Numeral = s: string | IsNumeral(s) witness "0"

  datatype Value =
    | Null
    | Bool(b: bool)
    | Number(digits: Numeral)
    | Text(s: string)
    | Array(items: Items)
    | Object(fields: Fields)

  datatype Items = NoItems | Item(head: Value, tail: Items)

  datatype Fields = NoFields | Field(key: string, value: Value, rest: Fields)

  // ---- Writing ----

  // serde_json's escape table, byte by byte: some bytes get a two-byte escape, the other
  // control bytes six, the rest stand for themselves.

  predicate ShortEscape(c: char) {
    c == '\"' || c == '\\' || c == '\n' || c == '\r' || c == '\t' || c as int == 8 || c as int == 12
  }

  function ShortCode(c: char): (r: char)
    requires ShortEscape(c)
  {
    if c == '\n' then 'n' else if c == '\r' then 'r' else if c == '\t' then 't'
    else if c as int == 8 then 'b' else if c as int == 12 then 'f' else c
  }

  function EscapeChar(c: char): (r: string)
    ensures |r| >= 1
  {
    if ShortEscape(c) then ['\\', ShortCode(c)]
    else if c as int < 32 then ['\\', 'u', '0', '0', HexByte(c)[0], HexByte(c)[1]]
    else [c]
  }

  // Each writer puts its text in front of what comes after it, the way the buffer is filled.

  function EscapeTo(s: string, rest: string): (r: string) {
    if s == "" then rest else EscapeChar(s[0]) + EscapeTo(s[1..], rest)
  }

  function QuoteTo(s: string, rest: string): (r: string)
    ensures |r| >= 1 && r[0] == '\"'
  {
    ['\"'] + EscapeTo(s, ['\"'] + rest)
  }

  function WriteTo(v: Value, rest: string): (r: string)
    decreases v
    ensures |r| >= 1
  {
    match v
    case Null => "null" + rest
    case Bool(b) => (if b then "true" else "false") + rest
    case Number(digits) => digits + rest
    case Text(s) => QuoteTo(s, rest)
    case Array(items) => ['['] + (if items.NoItems? then [']'] + rest
                                  else WriteTo(items.head, ItemsTo(items.tail, rest)))
    case Object(fields) => ['{'] + (if fields.NoFields? then ['}'] + rest
                                    else QuoteTo(fields.key, [':'] + WriteTo(fields.value, FieldsTo(fields.rest, rest))))
  }

  function ItemsTo(items: Items, rest: string): (r: string)
    decreases items
    ensures |r| >= 1 && r[0] == if items.NoItems? then ']' else ','
  {
    match items
    case NoItems => [']'] + rest
    case Item(head, tail) => [','] + WriteTo(head, ItemsTo(tail, rest))
  }

  function FieldsTo(fields: Fields, rest: string): (r: string)
    decreases fields
    ensures |r| >= 1 && r[0] == if fields.NoFields? then '}' else ','
  {
    match fields
    case NoFields => ['}'] + rest
    case Field(key, value, more) => [','] + QuoteTo(key, [':'] + WriteTo(value, FieldsTo(more, rest)))
  }

  function Write(v: Value): (r: string) {
    WriteTo(v, "")
  }

  // ---- Reading it back is never ambiguous ----

  /** What may follow a value: nothing that could extend a number. */
  predicate Delimited(rest: string) {
    rest == "" || !NumeralChar(rest[0])
  }

  /** No escape is a proper prefix of another. */
  lemma EscapeCharPrefixFree(c: char, d: char, r: string, s: string)
    requires EscapeChar(c) + r == EscapeChar(d) + s
    ensures c == d && r == s
  {
    var p, q := EscapeChar(c), EscapeChar(d);
    var u, v := p + r, q + s;
    assert u[0] == p[0] && v[0] == q[0];
    if p[0] == '\\' {
      assert u[1] == p[1] && v[1] == q[1];
      if p[1] == 'u' {
        assert u[4] == p[4] && v[4] == q[4];
        assert u[5] == p[5] && v[5] == q[5];
        HexByteInjective(c, d);
      }
    }
    assert c == d;
    assert r == u[|p|..] && s == v[|q|..];
  }

  lemma ConsInjective(c: char, d: char, r: string, s: string)
    requires [c] + r == [d] + s
    ensures c == d && r == s
  {
    assert ([c] + r)[0] == c && ([d] + s)[0] == d;
    assert ([c] + r)[1..] == r && ([d] + s)[1..] == s;
  }

  lemma EscapeStart(s: string, rest: string)
    ensures EscapeTo(s, ['\"'] + rest) != ""
    ensures EscapeTo(s, ['\"'] + rest)[0] == '\"' <==> s == ""
  {
  }

  lemma {:induction false} EscapeUnambiguous(s: string, t: string, r1: string, r2: string)
    requires EscapeTo(s, ['\"'] + r1) == EscapeTo(t, ['\"'] + r2)
    ensures s == t && r1 == r2
    decreases |s|
  {
    EscapeStart(s, r1);
    EscapeStart(t, r2);
    if s == "" {
      ConsInjective('\"', '\"', r1, r2);
    } else {
      EscapeCharPrefixFree(s[0], t[0], EscapeTo(s[1..], ['\"'] + r1), EscapeTo(t[1..], ['\"'] + r2));
      EscapeUnambiguous(s[1..], t[1..], r1, r2);
      assert s == [s[0]] + s[1..] && t == [t[0]] + t[1..];
    }
  }

  lemma QuoteUnambiguous(s: string, t: string, r1: string, r2: string)
    requires QuoteTo(s, r1) == QuoteTo(t, r2)
    ensures s == t && r1 == r2
  {
    ConsInjective('\"', '\"', EscapeTo(s, ['\"'] + r1), EscapeTo(t, ['\"'] + r2));
    EscapeUnambiguous(s, t, r1, r2);
  }

  function NumeralPrefix(s: string): (n: nat) {
    if s == "" || !NumeralChar(s[0]) then 0 else 1 + NumeralPrefix(s[1..])
  }

  lemma {:induction false} NumeralPrefixIs(m: string, rest: string)
    requires forall i :: 0 <= i < |m| ==> NumeralChar(m[i])
    requires Delimited(rest)
    ensures NumeralPrefix(m + rest) == |m|
  {
    if m == "" {
      assert m + rest == rest;
    } else {
      NumeralPrefixIs(m[1..], rest);
      assert (m + rest)[1..] == m[1..] + rest;
    }
  }

  lemma NumeralUnambiguous(m: string, n: string, r1: string, r2: string)
    requires IsNumeral(m) && IsNumeral(n) && Delimited(r1) && Delimited(r2)
    requires m + r1 == n + r2
    ensures m == n && r1 == r2
  {
    NumeralPrefixIs(m, r1);
    NumeralPrefixIs(n, r2);
    var u, v := m + r1, n + r2;
    assert m == u[..|m|] && n == v[..|n|];
    assert r1 == u[|m|..] && r2 == v[|n|..];
  }

  /** The first byte of a value's text, which tells what kind of value follows. */
  function FirstByte(v: Value): (c: char) {
    match v
    case Null => 'n'
    case Bool(b) => if b then 't' else 'f'
    case Number(digits) => digits[0]
    case Text(_) => '\"'
    case Array(_) => '['
    case Object(_) => '{'
  }

  lemma FirstByteIs(v: Value, rest: string)
    ensures WriteTo(v, rest)[0] == FirstByte(v)
    ensures FirstByte(v) != ']'
  {
  }

  lemma {:induction false} WriteUnambiguous(a: Value, b: Value, r: string, s: string)
    requires WriteTo(a, r) == WriteTo(b, s)
    requires Delimited(r) && Delimited(s)
    ensures a == b && r == s
    decreases a, 1
  {
    FirstByteIs(a, r);
    FirstByteIs(b, s);
    assert FirstByte(a) == FirstByte(b);
    match a {
      case Null =>
        assert r == WriteTo(a, r)[4..] && s == WriteTo(b, s)[4..];
      case Bool(x) =>
        var n := if x then 4 else 5;
        assert r == WriteTo(a, r)[n..] && s == WriteTo(b, s)[n..];
      case Number(m) =>
        NumeralUnambiguous(m, b.digits, r, s);
      case Text(t) =>
        QuoteUnambiguous(t, b.s, r, s);
      case Array(items) =>
        ArrayUnambiguous(items, b.items, r, s);
      case Object(fields) =>
        ObjectUnambiguous(fields, b.fields, r, s);
    }
  }

  lemma {:induction false} ArrayUnambiguous(xs: Items, ys: Items, r: string, s: string)
    requires WriteTo(Array(xs), r) == WriteTo(Array(ys), s)
    requires Delimited(r) && Delimited(s)
    ensures xs == ys && r == s
    decreases xs, 2
  {
    var u := if xs.NoItems? then [']'] + r else WriteTo(xs.head, ItemsTo(xs.tail, r));
    var v := if ys.NoItems? then [']'] + s else WriteTo(ys.head, ItemsTo(ys.tail, s));
    ConsInjective('[', '[', u, v);
    if xs.Item? {
      FirstByteIs(xs.head, ItemsTo(xs.tail, r));
    }
    if ys.Item? {
      FirstByteIs(ys.head, ItemsTo(ys.tail, s));
    }
    if xs.Item? && ys.Item? {
      WriteUnambiguous(xs.head, ys.head, ItemsTo(xs.tail, r), ItemsTo(ys.tail, s));
      ItemsUnambiguous(xs.tail, ys.tail, r, s);
    } else {
      assert u[0] == v[0];
      ConsInjective(']', ']', r, s);
    }
  }

  lemma {:induction false} ItemsUnambiguous(xs: Items, ys: Items, r: string, s: string)
    requires ItemsTo(xs, r) == ItemsTo(ys, s)
    requires Delimited(r) && Delimited(s)
    ensures xs == ys && r == s
    decreases xs, 2
  {
    if xs.Item? && ys.Item? {
      ConsInjective(',', ',', WriteTo(xs.head, ItemsTo(xs.tail, r)), WriteTo(ys.head, ItemsTo(ys.tail, s)));
      WriteUnambiguous(xs.head, ys.head, ItemsTo(xs.tail, r), ItemsTo(ys.tail, s));
      ItemsUnambiguous(xs.tail, ys.tail, r, s);
    } else {
      ConsInjective(']', ']', r, s);
    }
  }

  lemma {:induction false} ObjectUnambiguous(xs: Fields, ys: Fields, r: string, s: string)
    requires WriteTo(Object(xs), r) == WriteTo(Object(ys), s)
    requires Delimited(r) && Delimited(s)
    ensures xs == ys && r == s
    decreases xs, 3
  {
    var u := if xs.NoFields? then ['}'] + r else QuoteTo(xs.key, [':'] + WriteTo(xs.value, FieldsTo(xs.rest, r)));
    var v := if ys.NoFields? then ['}'] + s else QuoteTo(ys.key, [':'] + WriteTo(ys.value, FieldsTo(ys.rest, s)));
    ConsInjective('{', '{', u, v);
    if xs.Field? && ys.Field? {
      FieldUnambiguous(xs, ys, r, s);
    } else {
      assert u[0] == v[0];
      ConsInjective('}', '}', r, s);
    }
  }

  lemma {:induction false} FieldUnambiguous(xs: Fields, ys: Fields, r: string, s: string)
    requires xs.Field? && ys.Field?
    requires QuoteTo(xs.key, [':'] + WriteTo(xs.value, FieldsTo(xs.rest, r)))
          == QuoteTo(ys.key, [':'] + WriteTo(ys.value, FieldsTo(ys.rest, s)))
    requires Delimited(r) && Delimited(s)
    ensures xs == ys && r == s
    decreases xs, 2
  {
    var p, q := WriteTo(xs.value, FieldsTo(xs.rest, r)), WriteTo(ys.value, FieldsTo(ys.rest, s));
    QuoteUnambiguous(xs.key, ys.key, [':'] + p, [':'] + q);
    ConsInjective(':', ':', p, q);
    WriteUnambiguous(xs.value, ys.value, FieldsTo(xs.rest, r), FieldsTo(ys.rest, s));
    FieldsUnambiguous(xs.rest, ys.rest, r, s);
  }

  lemma {:induction false} FieldsUnambiguous(xs: Fields, ys: Fields, r: string, s: string)
    requires FieldsTo(xs, r) == FieldsTo(ys, s)
    requires Delimited(r) && Delimited(s)
    ensures xs == ys && r == s
    decreases xs, 3
  {
    if xs.Field? && ys.Field? {
      ConsInjective(',', ',', QuoteTo(xs.key, [':'] + WriteTo(xs.value, FieldsTo(xs.rest, r))),
                    QuoteTo(ys.key, [':'] + WriteTo(ys.value, FieldsTo(ys.rest, s))));
      FieldUnambiguous(xs, ys, r, s);
    } else {
      ConsInjective('}', '}', r, s);
    }
  }

  /** Two values with the same text are the same value. */
  lemma WriteInjective(a: Value, b: Value)
    requires Write(a) == Write(b)
    ensures a == b
  {
    WriteUnambiguous(a, b, "", "");
  }
}
