/** Byte strings, the SHA3-256 digest as a parameter, and the two text renderings
    (lower-case hex, decimal) the audit log and the CBOM code feed to it. */
module ByteStrings {

  /** A Rust `String` or `Vec<u8>`: one `char` stands for one (UTF-8) byte. */
  type Bytes = string

  predicate IsDigest(d: Bytes) {
    |d| == 32 && forall i :: 0 <= i < 32 ==> d[i] as int < 256
  }

  /** `[u8; 32]` */
  type Digest = d: Bytes | IsDigest(d) witness seq(32, _ => '\0')

  /** `[0u8; 32]` */
  function ZeroDigest(): (d: Digest) {
    seq(32, _ => '\0')
  }

  /** `[a, b].concat()` */
  function Cat(a: Bytes, b: Bytes): (r: Bytes) {
    a + b
  }

  /** SHA3-256 is a parameter of everything below, so every result holds for every
      function of this type; nothing is assumed about it. */
  type Hash = Bytes -> Digest

  /** Two different inputs among `inputs` that `h` maps to one digest. `inputs` is always a
      set of byte strings that were really hashed, never "all byte strings": over all of
      them a collision exists for every fixed-length hash. */
  ghost predicate CollisionWithin(h: Hash, inputs: set<Bytes>) {
    exists x, y :: x in inputs && y in inputs && x != y && h(x) == h(y)
  }

  lemma CollisionGrows(h: Hash, few: set<Bytes>, many: set<Bytes>)
    requires CollisionWithin(h, few) && few <= many
    ensures CollisionWithin(h, many)
  {
    var x, y :| x in few && y in few && x != y && h(x) == h(y);
    assert x in many && y in many;
  }

  // ---- hex::encode ----

  function HexDigit(n: nat): (c: char)
    requires n < 16
    ensures IsHexDigit(c)
  {
    if n < 10 then ('0' as int + n) as char else ('a' as int + n - 10) as char
  }

  predicate IsHexDigit(c: char) {
    '0' <= c <= '9' || 'a' <= c <= 'f'
  }

  function HexByte(c: char): (r: string)
    requires c as int < 256
  {
    [HexDigit(c as int / 16), HexDigit(c as int % 16)]
  }

  lemma HexByteInjective(c: char, d: char)
    requires c as int < 256 && d as int < 256
    requires HexByte(c)[0] == HexByte(d)[0] && HexByte(c)[1] == HexByte(d)[1]
    ensures c == d
  {
    assert c as int == 16 * (c as int / 16) + c as int % 16;
    assert d as int == 16 * (d as int / 16) + d as int % 16;
  }

  function Hex(d: Digest): (r: string)
    ensures |r| == 64
    ensures forall i :: 0 <= i < 64 ==> IsHexDigit(r[i])
  {
    seq(64, i requires 0 <= i < 64 => HexByte(d[i / 2])[i % 2])
  }

  lemma HexInjective(d: Digest, e: Digest)
    requires Hex(d) == Hex(e)
    ensures d == e
  {
    forall k | 0 <= k < 32
      ensures d[k] == e[k]
    {
      assert Hex(d)[2 * k] == HexByte(d[k])[0] && Hex(e)[2 * k] == HexByte(e[k])[0];
      assert Hex(d)[2 * k + 1] == HexByte(d[k])[1] && Hex(e)[2 * k + 1] == HexByte(e[k])[1];
      HexByteInjective(d[k], e[k]);
    }
  }

  /** `sha3_256_hex` */
  function HashHex(h: Hash, data: Bytes): (r: string)
    ensures |r| == 64
    ensures forall i :: 0 <= i < 64 ==> IsHexDigit(r[i])
  {
    Hex(h(data))
  }

  /** Equal hex digests mean equal data, or a collision between exactly those two. */
  lemma HashHexBinds(h: Hash, x: Bytes, y: Bytes)
    requires HashHex(h, x) == HashHex(h, y)
    ensures x == y || CollisionWithin(h, {x, y})
  {
    HexInjective(h(x), h(y));
    assert x in {x, y} && y in {x, y};
  }

  // ---- decimal rendering of a u64 ----

  predicate IsDecDigit(c: char) {
    '0' <= c <= '9'
  }

  function Decimal(n: nat): (r: string)
    ensures |r| >= 1
    ensures forall i :: 0 <= i < |r| ==> IsDecDigit(r[i])
  {
    if n < 10 then [('0' as int + n) as char] else Decimal(n / 10) + [('0' as int + n % 10) as char]
  }

  /** The value a decimal rendering denotes, read left to right. */
  function DecimalValue(s: string): (n: int) {
    if s == "" then 0 else 10 * DecimalValue(s[..|s| - 1]) + (s[|s| - 1] as int - '0' as int)
  }

  lemma {:induction false} DecimalRoundTrip(n: nat)
    ensures DecimalValue(Decimal(n)) == n
  {
    if n < 10 {
      assert Decimal(n)[..0] == "";
    } else {
      DecimalRoundTrip(n / 10);
      assert Decimal(n)[..|Decimal(n)| - 1] == Decimal(n / 10);
    }
  }

  lemma DecimalInjective(m: nat, n: nat)
    requires Decimal(m) == Decimal(n)
    ensures m == n
  {
    DecimalRoundTrip(m);
    DecimalRoundTrip(n);
  }

  // ---- Texts joined with colons ----

  predicate NoColon(s: string) {
    forall i :: 0 <= i < |s| ==> s[i] != ':'
  }

  function TrailingPart(s: string): (n: nat)
    ensures n <= |s|
  {
    if s == "" || s[|s| - 1] == ':' then 0 else 1 + TrailingPart(s[..|s| - 1])
  }

  lemma {:induction false} TrailingPartIs(a: string, b: string)
    requires NoColon(b)
    ensures TrailingPart(a + ":" + b) == |b|
  {
    var s := a + ":" + b;
    if b == "" {
      assert s[|s| - 1] == ':';
    } else {
      assert s[|s| - 1] == b[|b| - 1];
      assert s[..|s| - 1] == a + ":" + b[..|b| - 1];
      TrailingPartIs(a, b[..|b| - 1]);
    }
  }

  lemma SplitAtLastColon(a: string, b: string, c: string, d: string)
    requires NoColon(b) && NoColon(d) && a + ":" + b == c + ":" + d
    ensures a == c && b == d
  {
    TrailingPartIs(a, b);
    TrailingPartIs(c, d);
    var s, t := a + ":" + b, c + ":" + d;
    assert s[|a| + 1..] == b && t[|c| + 1..] == d;
    assert s[..|a|] == a && t[..|c|] == c;
  }

  lemma ColonNotBefore(a: string, b: string, c: string, d: string)
    requires NoColon(c) && a + ":" + b == c + ":" + d
    ensures |a| >= |c|
  {
    var s := a + ":" + b;
    assert s[|a|] == ':' && forall i :: 0 <= i < |c| ==> s[i] == (c + ":" + d)[i] == c[i];
  }

  lemma SplitAtFirstColon(a: string, b: string, c: string, d: string)
    requires NoColon(a) && NoColon(c) && a + ":" + b == c + ":" + d
    ensures a == c && b == d
  {
    var s, t := a + ":" + b, c + ":" + d;
    ColonNotBefore(a, b, c, d);
    ColonNotBefore(c, d, a, b);
    assert s[..|a|] == a && t[..|c|] == c && s[|a| + 1..] == b && t[|c| + 1..] == d;
  }

  lemma DigitsHaveNoColon(n: nat)
    ensures NoColon(Decimal(n))
  {
    assert forall i :: 0 <= i < |Decimal(n)| ==> IsDecDigit(Decimal(n)[i]);
  }
}
