/** The case-insensitive `*` matcher of the agility policy: a greedy scan, proved to decide the
    usual wildcard relation. */
module Glob {
  import opened Options

  /** What a pattern means: `*` stands for any text, every other character for itself. */
  predicate Matches(p: string, t: string)
    decreases |p| + |t|
  {
    if p == "" then t == ""
    else if p[0] == '*' then Matches(p[1..], t) || (t != "" && Matches(p, t[1..]))
    else t != "" && t[0] == p[0] && Matches(p[1..], t[1..])
  }

  function Split(p: string): (parts: seq<string>)
    ensures |parts| >= 1
  {
    if p == "" then [""]
    else
      var rest := Split(p[1..]);
      if p[0] == '*' then [""] + rest else [[p[0]] + rest[0]] + rest[1..]
  }

  function Join(parts: seq<string>): (p: string)
    requires |parts| >= 1
  {
    if |parts| == 1 then parts[0] else parts[0] + ("*" + Join(parts[1..]))
  }

  /** Where a text first occurs in another, from a position on. */
  function FindFrom(t: string, a: string, k: nat): (r: Option<nat>)
    requires k <= |t|
    ensures r.Some? ==> k <= r.value && r.value + |a| <= |t| && a <= t[r.value..]
    ensures forall j :: k <= j <= |t| && (r.Some? ==> j < r.value) ==> !(a <= t[j..])
    decreases |t| - k
  {
    if a <= t[k..] then Some(k) else if k == |t| then None else FindFrom(t, a, k + 1)
  }

  function Find(t: string, a: string): (r: Option<nat>)
    ensures r.Some? ==> r.value + |a| <= |t|
  {
    FindFrom(t, a, 0)
  }

  predicate EndsWith(t: string, a: string) {
    |a| <= |t| && t[|t| - |a|..] == a
  }

  predicate IsLiteral(a: string) {
    '*' !in a
  }

  // ---- The relation, part by part ----

  lemma SplitJoins(p: string)
    ensures Join(Split(p)) == p
    ensures forall i :: 0 <= i < |Split(p)| ==> IsLiteral(Split(p)[i])
    ensures |Split(p)| == 1 <==> '*' !in p
  {
    JoinOfSplit(p);
    SplitLiteral(p);
    SplitCount(p);
  }

  lemma {:induction false} JoinOfSplit(p: string)
    ensures Join(Split(p)) == p
  {
    if p != "" {
      JoinOfSplit(p[1..]);
      if p[0] == '*' {
        assert Split(p)[1..] == Split(p[1..]);
      } else {
        JoinLonger(p[0], Split(p[1..]));
      }
      assert p == [p[0]] + p[1..];
    }
  }

  lemma JoinLonger(c: char, parts: seq<string>)
    requires |parts| >= 1
    ensures Join([[c] + parts[0]] + parts[1..]) == [c] + Join(parts)
  {
    var more := [[c] + parts[0]] + parts[1..];
    assert more[1..] == parts[1..];
    if |parts| > 1 {
      assert ([c] + parts[0]) + ("*" + Join(parts[1..])) == [c] + (parts[0] + ("*" + Join(parts[1..])));
    }
  }

  lemma {:induction false} SplitLiteral(p: string)
    ensures forall i :: 0 <= i < |Split(p)| ==> IsLiteral(Split(p)[i])
  {
    if p != "" {
      SplitLiteral(p[1..]);
    }
  }

  lemma {:induction false} SplitCount(p: string)
    ensures |Split(p)| == 1 <==> '*' !in p
  {
    if p != "" {
      SplitCount(p[1..]);
      assert p == [p[0]] + p[1..];
    }
  }

  lemma {:induction false} LiteralPrefix(a: string, q: string, t: string)
    requires IsLiteral(a)
    ensures Matches(a + q, t) <==> a <= t && Matches(q, t[|a|..])
    decreases |a|
  {
    if a == "" {
      assert a + q == q && t[0..] == t;
    } else {
      assert (a + q)[1..] == a[1..] + q && (a + q)[0] == a[0];
      if t != "" && t[0] == a[0] {
        LiteralPrefix(a[1..], q, t[1..]);
        assert a <= t <==> a[1..] <= t[1..];
        assert a <= t ==> t[1..][|a| - 1..] == t[|a|..];
      }
    }
  }

  lemma {:induction false} StarSomewhere(q: string, t: string, k: nat)
    requires k <= |t| && Matches(q, t[k..])
    ensures Matches("*" + q, t)
    decreases k
  {
    assert ("*" + q)[1..] == q;
    if k == 0 {
      assert t[0..] == t;
    } else {
      assert t[1..][k - 1..] == t[k..];
      StarSomewhere(q, t[1..], k - 1);
    }
  }

  lemma {:induction false} StarAtSome(q: string, t: string) returns (k: nat)
    requires Matches("*" + q, t)
    ensures k <= |t| && Matches(q, t[k..])
    decreases |t|
  {
    assert ("*" + q)[1..] == q;
    if Matches(q, t) {
      assert t[0..] == t;
      k := 0;
    } else {
      k := StarAtSome(q, t[1..]);
      assert t[1..][k..] == t[k + 1..];
      k := k + 1;
    }
  }

  /** What a star accepts, it accepts behind any other text. */
  lemma StarSkips(q: string, t: string, k: nat)
    requires k <= |t| && Matches("*" + q, t[k..])
    ensures Matches("*" + q, t)
  {
    var j := StarAtSome(q, t[k..]);
    assert t[k..][j..] == t[k + j..];
    StarSomewhere(q, t, k + j);
  }

  /** After a star the first occurrence of a literal is as good as any. */
  lemma LeftmostSuffices(a: string, q: string, t: string)
    requires IsLiteral(a)
    ensures var at := Find(t, a);
            Matches("*" + (a + ("*" + q)), t) <==> at.Some? && Matches("*" + q, t[at.value + |a|..])
  {
    var at := Find(t, a);
    if Matches("*" + (a + ("*" + q)), t) {
      SomeThenLeftmost(a, q, t);
    }
    if at.Some? && Matches("*" + q, t[at.value + |a|..]) {
      assert t[at.value..][|a|..] == t[at.value + |a|..];
      LiteralPrefix(a, "*" + q, t[at.value..]);
      StarSomewhere(a + ("*" + q), t, at.value);
    }
  }

  lemma SomeThenLeftmost(a: string, q: string, t: string)
    requires IsLiteral(a) && Matches("*" + (a + ("*" + q)), t)
    ensures var at := Find(t, a); at.Some? && Matches("*" + q, t[at.value + |a|..])
  {
    var at := Find(t, a);
    var k := StarAtSome(a + ("*" + q), t);
    LiteralPrefix(a, "*" + q, t[k..]);
    assert at.Some? && at.value <= k;
    var u, d := t[at.value + |a|..], k - at.value;
    assert t[k..][|a|..] == u[d..];
    StarSkips(q, u, d);
  }

  /** A literal after the last star is a suffix. */
  lemma StarThenEnd(a: string, t: string)
    requires IsLiteral(a)
    ensures Matches("*" + a, t) <==> EndsWith(t, a)
  {
    assert a + "" == a;
    if Matches("*" + a, t) {
      var k := StarAtSome(a, t);
      LiteralPrefix(a, "", t[k..]);
      assert t[k..] == a;
    }
    if EndsWith(t, a) {
      var k := |t| - |a|;
      assert t[k..] == a && a[|a|..] == "";
      LiteralPrefix(a, "", t[k..]);
      StarSomewhere(a, t, k);
    }
  }

  lemma LiteralIsEqual(p: string, t: string)
    requires IsLiteral(p)
    ensures Matches(p, t) <==> t == p
  {
    assert p + "" == p;
    LiteralPrefix(p, "", t);
    assert p <= t ==> t == p + t[|p|..];
  }

  // ---- The scan ----

  ghost predicate AllLiteral(parts: seq<string>) {
    forall i :: 0 <= i < |parts| ==> IsLiteral(parts[i])
  }

  /** What is left to match once the parts before `i` are placed. */
  predicate Remaining(parts: seq<string>, i: nat, t: string)
    requires i <= |parts| && |parts| >= 1
  {
    if i == 0 then Matches(Join(parts), t) else if i < |parts| then Matches("*" + Join(parts[i..]), t) else true
  }

  lemma FirstPart(parts: seq<string>, t: string)
    requires |parts| >= 2 && AllLiteral(parts)
    ensures Remaining(parts, 0, t) <==> parts[0] <= t && Remaining(parts, 1, t[|parts[0]|..])
  {
    LiteralPrefix(parts[0], "*" + Join(parts[1..]), t);
  }

  lemma JoinFrom(parts: seq<string>, i: nat)
    requires i < |parts| - 1
    ensures Join(parts[i..]) == parts[i] + ("*" + Join(parts[i + 1..]))
  {
    assert parts[i..][1..] == parts[i + 1..];
  }

  lemma MiddlePart(parts: seq<string>, i: nat, t: string)
    requires 1 <= i < |parts| - 1 && AllLiteral(parts)
    ensures var at := Find(t, parts[i]);
            Remaining(parts, i, t) <==> at.Some? && Remaining(parts, i + 1, t[at.value + |parts[i]|..])
  {
    JoinFrom(parts, i);
    LeftmostSuffices(parts[i], Join(parts[i + 1..]), t);
  }

  lemma LastPart(parts: seq<string>, i: nat, t: string)
    requires 1 <= i == |parts| - 1 && AllLiteral(parts)
    ensures Remaining(parts, i, t) <==> EndsWith(t, parts[i])
  {
    assert Join(parts[i..]) == parts[i];
    StarThenEnd(parts[i], t);
  }

  lemma EmptyPart(parts: seq<string>, i: nat, t: string)
    requires i < |parts| && |parts| >= 2 && AllLiteral(parts) && parts[i] == ""
    ensures Remaining(parts, i, t) <==> Remaining(parts, i + 1, t)
  {
    assert t[0..] == t && t[|t|..] == "";
    if i == 0 {
      FirstPart(parts, t);
    } else if i == |parts| - 1 {
      LastPart(parts, i, t);
    } else {
      MiddlePart(parts, i, t);
    }
  }

  /** Place one part: the first at the start, the last at the end, the others where they first occur.
      Returns how far the scan advances. */
  method Place(parts: seq<string>, i: nat, t: string) returns (at: Option<nat>)
    requires i < |parts| && |parts| >= 2 && AllLiteral(parts)
    ensures at.Some? ==> at.value <= |t|
    ensures Remaining(parts, i, t) <==> at.Some? && Remaining(parts, i + 1, t[at.value..])
  {
    var part := parts[i];
    if part == "" {
      EmptyPart(parts, i, t);
      assert t[0..] == t;
      return Some(0);
    }
    if i == 0 {
      FirstPart(parts, t);
      return if part <= t then Some(|part|) else None;
    }
    if i == |parts| - 1 {
      LastPart(parts, i, t);
      return if EndsWith(t, part) then Some(0) else None;
    }
    MiddlePart(parts, i, t);
    at := Find(t, part);
    if at.Some? {
      at := Some(at.value + |part|);
    }
  }

  /** `glob_match`: the scan decides the relation. */
  method GlobMatch(lower: string -> string, pattern: string, text: string) returns (r: bool)
    ensures r <==> Matches(lower(pattern), lower(text))
  {
    var p, t := lower(pattern), lower(text);
    if '*' !in p {
      LiteralIsEqual(p, t);
      return t == p;
    }
    SplitJoins(p);
    r := Scan(Split(p), t);
  }

  method Scan(parts: seq<string>, t: string) returns (r: bool)
    requires |parts| >= 2 && AllLiteral(parts)
    ensures r <==> Matches(Join(parts), t)
  {
    var pos: nat := 0;
    assert t[0..] == t;
    for i := 0 to |parts|
      invariant pos <= |t| && (Remaining(parts, 0, t) <==> Remaining(parts, i, t[pos..]))
    {
      var at := Place(parts, i, t[pos..]);
      if at.None? {
        return false;
      }
      assert t[pos..][at.value..] == t[pos + at.value..];
      pos := pos + at.value;
    }
    return true;
  }
}
