/** Canonical lists: normalize every element, sort stably by a key of its content, derive its
    reference. When is the result independent of the order that came in? */
module Canonical {
  import opened Sorting

  // ---- Ordering of keys ----

  /** The order of tuples and vectors of strings. */
  predicate WordsLe(a: seq<string>, b: seq<string>) {
    a == [] || (b != [] && if a[0] == b[0] then WordsLe(a[1..], b[1..]) else LexLe(a[0], b[0]))
  }

  lemma {:induction false} WordsTotal(a: seq<string>, b: seq<string>)
    ensures WordsLe(a, b) || WordsLe(b, a)
  {
    if a != [] && b != [] {
      if a[0] == b[0] {
        WordsTotal(a[1..], b[1..]);
      } else {
        LexTotal(a[0], b[0]);
      }
    }
  }

  lemma {:induction false} WordsAntisymmetric(a: seq<string>, b: seq<string>)
    requires WordsLe(a, b) && WordsLe(b, a)
    ensures a == b
  {
    if a != [] {
      if a[0] != b[0] {
        LexAntisymmetric(a[0], b[0]);
      } else {
        WordsAntisymmetric(a[1..], b[1..]);
        assert a == [a[0]] + a[1..] && b == [b[0]] + b[1..];
      }
    }
  }

  lemma {:induction false} WordsTransitive(a: seq<string>, b: seq<string>, c: seq<string>)
    requires WordsLe(a, b) && WordsLe(b, c)
    ensures WordsLe(a, c)
  {
    if a != [] {
      if a[0] == b[0] == c[0] {
        WordsTransitive(a[1..], b[1..], c[1..]);
      } else if a[0] != b[0] && b[0] != c[0] {
        LexTransitive(a[0], b[0], c[0]);
        if a[0] == c[0] {
          LexAntisymmetric(a[0], b[0]);
        }
      }
    }
  }

  function ByKey<T(!new)>(key: T -> seq<string>): (le: (T, T) -> bool)
    ensures TotalPreorder(le)
    ensures forall x, y :: le(x, y) && le(y, x) ==> key(x) == key(y)
    ensures forall x, y :: le(x, y) == WordsLe(key(x), key(y))
  {
    var le := (x: T, y: T) => WordsLe(key(x), key(y));
    KeyOrder(key, le);
    le
  }

  lemma KeyOrder<T(!new)>(key: T -> seq<string>, le: (T, T) -> bool)
    requires forall x, y :: le(x, y) == WordsLe(key(x), key(y))
    ensures TotalPreorder(le)
    ensures forall x, y :: le(x, y) && le(y, x) ==> key(x) == key(y)
  {
    forall x, y
      ensures le(x, y) || le(y, x)
    {
      WordsTotal(key(x), key(y));
    }
    forall x, y, z | le(x, y) && le(y, z)
      ensures le(x, z)
    {
      WordsTransitive(key(x), key(y), key(z));
    }
    forall x, y | le(x, y) && le(y, x)
      ensures key(x) == key(y)
    {
      WordsAntisymmetric(key(x), key(y));
    }
  }

  // ---- Canonical form ----

  /** How a list is made canonical: `norm` rewrites the content, `ref` sets the reference, and
      `strip` clears what `ref` sets. */
  datatype Rules<!T> = Rules(norm: T -> T, key: T -> seq<string>, ref: T -> T, strip: T -> T)

  ghost predicate Lawful<T(!new)>(r: Rules<T>) {
    && (forall x :: r.key(r.strip(x)) == r.key(x) && r.ref(r.strip(x)) == r.ref(x))
    && (forall x :: r.strip(r.ref(x)) == r.strip(x))
  }

  function Canon<T(!new)>(r: Rules<T>, s: seq<T>): (c: seq<T>) {
    Map(SortBy(Map(s, r.norm), ByKey(r.key)), r.ref)
  }

  /** The content of the elements: normalized and without references. */
  function Essences<T>(r: Rules<T>, s: seq<T>): (c: seq<T>)
    ensures |c| == |s| && forall i :: 0 <= i < |s| ==> c[i] == r.strip(r.norm(s[i]))
  {
    Map(Map(s, r.norm), r.strip)
  }

  /** Elements that sort as equal have equal content. */
  ghost predicate Unambiguous<T>(r: Rules<T>, s: seq<T>) {
    forall x, y :: x in Essences(r, s) && y in Essences(r, s) && r.key(x) == r.key(y) ==> x == y
  }

  /** Every list with the same content, in whatever order, has the same canonical form. */
  ghost predicate OrderFree<T(!new)>(r: Rules<T>, s: seq<T>) {
    forall t :: SameContent(r, s, t) ==> Canon(r, s) == Canon(r, t)
  }

  ghost predicate SameContent<T>(r: Rules<T>, s: seq<T>, t: seq<T>) {
    multiset(Essences(r, s)) == multiset(Essences(r, t))
  }

  lemma {:induction false} InsertMap<T>(x: T, s: seq<T>, f: T -> T, le: (T, T) -> bool)
    requires forall y, z :: le(f(y), f(z)) == le(y, z)
    ensures Insert(f(x), Map(s, f), le) == Map(Insert(x, s, le), f)
    decreases |s|
  {
    if s == [] || le(x, s[0]) {
      MapFirst(x, s, f);
    } else {
      InsertMap(x, s[1..], f, le);
      assert Map(s, f)[1..] == Map(s[1..], f);
      MapFirst(s[0], Insert(x, s[1..], le), f);
    }
  }

  /** Sorting commutes with a change that the order does not see. */
  lemma {:induction false} SortByMap<T>(s: seq<T>, f: T -> T, le: (T, T) -> bool)
    requires forall y, z :: le(f(y), f(z)) == le(y, z)
    ensures SortBy(Map(s, f), le) == Map(SortBy(s, le), f)
    decreases |s|
  {
    if s != [] {
      SortByMap(s[1..], f, le);
      assert Map(s, f)[1..] == Map(s[1..], f);
      InsertMap(s[0], SortBy(s[1..], le), f, le);
    }
  }

  lemma CanonOfEssences<T(!new)>(r: Rules<T>, s: seq<T>)
    requires Lawful(r)
    ensures Canon(r, s) == Map(SortBy(Essences(r, s), ByKey(r.key)), r.ref)
  {
    SortByMap(Map(s, r.norm), r.strip, ByKey(r.key));
  }

  lemma UnambiguousOrderFree<T(!new)>(r: Rules<T>, s: seq<T>, t: seq<T>)
    requires Lawful(r) && Unambiguous(r, s) && SameContent(r, s, t)
    ensures Canon(r, s) == Canon(r, t)
  {
    CanonOfEssences(r, s);
    CanonOfEssences(r, t);
    SortByPermutation(Essences(r, s), Essences(r, t), ByKey(r.key));
  }

  // ---- Exactness ----

  lemma FrontSurvives<T(!new)>(r: Rules<T>, s: seq<T>, i: nat)
    requires i < |s|
    ensures Essences(r, ToFront(s, i)) == ToFront(Essences(r, s), i)
    ensures SameContent(r, s, ToFront(s, i))
  {
    var e, t := Essences(r, s), ToFront(s, i);
    assert Essences(r, t) == ToFront(e, i);
  }

  /** A stable sort keeps the element moved to the front ahead of its equals. */
  lemma FrontFirst<T(!new)>(r: Rules<T>, e: seq<T>, i: nat)
    requires i < |e|
    ensures var le := ByKey(r.key);
            var kept := Filter(SortBy(ToFront(e, i), le), (z: T) => r.key(z) == r.key(e[i]));
            kept != [] && kept[0] == e[i]
  {
    var le, keep := ByKey(r.key), (z: T) => r.key(z) == r.key(e[i]);
    WordsReflexive(r.key(e[i]));
    assert IsClass(le, keep);
    SortByStable(ToFront(e, i), le, keep);
  }

  lemma {:induction false} WordsReflexive(a: seq<string>)
    ensures WordsLe(a, a)
  {
    if a != [] {
      WordsReflexive(a[1..]);
    }
  }

  /** References do not hide a difference in content. */
  lemma RefKeepsContent<T(!new)>(r: Rules<T>, a: seq<T>, b: seq<T>)
    requires Lawful(r) && Stripped(r, a) && Stripped(r, b) && Map(a, r.ref) == Map(b, r.ref)
    ensures a == b
  {
    assert |a| == |Map(a, r.ref)| == |b|;
    forall i | 0 <= i < |a|
      ensures a[i] == b[i]
    {
      assert r.strip(Map(a, r.ref)[i]) == r.strip(Map(b, r.ref)[i]);
    }
  }

  ghost predicate Stripped<T>(r: Rules<T>, s: seq<T>) {
    forall i :: 0 <= i < |s| ==> r.strip(s[i]) == s[i]
  }

  ghost predicate StripIdempotent<T(!new)>(r: Rules<T>) {
    forall x :: r.strip(r.strip(x)) == r.strip(x)
  }

  lemma SortedStripped<T(!new)>(r: Rules<T>, s: seq<T>)
    requires StripIdempotent(r)
    ensures Stripped(r, SortBy(Essences(r, s), ByKey(r.key)))
  {
    var e := Essences(r, s);
    var sorted := SortBy(e, ByKey(r.key));
    SameMembers(e, sorted);
    forall i | 0 <= i < |sorted|
      ensures r.strip(sorted[i]) == sorted[i]
    {
      assert sorted[i] in e;
      var k :| 0 <= k < |e| && e[k] == sorted[i];
      assert e[k] == r.strip(r.norm(s[k]));
    }
  }

  /** Two elements with one key and different content: whichever comes first stays first. */
  lemma AmbiguousDiffers<T(!new)>(r: Rules<T>, s: seq<T>, i: nat, j: nat)
    requires Lawful(r) && StripIdempotent(r) && i < |s| && j < |s|
    requires r.key(Essences(r, s)[i]) == r.key(Essences(r, s)[j]) && Essences(r, s)[i] != Essences(r, s)[j]
    ensures Canon(r, ToFront(s, i)) != Canon(r, ToFront(s, j))
  {
    var e, le := Essences(r, s), ByKey(r.key);
    FrontSurvives(r, s, i);
    FrontSurvives(r, s, j);
    FrontFirst(r, e, i);
    FrontFirst(r, e, j);
    var a, b := SortBy(ToFront(e, i), le), SortBy(ToFront(e, j), le);
    SameClass(r, a, e[i], e[j]);
    assert a != b;
    SortedStripped(r, ToFront(s, i));
    SortedStripped(r, ToFront(s, j));
    CanonOfEssences(r, ToFront(s, i));
    CanonOfEssences(r, ToFront(s, j));
    if Map(a, r.ref) == Map(b, r.ref) {
      RefKeepsContent(r, a, b);
    }
  }

  lemma {:induction false} SameClass<T>(r: Rules<T>, s: seq<T>, x: T, y: T)
    requires r.key(x) == r.key(y)
    ensures Filter(s, (z: T) => r.key(z) == r.key(x)) == Filter(s, (z: T) => r.key(z) == r.key(y))
    decreases |s|
  {
    if s != [] {
      SameClass(r, s[1..], x, y);
    }
  }

  /** The canonical form does not depend on the order that came in if and only if elements with
      equal keys have equal content. */
  lemma OrderFreeExactly<T(!new)>(r: Rules<T>, s: seq<T>)
    requires Lawful(r) && StripIdempotent(r)
    ensures OrderFree(r, s) <==> Unambiguous(r, s)
  {
    if Unambiguous(r, s) {
      forall t | SameContent(r, s, t)
        ensures Canon(r, s) == Canon(r, t)
      {
        UnambiguousOrderFree(r, s, t);
      }
    } else {
      var e := Essences(r, s);
      var x, y :| x in e && y in e && r.key(x) == r.key(y) && x != y;
      var i: nat :| i < |e| && e[i] == x;
      var j: nat :| j < |e| && e[j] == y;
      AmbiguousDiffers(r, s, i, j);
      FrontSurvives(r, s, i);
      FrontSurvives(r, s, j);
    }
  }

  /** Equal canonical forms have equal content. */
  lemma EqualCanonSameContent<T(!new)>(r: Rules<T>, s: seq<T>, t: seq<T>)
    requires Lawful(r) && StripIdempotent(r) && Canon(r, s) == Canon(r, t)
    ensures SameContent(r, s, t)
  {
    var a, b := SortBy(Essences(r, s), ByKey(r.key)), SortBy(Essences(r, t), ByKey(r.key));
    CanonOfEssences(r, s);
    CanonOfEssences(r, t);
    SortedStripped(r, s);
    SortedStripped(r, t);
    RefKeepsContent(r, a, b);
  }

  // ---- Doing it twice ----

  lemma CanonSorted<T(!new)>(r: Rules<T>, s: seq<T>)
    requires Lawful(r)
    ensures Sorted(Canon(r, s), ByKey(r.key))
  {
    var a, le := SortBy(Map(s, r.norm), ByKey(r.key)), ByKey(r.key);
    SortBySorted(Map(s, r.norm), le);
    forall i, j | 0 <= i < j < |a|
      ensures le(r.ref(a[i]), r.ref(a[j]))
    {
      RefKeepsKey(r, a[i]);
      RefKeepsKey(r, a[j]);
      assert le(a[i], a[j]);
    }
  }

  lemma RefKeepsKey<T(!new)>(r: Rules<T>, x: T)
    requires Lawful(r)
    ensures r.key(r.ref(x)) == r.key(x) && r.ref(r.ref(x)) == r.ref(x)
  {
    assert r.key(r.strip(r.ref(x))) == r.key(r.ref(x)) && r.key(r.strip(x)) == r.key(x);
    assert r.ref(r.strip(r.ref(x))) == r.ref(r.ref(x)) && r.ref(r.strip(x)) == r.ref(x);
  }

  /** The canonical form is a fixed point if normalizing once was enough. */
  lemma CanonTwice<T(!new)>(r: Rules<T>, s: seq<T>)
    requires Lawful(r) && forall x :: x in Canon(r, s) ==> r.norm(x) == x
    ensures Canon(r, Canon(r, s)) == Canon(r, s)
  {
    var c := Canon(r, s);
    assert Map(c, r.norm) == c;
    CanonSorted(r, s);
    SortedIsFixed(c, ByKey(r.key));
    forall i | 0 <= i < |c|
      ensures r.ref(c[i]) == c[i]
    {
      RefKeepsKey(r, SortBy(Map(s, r.norm), ByKey(r.key))[i]);
    }
    assert Map(c, r.ref) == c;
  }

  function Total<T>(s: seq<T>, size: T -> nat): (n: nat) {
    if s == [] then 0 else size(s[0]) + Total(s[1..], size)
  }

  lemma {:induction false} TotalInsert<T>(x: T, s: seq<T>, le: (T, T) -> bool, size: T -> nat)
    ensures Total(Insert(x, s, le), size) == size(x) + Total(s, size)
    decreases |s|
  {
    if s == [] || le(x, s[0]) {
      assert Insert(x, s, le)[1..] == s;
    } else {
      TotalInsert(x, s[1..], le, size);
      assert Insert(x, s, le)[1..] == Insert(x, s[1..], le);
    }
  }

  lemma {:induction false} TotalSort<T>(s: seq<T>, le: (T, T) -> bool, size: T -> nat)
    ensures Total(SortBy(s, le), size) == Total(s, size)
    decreases |s|
  {
    if s != [] {
      TotalSort(s[1..], le, size);
      TotalInsert(s[0], SortBy(s[1..], le), le, size);
    }
  }

  lemma {:induction false} TotalMap<T>(s: seq<T>, f: T -> T, size: T -> nat)
    requires forall x :: x in s ==> size(f(x)) <= size(x)
    ensures Total(Map(s, f), size) <= Total(s, size)
    ensures Total(Map(s, f), size) == Total(s, size) ==> forall x :: x in s ==> size(f(x)) == size(x)
    decreases |s|
  {
    if s != [] {
      TotalMap(s[1..], f, size);
      assert Map(s, f)[1..] == Map(s[1..], f);
      assert forall x :: x in s ==> x == s[0] || x in s[1..];
    }
  }

  lemma {:induction false} TotalRef<T>(s: seq<T>, f: T -> T, size: T -> nat)
    requires forall x :: size(f(x)) == size(x)
    ensures Total(Map(s, f), size) == Total(s, size)
    decreases |s|
  {
    if s != [] {
      TotalRef(s[1..], f, size);
      assert Map(s, f)[1..] == Map(s[1..], f);
    }
  }

  /** If normalizing never grows an element and its result is a fixed point, nothing shrank. */
  lemma FixedMeansSettled<T(!new)>(r: Rules<T>, c: seq<T>, size: T -> nat)
    requires Canon(r, c) == c && (forall x :: size(r.ref(x)) == size(x)) && forall x :: x in c ==> size(r.norm(x)) <= size(x)
    ensures forall x :: x in c ==> size(r.norm(x)) == size(x)
  {
    var n := Map(c, r.norm);
    TotalRef(SortBy(n, ByKey(r.key)), r.ref, size);
    TotalSort(n, ByKey(r.key), size);
    TotalMap(c, r.norm, size);
  }

  /** The canonical form holds each element once, rewritten, and nothing else. */
  lemma CanonMembers<T(!new)>(r: Rules<T>, s: seq<T>)
    ensures forall x :: x in Canon(r, s) ==> exists k :: 0 <= k < |s| && x == r.ref(r.norm(s[k]))
    ensures forall k :: 0 <= k < |s| ==> r.ref(r.norm(s[k])) in Canon(r, s)
  {
    var n := Map(s, r.norm);
    var a := SortBy(n, ByKey(r.key));
    var c := Canon(r, s);
    SameMembers(n, a);
    forall x | x in c
      ensures exists k :: 0 <= k < |s| && x == r.ref(r.norm(s[k]))
    {
      var i :| 0 <= i < |c| && c[i] == x;
      assert a[i] in n;
      var k :| 0 <= k < |n| && n[k] == a[i];
      assert x == r.ref(r.norm(s[k]));
    }
    forall k | 0 <= k < |s|
      ensures r.ref(r.norm(s[k])) in c
    {
      assert n[k] in a;
      var i :| 0 <= i < |a| && a[i] == n[k];
      assert c[i] == r.ref(n[k]);
    }
  }

  /** Where normalizing only ever shrinks an element, and leaves it alone if it does not, the
      canonical form is a fixed point if and only if its elements are normalized. */
  lemma TwiceExactly<T(!new)>(r: Rules<T>, s: seq<T>, size: T -> nat)
    requires Lawful(r) && (forall x :: size(r.ref(x)) == size(x))
    requires forall x :: x in Canon(r, s) ==> size(r.norm(x)) <= size(x) && (size(r.norm(x)) == size(x) ==> r.norm(x) == x)
    ensures Canon(r, Canon(r, s)) == Canon(r, s) <==> forall x :: x in Canon(r, s) ==> r.norm(x) == x
  {
    if Canon(r, Canon(r, s)) == Canon(r, s) {
      FixedMeansSettled(r, Canon(r, s), size);
    }
    if forall x :: x in Canon(r, s) ==> r.norm(x) == x {
      CanonTwice(r, s);
    }
  }
}
