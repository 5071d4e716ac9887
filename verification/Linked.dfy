/** Hash-linked records with consecutive numbers: entries of one writer, or checkpoints.
    Both the verifier's "sorted neighbours match" check and the agreement theorems are
    stated once, here. */
module Linked {

  /** How to read a record: which chain it belongs to, its number, its hash and its link. */
  datatype View<!T> = View(chain: T -> string, number: T -> nat, hash: T -> string, link: T -> string)

  /** A collection, in any order: no record twice, no number twice in a chain, and every record
      with a smaller-numbered one in its chain links to the record numbered just below it. */
  ghost predicate IsLinked<T>(v: View<T>, ms: multiset<T>) {
    && (forall x :: x in ms ==> ms[x] == 1)
    && (forall x, y :: x in ms && y in ms && v.chain(x) == v.chain(y) && v.number(x) == v.number(y) ==> x == y)
    && (forall x, y :: x in ms && y in ms && v.chain(x) == v.chain(y) && v.number(y) < v.number(x) ==> HasPrevious(v, ms, x))
  }

  ghost predicate HasPrevious<T>(v: View<T>, ms: multiset<T>, x: T) {
    exists p :: p in ms && v.chain(p) == v.chain(x) && v.number(p) + 1 == v.number(x) && v.hash(p) == v.link(x)
  }

  /** What the verifier checks on neighbours of the sorted list. */
  predicate Follows<T>(v: View<T>, x: T, y: T) {
    v.number(y) == v.number(x) + 1 && v.link(y) == v.hash(x)
  }

  ghost predicate Steps<T>(v: View<T>, s: seq<T>) {
    forall i :: 0 < i < |s| ==> Follows(v, s[i - 1], s[i])
  }

  ghost predicate ByNumber<T>(v: View<T>, s: seq<T>) {
    forall i, j :: 0 <= i < j < |s| ==> v.number(s[i]) <= v.number(s[j])
  }

  ghost predicate OneChain<T>(v: View<T>, s: seq<T>) {
    forall i, j :: 0 <= i < |s| && 0 <= j < |s| ==> v.chain(s[i]) == v.chain(s[j])
  }

  lemma {:induction false} StepsCount<T>(v: View<T>, s: seq<T>, i: nat)
    requires Steps(v, s) && i < |s|
    ensures v.number(s[i]) == v.number(s[0]) + i
  {
    if i > 0 {
      StepsCount(v, s, i - 1);
      assert Follows(v, s[i - 1], s[i]);
    }
  }

  lemma {:induction false} Multiplicity<T>(s: seq<T>, i: nat)
    requires i < |s| && forall j :: 0 <= j < |s| && j != i ==> s[j] != s[i]
    ensures multiset(s)[s[i]] == 1
  {
    assert s == s[..i] + [s[i]] + s[i + 1..];
    assert s[i] !in s[..i] && s[i] !in s[i + 1..];
    assert multiset(s) == multiset(s[..i]) + multiset{s[i]} + multiset(s[i + 1..]);
  }

  lemma TwiceCounts<T>(s: seq<T>, i: nat, j: nat)
    requires i < j < |s| && s[i] == s[j]
    ensures multiset(s)[s[i]] >= 2
  {
    assert s == s[..j] + [s[j]] + s[j + 1..];
    assert s[..j][i] == s[i];
    assert s[i] in multiset(s[..j]);
    assert multiset(s) == multiset(s[..j]) + multiset{s[j]} + multiset(s[j + 1..]);
  }

  lemma StepsImplyLinked<T>(v: View<T>, s: seq<T>)
    requires OneChain(v, s) && Steps(v, s)
    ensures IsLinked(v, multiset(s))
  {
    forall i | 0 <= i < |s|
      ensures v.number(s[i]) == v.number(s[0]) + i
    {
      StepsCount(v, s, i);
    }
    forall x | x in multiset(s)
      ensures multiset(s)[x] == 1
    {
      var i :| 0 <= i < |s| && s[i] == x;
      Multiplicity(s, i);
    }
    forall x, y | x in multiset(s) && y in multiset(s) && v.number(y) < v.number(x)
      ensures HasPrevious(v, multiset(s), x)
    {
      var i :| 0 <= i < |s| && s[i] == x;
      var j :| 0 <= j < |s| && s[j] == y;
      assert Follows(v, s[i - 1], s[i]);
      assert s[i - 1] in multiset(s);
    }
  }

  lemma LinkedImpliesSteps<T>(v: View<T>, s: seq<T>)
    requires OneChain(v, s) && ByNumber(v, s) && IsLinked(v, multiset(s))
    ensures Steps(v, s)
  {
    forall i | 0 < i < |s|
      ensures Follows(v, s[i - 1], s[i])
    {
      NeighbourFollows(v, s, i);
    }
  }

  lemma NeighbourFollows<T>(v: View<T>, s: seq<T>, i: nat)
    requires OneChain(v, s) && ByNumber(v, s) && IsLinked(v, multiset(s)) && 0 < i < |s|
    ensures Follows(v, s[i - 1], s[i])
  {
    var x, y := s[i], s[i - 1];
    assert x in multiset(s) && y in multiset(s);
    NumbersRise(v, s, i);
    assert HasPrevious(v, multiset(s), x);
    var p :| p in multiset(s) && v.chain(p) == v.chain(x) && v.number(p) + 1 == v.number(x) && v.hash(p) == v.link(x);
    var j :| 0 <= j < |s| && s[j] == p;
    assert j < i;
    assert v.number(p) == v.number(y);
  }

  lemma NumbersRise<T>(v: View<T>, s: seq<T>, i: nat)
    requires OneChain(v, s) && ByNumber(v, s) && IsLinked(v, multiset(s)) && 0 < i < |s|
    ensures v.number(s[i - 1]) < v.number(s[i])
  {
    assert s[i] in multiset(s) && s[i - 1] in multiset(s);
    if v.number(s[i]) == v.number(s[i - 1]) {
      TwiceCounts(s, i - 1, i);
      assert false;
    }
  }

  /** Sorted neighbours match exactly when the collection is linked. */
  lemma SortedSteps<T>(v: View<T>, s: seq<T>)
    requires OneChain(v, s) && ByNumber(v, s)
    ensures Steps(v, s) <==> IsLinked(v, multiset(s))
  {
    if Steps(v, s) {
      StepsImplyLinked(v, s);
    } else if IsLinked(v, multiset(s)) {
      LinkedImpliesSteps(v, s);
    }
  }

  /** `part` holds exactly the records of chain `c`. */
  ghost predicate IsPart<T(!new)>(v: View<T>, ms: multiset<T>, part: multiset<T>, c: string) {
    forall x :: part[x] == if v.chain(x) == c then ms[x] else 0
  }

  lemma PartMembers<T(!new)>(v: View<T>, ms: multiset<T>, part: multiset<T>, c: string)
    requires IsPart(v, ms, part, c)
    ensures forall x :: x in part <==> x in ms && v.chain(x) == c
    ensures forall x :: x in part ==> (HasPrevious(v, ms, x) <==> HasPrevious(v, part, x))
  {
    forall x
      ensures x in part <==> x in ms && v.chain(x) == c
    {
      assert x in part <==> part[x] > 0;
    }
  }

  /** A chain of a linked collection is linked. */
  lemma PartLinked<T(!new)>(v: View<T>, ms: multiset<T>, part: multiset<T>, c: string)
    requires IsPart(v, ms, part, c) && IsLinked(v, ms)
    ensures IsLinked(v, part)
  {
    PartMembers(v, ms, part, c);
    assert forall x :: x in part ==> part[x] == ms[x];
  }

  /** A collection whose chains are all linked is linked. */
  lemma WholeLinked<T(!new)>(v: View<T>, ms: multiset<T>, part: string -> multiset<T>)
    requires forall c :: IsPart(v, ms, part(c), c) && IsLinked(v, part(c))
    ensures IsLinked(v, ms)
  {
    forall x | x in ms
      ensures ms[x] == 1
      ensures forall y :: y in ms && v.chain(x) == v.chain(y) && v.number(x) == v.number(y) ==> x == y
      ensures forall y :: y in ms && v.chain(x) == v.chain(y) && v.number(y) < v.number(x) ==> HasPrevious(v, ms, x)
    {
      var own := part(v.chain(x));
      assert IsPart(v, ms, own, v.chain(x)) && IsLinked(v, own);
      PartMembers(v, ms, own, v.chain(x));
      assert own[x] == ms[x];
    }
  }

  /** A collection is linked if and only if each of its chains is. */
  lemma LinkedByChain<T(!new)>(v: View<T>, ms: multiset<T>, part: string -> multiset<T>)
    requires forall c :: IsPart(v, ms, part(c), c)
    ensures IsLinked(v, ms) <==> forall c :: IsLinked(v, part(c))
  {
    if IsLinked(v, ms) {
      forall c
        ensures IsLinked(v, part(c))
      {
        assert IsPart(v, ms, part(c), c);
        PartLinked(v, ms, part(c), c);
      }
    }
    if forall c :: IsLinked(v, part(c)) {
      WholeLinked(v, ms, part);
    }
  }

  /** A linked chain holds every number between two that it holds. */
  lemma {:induction false} NoneMissing<T>(v: View<T>, ms: multiset<T>, low: T, top: T, n: nat) returns (z: T)
    requires IsLinked(v, ms) && low in ms && top in ms && v.chain(low) == v.chain(top)
    requires v.number(low) <= n <= v.number(top)
    ensures z in ms && v.chain(z) == v.chain(top) && v.number(z) == n
    decreases v.number(top)
  {
    if n == v.number(top) {
      z := top;
    } else {
      assert HasPrevious(v, ms, top);
      var p :| p in ms && v.chain(p) == v.chain(top) && v.number(p) + 1 == v.number(top) && v.hash(p) == v.link(top);
      z := NoneMissing(v, ms, low, p, n);
    }
  }

  /** A part that holds, with a record, every later one of its chain. */
  ghost predicate IsTail<T(!new)>(v: View<T>, ms: multiset<T>, part: multiset<T>) {
    && part <= ms
    && forall x, y :: x in part && y in ms && v.chain(x) == v.chain(y) && v.number(x) < v.number(y) ==> y in part
  }

  lemma TailLinked<T(!new)>(v: View<T>, ms: multiset<T>, part: multiset<T>)
    requires IsLinked(v, ms) && IsTail(v, ms, part)
    ensures IsLinked(v, part)
  {
    assert forall x :: x in part ==> x in ms && part[x] <= ms[x];
    forall x, y | x in part && y in part && v.chain(x) == v.chain(y) && v.number(y) < v.number(x)
      ensures HasPrevious(v, part, x)
    {
      TailHasPrevious(v, ms, part, x, y);
    }
  }

  lemma TailHasPrevious<T(!new)>(v: View<T>, ms: multiset<T>, part: multiset<T>, x: T, y: T)
    requires IsLinked(v, ms) && IsTail(v, ms, part) && x in part && y in part && v.chain(x) == v.chain(y) && v.number(y) < v.number(x)
    ensures HasPrevious(v, part, x)
  {
    assert x in ms && y in ms && HasPrevious(v, ms, x);
    var p :| p in ms && v.chain(p) == v.chain(x) && v.number(p) + 1 == v.number(x) && v.hash(p) == v.link(x);
    assert v.number(p) == v.number(y) ==> p == y;
    assert p in part;
  }

  /** `z` is numbered above everything its chain holds. */
  ghost predicate IsAbove<T>(v: View<T>, ms: multiset<T>, z: T) {
    forall x :: x in ms && v.chain(x) == v.chain(z) ==> v.number(x) < v.number(z)
  }

  lemma PreviousUnaffected<T>(v: View<T>, ms: multiset<T>, z: T, x: T)
    requires IsAbove(v, ms, z) && (x in ms || x == z)
    ensures HasPrevious(v, ms + multiset{z}, x) <==> HasPrevious(v, ms, x)
  {
    var more := ms + multiset{z};
    if HasPrevious(v, more, x) {
      var p :| p in more && v.chain(p) == v.chain(x) && v.number(p) + 1 == v.number(x) && v.hash(p) == v.link(x);
      assert p in ms;
    }
    if HasPrevious(v, ms, x) {
      var p :| p in ms && v.chain(p) == v.chain(x) && v.number(p) + 1 == v.number(x) && v.hash(p) == v.link(x);
      assert p in more;
    }
  }

  lemma AppendKeepsLinked<T>(v: View<T>, ms: multiset<T>, z: T)
    requires IsAbove(v, ms, z) && IsLinked(v, ms)
    requires (exists x :: x in ms && v.chain(x) == v.chain(z)) ==> HasPrevious(v, ms, z)
    ensures IsLinked(v, ms + multiset{z})
  {
    var more := ms + multiset{z};
    assert z !in ms;
    forall x, y | x in more && y in more && v.chain(x) == v.chain(y) && v.number(y) < v.number(x)
      ensures HasPrevious(v, more, x)
    {
      PreviousUnaffected(v, ms, z, x);
      assert y in ms;
    }
  }

  lemma LinkedBeforeAppend<T>(v: View<T>, ms: multiset<T>, z: T)
    requires IsAbove(v, ms, z) && IsLinked(v, ms + multiset{z})
    ensures IsLinked(v, ms) && ((exists x :: x in ms && v.chain(x) == v.chain(z)) ==> HasPrevious(v, ms, z))
  {
    var more := ms + multiset{z};
    forall x | x in ms
      ensures ms[x] == 1
    {
      assert x in more && more[x] == 1;
    }
    forall x, y | (x in ms || x == z) && y in ms && v.chain(x) == v.chain(y) && v.number(y) < v.number(x)
      ensures HasPrevious(v, ms, x)
    {
      assert x in more && y in more;
      PreviousUnaffected(v, ms, z, x);
    }
    assert forall x :: x in ms ==> x in more;
  }

  /** Appending a record numbered above its whole chain keeps the collection linked exactly when
      it starts the chain or links to the record just below; and nothing appended later repairs
      a collection that is not linked. */
  lemma LinkedAppend<T>(v: View<T>, ms: multiset<T>, z: T)
    requires IsAbove(v, ms, z)
    ensures IsLinked(v, ms + multiset{z}) <==>
            IsLinked(v, ms) && ((exists x :: x in ms && v.chain(x) == v.chain(z)) ==> HasPrevious(v, ms, z))
  {
    if IsLinked(v, ms + multiset{z}) {
      LinkedBeforeAppend(v, ms, z);
    } else if IsLinked(v, ms) && ((exists x :: x in ms && v.chain(x) == v.chain(z)) ==> HasPrevious(v, ms, z)) {
      AppendKeepsLinked(v, ms, z);
    }
  }

  // ---- Two linked collections that share a hash ----

  /** `same` is what equal hashes imply for the records at hand; it fixes chain, number and link. */
  ghost predicate HashFixes<T(!new)>(v: View<T>, a: multiset<T>, b: multiset<T>, same: (T, T) -> bool) {
    && (forall x, y :: x in a && y in b && v.hash(x) == v.hash(y) ==> same(x, y))
    && (forall x, y :: same(x, y) ==> v.chain(x) == v.chain(y) && v.number(x) == v.number(y) && v.link(x) == v.link(y))
  }

  /** Walk the links back from a shared hash: the two collections hold the same record at every
      number below it that both present. */
  lemma {:induction false} AgreeBelow<T(!new)>(v: View<T>, a: multiset<T>, b: multiset<T>, same: (T, T) -> bool,
                                               x: T, y: T, p: T, q: T)
    requires IsLinked(v, a) && IsLinked(v, b) && HashFixes(v, a, b, same)
    requires x in a && y in b && v.hash(x) == v.hash(y)
    requires p in a && q in b && v.chain(p) == v.chain(x) && v.chain(q) == v.chain(y)
    requires v.number(p) == v.number(q) <= v.number(x)
    ensures same(p, q)
    decreases v.number(x)
  {
    assert same(x, y);
    if v.number(p) == v.number(x) {
      assert p == x && q == y;
    } else {
      assert HasPrevious(v, a, x) && HasPrevious(v, b, y);
      var x' :| x' in a && v.chain(x') == v.chain(x) && v.number(x') + 1 == v.number(x) && v.hash(x') == v.link(x);
      var y' :| y' in b && v.chain(y') == v.chain(y) && v.number(y') + 1 == v.number(y) && v.hash(y') == v.link(y);
      AgreeBelow(v, a, b, same, x', y', p, q);
    }
  }
}
