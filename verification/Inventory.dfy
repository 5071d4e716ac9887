/** What a reproducible CBOM holds and in which order, on the fields of its components and services. */
module Inventory {
  import opened ByteStrings
  import opened Sorting
  import opened Canonical
  import opened Cbom

  // ---- Orders, spelled out ----

  /** `str` order: a prefix comes first, else the first different character decides. */
  ghost predicate Alphabetical(a: string, b: string) {
    a <= b || exists k :: FirstDifference(a, b, k) && a[k] < b[k]
  }

  ghost predicate FirstDifference<T>(a: seq<T>, b: seq<T>, k: int) {
    0 <= k < |a| && k < |b| && a[..k] == b[..k] && a[k] != b[k]
  }

  /** Lists compare by their first different word. */
  ghost predicate ListOrdered(a: seq<string>, b: seq<string>) {
    a <= b || exists k :: FirstDifference(a, b, k) && Alphabetical(a[k], b[k])
  }

  /** By name, then by path, then by type. */
  ghost predicate ComponentsOrdered(c: Component, d: Component) {
    && Alphabetical(c.name, d.name)
    && (c.name == d.name ==> Alphabetical(c.source, d.source))
    && (c.name == d.name && c.source == d.source ==> Alphabetical(c.kind, d.kind))
  }

  /** By name, then by the list of endpoints. */
  ghost predicate ServicesOrdered(x: Service, y: Service) {
    Alphabetical(x.name, y.name) && (x.name == y.name ==> ListOrdered(x.endpoints, y.endpoints))
  }

  lemma FirstDifferenceTail<T>(a: seq<T>, b: seq<T>, k: int)
    requires a != [] && b != [] && a[0] == b[0]
    ensures FirstDifference(a[1..], b[1..], k) <==> k >= 0 && FirstDifference(a, b, k + 1)
  {
    if 0 <= k < |a[1..]| && k < |b[1..]| {
      assert a[..k + 1] == [a[0]] + a[1..][..k] && b[..k + 1] == [b[0]] + b[1..][..k];
    }
  }

  lemma PrefixTail<T>(a: seq<T>, b: seq<T>)
    requires a != [] && b != [] && a[0] == b[0]
    ensures a <= b <==> a[1..] <= b[1..]
  {
    assert a == [a[0]] + a[1..] && b == [b[0]] + b[1..];
  }

  lemma DifferentAtOnce<T>(a: seq<T>, b: seq<T>)
    requires a != [] && b != [] && a[0] != b[0]
    ensures forall k :: FirstDifference(a, b, k) <==> k == 0
  {
    forall k
      ensures FirstDifference(a, b, k) <==> k == 0
    {
      if 0 < k < |a| && k < |b| {
        assert a[..k][0] == a[0] && b[..k][0] == b[0];
      }
    }
  }

  lemma {:induction false} LexIsAlphabetical(a: string, b: string)
    ensures LexLe(a, b) <==> Alphabetical(a, b)
    decreases |a|
  {
    if a != "" && b != "" {
      if a[0] == b[0] {
        LexIsAlphabetical(a[1..], b[1..]);
        AlphabeticalTail(a, b);
      } else {
        DifferentAtOnce(a, b);
      }
    }
  }

  lemma AlphabeticalTail(a: string, b: string)
    requires a != "" && b != "" && a[0] == b[0]
    ensures Alphabetical(a, b) <==> Alphabetical(a[1..], b[1..])
  {
    PrefixTail(a, b);
    if k :| FirstDifference(a, b, k) && a[k] < b[k] {
      FirstDifferenceTail(a, b, k - 1);
      assert a[1..][k - 1] < b[1..][k - 1];
    }
    if k :| FirstDifference(a[1..], b[1..], k) && a[1..][k] < b[1..][k] {
      FirstDifferenceTail(a, b, k);
      assert a[k + 1] < b[k + 1];
    }
  }

  lemma ListOrderedTail(a: seq<string>, b: seq<string>)
    requires a != [] && b != [] && a[0] == b[0]
    ensures ListOrdered(a, b) <==> ListOrdered(a[1..], b[1..])
  {
    PrefixTail(a, b);
    if k :| FirstDifference(a, b, k) && Alphabetical(a[k], b[k]) {
      FirstDifferenceTail(a, b, k - 1);
      assert Alphabetical(a[1..][k - 1], b[1..][k - 1]);
    }
    if k :| FirstDifference(a[1..], b[1..], k) && Alphabetical(a[1..][k], b[1..][k]) {
      FirstDifferenceTail(a, b, k);
      assert Alphabetical(a[k + 1], b[k + 1]);
    }
  }

  lemma {:induction false} WordsAreOrdered(a: seq<string>, b: seq<string>)
    ensures WordsLe(a, b) <==> ListOrdered(a, b)
    decreases |a|
  {
    if a != [] && b != [] {
      if a[0] == b[0] {
        WordsAreOrdered(a[1..], b[1..]);
        ListOrderedTail(a, b);
      } else {
        LexIsAlphabetical(a[0], b[0]);
        DifferentAtOnce(a, b);
      }
    }
  }

  lemma ComponentKeyOrder(c: Component, d: Component)
    ensures WordsLe(ComponentKey(c), ComponentKey(d)) <==> ComponentsOrdered(c, d)
  {
    LexIsAlphabetical(c.name, d.name);
    LexIsAlphabetical(c.source, d.source);
    LexIsAlphabetical(c.kind, d.kind);
    ThreeWords(c.name, c.source, c.kind, d.name, d.source, d.kind);
    assert ComponentKey(c) == [c.name] + ([c.source] + ([c.kind] + [])) && ComponentKey(d) == [d.name] + ([d.source] + ([d.kind] + []));
  }

  lemma ThreeWords(a: string, b: string, c: string, x: string, y: string, z: string)
    ensures WordsLe([a] + ([b] + ([c] + [])), [x] + ([y] + ([z] + []))) <==>
            if a != x then LexLe(a, x) else if b != y then LexLe(b, y) else LexLe(c, z)
    ensures LexLe(a, a) && LexLe(b, b)
  {
    LexTotal(a, a);
    LexTotal(b, b);
    FirstWord(a, [b] + ([c] + []), x, [y] + ([z] + []));
    FirstWord(b, [c] + [], y, [z] + []);
    FirstWord(c, [], z, []);
    LexTotal(c, c);
  }

  lemma FirstWord(a: string, rest: seq<string>, x: string, more: seq<string>)
    ensures WordsLe([a] + rest, [x] + more) <==> if a == x then WordsLe(rest, more) else LexLe(a, x)
  {
    assert ([a] + rest)[1..] == rest && ([x] + more)[1..] == more;
  }

  lemma ServiceKeyOrder(x: Service, y: Service)
    ensures WordsLe(ServiceKey(x), ServiceKey(y)) <==> ServicesOrdered(x, y)
  {
    LexTotal(x.name, x.name);
    LexIsAlphabetical(x.name, y.name);
    WordsAreOrdered(x.endpoints, y.endpoints);
    assert ServiceKey(x)[1..] == x.endpoints && ServiceKey(y)[1..] == y.endpoints;
  }

  /** The result lists components by name, path and type, and services by name and endpoints. */
  lemma ResultOrdered(h: Hash, encode: Bom -> Bytes, b: Bom)
    ensures var r := Deterministic(SchemeOf(h, encode), b);
            && (forall i, j :: 0 <= i < j < |r.components| ==> ComponentsOrdered(r.components[i], r.components[j]))
            && (forall i, j :: 0 <= i < j < |r.services| ==> ServicesOrdered(r.services[i], r.services[j]))
  {
    var r := Deterministic(SchemeOf(h, encode), b);
    hide ComponentsOrdered;
    hide ServicesOrdered;
    CanonSorted(ComponentRules(h), b.components);
    CanonSorted(ServiceRules(h), b.services);
    forall i, j | 0 <= i < j < |r.components|
      ensures ComponentsOrdered(r.components[i], r.components[j])
    {
      ComponentKeyOrder(r.components[i], r.components[j]);
    }
    forall i, j | 0 <= i < j < |r.services|
      ensures ServicesOrdered(r.services[i], r.services[j])
    {
      ServiceKeyOrder(r.services[i], r.services[j]);
    }
  }

  // ---- Paths ----

  /** How much is dropped in front: `./` or `.\`, once. */
  function Dropped(p: string): (n: nat)
    ensures n <= |p|
  {
    if |p| >= 2 && p[0] == '.' && (p[1] == '/' || p[1] == '\\') then 2 else 0
  }

  /** A normalized path is the path itself, character by character, with slashes for backslashes
      and without one leading `./`. */
  lemma NormalizedCharacters(p: string)
    ensures var r := NormalizePath(p);
            && |r| == |p| - Dropped(p)
            && forall i :: 0 <= i < |r| ==> r[i] == if p[i + Dropped(p)] == '\\' then '/' else p[i + Dropped(p)]
  {
    assert Slashed(p) != [] ==> Slashed(p) == [Slashed(p)[0]] + Slashed(p)[1..];
    assert |p| >= 2 ==> Slashed(p)[..2] == [Slashed(p)[0], Slashed(p)[1]];
    assert StartsHere(Slashed(p)) ==> Slashed(p)[0] == '.' && Slashed(p)[1] == '/';
  }

  // ---- Content ----

  /** What a component says, its reference and scan time aside. */
  datatype Facts = Facts(kind: string, name: string, path: string, rest: string)

  datatype ServiceFacts = ServiceFacts(name: string, endpoints: seq<string>, rest: string)

  function Said(c: Component): (f: Facts) {
    Facts(c.kind, c.name, c.source, c.rest)
  }

  function SaidNormalized(c: Component): (f: Facts) {
    Facts(c.kind, c.name, NormalizePath(c.source), c.rest)
  }

  function ServiceSaid(x: Service): (f: ServiceFacts) {
    ServiceFacts(x.name, x.endpoints, x.rest)
  }

  function ComponentText(c: Component): (t: string) {
    c.kind + "|" + c.name + "|" + c.source
  }

  function ServiceText(x: Service): (t: string) {
    x.name + "|" + Joined(x.endpoints)
  }

  /** Nothing is added, lost or changed but order, references, times and the spelling of paths. */
  lemma ResultKeeps(h: Hash, encode: Bom -> Bytes, b: Bom)
    ensures var r := Deterministic(SchemeOf(h, encode), b);
            && multiset(Map(r.components, Said)) == multiset(Map(b.components, SaidNormalized))
            && multiset(Map(r.services, ServiceSaid)) == multiset(Map(b.services, ServiceSaid))
            && r.serial == Serial(HashHex(h, encode(r.(serial := ""))))
            && r.rest == b.rest && r.timestamp == 0 && r.calculatedAt == 0
            && (forall c :: c in r.components ==> c.scannedAt == 0 && c.bomRef == "comp-" + HashHex(h, ComponentText(c))[..16])
            && (forall x :: x in r.services ==> x.bomRef == "service-" + HashHex(h, ServiceText(x))[..16])
  {
    ComponentsKept(h, b.components);
    ServicesKept(h, b.services);
  }

  lemma ComponentsKept(h: Hash, cs: seq<Component>)
    ensures var r := Canon(ComponentRules(h), cs);
            && multiset(Map(r, Said)) == multiset(Map(cs, SaidNormalized))
            && (forall c :: c in r ==> c.scannedAt == 0 && c.bomRef == "comp-" + HashHex(h, ComponentText(c))[..16])
  {
    var rules := ComponentRules(h);
    var n := Map(cs, rules.norm);
    var a := SortBy(n, ByKey(rules.key));
    var r := Canon(rules, cs);
    assert r == Map(a, rules.ref);
    MapPermutation(a, n, Said);
    assert Map(r, Said) == Map(a, Said);
    assert Map(n, Said) == Map(cs, SaidNormalized);
    SameMembers(a, n);
    forall c | c in r
      ensures c.scannedAt == 0 && c.bomRef == "comp-" + HashHex(h, ComponentText(c))[..16]
    {
      var i :| 0 <= i < |r| && r[i] == c;
      assert c == ComponentRef(h, a[i]) && a[i] in n;
    }
  }

  lemma ServicesKept(h: Hash, ss: seq<Service>)
    ensures var r := Canon(ServiceRules(h), ss);
            && multiset(Map(r, ServiceSaid)) == multiset(Map(ss, ServiceSaid))
            && (forall x :: x in r ==> x.bomRef == "service-" + HashHex(h, ServiceText(x))[..16])
  {
    var rules := ServiceRules(h);
    assert Map(ss, rules.norm) == ss;
    var a := SortBy(ss, ByKey(rules.key));
    MapPermutation(a, ss, ServiceSaid);
    ServicesReferred(h, a);
  }

  lemma ServicesReferred(h: Hash, a: seq<Service>)
    ensures var r := Map(a, ServiceRules(h).ref);
            && Map(r, ServiceSaid) == Map(a, ServiceSaid)
            && (forall x :: x in r ==> x.bomRef == "service-" + HashHex(h, ServiceText(x))[..16])
  {
  }

  // ---- Reproducibility, on the fields ----

  /** The documents differ only in order, references, times, serial number and spelling of paths. */
  ghost predicate SaySame(a: Bom, b: Bom) {
    && multiset(Map(a.components, SaidNormalized)) == multiset(Map(b.components, SaidNormalized))
    && multiset(Map(a.services, ServiceSaid)) == multiset(Map(b.services, ServiceSaid))
    && a.rest == b.rest
  }

  function ComponentOf(f: Facts): (c: Component) {
    Component(f.kind, f.name, f.path, 0, "", f.rest)
  }

  function ServiceOf(f: ServiceFacts): (x: Service) {
    Service(f.name, f.endpoints, "", f.rest)
  }

  lemma EssencesSay(h: Hash, cs: seq<Component>, ss: seq<Service>)
    ensures Essences(ComponentRules(h), cs) == Map(Map(cs, SaidNormalized), ComponentOf)
    ensures Map(Essences(ComponentRules(h), cs), Said) == Map(cs, SaidNormalized)
    ensures Essences(ServiceRules(h), ss) == Map(Map(ss, ServiceSaid), ServiceOf)
    ensures Map(Essences(ServiceRules(h), ss), ServiceSaid) == Map(ss, ServiceSaid)
  {
  }

  lemma SaySameIsSameInventory(h: Hash, encode: Bom -> Bytes, a: Bom, b: Bom)
    ensures SaySame(a, b) <==> SameInventory(SchemeOf(h, encode), a, b)
  {
    EssencesSay(h, a.components, a.services);
    EssencesSay(h, b.components, b.services);
    hide Map;
    hide Essences;
    if SaySame(a, b) {
      MapPermutation(Map(a.components, SaidNormalized), Map(b.components, SaidNormalized), ComponentOf);
      MapPermutation(Map(a.services, ServiceSaid), Map(b.services, ServiceSaid), ServiceOf);
    }
    if SameInventory(SchemeOf(h, encode), a, b) {
      MapPermutation(Essences(ComponentRules(h), a.components), Essences(ComponentRules(h), b.components), Said);
      MapPermutation(Essences(ServiceRules(h), a.services), Essences(ServiceRules(h), b.services), ServiceSaid);
    }
  }

  ghost predicate SameTriple(c: Component, d: Component) {
    c.name == d.name && NormalizePath(c.source) == NormalizePath(d.source) && c.kind == d.kind
  }

  ghost predicate SamePair(x: Service, y: Service) {
    x.name == y.name && x.endpoints == y.endpoints
  }

  /** Components that agree in name, normalized path and type agree in everything carried along,
      and so do services that agree in name and endpoints. */
  ghost predicate FieldsSettle(b: Bom) {
    && (forall c, d :: c in b.components && d in b.components && SameTriple(c, d) ==> c.rest == d.rest)
    && (forall x, y :: x in b.services && y in b.services && SamePair(x, y) ==> x.rest == y.rest)
  }

  lemma ComponentsSettle(h: Hash, cs: seq<Component>)
    ensures Unambiguous(ComponentRules(h), cs) <==> forall c, d :: c in cs && d in cs && SameTriple(c, d) ==> c.rest == d.rest
  {
    var r := ComponentRules(h);
    var e := Essences(r, cs);
    forall i, j | 0 <= i < |cs| && 0 <= j < |cs|
      ensures r.key(e[i]) == r.key(e[j]) <==> SameTriple(cs[i], cs[j])
      ensures r.key(e[i]) == r.key(e[j]) ==> (e[i] == e[j] <==> cs[i].rest == cs[j].rest)
    {
      SameKey(e[i], e[j]);
    }
    if Unambiguous(r, cs) {
      forall c, d | c in cs && d in cs && SameTriple(c, d)
        ensures c.rest == d.rest
      {
        var i :| 0 <= i < |cs| && cs[i] == c;
        var j :| 0 <= j < |cs| && cs[j] == d;
        assert e[i] in e && e[j] in e;
      }
    }
  }

  lemma SameKey(c: Component, d: Component)
    ensures ComponentKey(c) == ComponentKey(d) <==> c.name == d.name && c.source == d.source && c.kind == d.kind
  {
    var x, y := ComponentKey(c), ComponentKey(d);
    assert x[0] == c.name && x[1] == c.source && x[2] == c.kind;
    assert y[0] == d.name && y[1] == d.source && y[2] == d.kind;
  }

  lemma SameServiceKey(x: Service, y: Service)
    ensures ServiceKey(x) == ServiceKey(y) <==> SamePair(x, y)
  {
    assert ServiceKey(x)[0] == x.name && ServiceKey(x)[1..] == x.endpoints;
    assert ServiceKey(y)[0] == y.name && ServiceKey(y)[1..] == y.endpoints;
  }

  lemma ServicesSettle(h: Hash, ss: seq<Service>)
    ensures Unambiguous(ServiceRules(h), ss) <==> forall x, y :: x in ss && y in ss && SamePair(x, y) ==> x.rest == y.rest
  {
    var r := ServiceRules(h);
    var e := Essences(r, ss);
    forall i, j | 0 <= i < |ss| && 0 <= j < |ss|
      ensures r.key(e[i]) == r.key(e[j]) <==> SamePair(ss[i], ss[j])
      ensures r.key(e[i]) == r.key(e[j]) ==> (e[i] == e[j] <==> ss[i].rest == ss[j].rest)
    {
      SameServiceKey(e[i], e[j]);
    }
    if Unambiguous(r, ss) {
      forall x, y | x in ss && y in ss && SamePair(x, y)
        ensures x.rest == y.rest
      {
        var i :| 0 <= i < |ss| && ss[i] == x;
        var j :| 0 <= j < |ss| && ss[j] == y;
        assert e[i] in e && e[j] in e;
      }
    }
  }

  ghost predicate AlwaysSame(h: Hash, encode: Bom -> Bytes, a: Bom) {
    forall b :: SaySame(a, b) ==> Deterministic(SchemeOf(h, encode), a) == Deterministic(SchemeOf(h, encode), b)
  }

  /** Every document that says the same gives the same bytes, if and only if no two components
      that share name, path and type, and no two services that share name and endpoints, differ. */
  lemma SameBytesExactly(h: Hash, encode: Bom -> Bytes, a: Bom)
    ensures AlwaysSame(h, encode, a) <==> FieldsSettle(a)
  {
    hide SaySame;
    hide SameInventory;
    hide Deterministic;
    hide Unambiguous;
    var m := SchemeOf(h, encode);
    ReproducibleExactly(m, a);
    ComponentsSettle(h, a.components);
    ServicesSettle(h, a.services);
    forall b
      ensures SaySame(a, b) <==> SameInventory(m, a, b)
    {
      SaySameIsSameInventory(h, encode, a, b);
    }
  }

  /** Pairwise different triples and pairs are enough. */
  lemma DistinctFieldsSameBytes(h: Hash, encode: Bom -> Bytes, a: Bom, b: Bom)
    requires forall i, j :: 0 <= i < j < |a.components| ==> !SameTriple(a.components[i], a.components[j])
    requires forall i, j :: 0 <= i < j < |a.services| ==> !SamePair(a.services[i], a.services[j])
    requires SaySame(a, b)
    ensures Deterministic(SchemeOf(h, encode), a) == Deterministic(SchemeOf(h, encode), b)
  {
    hide SaySame;
    hide Deterministic;
    SameBytesExactly(h, encode, a);
    assert FieldsSettle(a);
  }

  // ---- References ----

  /** A reference is fixed by type, name and path, and tells them apart where neither type nor name
      holds a bar, unless two digests share their first 16 digits. */
  lemma ReferencesTell(h: Hash, c: Component, d: Component)
    ensures ComponentText(c) == ComponentText(d) ==> ComponentRef(h, c).bomRef == ComponentRef(h, d).bomRef
    ensures ComponentRef(h, c).bomRef == ComponentRef(h, d).bomRef && '|' !in c.kind + c.name && '|' !in d.kind + d.name ==>
              || (c.kind == d.kind && c.name == d.name && c.source == d.source)
              || (ComponentText(c) != ComponentText(d) && HashHex(h, ComponentText(c))[..16] == HashHex(h, ComponentText(d))[..16])
  {
    var x, y := ComponentRef(h, c).bomRef, ComponentRef(h, d).bomRef;
    assert x[5..] == HashHex(h, ComponentText(c))[..16] && y[5..] == HashHex(h, ComponentText(d))[..16];
    if ComponentText(c) == ComponentText(d) && '|' !in c.kind + c.name && '|' !in d.kind + d.name {
      assert ComponentText(c) == c.kind + "|" + (c.name + "|" + c.source);
      assert ComponentText(d) == d.kind + "|" + (d.name + "|" + d.source);
      SplitAt('|', c.kind, c.name + "|" + c.source, d.kind, d.name + "|" + d.source);
      SplitAt('|', c.name, c.source, d.name, d.source);
    }
  }

  ghost predicate NoComma(words: seq<string>) {
    forall i :: 0 <= i < |words| ==> ',' !in words[i]
  }

  /** Joining loses nothing of a list that is not empty and whose words hold no comma. */
  lemma {:induction false} JoinedTells(a: seq<string>, b: seq<string>)
    requires a != [] && b != [] && NoComma(a) && NoComma(b) && Joined(a) == Joined(b)
    ensures a == b
    decreases |a|
  {
    JoinedComma(a);
    JoinedComma(b);
    if |a| > 1 && |b| > 1 {
      SplitAt(',', a[0], Joined(a[1..]), b[0], Joined(b[1..]));
      JoinedTells(a[1..], b[1..]);
      assert a == [a[0]] + a[1..] && b == [b[0]] + b[1..];
    }
  }

  lemma JoinedComma(words: seq<string>)
    ensures |words| > 1 ==> ',' in Joined(words)
  {
    assert |words| > 1 ==> Joined(words)[|words[0]|] == ',';
  }

  /** A service's reference is fixed by name and endpoints, and tells them apart where the name holds
      no bar and the endpoints, of which there are some, no comma, unless two digests share 16 digits. */
  lemma ServiceReferencesTell(h: Hash, x: Service, y: Service)
    requires '|' !in x.name && '|' !in y.name && x.endpoints != [] && y.endpoints != [] && NoComma(x.endpoints) && NoComma(y.endpoints)
    ensures SamePair(x, y) ==> ServiceRef(h, x).bomRef == ServiceRef(h, y).bomRef
    ensures ServiceRef(h, x).bomRef == ServiceRef(h, y).bomRef ==>
              || SamePair(x, y)
              || (ServiceText(x) != ServiceText(y) && HashHex(h, ServiceText(x))[..16] == HashHex(h, ServiceText(y))[..16])
  {
    var r, s := ServiceRef(h, x).bomRef, ServiceRef(h, y).bomRef;
    assert r[8..] == HashHex(h, ServiceText(x))[..16] && s[8..] == HashHex(h, ServiceText(y))[..16];
    if ServiceText(x) == ServiceText(y) {
      SplitAt('|', x.name, Joined(x.endpoints), y.name, Joined(y.endpoints));
      JoinedTells(x.endpoints, y.endpoints);
    }
  }

  lemma MarkNotBefore(m: char, a: string, b: string, c: string, d: string)
    requires m !in c && a + [m] + b == c + [m] + d
    ensures |c| <= |a|
  {
    var t := c + [m] + d;
    assert (a + [m] + b)[|a|] == m;
    assert t[..|c|] == c;
  }

  lemma SplitAt(m: char, a: string, b: string, c: string, d: string)
    requires m !in a && m !in c && a + [m] + b == c + [m] + d
    ensures a == c && b == d
  {
    var s, t := a + [m] + b, c + [m] + d;
    MarkNotBefore(m, a, b, c, d);
    MarkNotBefore(m, c, d, a, b);
    assert s[..|a|] == a && t[..|c|] == c;
    assert s[|a| + 1..] == b && t[|c| + 1..] == d;
  }
}
