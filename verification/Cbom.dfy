/** Byte-reproducible CBOMs: `make_deterministic`. */
module Cbom {
  import opened ByteStrings
  import opened Sorting
  import opened Canonical

  /** `rest` stands for the fields that are carried along unchanged. */
  datatype Component = Component(kind: string, name: string, source: string, scannedAt: int, bomRef: string, rest: string)

  datatype Service = Service(name: string, endpoints: seq<string>, bomRef: string, rest: string)

  datatype Bom = Bom(serial: string, timestamp: int, calculatedAt: int, components: seq<Component>, services: seq<Service>, rest: string)

  // ---- Paths ----

  function Slashed(p: string): (r: string)
    ensures |r| == |p| && '\\' !in r
  {
    seq(|p|, i requires 0 <= i < |p| => if p[i] == '\\' then '/' else p[i])
  }

  predicate StartsHere(p: string) {
    "./" <= p
  }

  /** `normalize_path`: forward slashes, and one leading `./` dropped. */
  function NormalizePath(p: string): (r: string)
    ensures |r| <= |p| && '\\' !in r
  {
    var s := Slashed(p);
    if StartsHere(s) then s[2..] else s
  }

  /** Normalizing is stable exactly when it did not uncover another leading `./`. */
  lemma NormalizedAgain(p: string)
    ensures NormalizePath(NormalizePath(p)) == NormalizePath(p) <==> !StartsHere(NormalizePath(p))
    ensures |NormalizePath(NormalizePath(p))| == |NormalizePath(p)| <==> !StartsHere(NormalizePath(p))
  {
    var n := NormalizePath(p);
    assert Slashed(n) == n;
  }

  // ---- The rules for components and services ----

  function Normalized(c: Component): (r: Component) {
    c.(source := NormalizePath(c.source), scannedAt := 0)
  }

  function ComponentKey(c: Component): (k: seq<string>) {
    [c.name, c.source, c.kind]
  }

  function ComponentRef(h: Hash, c: Component): (r: Component) {
    c.(bomRef := "comp-" + HashHex(h, c.kind + "|" + c.name + "|" + c.source)[..16])
  }

  function ComponentRules(h: Hash): (r: Rules<Component>) {
    Rules(Normalized, ComponentKey, c => ComponentRef(h, c), (c: Component) => c.(bomRef := ""))
  }

  function Joined(words: seq<string>): (r: string) {
    if words == [] then "" else if |words| == 1 then words[0] else words[0] + "," + Joined(words[1..])
  }

  function ServiceKey(x: Service): (k: seq<string>) {
    [x.name] + x.endpoints
  }

  function ServiceRef(h: Hash, x: Service): (r: Service) {
    x.(bomRef := "service-" + HashHex(h, x.name + "|" + Joined(x.endpoints))[..16])
  }

  function ServiceRules(h: Hash): (r: Rules<Service>) {
    Rules(x => x, ServiceKey, x => ServiceRef(h, x), (x: Service) => x.(bomRef := ""))
  }

  /** Everything that `make_deterministic` derives from content; `encode` is the canonical JSON of a document. */
  datatype Scheme = Scheme(components: Rules<Component>, services: Rules<Service>, encode: Bom -> Bytes, digest: Bytes -> Hex32)

  /** At least 32 hex digits. */
  type Hex32 = d: string | |d| >= 32 witness "00000000000000000000000000000000"

  function SchemeOf(h: Hash, encode: Bom -> Bytes): (m: Scheme)
    ensures IsLawful(m)
  {
    Scheme(ComponentRules(h), ServiceRules(h), encode, (x: Bytes) => HashHex(h, x))
  }

  ghost predicate IsLawful(m: Scheme) {
    Lawful(m.components) && StripIdempotent(m.components) && Lawful(m.services) && StripIdempotent(m.services)
  }

  // ---- The document ----

  /** The document before its serial number is set. */
  function Body(m: Scheme, b: Bom): (r: Bom) {
    Bom("", 0, 0, Canon(m.components, b.components), Canon(m.services, b.services), b.rest)
  }

  /** The first half of a hex digest, laid out as a UUID. */
  function Serial(digest: Hex32): (r: string) {
    "urn:uuid:" + digest[0..8] + "-" + digest[8..12] + "-" + digest[12..16] + "-" + digest[16..20] + "-" + digest[20..32]
  }

  /** `make_deterministic` on values. */
  function Deterministic(m: Scheme, b: Bom): (r: Bom) {
    Body(m, b).(serial := Serial(m.digest(m.encode(Body(m, b)))))
  }

  class Document {
    var serial: string
    var timestamp: int
    var calculatedAt: int
    var components: seq<Component>
    var services: seq<Service>
    const rest: string

    constructor (b: Bom)
      ensures State() == b
    {
      serial, timestamp, calculatedAt := b.serial, b.timestamp, b.calculatedAt;
      components, services, rest := b.components, b.services, b.rest;
    }

    function State(): (b: Bom)
      reads this
    {
      Bom(serial, timestamp, calculatedAt, components, services, rest)
    }

    method NormalizeEvidence()
      modifies this`components
      ensures components == Map(old(components), Normalized)
    {
      for i := 0 to |components|
        invariant |components| == |old(components)|
        invariant forall k :: 0 <= k < |components| ==> components[k] == if k < i then Normalized(old(components)[k]) else old(components)[k]
      {
        components := components[i := components[i].(source := NormalizePath(components[i].source), scannedAt := 0)];
      }
    }

    method DeriveComponentRefs(h: Hash)
      modifies this`components
      ensures components == Map(old(components), ComponentRules(h).ref)
    {
      for i := 0 to |components|
        invariant |components| == |old(components)|
        invariant forall k :: 0 <= k < |components| ==> components[k] == if k < i then ComponentRef(h, old(components)[k]) else old(components)[k]
      {
        components := components[i := ComponentRef(h, components[i])];
      }
    }

    method DeriveServiceRefs(h: Hash)
      modifies this`services
      ensures services == Map(old(services), ServiceRules(h).ref)
    {
      for i := 0 to |services|
        invariant |services| == |old(services)|
        invariant forall k :: 0 <= k < |services| ==> services[k] == if k < i then ServiceRef(h, old(services)[k]) else old(services)[k]
      {
        services := services[i := ServiceRef(h, services[i])];
      }
    }

    method MakeDeterministic(h: Hash, encode: Bom -> Bytes)
      modifies this
      ensures State() == Deterministic(SchemeOf(h, encode), old(State()))
    {
      NormalizeEvidence();
      components := SortBy(components, ByKey(ComponentKey));
      services := SortBy(services, ByKey(ServiceKey));
      DeriveComponentRefs(h);
      DeriveServiceRefs(h);
      assert Map(old(services), ServiceRules(h).norm) == old(services);
      timestamp := 0;
      calculatedAt := 0;
      serial := "";
      var digest := HashHex(h, encode(State()));
      serial := Serial(digest);
    }
  }

  // ---- Reproducible exactly when keys settle the order ----

  /** Two documents that differ only in order, references, timestamps, serial number and spelling of paths. */
  ghost predicate SameInventory(m: Scheme, a: Bom, b: Bom) {
    && SameContent(m.components, a.components, b.components)
    && SameContent(m.services, a.services, b.services)
    && a.rest == b.rest
  }

  /** Components with one name, path and type are alike, and so are services with one name and list of endpoints. */
  ghost predicate KeysSettle(m: Scheme, b: Bom) {
    Unambiguous(m.components, b.components) && Unambiguous(m.services, b.services)
  }

  ghost predicate Reproducible(m: Scheme, a: Bom) {
    forall b :: SameInventory(m, a, b) ==> Deterministic(m, a) == Deterministic(m, b)
  }

  lemma SameInventorySameBytes(m: Scheme, a: Bom, b: Bom)
    requires IsLawful(m) && SameInventory(m, a, b) && KeysSettle(m, a)
    ensures Deterministic(m, a) == Deterministic(m, b)
  {
    UnambiguousOrderFree(m.components, a.components, b.components);
    UnambiguousOrderFree(m.services, a.services, b.services);
  }

  lemma ComponentOrderMatters(m: Scheme, a: Bom, t: seq<Component>)
    requires SameContent(m.components, a.components, t) && Canon(m.components, a.components) != Canon(m.components, t)
    ensures SameInventory(m, a, a.(components := t)) && Deterministic(m, a) != Deterministic(m, a.(components := t))
  {
    assert Deterministic(m, a).components != Deterministic(m, a.(components := t)).components;
  }

  lemma ServiceOrderMatters(m: Scheme, a: Bom, t: seq<Service>)
    requires SameContent(m.services, a.services, t) && Canon(m.services, a.services) != Canon(m.services, t)
    ensures SameInventory(m, a, a.(services := t)) && Deterministic(m, a) != Deterministic(m, a.(services := t))
  {
    assert Deterministic(m, a).services != Deterministic(m, a.(services := t)).services;
  }

  lemma AmbiguousNotReproducible(m: Scheme, a: Bom)
    requires !OrderFree(m.components, a.components) || !OrderFree(m.services, a.services)
    ensures !Reproducible(m, a)
  {
    if !OrderFree(m.components, a.components) {
      var t :| SameContent(m.components, a.components, t) && Canon(m.components, a.components) != Canon(m.components, t);
      ComponentOrderMatters(m, a, t);
    } else {
      var t :| SameContent(m.services, a.services, t) && Canon(m.services, a.services) != Canon(m.services, t);
      ServiceOrderMatters(m, a, t);
    }
  }

  lemma SettledReproducible(m: Scheme, a: Bom)
    requires IsLawful(m) && KeysSettle(m, a)
    ensures Reproducible(m, a)
  {
    forall b | SameInventory(m, a, b)
      ensures Deterministic(m, a) == Deterministic(m, b)
    {
      SameInventorySameBytes(m, a, b);
    }
  }

  /** A document is reproducible if and only if its keys settle the order. */
  lemma ReproducibleExactly(m: Scheme, a: Bom)
    requires IsLawful(m)
    ensures Reproducible(m, a) <==> KeysSettle(m, a)
  {
    OrderFreeExactly(m.components, a.components);
    OrderFreeExactly(m.services, a.services);
    if KeysSettle(m, a) {
      SettledReproducible(m, a);
    } else {
      AmbiguousNotReproducible(m, a);
    }
  }

  /** Pairwise distinct keys settle the order. */
  lemma DistinctKeysSettle(m: Scheme, b: Bom)
    requires Distinct(Map(Essences(m.components, b.components), m.components.key))
    requires Distinct(Map(Essences(m.services, b.services), m.services.key))
    ensures KeysSettle(m, b)
  {
    DistinctUnambiguous(m.components, b.components);
    DistinctUnambiguous(m.services, b.services);
  }

  lemma DistinctUnambiguous<T>(r: Rules<T>, s: seq<T>)
    requires Distinct(Map(Essences(r, s), r.key))
    ensures Unambiguous(r, s)
  {
    var e := Essences(r, s);
    forall x, y | x in e && y in e && r.key(x) == r.key(y)
      ensures x == y
    {
      var i :| 0 <= i < |e| && e[i] == x;
      var j :| 0 <= j < |e| && e[j] == y;
      var keys := Map(e, r.key);
      assert keys[i] == keys[j];
    }
  }

  // ---- Doing it twice ----

  ghost predicate PathsSettle(cs: seq<Component>) {
    forall i :: 0 <= i < |cs| ==> !StartsHere(NormalizePath(cs[i].source))
  }

  /** A component that was rewritten once is left alone the second time unless its path was not settled. */
  lemma RewrittenAgain(h: Hash, c: Component)
    ensures var once := ComponentRef(h, Normalized(c));
            && (Normalized(once) == once <==> !StartsHere(NormalizePath(c.source)))
            && |Normalized(once).source| <= |once.source|
            && (|Normalized(once).source| == |once.source| ==> Normalized(once) == once)
  {
    NormalizedAgain(c.source);
  }

  lemma ComponentsTwice(h: Hash, cs: seq<Component>)
    ensures var r := ComponentRules(h); Canon(r, Canon(r, cs)) == Canon(r, cs) <==> PathsSettle(cs)
  {
    hide Canon;
    hide NormalizePath;
    var r, size := ComponentRules(h), (x: Component) => |x.source|;
    CanonMembers(r, cs);
    forall k | 0 <= k < |cs|
      ensures var x := r.ref(r.norm(cs[k])); size(r.norm(x)) <= size(x) && (size(r.norm(x)) == size(x) ==> r.norm(x) == x)
      ensures var x := r.ref(r.norm(cs[k])); r.norm(x) == x <==> !StartsHere(NormalizePath(cs[k].source))
    {
      RewrittenAgain(h, cs[k]);
    }
    TwiceExactly(r, cs, size);
  }

  lemma ServicesTwice(h: Hash, ss: seq<Service>)
    ensures var r := ServiceRules(h); Canon(r, Canon(r, ss)) == Canon(r, ss)
  {
    CanonTwice(ServiceRules(h), ss);
  }

  /** Making a document deterministic twice changes nothing more, if and only if no path still
      starts with `./` after the first time. */
  lemma IdempotentExactly(h: Hash, encode: Bom -> Bytes, b: Bom)
    ensures var m := SchemeOf(h, encode); Deterministic(m, Deterministic(m, b)) == Deterministic(m, b) <==> PathsSettle(b.components)
  {
    ServicesTwice(h, b.services);
    ComponentsTwice(h, b.components);
  }

  lemma NotAlwaysIdempotent(h: Hash, encode: Bom -> Bytes, c: Component, b: Bom)
    requires c.source == "././a" && b.components == [c]
    ensures var m := SchemeOf(h, encode); Deterministic(m, Deterministic(m, b)) != Deterministic(m, b)
  {
    assert Slashed(c.source) == c.source;
    assert StartsHere(NormalizePath(b.components[0].source));
    IdempotentExactly(h, encode, b);
  }

  // ---- The serial number ----

  lemma SerialParts(d: Hex32)
    ensures |Serial(d)| == 45 && Serial(d)[..9] == "urn:uuid:"
    ensures Serial(d)[17] == Serial(d)[22] == Serial(d)[27] == Serial(d)[32] == '-'
    ensures d[..32] == Serial(d)[9..17] + Serial(d)[18..22] + Serial(d)[23..27] + Serial(d)[28..32] + Serial(d)[33..45]
  {
    var r := Serial(d);
    assert r[9..17] == d[0..8];
    assert r[18..22] == d[8..12];
    assert r[23..27] == d[12..16];
    assert r[28..32] == d[16..20];
    assert r[33..45] == d[20..32];
    assert d[..32] == d[0..8] + d[8..12] + d[12..16] + d[16..20] + d[20..32];
  }

  /** The serial number shows the first 32 digits of the digest, and nothing else. */
  lemma SerialShows(d: Hex32, e: Hex32)
    ensures Serial(d) == Serial(e) <==> d[..32] == e[..32]
  {
    SerialParts(d);
    SerialParts(e);
    SerialOfHalf(d);
    SerialOfHalf(e);
  }

  lemma SerialOfHalf(d: Hex32)
    ensures Serial(d) == Serial(d[..32])
  {
    var x := d[..32];
    assert d[0..8] == x[0..8] && d[8..12] == x[8..12] && d[12..16] == x[12..16] && d[16..20] == x[16..20] && d[20..32] == x[20..32];
  }

  /** Two different byte strings whose digests share the first half. */
  ghost predicate HalfCollide(m: Scheme, x: Bytes, y: Bytes) {
    x != y && m.digest(x)[..32] == m.digest(y)[..32]
  }

  ghost predicate Injective(encode: Bom -> Bytes) {
    forall a, b :: encode(a) == encode(b) ==> a == b
  }

  lemma EqualBodiesSameInventory(m: Scheme, a: Bom, b: Bom)
    requires IsLawful(m) && Body(m, a) == Body(m, b)
    ensures SameInventory(m, a, b)
  {
    assert Body(m, a).components == Body(m, b).components && Body(m, a).services == Body(m, b).services;
    EqualCanonSameContent(m.components, a.components, b.components);
    EqualCanonSameContent(m.services, a.services, b.services);
  }

  /** The serial number changes if and only if the inventory does, where keys settle the order and
      two encodings do not share half a digest. */
  lemma SerialTracksInventory(m: Scheme, a: Bom, b: Bom)
    requires IsLawful(m) && Injective(m.encode)
    ensures Deterministic(m, a).serial == Deterministic(m, b).serial ==>
              SameInventory(m, a, b) || HalfCollide(m, m.encode(Body(m, a)), m.encode(Body(m, b)))
    ensures SameInventory(m, a, b) && KeysSettle(m, a) ==> Deterministic(m, a).serial == Deterministic(m, b).serial
  {
    var x, y := m.encode(Body(m, a)), m.encode(Body(m, b));
    SerialShows(m.digest(x), m.digest(y));
    if x == y {
      EqualBodiesSameInventory(m, a, b);
    }
    if SameInventory(m, a, b) && KeysSettle(m, a) {
      SameInventorySameBytes(m, a, b);
    }
  }

  ghost predicate SerialReproducible(m: Scheme, a: Bom) {
    forall b :: SameInventory(m, a, b) ==> Deterministic(m, a).serial == Deterministic(m, b).serial
  }

  /** The serial number is a function of the inventory if and only if keys settle the order, or two
      encodings of one inventory share half a digest. */
  lemma SerialReproducibleExactly(m: Scheme, a: Bom)
    requires IsLawful(m) && Injective(m.encode)
    ensures || (SerialReproducible(m, a) <==> KeysSettle(m, a))
            || exists b :: SameInventory(m, a, b) && HalfCollide(m, m.encode(Body(m, a)), m.encode(Body(m, b)))
  {
    ReproducibleExactly(m, a);
    if !KeysSettle(m, a) {
      var b :| SameInventory(m, a, b) && Deterministic(m, a) != Deterministic(m, b);
      DifferentSerials(m, a, b);
    }
  }

  lemma DifferentSerials(m: Scheme, a: Bom, b: Bom)
    requires Injective(m.encode) && Deterministic(m, a) != Deterministic(m, b)
    ensures Deterministic(m, a).serial != Deterministic(m, b).serial || HalfCollide(m, m.encode(Body(m, a)), m.encode(Body(m, b)))
  {
    SerialShows(m.digest(m.encode(Body(m, a))), m.digest(m.encode(Body(m, b))));
  }
}
