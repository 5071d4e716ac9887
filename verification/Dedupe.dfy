/** Collapsing duplicate findings before a CBOM is built. */
module Dedupe {
  import opened ByteStrings
  import opened Sorting

  datatype Category =
    | WeakAlgorithm | ShortKeyLength | ExpiredCertificate | ExpiringCertificate | DeprecatedProtocol | HardcodedKey
    | MissingPqc | PqcReady | VulnerableLibrary | ClassicalCrypto | UnencryptedAtRest | StaleKeyRotation

  /** The category as it is displayed. */
  function Display(c: Category): (r: string) {
    match c
    case WeakAlgorithm => "weak_algorithm"
    case ShortKeyLength => "short_key_length"
    case ExpiredCertificate => "expired_certificate"
    case ExpiringCertificate => "expiring_certificate"
    case DeprecatedProtocol => "deprecated_protocol"
    case HardcodedKey => "hardcoded_key"
    case MissingPqc => "missing_pqc"
    case PqcReady => "pqc_ready"
    case VulnerableLibrary => "vulnerable_library"
    case ClassicalCrypto => "classical_crypto"
    case UnencryptedAtRest => "unencrypted_at_rest"
    case StaleKeyRotation => "stale_key_rotation"
  }

  datatype Finding = Finding(isLibrary: bool, name: string, path: string, category: Category, rest: string)

  /** The text findings are told apart by. */
  function Key(f: Finding): (k: string) {
    if f.isLibrary then "lib" + ":" + f.name else Joined(f.name, f.path, f.category)
  }

  function Joined(name: string, path: string, c: Category): (k: string) {
    (name + ":" + path) + ":" + Display(c)
  }

  function Keys(fs: seq<Finding>): (ks: set<string>) {
    set f | f in fs :: Key(f)
  }

  /** The findings whose key is neither in `seen` nor earlier in the list. */
  function FirstOnly(fs: seq<Finding>, seen: set<string>): (r: seq<Finding>) {
    if fs == [] then []
    else if Key(fs[0]) in seen then FirstOnly(fs[1..], seen)
    else [fs[0]] + FirstOnly(fs[1..], seen + {Key(fs[0])})
  }

  function Flat(results: seq<seq<Finding>>): (fs: seq<Finding>) {
    if results == [] then [] else Flat(results[..|results| - 1]) + results[|results| - 1]
  }

  lemma {:induction false} FirstOnlyAppend(a: seq<Finding>, b: seq<Finding>, seen: set<string>)
    ensures FirstOnly(a + b, seen) == FirstOnly(a, seen) + FirstOnly(b, seen + Keys(a))
    decreases |a|
  {
    if a == [] {
      assert a + b == b && seen + Keys(a) == seen;
    } else {
      assert (a + b)[1..] == a[1..] + b;
      FirstOnlyAppend(a[1..], b, Next(a[0], seen));
      NextKeys(a, seen);
    }
  }

  function Next(f: Finding, seen: set<string>): (r: set<string>) {
    if Key(f) in seen then seen else seen + {Key(f)}
  }

  lemma NextKeys(a: seq<Finding>, seen: set<string>)
    requires a != []
    ensures Next(a[0], seen) + Keys(a[1..]) == seen + Keys(a)
  {
    assert a == [a[0]] + a[1..];
    KeysCons(a[0], a[1..]);
  }

  lemma KeysCons(f: Finding, fs: seq<Finding>)
    ensures Keys([f] + fs) == {Key(f)} + Keys(fs)
  {
    var all := [f] + fs;
    forall k | k in {Key(f)} + Keys(fs)
      ensures k in Keys(all)
    {
      var g :| (g == f || g in fs) && Key(g) == k;
      assert g in all;
    }
  }

  lemma KeysSnoc(fs: seq<Finding>, f: Finding)
    ensures Keys(fs + [f]) == Keys(fs) + {Key(f)}
  {
    var all := fs + [f];
    forall k | k in Keys(fs) + {Key(f)}
      ensures k in Keys(all)
    {
      var g :| (g == f || g in fs) && Key(g) == k;
      assert g in all;
    }
  }

  lemma KeysAppend(a: seq<Finding>, b: seq<Finding>)
    ensures Keys(a + b) == Keys(a) + Keys(b)
  {
    forall k | k in Keys(a) + Keys(b)
      ensures k in Keys(a + b)
    {
      var g :| (g in a || g in b) && Key(g) == k;
      assert g in a + b;
    }
  }

  lemma RetainNext(fs: seq<Finding>, i: nat, before: set<string>)
    requires i < |fs|
    ensures Keys(fs[..i + 1]) == Keys(fs[..i]) + {Key(fs[i])}
    ensures FirstOnly(fs[..i + 1], before) == FirstOnly(fs[..i], before) + if Key(fs[i]) in before + Keys(fs[..i]) then [] else [fs[i]]
  {
    assert fs[..i + 1] == fs[..i] + [fs[i]];
    KeysSnoc(fs[..i], fs[i]);
    FirstOnlyAppend(fs[..i], [fs[i]], before);
    OneOnly(fs[i], before + Keys(fs[..i]));
  }

  lemma OneOnly(f: Finding, seen: set<string>)
    ensures FirstOnly([f], seen) == if Key(f) in seen then [] else [f]
  {
    assert [f][1..] == [];
  }

  /** One scan result's `retain`, with the keys seen so far. */
  method Retain(fs: seq<Finding>, before: set<string>) returns (kept: seq<Finding>, seen: set<string>)
    ensures kept == FirstOnly(fs, before) && seen == before + Keys(fs)
  {
    kept, seen := [], before;
    for i := 0 to |fs|
      invariant kept == FirstOnly(fs[..i], before) && seen == before + Keys(fs[..i])
    {
      RetainNext(fs, i, before);
      if Key(fs[i]) !in seen {
        kept := kept + [fs[i]];
        seen := seen + {Key(fs[i])};
      }
    }
    assert fs[..|fs|] == fs;
  }

  /** `dedupe_scan_results` */
  method DedupeScanResults(results: seq<seq<Finding>>) returns (out: seq<seq<Finding>>)
    ensures |out| == |results| && Flat(out) == FirstOnly(Flat(results), {})
    ensures forall i :: 0 <= i < |out| ==> out[i] == FirstOnly(results[i], Keys(Flat(results[..i])))
  {
    var seen: set<string> := {};
    out := [];
    for i := 0 to |results|
      invariant |out| == i && seen == Keys(Flat(results[..i])) && Flat(out) == FirstOnly(Flat(results[..i]), {})
      invariant forall k :: 0 <= k < i ==> out[k] == FirstOnly(results[k], Keys(Flat(results[..k])))
    {
      var kept;
      kept, seen := Retain(results[i], seen);
      FlatNext(results, i);
      KeysAppend(Flat(results[..i]), results[i]);
      FirstOnlyNext(Flat(results[..i]), results[i]);
      FlatSnoc(out, kept);
      out := out + [kept];
    }
    assert results[..|results|] == results;
  }

  lemma FlatNext(results: seq<seq<Finding>>, i: nat)
    requires i < |results|
    ensures Flat(results[..i + 1]) == Flat(results[..i]) + results[i]
  {
    assert results[..i + 1][..i] == results[..i];
  }

  lemma FlatSnoc(out: seq<seq<Finding>>, kept: seq<Finding>)
    ensures Flat(out + [kept]) == Flat(out) + kept
  {
    assert (out + [kept])[..|out|] == out;
  }

  lemma FirstOnlyNext(done: seq<Finding>, fs: seq<Finding>)
    ensures FirstOnly(done + fs, {}) == FirstOnly(done, {}) + FirstOnly(fs, Keys(done))
  {
    FirstOnlyAppend(done, fs, {});
    assert {} + Keys(done) == Keys(done);
  }

  // ---- What survives ----

  /** The first finding with a key. */
  function First(fs: seq<Finding>, k: string): (f: Finding)
    requires k in Keys(fs)
  {
    if Key(fs[0]) == k then fs[0] else
      KeysTail(fs);
      First(fs[1..], k)
  }

  lemma KeysTail(fs: seq<Finding>)
    requires fs != []
    ensures Keys(fs) == {Key(fs[0])} + Keys(fs[1..])
  {
    assert fs == [fs[0]] + fs[1..];
    KeysCons(fs[0], fs[1..]);
  }

  /** Of every key exactly the first finding survives. */
  lemma {:induction false} FirstsSurvive(fs: seq<Finding>, seen: set<string>, k: string)
    ensures Filter(FirstOnly(fs, seen), (f: Finding) => Key(f) == k) == if k in Keys(fs) && k !in seen then [First(fs, k)] else []
    decreases |fs|
  {
    if fs != [] {
      var rest, here := fs[1..], Key(fs[0]);
      assert fs == [fs[0]] + rest;
      KeysCons(fs[0], rest);
      FirstsSurvive(rest, if here in seen then seen else seen + {here}, k);
      if here !in seen {
        FilterCons(fs[0], FirstOnly(rest, seen + {here}), (f: Finding) => Key(f) == k);
      }
    }
  }

  // ---- Distinct assets ----

  /** Libraries are told apart by name, other assets by name, location and category. */
  predicate SameAsset(f: Finding, g: Finding) {
    f.isLibrary == g.isLibrary && f.name == g.name && (f.isLibrary || (f.path == g.path && f.category == g.category))
  }

  /** Only findings about the same asset are ever collapsed into this one, or it into them. */
  ghost predicate Preserved(f: Finding) {
    forall g :: Key(f) == Key(g) ==> SameAsset(f, g)
  }

  /** A library's name does not end like a location and a category; another asset's name and
      location hold no colon, and its name is not `lib`. */
  ghost predicate Unmistakable(f: Finding) {
    if f.isLibrary then forall c :: !EndsInCategory(f.name, c)
    else NoColon(f.name) && NoColon(f.path) && f.name != "lib"
  }

  predicate EndsInCategory(name: string, c: Category) {
    var n := |Display(c)| + 1;
    |name| >= n && name[|name| - n..] == ":" + Display(c)
  }

  lemma DisplayDistinct(c: Category, d: Category)
    requires Display(c) == Display(d)
    ensures c == d
  {
    assert |Display(c)| == |Display(d)| && Display(c)[0] == Display(d)[0] && Display(c)[1] == Display(d)[1];
  }

  lemma DisplayHasNoColon(c: Category)
    ensures NoColon(Display(c))
  {
    var d := Display(c);
    assert ':' !in d;
    assert forall i :: 0 <= i < |d| ==> d[i] in d;
  }

  // ---- Colons in a key ----

  function Colons(s: string): (n: nat) {
    if s == "" then 0 else (if s[0] == ':' then 1 else 0) + Colons(s[1..])
  }

  lemma {:induction false} ColonsAppend(a: string, b: string)
    ensures Colons(a + b) == Colons(a) + Colons(b)
    decreases |a|
  {
    if a == "" {
      assert a + b == b;
    } else {
      assert (a + b)[1..] == a[1..] + b;
      ColonsAppend(a[1..], b);
    }
  }

  lemma {:induction false} ColonsNone(s: string)
    ensures Colons(s) == 0 <==> NoColon(s)
  {
    if s != "" {
      ColonsNone(s[1..]);
      assert NoColon(s) <==> s[0] != ':' && NoColon(s[1..]) by {
        assert forall i :: 0 <= i < |s[1..]| ==> s[1..][i] == s[i + 1];
        assert forall i :: 0 < i < |s| ==> s[i] == s[1..][i - 1];
      }
    }
  }

  lemma ColonsAround(a: string, b: string)
    ensures Colons(a + ":" + b) == Colons(a) + 1 + Colons(b)
  {
    ColonsAppend(a, ":");
    ColonsAppend(a + ":", b);
    assert ":"[1..] == "";
  }

  // ---- What is unmistakable is preserved ----

  lemma SameCategory(name: string, path: string, c: Category, other: string, d: Category)
    requires Joined(name, path, c) == other + ":" + Display(d)
    ensures c == d && name + ":" + path == other
  {
    DisplayHasNoColon(c);
    DisplayHasNoColon(d);
    SplitAtLastColon(name + ":" + path, Display(c), other, Display(d));
    DisplayDistinct(c, d);
  }

  lemma OthersPreserved(f: Finding, g: Finding)
    requires !f.isLibrary && !g.isLibrary && NoColon(f.name) && NoColon(f.path) && Key(f) == Key(g)
    ensures SameAsset(f, g)
  {
    SameCategory(f.name, f.path, f.category, g.name + ":" + g.path, g.category);
    ColonsAround(f.name, f.path);
    ColonsAround(g.name, g.path);
    ColonsNone(f.name);
    ColonsNone(f.path);
    ColonsNone(g.name);
    ColonsNone(g.path);
    SplitAtFirstColon(f.name, f.path, g.name, g.path);
  }

  /** A library and another asset without a colon in its name share a key only if that is named `lib`. */
  lemma NamedLib(f: Finding, g: Finding)
    requires f.isLibrary && !g.isLibrary && NoColon(g.name) && Key(f) == Key(g)
    ensures g.name == "lib"
  {
    LibPrefix(f.name, g.name, g.path, Display(g.category));
  }

  lemma LibPrefix(library: string, name: string, path: string, d: string)
    requires NoColon(name) && "lib" + ":" + library == (name + ":" + path) + ":" + d
    ensures name == "lib"
  {
    assert (name + ":" + path) + ":" + d == name + ":" + (path + ":" + d);
    SplitAtFirstColon("lib", library, name, path + ":" + d);
  }

  lemma LibraryEndsInCategory(f: Finding, g: Finding)
    requires f.isLibrary && !g.isLibrary && Key(f) == Key(g)
    ensures EndsInCategory(f.name, g.category)
  {
    DisplayHasNoColon(g.category);
    LibrarySuffix(f.name, g.name, g.path, Display(g.category));
  }

  lemma LibrarySuffix(library: string, name: string, path: string, d: string)
    requires NoColon(d) && "lib" + ":" + library == (name + ":" + path) + ":" + d
    ensures |library| >= |d| + 1 && library[|library| - |d| - 1..] == ":" + d
  {
    ColonsAround("lib", library);
    ColonsAround(name + ":" + path, d);
    ColonsAround(name, path);
    ColonsNone("lib");
    var p, c := LastColon(library);
    assert "lib" + ":" + (p + ":" + c) == ("lib" + ":" + p) + ":" + c;
    SplitAtLastColon("lib" + ":" + p, c, name + ":" + path, d);
  }

  lemma {:induction false} LastColon(s: string) returns (p: string, c: string)
    requires Colons(s) > 0
    ensures s == p + ":" + c && NoColon(c)
  {
    ColonsNone(s[1..]);
    assert s == [s[0]] + s[1..];
    if NoColon(s[1..]) {
      p, c := "", s[1..];
    } else {
      p, c := LastColon(s[1..]);
      assert [s[0]] + (p + ":" + c) == ([s[0]] + p) + ":" + c;
      p := [s[0]] + p;
    }
  }

  lemma UnmistakablePreserved(f: Finding, g: Finding)
    requires Unmistakable(f) && Key(f) == Key(g)
    ensures SameAsset(f, g)
  {
    if f.isLibrary && g.isLibrary {
      assert Key(f)[4..] == f.name && Key(g)[4..] == g.name;
    } else if f.isLibrary {
      LibraryEndsInCategory(f, g);
    } else if g.isLibrary {
      NamedLib(g, f);
    } else {
      OthersPreserved(f, g);
    }
  }

  lemma CollapsedAreSame(f: Finding, g: Finding)
    requires Unmistakable(f)
    ensures Key(f) == Key(g) <==> SameAsset(f, g)
  {
    if Key(f) == Key(g) {
      UnmistakablePreserved(f, g);
    }
  }

  // ---- What is not unmistakable is not preserved ----

  /** A colon in the name can be read as the end of the name. */
  lemma ColonInName(f: Finding)
    requires !f.isLibrary && !NoColon(f.name)
    ensures !Preserved(f)
  {
    var i :| 0 <= i < |f.name| && f.name[i] == ':';
    var a, b := f.name[..i], f.name[i + 1..];
    assert f.name == a + ":" + b;
    var g := f.(name := a, path := b + ":" + f.path);
    assert (a + ":" + b) + ":" + f.path == a + ":" + (b + ":" + f.path);
    assert Key(f) == Key(g) && |g.name| < |f.name|;
  }

  /** A colon in the location can be read as the end of the name. */
  lemma ColonInPath(f: Finding)
    requires !f.isLibrary && !NoColon(f.path)
    ensures !Preserved(f)
  {
    var i :| 0 <= i < |f.path| && f.path[i] == ':';
    var a, b := f.path[..i], f.path[i + 1..];
    assert f.path == a + ":" + b;
    var g := f.(name := f.name + ":" + a, path := b);
    assert f.name + ":" + (a + ":" + b) == (f.name + ":" + a) + ":" + b;
    assert Key(f) == Key(g) && |g.name| > |f.name|;
  }

  /** An asset named `lib` shares its key with a library, and so does a library that ends in a category. */
  lemma LibMergesAssets(path: string, c: Category, rest: string)
    ensures var asset, library := Finding(false, "lib", path, c, rest), Finding(true, path + ":" + Display(c), path, c, rest);
            Key(asset) == Key(library) && !SameAsset(asset, library) && FirstOnly([asset, library], {}) == [asset]
  {
    var asset, library := Finding(false, "lib", path, c, rest), Finding(true, path + ":" + Display(c), path, c, rest);
    assert ("lib" + ":" + path) + ":" + Display(c) == "lib" + ":" + (path + ":" + Display(c));
    SecondLost(asset, library);
  }

  lemma SecondLost(f: Finding, g: Finding)
    requires Key(f) == Key(g)
    ensures FirstOnly([f, g], {}) == [f]
  {
    assert [f, g][1..] == [g];
    assert {} + {Key(f)} == {Key(f)};
    assert FirstOnly([g], {Key(f)}) == FirstOnly([g][1..], {Key(f)});
  }

  lemma LibraryMistaken(f: Finding, c: Category)
    requires f.isLibrary && EndsInCategory(f.name, c)
    ensures !Preserved(f)
  {
    hide Display;
    var p := f.name[..|f.name| - |Display(c)| - 1];
    assert f.name == p + ":" + Display(c);
    LibMergesAssets(p, c, f.rest);
    assert Key(f) == Key(Finding(false, "lib", p, c, f.rest));
  }

  lemma AssetNamedLib(f: Finding)
    requires !f.isLibrary && f.name == "lib"
    ensures !Preserved(f)
  {
    LibMergesAssets(f.path, f.category, f.rest);
    var g := Finding(true, f.path + ":" + Display(f.category), f.path, f.category, f.rest);
    assert Key(f) == Key(g) && !SameAsset(f, g);
  }

  /** A finding is told apart from every finding about another asset if and only if it is unmistakable. */
  lemma PreservedExactly(f: Finding)
    ensures Preserved(f) <==> Unmistakable(f)
  {
    if Unmistakable(f) {
      forall g | Key(f) == Key(g)
        ensures SameAsset(f, g)
      {
        UnmistakablePreserved(f, g);
      }
    } else if f.isLibrary {
      var c :| EndsInCategory(f.name, c);
      LibraryMistaken(f, c);
    } else if !NoColon(f.name) {
      ColonInName(f);
    } else if !NoColon(f.path) {
      ColonInPath(f);
    } else {
      AssetNamedLib(f);
    }
  }

  /** With a colon in a name two different assets can share a key, and the second is lost. */
  lemma ColonsMergeAssets(a: string, b: string, path: string, c: Category, rest: string)
    ensures var f, g := Finding(false, a + ":" + b, path, c, rest), Finding(false, a, b + ":" + path, c, rest);
            !SameAsset(f, g) && FirstOnly([f, g], {}) == [f]
  {
    var f, g := Finding(false, a + ":" + b, path, c, rest), Finding(false, a, b + ":" + path, c, rest);
    assert (a + ":" + b) + ":" + path == a + ":" + (b + ":" + path);
    assert |f.name| > |g.name|;
    SecondLost(f, g);
  }

  /** Where every finding is unmistakable, of each asset exactly one finding survives. */
  lemma AssetsSurvive(fs: seq<Finding>, f: Finding)
    requires f in fs && forall g :: g in fs ==> Unmistakable(g)
    ensures Filter(FirstOnly(fs, {}), (g: Finding) => SameAsset(f, g)) == [First(fs, Key(f))]
    ensures First(fs, Key(f)) in fs && SameAsset(f, First(fs, Key(f)))
  {
    hide Unmistakable;
    hide SameAsset;
    hide Key;
    var kept := FirstOnly(fs, {});
    FirstsSurvive(fs, {}, Key(f));
    FirstIsMember(fs, Key(f));
    CollapsedAreSame(f, First(fs, Key(f)));
    forall g | g in kept
      ensures SameAsset(f, g) == (Key(g) == Key(f))
    {
      CollapsedAreSame(f, g);
    }
    FilterAlike(kept, (g: Finding) => SameAsset(f, g), (g: Finding) => Key(g) == Key(f));
  }

  lemma {:induction false} FirstIsMember(fs: seq<Finding>, k: string)
    requires k in Keys(fs)
    ensures First(fs, k) in fs && Key(First(fs, k)) == k
    decreases |fs|
  {
    if Key(fs[0]) != k {
      KeysTail(fs);
      FirstIsMember(fs[1..], k);
    }
  }
}
