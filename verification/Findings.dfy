/** The findings of `verify_sharded`, and its loops over one writer's chain and over the
    checkpoints, each proved to report exactly its findings, in order. */
module Findings {
  import opened ByteStrings
  import opened Sorting
  import opened AuditLog
  import opened Options

  /** What the verifier recomputes: the two content hashes, the Merkle root of a tip list,
      and the signature check. */
  datatype Checks = Checks(
    entryHash: EntryContent -> string,
    checkpointHash: CheckpointContent -> string,
    rootOf: seq<WriterTip> -> string,
    check: (string, string) -> SignatureCheck)

  function ChecksOf(c: Crypto): (k: Checks) {
    Checks((e: EntryContent) => HashHex(c.sha3, EntryBytes(e)),
           (cp: CheckpointContent) => HashHex(c.sha3, CheckpointBytes(cp)),
           (tips: seq<WriterTip>) => MerkleRootOf(c.sha3, tips),
           c.check)
  }

  /** One reported error, by kind, with the numbers its message carries. */
  datatype Finding =
    | ContentHashMismatch(writer: string, seqNo: nat)
    | SequenceGap(writer: string, before: nat, after: nat)
    | GenesisLinked(writer: string)
    | ChainBroken(writer: string, seqNo: nat)
    | EntrySignatureInvalid(writer: string, seqNo: nat)
    | EntrySignatureError(writer: string, seqNo: nat, message: string)
    | CheckpointHashMismatch(cpSeq: nat)
    | MerkleRootMismatch(cpSeq: nat)
    | CheckpointGap(before: nat, after: nat)
    | CheckpointLinkBroken(cpSeq: nat)
    | CheckpointSignatureInvalid(cpSeq: nat)
    | CheckpointSignatureError(cpSeq: nat, message: string)
    | TipAltered(cpSeq: nat, writer: string, seqNo: nat)
    | TipMissing(cpSeq: nat, writer: string, seqNo: nat)

  /** Findings that also clear `chain_intact`. */
  predicate BreaksChain(f: Finding) {
    f.ContentHashMismatch? || f.SequenceGap? || f.GenesisLinked? || f.ChainBroken? || f.TipAltered? || f.TipMissing?
  }

  /** The part of the result the checks decide; the rest of it only counts. */
  datatype Verdict = Verdict(valid: bool, chainIntact: bool, errors: seq<Finding>)

  datatype Report = Report(
    verdict: Verdict, entriesChecked: nat, signaturesValid: nat, merkleRootsValid: nat,
    writersChecked: nat, checkpointsChecked: nat)

  // ---- Lists of findings ----

  predicate Intact(errors: seq<Finding>) {
    errors == [] || (!BreaksChain(errors[0]) && Intact(errors[1..]))
  }

  lemma {:induction false} IntactAppend(a: seq<Finding>, b: seq<Finding>)
    ensures Intact(a + b) <==> Intact(a) && Intact(b)
  {
    if a == [] {
      assert a + b == b;
    } else {
      assert (a + b)[1..] == a[1..] + b;
      IntactAppend(a[1..], b);
    }
  }

  /** The first `n` lists, one after the other. */
  function Flatten(parts: seq<seq<Finding>>, n: nat): (r: seq<Finding>)
    requires n <= |parts|
  {
    if n == 0 then [] else Flatten(parts, n - 1) + parts[n - 1]
  }

  lemma {:induction false} FlattenEmpty(parts: seq<seq<Finding>>, n: nat)
    requires n <= |parts|
    ensures Flatten(parts, n) == [] <==> forall i :: 0 <= i < n ==> parts[i] == []
  {
    if n > 0 {
      FlattenEmpty(parts, n - 1);
    }
  }

  lemma {:induction false} FlattenIntact(parts: seq<seq<Finding>>, n: nat)
    requires n <= |parts|
    ensures Intact(Flatten(parts, n)) <==> forall i :: 0 <= i < n ==> Intact(parts[i])
  {
    if n > 0 {
      hide Intact;
      FlattenIntact(parts, n - 1);
      IntactAppend(Flatten(parts, n - 1), parts[n - 1]);
    }
  }

  // ---- What a finding means ----

  predicate EntryHashOk(k: Checks, e: AuditEntry) {
    k.entryHash(e.content) == e.contentHash
  }

  predicate EntrySigned(k: Checks, e: AuditEntry) {
    k.check(e.contentHash, e.signature).Good?
  }

  /** The findings about entry `i` of one writer's sorted chain, in the order they are reported. */
  function EntryFindings(k: Checks, writer: string, chain: seq<AuditEntry>, i: nat): (r: seq<Finding>)
    requires i < |chain|
  {
    HashFaults(k, writer, chain[i]) + NumberFaults(writer, chain, i) + LinkFaults(writer, chain, i)
    + SignatureFaults(k, writer, chain[i])
  }

  function HashFaults(k: Checks, writer: string, e: AuditEntry): (r: seq<Finding>) {
    if EntryHashOk(k, e) then [] else [ContentHashMismatch(writer, e.content.sequence)]
  }

  predicate NumberOk(chain: seq<AuditEntry>, i: nat)
    requires i < |chain|
  {
    if i == 0 then GenesisOk(chain[0]) else chain[i].content.sequence == chain[i - 1].content.sequence + 1
  }

  predicate GenesisOk(e: AuditEntry) {
    e.content.sequence == 0 ==> e.content.prevHash == ""
  }

  function NumberFaults(writer: string, chain: seq<AuditEntry>, i: nat): (r: seq<Finding>)
    requires i < |chain|
  {
    if NumberOk(chain, i) then []
    else if i == 0 then [GenesisLinked(writer)]
    else [SequenceGap(writer, chain[i - 1].content.sequence, chain[i].content.sequence)]
  }

  predicate LinkOk(chain: seq<AuditEntry>, i: nat)
    requires i < |chain|
  {
    i == 0 || chain[i].content.prevHash == chain[i - 1].contentHash
  }

  function LinkFaults(writer: string, chain: seq<AuditEntry>, i: nat): (r: seq<Finding>)
    requires i < |chain|
  {
    if LinkOk(chain, i) then [] else [ChainBroken(writer, chain[i].content.sequence)]
  }

  function SignatureFaults(k: Checks, writer: string, e: AuditEntry): (r: seq<Finding>) {
    match k.check(e.contentHash, e.signature)
    case Good => []
    case Bad => [EntrySignatureInvalid(writer, e.content.sequence)]
    case Failed(m) => [EntrySignatureError(writer, e.content.sequence, m)]
  }

  function ChainParts(k: Checks, writer: string, chain: seq<AuditEntry>): (r: seq<seq<Finding>>)
    ensures |r| == |chain|
  {
    seq(|chain|, i requires 0 <= i < |chain| => EntryFindings(k, writer, chain, i))
  }

  function ChainFindings(k: Checks, writer: string, chain: seq<AuditEntry>, n: nat): (r: seq<Finding>)
    requires n <= |chain|
  {
    Flatten(ChainParts(k, writer, chain), n)
  }

  predicate CheckpointHashOk(k: Checks, cp: AuditCheckpoint) {
    k.checkpointHash(cp.content) == cp.contentHash
  }

  predicate CheckpointRootOk(k: Checks, cp: AuditCheckpoint) {
    k.rootOf(cp.content.tips) == cp.content.merkleRoot
  }

  predicate CheckpointSigned(k: Checks, cp: AuditCheckpoint) {
    k.check(cp.contentHash, cp.signature).Good?
  }

  function CheckpointHashFaults(k: Checks, cp: AuditCheckpoint): (r: seq<Finding>) {
    if CheckpointHashOk(k, cp) then [] else [CheckpointHashMismatch(cp.content.seqNo)]
  }

  function RootFaults(k: Checks, cp: AuditCheckpoint): (r: seq<Finding>) {
    if CheckpointRootOk(k, cp) then [] else [MerkleRootMismatch(cp.content.seqNo)]
  }

  predicate CheckpointNumberOk(cps: seq<AuditCheckpoint>, i: nat)
    requires i < |cps|
  {
    i == 0 || cps[i].content.seqNo == cps[i - 1].content.seqNo + 1
  }

  function CheckpointNumberFaults(cps: seq<AuditCheckpoint>, i: nat): (r: seq<Finding>)
    requires i < |cps|
  {
    if CheckpointNumberOk(cps, i) then [] else [CheckpointGap(cps[i - 1].content.seqNo, cps[i].content.seqNo)]
  }

  predicate CheckpointLinkOk(cps: seq<AuditCheckpoint>, i: nat)
    requires i < |cps|
  {
    i == 0 || cps[i].content.prevHash == cps[i - 1].contentHash
  }

  function CheckpointLinkFaults(cps: seq<AuditCheckpoint>, i: nat): (r: seq<Finding>)
    requires i < |cps|
  {
    if CheckpointLinkOk(cps, i) then [] else [CheckpointLinkBroken(cps[i].content.seqNo)]
  }

  function CheckpointSignatureFaults(k: Checks, cp: AuditCheckpoint): (r: seq<Finding>) {
    match k.check(cp.contentHash, cp.signature)
    case Good => []
    case Bad => [CheckpointSignatureInvalid(cp.content.seqNo)]
    case Failed(m) => [CheckpointSignatureError(cp.content.seqNo, m)]
  }

  function TipFaults(index: map<(string, nat), string>, n: nat, t: WriterTip): (r: seq<Finding>) {
    if (t.writer, t.seqNo) !in index then [TipMissing(n, t.writer, t.seqNo)]
    else if index[(t.writer, t.seqNo)] != t.contentHash then [TipAltered(n, t.writer, t.seqNo)]
    else []
  }

  function TipParts(index: map<(string, nat), string>, n: nat, tips: seq<WriterTip>): (r: seq<seq<Finding>>)
    ensures |r| == |tips|
  {
    seq(|tips|, i requires 0 <= i < |tips| => TipFaults(index, n, tips[i]))
  }

  function TipFindings(index: map<(string, nat), string>, n: nat, tips: seq<WriterTip>, m: nat): (r: seq<Finding>)
    requires m <= |tips|
  {
    Flatten(TipParts(index, n, tips), m)
  }

  /** The findings about checkpoint `i` of the sorted checkpoint chain. */
  function CheckpointFindings(k: Checks, cps: seq<AuditCheckpoint>, index: map<(string, nat), string>, i: nat): (r: seq<Finding>)
    requires i < |cps|
  {
    CheckpointHashFaults(k, cps[i]) + RootFaults(k, cps[i]) + CheckpointNumberFaults(cps, i)
    + CheckpointLinkFaults(cps, i) + CheckpointSignatureFaults(k, cps[i])
    + TipFindings(index, cps[i].content.seqNo, cps[i].content.tips, |cps[i].content.tips|)
  }

  function AnchorParts(k: Checks, cps: seq<AuditCheckpoint>, index: map<(string, nat), string>): (r: seq<seq<Finding>>)
    ensures |r| == |cps|
  {
    seq(|cps|, i requires 0 <= i < |cps| => CheckpointFindings(k, cps, index, i))
  }

  function AnchorFindings(k: Checks, cps: seq<AuditCheckpoint>, index: map<(string, nat), string>, n: nat): (r: seq<Finding>)
    requires n <= |cps|
  {
    Flatten(AnchorParts(k, cps, index), n)
  }

  // ---- Sorted chains and the tip index ----

  function OfWriter(w: string): (p: AuditEntry -> bool) {
    (e: AuditEntry) => e.content.writer == w
  }

  function EntryLe(): (le: (AuditEntry, AuditEntry) -> bool) {
    (a: AuditEntry, b: AuditEntry) => a.content.sequence <= b.content.sequence
  }

  function CheckpointLe(): (le: (AuditCheckpoint, AuditCheckpoint) -> bool) {
    (a: AuditCheckpoint, b: AuditCheckpoint) => a.content.seqNo <= b.content.seqNo
  }

  function ChainOf(entries: seq<AuditEntry>, w: string): (chain: seq<AuditEntry>) {
    SortBy(Filter(entries, OfWriter(w)), EntryLe())
  }

  /** `index` after the first `n` entries of a writer's chain were inserted. */
  function Indexed(index: map<(string, nat), string>, w: string, chain: seq<AuditEntry>, n: nat): (r: map<(string, nat), string>)
    requires n <= |chain|
  {
    if n == 0 then index
    else Indexed(index, w, chain, n - 1)[(w, chain[n - 1].content.sequence) := chain[n - 1].contentHash]
  }

  /** Each key of the index holds the hash of an entry presented under it. */
  ghost predicate IndexSound(index: map<(string, nat), string>, entries: seq<AuditEntry>) {
    forall w, s :: (w, s) in index ==> HeldBy(entries, w, s, index[(w, s)])
  }

  /** Every entry of writer `w` has its key in the index. */
  ghost predicate IndexCovers(index: map<(string, nat), string>, entries: seq<AuditEntry>, w: string) {
    forall e :: e in entries && e.content.writer == w ==> (w, e.content.sequence) in index
  }

  ghost predicate HeldBy(entries: seq<AuditEntry>, w: string, s: nat, hash: string) {
    exists e :: e in entries && e.content.writer == w && e.content.sequence == s && e.contentHash == hash
  }

  lemma {:induction false} IndexedKeys(index: map<(string, nat), string>, w: string, chain: seq<AuditEntry>, n: nat)
    requires n <= |chain|
    ensures var r := Indexed(index, w, chain, n);
            && (forall i :: 0 <= i < n ==> (w, chain[i].content.sequence) in r)
            && (forall k :: k in index ==> k in r)
            && (forall k :: k in r ==>
                  || (k in index && r[k] == index[k])
                  || (k.0 == w && exists i :: 0 <= i < n && chain[i].content.sequence == k.1 && chain[i].contentHash == r[k]))
  {
    if n > 0 {
      IndexedKeys(index, w, chain, n - 1);
    }
  }

  lemma IndexGrows(index: map<(string, nat), string>, entries: seq<AuditEntry>, w: string)
    requires IndexSound(index, entries)
    ensures var r := Indexed(index, w, ChainOf(entries, w), |ChainOf(entries, w)|);
            && IndexSound(r, entries) && IndexCovers(r, entries, w)
            && forall u :: IndexCovers(index, entries, u) ==> IndexCovers(r, entries, u)
  {
    var chain := ChainOf(entries, w);
    var r := Indexed(index, w, chain, |chain|);
    ChainMembers(entries, w);
    IndexedKeys(index, w, chain, |chain|);
    forall u, s | (u, s) in r
      ensures HeldBy(entries, u, s, r[(u, s)])
    {
      if (u, s) in index && r[(u, s)] == index[(u, s)] {
        assert HeldBy(entries, u, s, index[(u, s)]);
      } else {
        var i :| 0 <= i < |chain| && chain[i].content.sequence == s && chain[i].contentHash == r[(u, s)];
        assert chain[i] in chain;
      }
    }
    forall e | e in entries && e.content.writer == w
      ensures (w, e.content.sequence) in r
    {
      assert e in chain;
    }
  }

  lemma ChainMembers(entries: seq<AuditEntry>, w: string)
    ensures forall e :: e in ChainOf(entries, w) <==> e in entries && e.content.writer == w
  {
    SameMembers(Filter(entries, OfWriter(w)), ChainOf(entries, w));
    FilterMembers(entries, OfWriter(w));
  }

  // ---- The verdict's bookkeeping ----

  /** The verdict that goes with a list of errors. */
  function VerdictOn(errors: seq<Finding>): (v: Verdict) {
    Verdict(errors == [], Intact(errors), errors)
  }

  function Reported(v: Verdict, f: Finding): (r: Verdict)
    ensures v == VerdictOn(v.errors) ==> r == VerdictOn(v.errors + [f])
  {
    IntactAppend(v.errors, [f]);
    assert [f][0] == f;
    Verdict(false, v.chainIntact && !BreaksChain(f), v.errors + [f])
  }

  function SignedCount(k: Checks, chain: seq<AuditEntry>, n: nat): (r: nat)
    requires n <= |chain|
  {
    if n == 0 then 0 else SignedCount(k, chain, n - 1) + if EntrySigned(k, chain[n - 1]) then 1 else 0
  }

  function RootedCount(k: Checks, cps: seq<AuditCheckpoint>, n: nat): (r: nat)
    requires n <= |cps|
  {
    if n == 0 then 0 else RootedCount(k, cps, n - 1) + if CheckpointRootOk(k, cps[n - 1]) then 1 else 0
  }

  lemma AppendAssociative<T>(a: seq<T>, b: seq<T>, c: seq<T>)
    ensures (a + b) + c == a + (b + c)
  {
  }

  // ---- The loop over one writer's chain ----

  method CheckHash(k: Checks, writer: string, e: AuditEntry, v: Verdict) returns (r: Verdict)
    requires v == VerdictOn(v.errors)
    ensures r == VerdictOn(v.errors + HashFaults(k, writer, e))
  {
    r := v;
    assert v.errors + [] == v.errors;
    if k.entryHash(e.content) != e.contentHash {
      r := Reported(r, ContentHashMismatch(writer, e.content.sequence));
    }
  }

  method CheckSignature(k: Checks, writer: string, e: AuditEntry, v: Verdict) returns (r: Verdict, signed: bool)
    requires v == VerdictOn(v.errors)
    ensures r == VerdictOn(v.errors + SignatureFaults(k, writer, e))
    ensures signed == EntrySigned(k, e)
  {
    r, signed := v, false;
    assert v.errors + [] == v.errors;
    match k.check(e.contentHash, e.signature) {
      case Good => signed := true;
      case Bad => r := Reported(r, EntrySignatureInvalid(writer, e.content.sequence));
      case Failed(m) => r := Reported(r, EntrySignatureError(writer, e.content.sequence, m));
    }
  }

  /** The entry before entry `i`, whose sequence and hash the loop remembers. */
  function Previous(chain: seq<AuditEntry>, i: nat): (r: Option<AuditEntry>)
    requires i <= |chain|
  {
    if i == 0 then None else Some(chain[i - 1])
  }

  method CheckNumber(writer: string, e: AuditEntry, prev: Option<AuditEntry>, v: Verdict,
                     ghost chain: seq<AuditEntry>, ghost i: nat) returns (r: Verdict)
    requires v == VerdictOn(v.errors) && i < |chain| && chain[i] == e && prev == Previous(chain, i)
    ensures r == VerdictOn(v.errors + NumberFaults(writer, chain, i))
  {
    r := v;
    assert v.errors + [] == v.errors;
    if prev.Some? {
      if e.content.sequence != prev.value.content.sequence + 1 {
        r := Reported(r, SequenceGap(writer, prev.value.content.sequence, e.content.sequence));
      }
    } else if e.content.sequence == 0 && e.content.prevHash != "" {
      r := Reported(r, GenesisLinked(writer));
    }
  }

  method CheckLink(writer: string, e: AuditEntry, prev: Option<AuditEntry>, v: Verdict,
                   ghost chain: seq<AuditEntry>, ghost i: nat) returns (r: Verdict)
    requires v == VerdictOn(v.errors) && i < |chain| && chain[i] == e && prev == Previous(chain, i)
    ensures r == VerdictOn(v.errors + LinkFaults(writer, chain, i))
  {
    r := v;
    assert v.errors + [] == v.errors;
    if prev.Some? && e.content.prevHash != prev.value.contentHash {
      r := Reported(r, ChainBroken(writer, e.content.sequence));
    }
  }

  /** The body of the loop below. */
  method CheckPosition(k: Checks, writer: string, chain: seq<AuditEntry>, i: nat,
                       prev: Option<AuditEntry>, v: Verdict, ghost before: seq<Finding>)
    returns (r: Verdict, signed: bool)
    requires i < |chain| && v == VerdictOn(before + ChainFindings(k, writer, chain, i)) && prev == Previous(chain, i)
    ensures r == VerdictOn(before + ChainFindings(k, writer, chain, i + 1))
    ensures signed == EntrySigned(k, chain[i])
  {
    r := CheckHash(k, writer, chain[i], v);
    r := CheckNumber(writer, chain[i], prev, r, chain, i);
    r := CheckLink(writer, chain[i], prev, r, chain, i);
    r, signed := CheckSignature(k, writer, chain[i], r);
    ghost var all := before + ChainFindings(k, writer, chain, i);
    ghost var h, n := HashFaults(k, writer, chain[i]), NumberFaults(writer, chain, i);
    ghost var l, g := LinkFaults(writer, chain, i), SignatureFaults(k, writer, chain[i]);
    AppendAssociative(all, h, n);
    AppendAssociative(all, h + n, l);
    AppendAssociative(all, h + n + l, g);
    AppendAssociative(before, ChainFindings(k, writer, chain, i), h + n + l + g);
  }

  method VerifyChain(k: Checks, writer: string, chain: seq<AuditEntry>, v: Verdict, index: map<(string, nat), string>)
    returns (r: Verdict, signatures: nat, index': map<(string, nat), string>)
    requires v == VerdictOn(v.errors)
    ensures r == VerdictOn(v.errors + ChainFindings(k, writer, chain, |chain|))
    ensures signatures == SignedCount(k, chain, |chain|)
    ensures index' == Indexed(index, writer, chain, |chain|)
  {
    hide VerdictOn;
    hide EntryFindings;
    r, signatures, index' := v, 0, index;
    assert v.errors + [] == v.errors;
    var prev: Option<AuditEntry> := None;
    for i := 0 to |chain|
      invariant prev == Previous(chain, i)
      invariant r == VerdictOn(v.errors + ChainFindings(k, writer, chain, i))
      invariant signatures == SignedCount(k, chain, i)
      invariant index' == Indexed(index, writer, chain, i)
    {
      index' := index'[(writer, chain[i].content.sequence) := chain[i].contentHash];
      var signed;
      r, signed := CheckPosition(k, writer, chain, i, prev, r, v.errors);
      if signed {
        signatures := signatures + 1;
      }
      prev := Some(chain[i]);
    }
  }

  // ---- The loop over the checkpoints ----

  method CheckTip(index: map<(string, nat), string>, n: nat, t: WriterTip, v: Verdict) returns (r: Verdict)
    requires v == VerdictOn(v.errors)
    ensures r == VerdictOn(v.errors + TipFaults(index, n, t))
  {
    r := v;
    assert v.errors + [] == v.errors;
    if (t.writer, t.seqNo) in index {
      if index[(t.writer, t.seqNo)] != t.contentHash {
        r := Reported(r, TipAltered(n, t.writer, t.seqNo));
      }
    } else {
      r := Reported(r, TipMissing(n, t.writer, t.seqNo));
    }
  }

  method CheckTips(index: map<(string, nat), string>, n: nat, tips: seq<WriterTip>, v: Verdict) returns (r: Verdict)
    requires v == VerdictOn(v.errors)
    ensures r == VerdictOn(v.errors + TipFindings(index, n, tips, |tips|))
  {
    r := v;
    assert v.errors + [] == v.errors;
    var i := 0;
    while i < |tips|
      invariant 0 <= i <= |tips|
      invariant r == VerdictOn(v.errors + TipFindings(index, n, tips, i))
    {
      AppendAssociative(v.errors, TipFindings(index, n, tips, i), TipFaults(index, n, tips[i]));
      r := CheckTip(index, n, tips[i], r);
      i := i + 1;
    }
  }

  method CheckCheckpointHash(k: Checks, cp: AuditCheckpoint, v: Verdict) returns (r: Verdict)
    requires v == VerdictOn(v.errors)
    ensures r == VerdictOn(v.errors + CheckpointHashFaults(k, cp))
  {
    r := v;
    assert v.errors + [] == v.errors;
    if k.checkpointHash(cp.content) != cp.contentHash {
      r := Reported(r, CheckpointHashMismatch(cp.content.seqNo));
    }
  }

  method CheckRoot(k: Checks, cp: AuditCheckpoint, v: Verdict) returns (r: Verdict, rooted: bool)
    requires v == VerdictOn(v.errors)
    ensures r == VerdictOn(v.errors + RootFaults(k, cp))
    ensures rooted == CheckpointRootOk(k, cp)
  {
    r := v;
    assert v.errors + [] == v.errors;
    rooted := k.rootOf(cp.content.tips) == cp.content.merkleRoot;
    if !rooted {
      r := Reported(r, MerkleRootMismatch(cp.content.seqNo));
    }
  }

  function PreviousCheckpoint(cps: seq<AuditCheckpoint>, i: nat): (r: Option<AuditCheckpoint>)
    requires i <= |cps|
  {
    if i == 0 then None else Some(cps[i - 1])
  }

  method CheckCheckpointNumber(cp: AuditCheckpoint, prev: Option<AuditCheckpoint>, v: Verdict,
                               ghost cps: seq<AuditCheckpoint>, ghost i: nat) returns (r: Verdict)
    requires v == VerdictOn(v.errors) && i < |cps| && cps[i] == cp && prev == PreviousCheckpoint(cps, i)
    ensures r == VerdictOn(v.errors + CheckpointNumberFaults(cps, i))
  {
    r := v;
    assert v.errors + [] == v.errors;
    if prev.Some? && cp.content.seqNo != prev.value.content.seqNo + 1 {
      r := Reported(r, CheckpointGap(prev.value.content.seqNo, cp.content.seqNo));
    }
  }

  method CheckCheckpointLink(cp: AuditCheckpoint, prev: Option<AuditCheckpoint>, v: Verdict,
                             ghost cps: seq<AuditCheckpoint>, ghost i: nat) returns (r: Verdict)
    requires v == VerdictOn(v.errors) && i < |cps| && cps[i] == cp && prev == PreviousCheckpoint(cps, i)
    ensures r == VerdictOn(v.errors + CheckpointLinkFaults(cps, i))
  {
    r := v;
    assert v.errors + [] == v.errors;
    if prev.Some? && cp.content.prevHash != prev.value.contentHash {
      r := Reported(r, CheckpointLinkBroken(cp.content.seqNo));
    }
  }

  method CheckCheckpointSignature(k: Checks, cp: AuditCheckpoint, v: Verdict) returns (r: Verdict)
    requires v == VerdictOn(v.errors)
    ensures r == VerdictOn(v.errors + CheckpointSignatureFaults(k, cp))
  {
    r := v;
    assert v.errors + [] == v.errors;
    match k.check(cp.contentHash, cp.signature) {
      case Good =>
      case Bad => r := Reported(r, CheckpointSignatureInvalid(cp.content.seqNo));
      case Failed(m) => r := Reported(r, CheckpointSignatureError(cp.content.seqNo, m));
    }
  }

  /** The body of the loop below. */
  method CheckAnchor(k: Checks, cps: seq<AuditCheckpoint>, index: map<(string, nat), string>, i: nat,
                     prev: Option<AuditCheckpoint>, v: Verdict, ghost before: seq<Finding>)
    returns (r: Verdict, rooted: bool)
    requires i < |cps| && v == VerdictOn(before + AnchorFindings(k, cps, index, i)) && prev == PreviousCheckpoint(cps, i)
    ensures r == VerdictOn(before + AnchorFindings(k, cps, index, i + 1))
    ensures rooted == CheckpointRootOk(k, cps[i])
  {
    r := CheckCheckpointHash(k, cps[i], v);
    r, rooted := CheckRoot(k, cps[i], r);
    r := CheckCheckpointNumber(cps[i], prev, r, cps, i);
    r := CheckCheckpointLink(cps[i], prev, r, cps, i);
    r := CheckCheckpointSignature(k, cps[i], r);
    r := CheckTips(index, cps[i].content.seqNo, cps[i].content.tips, r);
    ghost var all := before + AnchorFindings(k, cps, index, i);
    ghost var h, m, n := CheckpointHashFaults(k, cps[i]), RootFaults(k, cps[i]), CheckpointNumberFaults(cps, i);
    ghost var l, g := CheckpointLinkFaults(cps, i), CheckpointSignatureFaults(k, cps[i]);
    ghost var t := TipFindings(index, cps[i].content.seqNo, cps[i].content.tips, |cps[i].content.tips|);
    AppendAssociative(all, h, m);
    AppendAssociative(all, h + m, n);
    AppendAssociative(all, h + m + n, l);
    AppendAssociative(all, h + m + n + l, g);
    AppendAssociative(all, h + m + n + l + g, t);
    AppendAssociative(before, AnchorFindings(k, cps, index, i), h + m + n + l + g + t);
  }

  method VerifyCheckpoints(k: Checks, cps: seq<AuditCheckpoint>, index: map<(string, nat), string>, v: Verdict)
    returns (r: Verdict, roots: nat)
    requires v == VerdictOn(v.errors)
    ensures r == VerdictOn(v.errors + AnchorFindings(k, cps, index, |cps|))
    ensures roots == RootedCount(k, cps, |cps|)
  {
    hide VerdictOn;
    hide CheckpointFindings;
    r, roots := v, 0;
    assert v.errors + [] == v.errors;
    var prev: Option<AuditCheckpoint> := None;
    for i := 0 to |cps|
      invariant prev == PreviousCheckpoint(cps, i)
      invariant r == VerdictOn(v.errors + AnchorFindings(k, cps, index, i))
      invariant roots == RootedCount(k, cps, i)
    {
      var rooted;
      r, rooted := CheckAnchor(k, cps, index, i, prev, r, v.errors);
      if rooted {
        roots := roots + 1;
      }
      prev := Some(cps[i]);
    }
  }
}
