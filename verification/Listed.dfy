/** Which faults of a presented log are listed: one finding for each, by kind, with its numbers. */
module Listed {
  import opened Sorting
  import opened AuditLog
  import opened Findings

  // ---- Faults ----

  /** What is wrong with entry `i` of a writer's entries in order. */
  ghost predicate EntryFault(k: Checks, w: string, chain: seq<AuditEntry>, i: nat, f: Finding)
    requires i < |chain|
  {
    var e := chain[i];
    match f
    case ContentHashMismatch(u, s) => u == w && s == e.content.sequence && k.entryHash(e.content) != e.contentHash
    case SequenceGap(u, b, a) => u == w && i > 0 && b == chain[i - 1].content.sequence && a == e.content.sequence && a != b + 1
    case GenesisLinked(u) => u == w && i == 0 && e.content.sequence == 0 && e.content.prevHash != ""
    case ChainBroken(u, s) => u == w && i > 0 && s == e.content.sequence && e.content.prevHash != chain[i - 1].contentHash
    case EntrySignatureInvalid(u, s) => u == w && s == e.content.sequence && k.check(e.contentHash, e.signature) == Bad
    case EntrySignatureError(u, s, m) => u == w && s == e.content.sequence && k.check(e.contentHash, e.signature) == Failed(m)
    case _ => false
  }

  /** What is wrong with checkpoint `i` of the checkpoints in order, its tips aside. */
  ghost predicate CheckpointFault(k: Checks, cps: seq<AuditCheckpoint>, i: nat, f: Finding)
    requires i < |cps|
  {
    var cp := cps[i];
    match f
    case CheckpointHashMismatch(n) => n == cp.content.seqNo && k.checkpointHash(cp.content) != cp.contentHash
    case MerkleRootMismatch(n) => n == cp.content.seqNo && k.rootOf(cp.content.tips) != cp.content.merkleRoot
    case CheckpointGap(b, a) => i > 0 && b == cps[i - 1].content.seqNo && a == cp.content.seqNo && a != b + 1
    case CheckpointLinkBroken(n) => i > 0 && n == cp.content.seqNo && cp.content.prevHash != cps[i - 1].contentHash
    case CheckpointSignatureInvalid(n) => n == cp.content.seqNo && k.check(cp.contentHash, cp.signature) == Bad
    case CheckpointSignatureError(n, m) => n == cp.content.seqNo && k.check(cp.contentHash, cp.signature) == Failed(m)
    case _ => false
  }

  function At(w: string, s: nat): (p: AuditEntry -> bool) {
    (e: AuditEntry) => e.content.writer == w && e.content.sequence == s
  }

  /** What is wrong with a tip: no entry is presented there, or the last one presented has another hash. */
  ghost predicate TipFault(entries: seq<AuditEntry>, cp: AuditCheckpoint, f: Finding) {
    match f
    case TipMissing(n, w, s) =>
      n == cp.content.seqNo && (exists t :: t in cp.content.tips && t.writer == w && t.seqNo == s)
      && forall e :: e in entries ==> !(e.content.writer == w && e.content.sequence == s)
    case TipAltered(n, w, s) =>
      n == cp.content.seqNo
      && exists t :: t in cp.content.tips && t.writer == w && t.seqNo == s
                     && Filter(entries, At(w, s)) != [] && LastHash(Filter(entries, At(w, s))) != t.contentHash
    case _ => false
  }

  function LastHash(entries: seq<AuditEntry>): (h: string)
    requires entries != []
  {
    entries[|entries| - 1].contentHash
  }

  /** The fault is there: in some writer's entries by number, or in the checkpoints by number. */
  ghost predicate Present(k: Checks, entries: seq<AuditEntry>, checkpoints: seq<AuditCheckpoint>, f: Finding) {
    || InSomeChain(k, entries, f)
    || exists i :: InCheckpoint(k, entries, SortBy(checkpoints, CheckpointLe()), i, f)
  }

  ghost predicate InSomeChain(k: Checks, entries: seq<AuditEntry>, f: Finding) {
    exists w :: InOneChain(k, entries, w, f)
  }

  ghost predicate InOneChain(k: Checks, entries: seq<AuditEntry>, w: string, f: Finding) {
    exists i :: InChain(k, entries, w, i, f)
  }

  ghost predicate InChain(k: Checks, entries: seq<AuditEntry>, w: string, i: int, f: Finding) {
    0 <= i < |ChainOf(entries, w)| && EntryFault(k, w, ChainOf(entries, w), i, f)
  }

  ghost predicate InCheckpoint(k: Checks, entries: seq<AuditEntry>, cps: seq<AuditCheckpoint>, i: int, f: Finding) {
    0 <= i < |cps| && (CheckpointFault(k, cps, i, f) || TipFault(entries, cps[i], f))
  }

  // ---- Each is listed, and nothing else ----

  lemma {:induction false} FlattenMember(parts: seq<seq<Finding>>, n: nat, f: Finding)
    requires n <= |parts|
    ensures f in Flatten(parts, n) <==> exists i :: 0 <= i < n && f in parts[i]
  {
    if n > 0 {
      FlattenMember(parts, n - 1, f);
    }
  }

  lemma EntryListed(k: Checks, w: string, chain: seq<AuditEntry>, i: nat, f: Finding)
    requires i < |chain|
    ensures f in EntryFindings(k, w, chain, i) <==> EntryFault(k, w, chain, i, f)
  {
    var a, b, c, d := HashFaults(k, w, chain[i]), NumberFaults(w, chain, i), LinkFaults(w, chain, i), SignatureFaults(k, w, chain[i]);
    assert f in a + b + c + d <==> f in a || f in b || f in c || f in d;
  }

  lemma ChainListed(k: Checks, entries: seq<AuditEntry>, w: string, f: Finding)
    ensures var chain := ChainOf(entries, w);
            f in ChainFindings(k, w, chain, |chain|) <==> InOneChain(k, entries, w, f)
  {
    hide EntryFault;
    hide EntryFindings;
    var chain := ChainOf(entries, w);
    var parts := ChainParts(k, w, chain);
    FlattenMember(parts, |chain|, f);
    forall i | 0 <= i < |chain|
      ensures f in parts[i] <==> InChain(k, entries, w, i, f)
    {
      EntryListed(k, w, chain, i, f);
    }
  }

  /** The index holds, for every place presented, the hash of the last entry presented there. */
  ghost predicate HoldsLatest(index: map<(string, nat), string>, entries: seq<AuditEntry>) {
    forall w, s :: IndexAt(index, entries, w, s)
  }

  ghost predicate IndexAt(index: map<(string, nat), string>, entries: seq<AuditEntry>, w: string, s: nat) {
    && ((w, s) in index <==> Filter(entries, At(w, s)) != [])
    && ((w, s) in index ==> index[(w, s)] == LastHash(Filter(entries, At(w, s))))
  }

  lemma TipListed(index: map<(string, nat), string>, entries: seq<AuditEntry>, cp: AuditCheckpoint, f: Finding)
    requires HoldsLatest(index, entries)
    ensures f in TipFindings(index, cp.content.seqNo, cp.content.tips, |cp.content.tips|) <==> TipFault(entries, cp, f)
  {
    var n, tips := cp.content.seqNo, cp.content.tips;
    var parts := TipParts(index, n, tips);
    FlattenMember(parts, |tips|, f);
    forall i | 0 <= i < |tips|
      ensures f in parts[i] <==> OneTip(entries, n, tips[i], f)
    {
      OneTipListed(index, entries, n, tips[i], f);
    }
    TipFaultOf(entries, cp, f);
  }

  ghost predicate OneTip(entries: seq<AuditEntry>, n: nat, t: WriterTip, f: Finding) {
    var own := Filter(entries, At(t.writer, t.seqNo));
    || (own == [] && f == TipMissing(n, t.writer, t.seqNo))
    || (own != [] && LastHash(own) != t.contentHash && f == TipAltered(n, t.writer, t.seqNo))
  }

  lemma OneTipListed(index: map<(string, nat), string>, entries: seq<AuditEntry>, n: nat, t: WriterTip, f: Finding)
    requires HoldsLatest(index, entries)
    ensures f in TipFaults(index, n, t) <==> OneTip(entries, n, t, f)
  {
    assert IndexAt(index, entries, t.writer, t.seqNo);
  }

  lemma TipFaultOf(entries: seq<AuditEntry>, cp: AuditCheckpoint, f: Finding)
    ensures TipFault(entries, cp, f) <==> exists i :: 0 <= i < |cp.content.tips| && OneTip(entries, cp.content.seqNo, cp.content.tips[i], f)
  {
    var tips := cp.content.tips;
    if f.TipMissing? || f.TipAltered? {
      FilterMembers(entries, At(f.writer, f.seqNo));
      var own := Filter(entries, At(f.writer, f.seqNo));
      assert own != [] ==> own[0] in own;
      if TipFault(entries, cp, f) {
        var t :| t in tips && t.writer == f.writer && t.seqNo == f.seqNo && (f.TipAltered? ==> own != [] && LastHash(own) != t.contentHash);
        var i :| 0 <= i < |tips| && tips[i] == t;
        assert OneTip(entries, cp.content.seqNo, tips[i], f);
      }
    }
  }

  lemma CheckpointListed(k: Checks, cps: seq<AuditCheckpoint>, index: map<(string, nat), string>, entries: seq<AuditEntry>, i: nat, f: Finding)
    requires i < |cps| && HoldsLatest(index, entries)
    ensures f in CheckpointFindings(k, cps, index, i) <==> InCheckpoint(k, entries, cps, i, f)
  {
    hide HoldsLatest;
    hide TipFindings;
    hide TipFault;
    var a, b, c := CheckpointHashFaults(k, cps[i]), RootFaults(k, cps[i]), CheckpointNumberFaults(cps, i);
    var d, e := CheckpointLinkFaults(cps, i), CheckpointSignatureFaults(k, cps[i]);
    var t := TipFindings(index, cps[i].content.seqNo, cps[i].content.tips, |cps[i].content.tips|);
    assert f in a + b + c + d + e + t <==> f in a || f in b || f in c || f in d || f in e || f in t;
    TipListed(index, entries, cps[i], f);
  }

  lemma AnchorListed(k: Checks, cps: seq<AuditCheckpoint>, index: map<(string, nat), string>, entries: seq<AuditEntry>, f: Finding)
    requires HoldsLatest(index, entries)
    ensures f in AnchorFindings(k, cps, index, |cps|) <==> exists i :: InCheckpoint(k, entries, cps, i, f)
  {
    hide HoldsLatest;
    hide CheckpointFindings;
    hide CheckpointFault;
    hide TipFault;
    var parts := AnchorParts(k, cps, index);
    FlattenMember(parts, |cps|, f);
    forall i | 0 <= i < |cps|
      ensures f in parts[i] <==> InCheckpoint(k, entries, cps, i, f)
    {
      CheckpointListed(k, cps, index, entries, i, f);
    }
  }

  // ---- The index holds the last entry of each place ----

  function Numbered(s: nat): (p: AuditEntry -> bool) {
    (e: AuditEntry) => e.content.sequence == s
  }

  lemma {:induction false} IndexedLast(index: map<(string, nat), string>, w: string, chain: seq<AuditEntry>, n: nat, u: string, s: nat)
    requires n <= |chain|
    ensures var r, own := Indexed(index, w, chain, n), Filter(chain[..n], Numbered(s));
            if u == w && own != [] then (u, s) in r && r[(u, s)] == LastHash(own)
            else ((u, s) in r <==> (u, s) in index) && ((u, s) in r ==> r[(u, s)] == index[(u, s)])
    decreases n
  {
    if n > 0 {
      IndexedLast(index, w, chain, n - 1, u, s);
      assert chain[..n] == chain[..n - 1] + [chain[n - 1]];
      FilterAppend(chain[..n - 1], [chain[n - 1]], Numbered(s));
    }
  }

  lemma EntryLeIsOrder()
    ensures TotalPreorder(EntryLe())
  {
  }

  /** Sorting by number keeps the entries of one number in the order presented. */
  lemma SamePlaceInOrder(entries: seq<AuditEntry>, w: string, s: nat)
    ensures Filter(ChainOf(entries, w), Numbered(s)) == Filter(entries, At(w, s))
  {
    EntryLeIsOrder();
    SortByStable(Filter(entries, OfWriter(w)), EntryLe(), Numbered(s));
    FilterBoth(entries, w, s);
  }

  lemma {:induction false} FilterBoth(entries: seq<AuditEntry>, w: string, s: nat)
    ensures Filter(Filter(entries, OfWriter(w)), Numbered(s)) == Filter(entries, At(w, s))
    decreases |entries|
  {
    if entries != [] {
      FilterBoth(entries[1..], w, s);
      FilterCons(entries[0], Filter(entries[1..], OfWriter(w)), Numbered(s));
    }
  }
}
