/** `verify_sharded` as a whole, proved to accept exactly the logs that are intact, anchored
    and signed, whatever order entries and checkpoints are presented in. */
module Verifier {
  import opened ByteStrings
  import opened Sorting
  import opened AuditLog
  import opened Linked
  import opened Findings
  import opened Listed

  // ---- The declarative reading ----

  function EntryView(): (v: View<AuditEntry>) {
    View((e: AuditEntry) => e.content.writer, (e: AuditEntry) => e.content.sequence,
         (e: AuditEntry) => e.contentHash, (e: AuditEntry) => e.content.prevHash)
  }

  function CheckpointView(): (v: View<AuditCheckpoint>) {
    View((cp: AuditCheckpoint) => "", (cp: AuditCheckpoint) => cp.content.seqNo,
         (cp: AuditCheckpoint) => cp.contentHash, (cp: AuditCheckpoint) => cp.content.prevHash)
  }

  /** Hashes match, each writer's entries form one linked interval, entry 0 links to nothing. */
  ghost predicate EntriesIntact(k: Checks, es: multiset<AuditEntry>) {
    && IsLinked(EntryView(), es)
    && (forall e :: e in es ==> EntryHashOk(k, e) && GenesisOk(e))
  }

  ghost predicate CheckpointsSound(k: Checks, cs: multiset<AuditCheckpoint>) {
    && IsLinked(CheckpointView(), cs)
    && (forall cp :: cp in cs ==> CheckpointHashOk(k, cp) && CheckpointRootOk(k, cp))
  }

  ghost predicate TipHeld(es: multiset<AuditEntry>, t: WriterTip) {
    exists e :: e in es && e.content.writer == t.writer && e.content.sequence == t.seqNo && e.contentHash == t.contentHash
  }

  /** Every tip a checkpoint committed is still present and unchanged. */
  ghost predicate TipsHeld(es: multiset<AuditEntry>, cs: multiset<AuditCheckpoint>) {
    forall cp, t :: cp in cs && t in cp.content.tips ==> TipHeld(es, t)
  }

  ghost predicate AllSigned(k: Checks, es: multiset<AuditEntry>, cs: multiset<AuditCheckpoint>) {
    && (forall e :: e in es ==> EntrySigned(k, e))
    && (forall cp :: cp in cs ==> CheckpointSigned(k, cp))
  }

  /** What a valid log is. It speaks of collections only, so the order entries and checkpoints
      are presented in cannot matter. */
  ghost predicate Accepted(k: Checks, es: multiset<AuditEntry>, cs: multiset<AuditCheckpoint>) {
    EntriesIntact(k, es) && CheckpointsSound(k, cs) && TipsHeld(es, cs) && AllSigned(k, es, cs)
  }

  /** Acceptance in full, for SHA3-256 and one key. */
  lemma AcceptedInFull(c: Crypto, es: multiset<AuditEntry>, cs: multiset<AuditCheckpoint>)
    ensures Accepted(ChecksOf(c), es, cs) <==>
            && IsLinked(EntryView(), es) && IsLinked(CheckpointView(), cs)
            && (forall e :: e in es ==> EntryStands(c, e))
            && (forall cp :: cp in cs ==> CheckpointStands(c, cp))
            && (forall cp, t :: cp in cs && t in cp.content.tips ==> TipHeld(es, t))
  {
    hide IsLinked;
    hide ChecksOf;
    hide EntryHashOk;
    hide EntrySigned;
    hide GenesisOk;
    hide EntryStands;
    hide CheckpointHashOk;
    hide CheckpointRootOk;
    hide CheckpointSigned;
    hide CheckpointStands;
    hide TipHeld;
    forall e | e in es
      ensures EntryStands(c, e) <==> EntryHashOk(ChecksOf(c), e) && EntrySigned(ChecksOf(c), e) && GenesisOk(e)
    {
      EntryStandsMeans(c, e);
    }
    forall cp | cp in cs
      ensures CheckpointStands(c, cp) <==> CheckpointHashOk(ChecksOf(c), cp) && CheckpointRootOk(ChecksOf(c), cp) && CheckpointSigned(ChecksOf(c), cp)
    {
      CheckpointStandsMeans(c, cp);
    }
  }

  lemma EntryStandsMeans(c: Crypto, e: AuditEntry)
    ensures EntryStands(c, e) <==> EntryHashOk(ChecksOf(c), e) && EntrySigned(ChecksOf(c), e) && GenesisOk(e)
  {
    hide HashHex;
    hide EntryBytes;
  }

  lemma CheckpointStandsMeans(c: Crypto, cp: AuditCheckpoint)
    ensures CheckpointStands(c, cp) <==> CheckpointHashOk(ChecksOf(c), cp) && CheckpointRootOk(ChecksOf(c), cp) && CheckpointSigned(ChecksOf(c), cp)
  {
    hide HashHex;
    hide CheckpointBytes;
    hide MerkleRootOf;
  }

  /** The entry's hash is that of its bytes, it is signed, and number 0 links to nothing. */
  predicate EntryStands(c: Crypto, e: AuditEntry) {
    && e.contentHash == HashHex(c.sha3, EntryBytes(e.content)) && c.check(e.contentHash, e.signature).Good?
    && (e.content.sequence == 0 ==> e.content.prevHash == "")
  }

  /** The checkpoint's hash and root are those of its bytes and tips, and it is signed. */
  predicate CheckpointStands(c: Crypto, cp: AuditCheckpoint) {
    && cp.contentHash == HashHex(c.sha3, CheckpointBytes(cp.content)) && cp.content.merkleRoot == MerkleRootOf(c.sha3, cp.content.tips)
    && c.check(cp.contentHash, cp.signature).Good?
  }

  // ---- Parts of an accepted log ----

  lemma TailIntact(k: Checks, es: multiset<AuditEntry>, part: multiset<AuditEntry>)
    requires EntriesIntact(k, es) && IsTail(EntryView(), es, part)
    ensures EntriesIntact(k, part)
  {
    TailLinked(EntryView(), es, part);
    assert forall e :: e in part ==> e in es;
  }

  lemma TailSound(k: Checks, cs: multiset<AuditCheckpoint>, part: multiset<AuditCheckpoint>)
    requires CheckpointsSound(k, cs) && IsTail(CheckpointView(), cs, part)
    ensures CheckpointsSound(k, part)
  {
    TailLinked(CheckpointView(), cs, part);
    assert forall cp :: cp in part ==> cp in cs;
  }

  /** Of an accepted log any tails of its chains are accepted with any tail of its checkpoints, if and
      only if every entry those commit to is still there. */
  lemma TailAccepted(k: Checks, es: multiset<AuditEntry>, cs: multiset<AuditCheckpoint>, es': multiset<AuditEntry>, cs': multiset<AuditCheckpoint>)
    requires Accepted(k, es, cs) && IsTail(EntryView(), es, es') && IsTail(CheckpointView(), cs, cs')
    ensures Accepted(k, es', cs') <==> TipsHeld(es', cs')
  {
    hide IsLinked;
    hide EntriesIntact;
    hide CheckpointsSound;
    TailIntact(k, es, es');
    TailSound(k, cs, cs');
    assert (forall e :: e in es' ==> e in es) && (forall cp :: cp in cs' ==> cp in cs);
  }

  // ---- No findings means exactly that ----

  /** Entry `i` of a sorted chain is in order, signature aside. */
  predicate EntryOk(k: Checks, chain: seq<AuditEntry>, i: nat)
    requires i < |chain|
  {
    EntryHashOk(k, chain[i]) && NumberOk(chain, i) && LinkOk(chain, i)
  }

  predicate EntryClean(k: Checks, chain: seq<AuditEntry>, i: nat)
    requires i < |chain|
  {
    EntryOk(k, chain, i) && EntrySigned(k, chain[i])
  }

  lemma EntryFindingsMean(k: Checks, w: string, chain: seq<AuditEntry>, i: nat)
    requires i < |chain|
    ensures EntryFindings(k, w, chain, i) == [] <==> EntryClean(k, chain, i)
    ensures Intact(EntryFindings(k, w, chain, i)) <==> EntryOk(k, chain, i)
  {
    var h, n := HashFaults(k, w, chain[i]), NumberFaults(w, chain, i);
    var l, g := LinkFaults(w, chain, i), SignatureFaults(k, w, chain[i]);
    IntactAppend(h, n);
    IntactAppend(h + n, l);
    IntactAppend(h + n + l, g);
    assert h != [] ==> BreaksChain(h[0]);
    assert n != [] ==> BreaksChain(n[0]);
    assert l != [] ==> BreaksChain(l[0]);
  }

  lemma ChainFindingsMean(k: Checks, w: string, chain: seq<AuditEntry>)
    ensures ChainFindings(k, w, chain, |chain|) == [] <==> forall i :: 0 <= i < |chain| ==> EntryClean(k, chain, i)
    ensures Intact(ChainFindings(k, w, chain, |chain|)) <==> forall i :: 0 <= i < |chain| ==> EntryOk(k, chain, i)
  {
    var parts := ChainParts(k, w, chain);
    forall i | 0 <= i < |chain|
      ensures parts[i] == [] <==> EntryClean(k, chain, i)
      ensures Intact(parts[i]) <==> EntryOk(k, chain, i)
    {
      EntryFindingsMean(k, w, chain, i);
    }
    FlattenEmpty(parts, |chain|);
    FlattenIntact(parts, |chain|);
  }

  // ---- One writer's chain ----

  lemma EntryOrder()
    ensures TotalPreorder(EntryLe())
  {
  }

  lemma CheckpointOrder()
    ensures TotalPreorder(CheckpointLe())
  {
  }

  lemma SortedChain(entries: seq<AuditEntry>, w: string)
    ensures ByNumber(EntryView(), ChainOf(entries, w)) && OneChain(EntryView(), ChainOf(entries, w))
  {
    var chain := ChainOf(entries, w);
    EntryOrder();
    SortBySorted(Filter(entries, OfWriter(w)), EntryLe());
    assert forall i, j :: 0 <= i < j < |chain| ==> EntryLe()(chain[i], chain[j]);
    ChainMembers(entries, w);
    assert forall i :: 0 <= i < |chain| ==> chain[i] in chain;
  }

  lemma ChainMultiplicity(entries: seq<AuditEntry>, w: string)
    ensures forall e: AuditEntry :: multiset(ChainOf(entries, w))[e] == if e.content.writer == w then multiset(entries)[e] else 0
  {
    var chain := ChainOf(entries, w);
    forall e: AuditEntry
      ensures multiset(chain)[e] == if e.content.writer == w then multiset(entries)[e] else 0
    {
      FilterMultiplicity(entries, OfWriter(w), e);
    }
  }

  /** A chain without integrity findings is a linked chain with matching hashes. */
  lemma ChainIntactMeans(k: Checks, chain: seq<AuditEntry>)
    requires ByNumber(EntryView(), chain) && OneChain(EntryView(), chain)
    ensures (forall i :: 0 <= i < |chain| ==> EntryOk(k, chain, i)) <==> EntriesIntact(k, multiset(chain))
  {
    if forall i :: 0 <= i < |chain| ==> EntryOk(k, chain, i) {
      OkMeansIntact(k, chain);
    }
    if EntriesIntact(k, multiset(chain)) {
      IntactMeansOk(k, chain);
    }
  }

  lemma OkMeansIntact(k: Checks, chain: seq<AuditEntry>)
    requires ByNumber(EntryView(), chain) && OneChain(EntryView(), chain) && forall i :: 0 <= i < |chain| ==> EntryOk(k, chain, i)
    ensures EntriesIntact(k, multiset(chain))
  {
    var v := EntryView();
    forall i | 0 < i < |chain|
      ensures Follows(v, chain[i - 1], chain[i])
    {
      assert EntryOk(k, chain, i);
    }
    SortedSteps(v, chain);
    forall e | e in multiset(chain)
      ensures EntryHashOk(k, e) && GenesisOk(e)
    {
      var i := Position(chain, e);
      assert EntryOk(k, chain, i);
    }
  }

  lemma IntactMeansOk(k: Checks, chain: seq<AuditEntry>)
    requires ByNumber(EntryView(), chain) && OneChain(EntryView(), chain) && EntriesIntact(k, multiset(chain))
    ensures forall i :: 0 <= i < |chain| ==> EntryOk(k, chain, i)
  {
    var v := EntryView();
    SortedSteps(v, chain);
    forall i | 0 <= i < |chain|
      ensures EntryOk(k, chain, i)
    {
      assert chain[i] in multiset(chain);
      assert i > 0 ==> Follows(v, chain[i - 1], chain[i]);
    }
  }

  function Part(entries: seq<AuditEntry>): (f: string -> multiset<AuditEntry>) {
    (w: string) => multiset(ChainOf(entries, w))
  }

  lemma WriterPart(entries: seq<AuditEntry>, w: string)
    ensures IsPart(EntryView(), multiset(entries), Part(entries)(w), w)
    ensures forall e :: e in Part(entries)(w) <==> e in multiset(entries) && e.content.writer == w
  {
    SortedChain(entries, w);
    ChainMultiplicity(entries, w);
    PartMembers(EntryView(), multiset(entries), Part(entries)(w), w);
  }

  lemma OneWriterIntact(k: Checks, entries: seq<AuditEntry>, w: string)
    requires EntriesIntact(k, multiset(entries))
    ensures EntriesIntact(k, Part(entries)(w))
  {
    WriterPart(entries, w);
    PartLinked(EntryView(), multiset(entries), Part(entries)(w), w);
  }

  lemma AllWritersIntact(k: Checks, entries: seq<AuditEntry>)
    requires forall w :: EntriesIntact(k, Part(entries)(w))
    ensures EntriesIntact(k, multiset(entries))
  {
    forall w
      ensures IsPart(EntryView(), multiset(entries), Part(entries)(w), w) && IsLinked(EntryView(), Part(entries)(w))
    {
      WriterPart(entries, w);
      assert EntriesIntact(k, Part(entries)(w));
    }
    WholeLinked(EntryView(), multiset(entries), Part(entries));
    forall e | e in multiset(entries)
      ensures EntryHashOk(k, e) && GenesisOk(e)
    {
      WriterPart(entries, e.content.writer);
      assert EntriesIntact(k, Part(entries)(e.content.writer));
    }
  }

  // ---- The checkpoint chain ----

  predicate TipMatches(index: map<(string, nat), string>, t: WriterTip) {
    (t.writer, t.seqNo) in index && index[(t.writer, t.seqNo)] == t.contentHash
  }

  ghost predicate TipsMatch(index: map<(string, nat), string>, tips: seq<WriterTip>) {
    forall i :: 0 <= i < |tips| ==> TipMatches(index, tips[i])
  }

  lemma TipFindingsMean(index: map<(string, nat), string>, n: nat, tips: seq<WriterTip>)
    ensures TipFindings(index, n, tips, |tips|) == [] <==> TipsMatch(index, tips)
    ensures Intact(TipFindings(index, n, tips, |tips|)) <==> TipsMatch(index, tips)
  {
    var parts := TipParts(index, n, tips);
    forall i | 0 <= i < |tips|
      ensures parts[i] == [] <==> TipMatches(index, tips[i])
      ensures Intact(parts[i]) <==> TipMatches(index, tips[i])
    {
      assert parts[i] == TipFaults(index, n, tips[i]);
    }
    FlattenEmpty(parts, |tips|);
    FlattenIntact(parts, |tips|);
  }

  /** Checkpoint `i` of the sorted list is in order, signature and tips aside. */
  predicate CheckpointOk(k: Checks, cps: seq<AuditCheckpoint>, i: nat)
    requires i < |cps|
  {
    CheckpointHashOk(k, cps[i]) && CheckpointRootOk(k, cps[i]) && CheckpointNumberOk(cps, i) && CheckpointLinkOk(cps, i)
  }

  ghost predicate CheckpointClean(k: Checks, cps: seq<AuditCheckpoint>, index: map<(string, nat), string>, i: nat)
    requires i < |cps|
  {
    CheckpointOk(k, cps, i) && CheckpointSigned(k, cps[i]) && TipsMatch(index, cps[i].content.tips)
  }

  lemma CheckpointFindingsMean(k: Checks, cps: seq<AuditCheckpoint>, index: map<(string, nat), string>, i: nat)
    requires i < |cps|
    ensures CheckpointFindings(k, cps, index, i) == [] <==> CheckpointClean(k, cps, index, i)
    ensures Intact(CheckpointFindings(k, cps, index, i)) <==> TipsMatch(index, cps[i].content.tips)
  {
    var h, m, n := CheckpointHashFaults(k, cps[i]), RootFaults(k, cps[i]), CheckpointNumberFaults(cps, i);
    var l, g := CheckpointLinkFaults(cps, i), CheckpointSignatureFaults(k, cps[i]);
    var t := TipFindings(index, cps[i].content.seqNo, cps[i].content.tips, |cps[i].content.tips|);
    TipFindingsMean(index, cps[i].content.seqNo, cps[i].content.tips);
    SixParts(h, m, n, l, g, t);
    assert Intact(h) && Intact(m) && Intact(n) && Intact(l) && Intact(g);
  }

  lemma SixParts(h: seq<Finding>, m: seq<Finding>, n: seq<Finding>, l: seq<Finding>, g: seq<Finding>, t: seq<Finding>)
    ensures h + m + n + l + g + t == [] <==> h == [] && m == [] && n == [] && l == [] && g == [] && t == []
    ensures Intact(h + m + n + l + g + t) <==> Intact(h) && Intact(m) && Intact(n) && Intact(l) && Intact(g) && Intact(t)
  {
    hide Intact;
    IntactAppend(h, m);
    IntactAppend(h + m, n);
    IntactAppend(h + m + n, l);
    IntactAppend(h + m + n + l, g);
    IntactAppend(h + m + n + l + g, t);
  }

  lemma AnchorFindingsMean(k: Checks, cps: seq<AuditCheckpoint>, index: map<(string, nat), string>)
    ensures AnchorFindings(k, cps, index, |cps|) == [] <==> forall i :: 0 <= i < |cps| ==> CheckpointClean(k, cps, index, i)
    ensures Intact(AnchorFindings(k, cps, index, |cps|)) <==> forall i :: 0 <= i < |cps| ==> TipsMatch(index, cps[i].content.tips)
  {
    var parts := AnchorParts(k, cps, index);
    forall i | 0 <= i < |cps|
      ensures parts[i] == [] <==> CheckpointClean(k, cps, index, i)
      ensures Intact(parts[i]) <==> TipsMatch(index, cps[i].content.tips)
    {
      CheckpointFindingsMean(k, cps, index, i);
    }
    FlattenEmpty(parts, |cps|);
    FlattenIntact(parts, |cps|);
  }

  lemma SortedCheckpoints(checkpoints: seq<AuditCheckpoint>)
    ensures ByNumber(CheckpointView(), SortBy(checkpoints, CheckpointLe()))
    ensures OneChain(CheckpointView(), SortBy(checkpoints, CheckpointLe()))
  {
    var cps := SortBy(checkpoints, CheckpointLe());
    CheckpointOrder();
    SortBySorted(checkpoints, CheckpointLe());
    assert forall i, j :: 0 <= i < j < |cps| ==> CheckpointLe()(cps[i], cps[j]);
  }

  /** Sorted checkpoints without findings (signature and tips aside) form a linked chain. */
  lemma CheckpointsSoundMeans(k: Checks, cps: seq<AuditCheckpoint>)
    requires ByNumber(CheckpointView(), cps) && OneChain(CheckpointView(), cps)
    ensures (forall i :: 0 <= i < |cps| ==> CheckpointOk(k, cps, i)) <==> CheckpointsSound(k, multiset(cps))
  {
    if forall i :: 0 <= i < |cps| ==> CheckpointOk(k, cps, i) {
      OkMeansSound(k, cps);
    }
    if CheckpointsSound(k, multiset(cps)) {
      SoundMeansOk(k, cps);
    }
  }

  lemma OkMeansSound(k: Checks, cps: seq<AuditCheckpoint>)
    requires ByNumber(CheckpointView(), cps) && OneChain(CheckpointView(), cps) && forall i :: 0 <= i < |cps| ==> CheckpointOk(k, cps, i)
    ensures CheckpointsSound(k, multiset(cps))
  {
    var v := CheckpointView();
    forall i | 0 < i < |cps|
      ensures Follows(v, cps[i - 1], cps[i])
    {
      assert CheckpointOk(k, cps, i);
    }
    SortedSteps(v, cps);
    forall cp | cp in multiset(cps)
      ensures CheckpointHashOk(k, cp) && CheckpointRootOk(k, cp)
    {
      var i := Position(cps, cp);
      assert CheckpointOk(k, cps, i);
    }
  }

  lemma SoundMeansOk(k: Checks, cps: seq<AuditCheckpoint>)
    requires ByNumber(CheckpointView(), cps) && OneChain(CheckpointView(), cps) && CheckpointsSound(k, multiset(cps))
    ensures forall i :: 0 <= i < |cps| ==> CheckpointOk(k, cps, i)
  {
    var v := CheckpointView();
    SortedSteps(v, cps);
    forall i | 0 <= i < |cps|
      ensures CheckpointOk(k, cps, i)
    {
      assert cps[i] in multiset(cps);
      assert i > 0 ==> Follows(v, cps[i - 1], cps[i]);
    }
  }

  ghost predicate IsIndex(index: map<(string, nat), string>, entries: seq<AuditEntry>) {
    IndexSound(index, entries) && forall w :: IndexCovers(index, entries, w)
  }

  /** With one entry per number, the index lookup asks whether the tip is held. */
  lemma TipMatchesMeans(entries: seq<AuditEntry>, index: map<(string, nat), string>, t: WriterTip)
    requires IsLinked(EntryView(), multiset(entries)) && IndexSound(index, entries) && IndexCovers(index, entries, t.writer)
    ensures TipMatches(index, t) <==> TipHeld(multiset(entries), t)
  {
    var v := EntryView();
    if (t.writer, t.seqNo) in index {
      assert HeldBy(entries, t.writer, t.seqNo, index[(t.writer, t.seqNo)]);
      var e :| e in entries && e.content.writer == t.writer && e.content.sequence == t.seqNo && e.contentHash == index[(t.writer, t.seqNo)];
      assert e in multiset(entries);
      if TipHeld(multiset(entries), t) {
        var f :| f in multiset(entries) && f.content.writer == t.writer && f.content.sequence == t.seqNo && f.contentHash == t.contentHash;
        assert v.chain(e) == v.chain(f) && v.number(e) == v.number(f);
      }
    } else {
      assert forall f :: f in multiset(entries) ==> f in entries;
    }
  }

  lemma TipsHeldMeans(entries: seq<AuditEntry>, index: map<(string, nat), string>,
                      checkpoints: seq<AuditCheckpoint>, cps: seq<AuditCheckpoint>)
    requires IsLinked(EntryView(), multiset(entries)) && IsIndex(index, entries)
    requires multiset(cps) == multiset(checkpoints)
    ensures (forall i :: 0 <= i < |cps| ==> TipsMatch(index, cps[i].content.tips)) <==> TipsHeld(multiset(entries), multiset(checkpoints))
  {
    forall t
      ensures TipMatches(index, t) <==> TipHeld(multiset(entries), t)
    {
      TipMatchesMeans(entries, index, t);
    }
    if forall i :: 0 <= i < |cps| ==> TipsMatch(index, cps[i].content.tips) {
      forall cp, t | cp in multiset(cps) && t in cp.content.tips
        ensures TipHeld(multiset(entries), t)
      {
        var i :| 0 <= i < |cps| && cps[i] == cp;
        var j :| 0 <= j < |cp.content.tips| && cp.content.tips[j] == t;
        assert TipsMatch(index, cps[i].content.tips);
        assert TipMatches(index, cp.content.tips[j]);
      }
    }
    if TipsHeld(multiset(entries), multiset(cps)) {
      forall i, j | 0 <= i < |cps| && 0 <= j < |cps[i].content.tips|
        ensures TipMatches(index, cps[i].content.tips[j])
      {
        assert cps[i] in multiset(cps) && cps[i].content.tips[j] in cps[i].content.tips;
        assert TipHeld(multiset(entries), cps[i].content.tips[j]);
      }
    }
  }

  // ---- All writers together ----

  function WriterParts(k: Checks, entries: seq<AuditEntry>, order: seq<string>): (r: seq<seq<Finding>>)
    ensures |r| == |order|
  {
    seq(|order|, i requires 0 <= i < |order| =>
      ChainFindings(k, order[i], ChainOf(entries, order[i]), |ChainOf(entries, order[i])|))
  }

  /** `order` lists every writer that has an entry, once. */
  ghost predicate ListsWriters(entries: seq<AuditEntry>, order: seq<string>) {
    && Distinct(order)
    && (forall w :: w in order <==> exists e :: e in entries && e.content.writer == w)
  }

  lemma WriterPartMeans(k: Checks, entries: seq<AuditEntry>, w: string)
    ensures var chain := ChainOf(entries, w);
            var fs := ChainFindings(k, w, chain, |chain|);
            && (Intact(fs) <==> EntriesIntact(k, Part(entries)(w)))
            && (fs == [] <==> Intact(fs) && ChainSigned(k, chain))
  {
    var chain := ChainOf(entries, w);
    ChainFindingsMean(k, w, chain);
    SortedChain(entries, w);
    ChainMultiplicity(entries, w);
    ChainIntactMeans(k, chain);
    CleanMeans(k, chain);
  }

  ghost predicate ChainSigned(k: Checks, chain: seq<AuditEntry>) {
    forall i :: 0 <= i < |chain| ==> EntrySigned(k, chain[i])
  }

  lemma CleanMeans(k: Checks, chain: seq<AuditEntry>)
    ensures (forall i :: 0 <= i < |chain| ==> EntryClean(k, chain, i)) <==>
            (forall i :: 0 <= i < |chain| ==> EntryOk(k, chain, i)) && ChainSigned(k, chain)
  {
    if forall i :: 0 <= i < |chain| ==> EntryClean(k, chain, i) {
      forall i | 0 <= i < |chain|
        ensures EntryOk(k, chain, i) && EntrySigned(k, chain[i])
      {
        assert EntryClean(k, chain, i);
      }
    }
  }

  lemma IntactByWriter(k: Checks, entries: seq<AuditEntry>, order: seq<string>)
    requires ListsWriters(entries, order)
    ensures EntriesIntact(k, multiset(entries)) <==> forall i :: 0 <= i < |order| ==> EntriesIntact(k, Part(entries)(order[i]))
  {
    if EntriesIntact(k, multiset(entries)) {
      forall i | 0 <= i < |order|
        ensures EntriesIntact(k, Part(entries)(order[i]))
      {
        OneWriterIntact(k, entries, order[i]);
      }
    }
    if forall i :: 0 <= i < |order| ==> EntriesIntact(k, Part(entries)(order[i])) {
      forall w
        ensures EntriesIntact(k, Part(entries)(w))
      {
        if w in order {
          var i :| 0 <= i < |order| && order[i] == w;
        } else {
          AbsentWriterIntact(k, entries, w);
        }
      }
      AllWritersIntact(k, entries);
    }
  }

  lemma AbsentWriterIntact(k: Checks, entries: seq<AuditEntry>, w: string)
    requires forall e :: e in entries ==> e.content.writer != w
    ensures EntriesIntact(k, Part(entries)(w))
  {
    WriterPart(entries, w);
    assert forall e :: e in multiset(entries) ==> e in entries;
    assert forall e :: e !in Part(entries)(w);
  }

  lemma SignedByWriter(k: Checks, entries: seq<AuditEntry>, order: seq<string>)
    requires ListsWriters(entries, order)
    ensures (forall e :: e in multiset(entries) ==> EntrySigned(k, e)) <==>
            forall i :: 0 <= i < |order| ==> ChainSigned(k, ChainOf(entries, order[i]))
  {
    forall w
      ensures ChainSigned(k, ChainOf(entries, w)) <==> forall e :: e in entries && e.content.writer == w ==> EntrySigned(k, e)
    {
      ChainMembers(entries, w);
      var chain := ChainOf(entries, w);
      assert ChainSigned(k, chain) <==> forall e :: e in chain ==> EntrySigned(k, e);
    }
    assert forall e :: e in multiset(entries) <==> e in entries;
    if forall i :: 0 <= i < |order| ==> ChainSigned(k, ChainOf(entries, order[i])) {
      forall e | e in entries
        ensures EntrySigned(k, e)
      {
        assert e.content.writer in order;
        var i :| 0 <= i < |order| && order[i] == e.content.writer;
        assert ChainSigned(k, ChainOf(entries, order[i]));
      }
    }
  }

  lemma WriterFindingsIntact(k: Checks, entries: seq<AuditEntry>, order: seq<string>)
    requires ListsWriters(entries, order)
    ensures Intact(Flatten(WriterParts(k, entries, order), |order|)) <==> EntriesIntact(k, multiset(entries))
  {
    hide EntriesIntact;
    hide Intact;
    hide ChainFindings;
    hide ListsWriters;
    hide Part;
    var parts := WriterParts(k, entries, order);
    forall i | 0 <= i < |order|
      ensures Intact(parts[i]) <==> EntriesIntact(k, Part(entries)(order[i]))
    {
      WriterPartMeans(k, entries, order[i]);
    }
    FlattenIntact(parts, |order|);
    IntactByWriter(k, entries, order);
  }

  lemma WriterFindingsEmpty(k: Checks, entries: seq<AuditEntry>, order: seq<string>)
    requires ListsWriters(entries, order)
    ensures Flatten(WriterParts(k, entries, order), |order|) == [] <==>
            && Intact(Flatten(WriterParts(k, entries, order), |order|))
            && forall e :: e in multiset(entries) ==> EntrySigned(k, e)
  {
    hide Intact;
    hide ChainFindings;
    hide ListsWriters;
    hide ChainSigned;
    var parts := WriterParts(k, entries, order);
    forall i | 0 <= i < |order|
      ensures parts[i] == [] <==> Intact(parts[i]) && ChainSigned(k, ChainOf(entries, order[i]))
    {
      WriterPartMeans(k, entries, order[i]);
    }
    FlattenIntact(parts, |order|);
    FlattenEmpty(parts, |order|);
    SignedByWriter(k, entries, order);
  }

  // ---- Counting ----

  function SignedEntry(k: Checks): (p: AuditEntry -> bool) {
    (e: AuditEntry) => EntrySigned(k, e)
  }

  function RootedCheckpoint(k: Checks): (p: AuditCheckpoint -> bool) {
    (cp: AuditCheckpoint) => CheckpointRootOk(k, cp)
  }

  /** How many entries the first `n` writers have. */
  function Total(entries: seq<AuditEntry>, order: seq<string>, n: nat): (r: nat)
    requires n <= |order|
  {
    if n == 0 then 0 else Total(entries, order, n - 1) + |Filter(entries, OfWriter(order[n - 1]))|
  }

  lemma {:induction false} TotalOfNone(order: seq<string>, n: nat)
    requires n <= |order|
    ensures Total([], order, n) == 0
  {
    if n > 0 {
      TotalOfNone(order, n - 1);
    }
  }

  lemma {:induction false} TotalOfMore(entries: seq<AuditEntry>, order: seq<string>, n: nat)
    requires entries != [] && n <= |order| && Distinct(order)
    ensures Total(entries, order, n) == Total(entries[1..], order, n) + if entries[0].content.writer in order[..n] then 1 else 0
  {
    if n > 0 {
      TotalOfMore(entries, order, n - 1);
      OneMore(entries, order[n - 1]);
      ListedOnce(order, n, entries[0].content.writer);
    }
  }

  lemma OneMore(entries: seq<AuditEntry>, w: string)
    requires entries != []
    ensures |Filter(entries, OfWriter(w))| == |Filter(entries[1..], OfWriter(w))| + if entries[0].content.writer == w then 1 else 0
  {
  }

  lemma ListedOnce(order: seq<string>, n: nat, w: string)
    requires 0 < n <= |order| && Distinct(order)
    ensures w in order[..n] <==> w in order[..n - 1] || w == order[n - 1]
    ensures order[n - 1] !in order[..n - 1]
  {
    assert order[..n] == order[..n - 1] + [order[n - 1]];
  }

  /** Counting entries writer by writer counts every entry once. */
  lemma {:induction false} SharesAddUp(entries: seq<AuditEntry>, order: seq<string>)
    requires Distinct(order) && forall e :: e in entries ==> e.content.writer in order
    ensures Total(entries, order, |order|) == |entries|
  {
    if entries == [] {
      TotalOfNone(order, |order|);
    } else {
      SharesAddUp(entries[1..], order);
      TotalOfMore(entries, order, |order|);
      assert order[..|order|] == order;
    }
  }

  lemma {:induction false} SignedCountIsFilter(k: Checks, chain: seq<AuditEntry>, n: nat)
    requires n <= |chain|
    ensures SignedCount(k, chain, n) == |Filter(chain[..n], SignedEntry(k))|
  {
    if n > 0 {
      SignedCountIsFilter(k, chain, n - 1);
      assert chain[..n] == chain[..n - 1] + [chain[n - 1]];
      FilterAppend(chain[..n - 1], [chain[n - 1]], SignedEntry(k));
    }
  }

  lemma {:induction false} RootedCountIsFilter(k: Checks, cps: seq<AuditCheckpoint>, n: nat)
    requires n <= |cps|
    ensures RootedCount(k, cps, n) == |Filter(cps[..n], RootedCheckpoint(k))|
  {
    if n > 0 {
      RootedCountIsFilter(k, cps, n - 1);
      assert cps[..n] == cps[..n - 1] + [cps[n - 1]];
      FilterAppend(cps[..n - 1], [cps[n - 1]], RootedCheckpoint(k));
    }
  }

  /** One writer's share of the validly signed entries. */
  lemma SignedShare(k: Checks, entries: seq<AuditEntry>, w: string)
    ensures SignedCount(k, ChainOf(entries, w), |ChainOf(entries, w)|) == |Filter(Filter(entries, SignedEntry(k)), OfWriter(w))|
  {
    var chain := ChainOf(entries, w);
    SignedCountIsFilter(k, chain, |chain|);
    assert chain[..|chain|] == chain;
    FilterPermutation(chain, Filter(entries, OfWriter(w)), SignedEntry(k));
    FilterCommutes(entries, OfWriter(w), SignedEntry(k));
  }

  lemma CountsAddUp(k: Checks, entries: seq<AuditEntry>, order: seq<string>)
    requires ListsWriters(entries, order)
    ensures Total(entries, order, |order|) == |entries|
    ensures Total(Filter(entries, SignedEntry(k)), order, |order|) == |Filter(entries, SignedEntry(k))|
  {
    FilterMembers(entries, SignedEntry(k));
    SharesAddUp(entries, order);
    SharesAddUp(Filter(entries, SignedEntry(k)), order);
  }

  // ---- The method ----

  /** `byWriter` holds, for each listed writer, its entries in input order. */
  ghost predicate Groups(entries: seq<AuditEntry>, writers: seq<string>, byWriter: map<string, seq<AuditEntry>>) {
    && (forall w :: w in byWriter <==> w in writers)
    && (forall w :: w in byWriter ==> byWriter[w] == Filter(entries, OfWriter(w)))
  }

  /** The `BTreeMap` of entries by writer, with its keys as first met. */
  method GroupByWriter(entries: seq<AuditEntry>) returns (writers: seq<string>, byWriter: map<string, seq<AuditEntry>>)
    ensures ListsWriters(entries, writers) && Groups(entries, writers, byWriter)
  {
    writers, byWriter := [], map[];
    var i := 0;
    while i < |entries|
      invariant 0 <= i <= |entries|
      invariant ListsWriters(entries[..i], writers) && Groups(entries[..i], writers, byWriter)
    {
      var e := entries[i];
      NextWriter(entries, i, writers);
      NextGroup(entries, i, writers, byWriter);
      if e.content.writer in byWriter {
        byWriter := byWriter[e.content.writer := byWriter[e.content.writer] + [e]];
      } else {
        byWriter := byWriter[e.content.writer := [e]];
        writers := writers + [e.content.writer];
      }
      i := i + 1;
    }
    assert entries[..|entries|] == entries;
  }

  lemma NextGroup(entries: seq<AuditEntry>, i: nat, writers: seq<string>, byWriter: map<string, seq<AuditEntry>>)
    requires i < |entries| && ListsWriters(entries[..i], writers) && Groups(entries[..i], writers, byWriter)
    ensures var e := entries[i];
            var w := e.content.writer;
            if w in byWriter then Groups(entries[..i + 1], writers, byWriter[w := byWriter[w] + [e]])
            else Groups(entries[..i + 1], writers + [w], byWriter[w := [e]])
  {
    var e := entries[i];
    var w := e.content.writer;
    if w in byWriter {
      RegroupedWith(entries, i, byWriter, byWriter[w := byWriter[w] + [e]]);
    } else {
      NoGroupYet(entries[..i], writers, w);
      RegroupedWith(entries, i, byWriter, byWriter[w := [e]]);
    }
  }

  /** Changing one writer's group by its next entry keeps every group complete. */
  lemma RegroupedWith(entries: seq<AuditEntry>, i: nat, was: map<string, seq<AuditEntry>>, now: map<string, seq<AuditEntry>>)
    requires i < |entries| && forall u :: u in was ==> was[u] == Filter(entries[..i], OfWriter(u))
    requires var w := entries[i].content.writer; w in now && now[w] == Filter(entries[..i], OfWriter(w)) + [entries[i]]
    requires forall u :: u in now && u != entries[i].content.writer ==> u in was && now[u] == was[u]
    ensures forall u :: u in now ==> now[u] == Filter(entries[..i + 1], OfWriter(u))
  {
    forall u | u in now
      ensures now[u] == Filter(entries[..i + 1], OfWriter(u))
    {
      GroupGrows(entries, i, u);
    }
  }

  lemma GroupGrows(entries: seq<AuditEntry>, i: nat, w: string)
    requires i < |entries|
    ensures Filter(entries[..i + 1], OfWriter(w)) ==
            if w == entries[i].content.writer then Filter(entries[..i], OfWriter(w)) + [entries[i]] else Filter(entries[..i], OfWriter(w))
  {
    assert entries[..i + 1] == entries[..i] + [entries[i]];
    FilterAppend(entries[..i], [entries[i]], OfWriter(w));
  }

  lemma NoGroupYet(entries: seq<AuditEntry>, writers: seq<string>, w: string)
    requires ListsWriters(entries, writers) && w !in writers
    ensures Filter(entries, OfWriter(w)) == []
  {
    FilterEmpty(entries, OfWriter(w));
  }

  lemma NextWriter(entries: seq<AuditEntry>, i: nat, writers: seq<string>)
    requires i < |entries| && ListsWriters(entries[..i], writers)
    ensures var w := entries[i].content.writer;
            ListsWriters(entries[..i + 1], if w in writers then writers else writers + [w])
  {
    var e := entries[i];
    var more := if e.content.writer in writers then writers else writers + [e.content.writer];
    assert entries[..i + 1] == entries[..i] + [e];
    forall w
      ensures w in more <==> exists x :: x in entries[..i + 1] && x.content.writer == w
    {
      if w in more {
        if w in writers {
          var x :| x in entries[..i] && x.content.writer == w;
          assert x in entries[..i + 1];
        } else {
          assert e in entries[..i + 1];
        }
      }
    }
  }

  lemma SortedWriters(entries: seq<AuditEntry>, writers: seq<string>, order: seq<string>)
    requires ListsWriters(entries, writers) && multiset(order) == multiset(writers)
    ensures ListsWriters(entries, order)
  {
    DistinctPermutation(writers, order);
    SameMembers(writers, order);
  }

  /** The index after the first `n` writers. */
  function IndexAll(entries: seq<AuditEntry>, order: seq<string>, n: nat): (r: map<(string, nat), string>)
    requires n <= |order|
  {
    if n == 0 then map[]
    else Indexed(IndexAll(entries, order, n - 1), order[n - 1], ChainOf(entries, order[n - 1]), |ChainOf(entries, order[n - 1])|)
  }

  lemma {:induction false} IndexAllCovers(entries: seq<AuditEntry>, order: seq<string>, n: nat)
    requires n <= |order|
    ensures IndexSound(IndexAll(entries, order, n), entries)
    ensures forall i :: 0 <= i < n ==> IndexCovers(IndexAll(entries, order, n), entries, order[i])
  {
    if n > 0 {
      IndexAllCovers(entries, order, n - 1);
      forall i | 0 <= i < n
        ensures IndexCovers(IndexAll(entries, order, n), entries, order[i])
      {
        NextIndexCovers(entries, order, n, order[i], i == n - 1);
      }
      NextIndexSound(entries, order, n);
    }
  }

  lemma NextIndexSound(entries: seq<AuditEntry>, order: seq<string>, n: nat)
    requires 0 < n <= |order| && IndexSound(IndexAll(entries, order, n - 1), entries)
    ensures IndexSound(IndexAll(entries, order, n), entries)
  {
    IndexGrows(IndexAll(entries, order, n - 1), entries, order[n - 1]);
  }

  lemma NextIndexCovers(entries: seq<AuditEntry>, order: seq<string>, n: nat, w: string, newest: bool)
    requires 0 < n <= |order| && IndexSound(IndexAll(entries, order, n - 1), entries)
    requires if newest then w == order[n - 1] else IndexCovers(IndexAll(entries, order, n - 1), entries, w)
    ensures IndexCovers(IndexAll(entries, order, n), entries, w)
  {
    IndexGrows(IndexAll(entries, order, n - 1), entries, order[n - 1]);
  }

  lemma IndexAllIsIndex(entries: seq<AuditEntry>, order: seq<string>)
    requires ListsWriters(entries, order)
    ensures IsIndex(IndexAll(entries, order, |order|), entries)
  {
    IndexAllCovers(entries, order, |order|);
    forall w
      ensures IndexCovers(IndexAll(entries, order, |order|), entries, w)
    {
      if w in order {
        var i :| 0 <= i < |order| && order[i] == w;
      }
    }
  }

  lemma PartAt(k: Checks, entries: seq<AuditEntry>, order: seq<string>, i: nat)
    requires i < |order|
    ensures WriterParts(k, entries, order)[i] == ChainFindings(k, order[i], ChainOf(entries, order[i]), |ChainOf(entries, order[i])|)
  {
  }

  /** One writer's turn in the loop below. */
  method VerifyWriter(k: Checks, entries: seq<AuditEntry>, order: seq<string>, i: nat, own: seq<AuditEntry>, v: Verdict, index: map<(string, nat), string>)
    returns (r: Verdict, signed: nat, index': map<(string, nat), string>)
    requires i < |order| && own == Filter(entries, OfWriter(order[i]))
    requires v == VerdictOn(Flatten(WriterParts(k, entries, order), i)) && index == IndexAll(entries, order, i)
    ensures r == VerdictOn(Flatten(WriterParts(k, entries, order), i + 1)) && index' == IndexAll(entries, order, i + 1)
    ensures Total(entries, order, i + 1) == Total(entries, order, i) + |own|
    ensures Total(Filter(entries, SignedEntry(k)), order, i + 1) == Total(Filter(entries, SignedEntry(k)), order, i) + signed
  {
    var chain := SortBy(own, EntryLe());
    SignedShare(k, entries, order[i]);
    PartAt(k, entries, order, i);
    r, signed, index' := VerifyChain(k, order[i], chain, v, index);
  }

  /** How far the loop below has come. */
  ghost predicate Progress(k: Checks, entries: seq<AuditEntry>, order: seq<string>, i: nat, v: Verdict, checked: nat, signatures: nat, index: map<(string, nat), string>)
    requires i <= |order|
  {
    && v == VerdictOn(Flatten(WriterParts(k, entries, order), i)) && index == IndexAll(entries, order, i)
    && checked == Total(entries, order, i) && signatures == Total(Filter(entries, SignedEntry(k)), order, i)
  }

  method NextWriterVerified(k: Checks, entries: seq<AuditEntry>, order: seq<string>, i: nat, own: seq<AuditEntry>,
                            v: Verdict, checked: nat, signatures: nat, index: map<(string, nat), string>)
    returns (v': Verdict, checked': nat, signatures': nat, index': map<(string, nat), string>)
    requires i < |order| && own == Filter(entries, OfWriter(order[i])) && Progress(k, entries, order, i, v, checked, signatures, index)
    ensures Progress(k, entries, order, i + 1, v', checked', signatures', index')
  {
    var signed;
    v', signed, index' := VerifyWriter(k, entries, order, i, own, v, index);
    checked', signatures' := checked + |own|, signatures + signed;
  }

  /** The loop over the writers, in key order. */
  method VerifyWriters(k: Checks, entries: seq<AuditEntry>, order: seq<string>, byWriter: map<string, seq<AuditEntry>>)
    returns (v: Verdict, entriesChecked: nat, signatures: nat, index: map<(string, nat), string>)
    requires ListsWriters(entries, order) && Groups(entries, order, byWriter)
    ensures v == VerdictOn(Flatten(WriterParts(k, entries, order), |order|)) && index == IndexAll(entries, order, |order|)
    ensures entriesChecked == |entries| && signatures == |Filter(entries, SignedEntry(k))|
  {
    v, entriesChecked, signatures, index := VerdictOn([]), 0, 0, map[];
    for i := 0 to |order|
      invariant Progress(k, entries, order, i, v, entriesChecked, signatures, index)
    {
      v, entriesChecked, signatures, index := NextWriterVerified(k, entries, order, i, byWriter[order[i]], v, entriesChecked, signatures, index);
    }
    CountsAddUp(k, entries, order);
  }

  /** `verify_sharded`. The verdict is valid exactly when the log is accepted, and then and only
      then are there no errors; the counters count what they say. */
  method VerifySharded(c: Crypto, entries: seq<AuditEntry>, checkpoints: seq<AuditCheckpoint>) returns (report: Report)
    ensures report.verdict.valid <==> Accepted(ChecksOf(c), multiset(entries), multiset(checkpoints))
    ensures report.verdict.valid <==> report.verdict.errors == []
    ensures forall f :: f in report.verdict.errors <==> Present(ChecksOf(c), entries, checkpoints, f)
    ensures report.verdict.chainIntact <==>
            EntriesIntact(ChecksOf(c), multiset(entries)) && TipsHeld(multiset(entries), multiset(checkpoints))
    ensures report.entriesChecked == |entries| && report.checkpointsChecked == |checkpoints|
    ensures report.signaturesValid == |Filter(entries, SignedEntry(ChecksOf(c)))|
    ensures report.merkleRootsValid == |Filter(checkpoints, RootedCheckpoint(ChecksOf(c)))|
    ensures report.writersChecked == |set e | e in entries :: e.content.writer|
  {
    var k := ChecksOf(c);
    var writers, byWriter := GroupByWriter(entries);
    var order := SortBy(writers, LexLe);
    SortedWriters(entries, writers, order);
    SameMembers(writers, order);
    assert Groups(entries, order, byWriter);
    var v, entriesChecked, signatures, index := VerifyWriters(k, entries, order, byWriter);
    var cps := SortBy(checkpoints, CheckpointLe());
    var roots;
    v, roots := VerifyCheckpoints(k, cps, index, v);
    report := Report(v, entriesChecked, signatures, roots, |order|, |cps|);
    IndexAllIsIndex(entries, order);
    VerdictMeans(k, entries, order, index, checkpoints, cps);
    FaultsListed(k, entries, order, checkpoints, cps);
    RootedCountIsFilter(k, cps, |cps|);
    assert cps[..|cps|] == cps;
    FilterPermutation(cps, checkpoints, RootedCheckpoint(k));
    WriterCount(entries, order);
  }

  /** The index knows a place if its writer is covered, by the last entry presented there. */
  ghost predicate LastAt(r: map<(string, nat), string>, entries: seq<AuditEntry>, w: string, s: nat, covered: bool) {
    var own := Filter(entries, At(w, s));
    && ((w, s) in r <==> covered && own != [])
    && ((w, s) in r ==> r[(w, s)] == LastHash(own))
  }

  lemma IndexedCovers(index: map<(string, nat), string>, entries: seq<AuditEntry>, u: string, w: string, s: nat, covered: bool)
    requires LastAt(index, entries, w, s, covered) && (u == w ==> !covered)
    ensures LastAt(Indexed(index, u, ChainOf(entries, u), |ChainOf(entries, u)|), entries, w, s, covered || u == w)
  {
    hide Filter;
    hide ChainOf;
    hide Indexed;
    var chain := ChainOf(entries, u);
    IndexedLast(index, u, chain, |chain|, w, s);
    assert chain[..|chain|] == chain;
    SamePlaceInOrder(entries, u, s);
  }

  lemma NewWriter(order: seq<string>, n: nat, w: string)
    requires 0 < n <= |order| && Distinct(order)
    ensures w in order[..n] <==> w in order[..n - 1] || order[n - 1] == w
    ensures order[n - 1] == w ==> w !in order[..n - 1]
  {
    assert order[..n] == order[..n - 1] + [order[n - 1]];
  }

  /** The index built writer by writer holds the last entry of each place. */
  lemma {:induction false} IndexAllLast(entries: seq<AuditEntry>, order: seq<string>, n: nat, w: string, s: nat)
    requires n <= |order| && Distinct(order)
    ensures LastAt(IndexAll(entries, order, n), entries, w, s, w in order[..n])
    decreases n
  {
    hide Filter;
    hide ChainOf;
    hide Indexed;
    if n > 0 {
      IndexAllLast(entries, order, n - 1, w, s);
      hide LastAt;
      var covered := w in order[..n - 1];
      NewWriter(order, n, w);
      hide Distinct;
      IndexedCovers(IndexAll(entries, order, n - 1), entries, order[n - 1], w, s, covered);
    }
  }

  lemma IndexHoldsLatest(entries: seq<AuditEntry>, order: seq<string>)
    requires ListsWriters(entries, order)
    ensures HoldsLatest(IndexAll(entries, order, |order|), entries)
  {
    forall w: string, s: nat
      ensures IndexAt(IndexAll(entries, order, |order|), entries, w, s)
    {
      IndexAllLast(entries, order, |order|, w, s);
      assert order[..|order|] == order;
      FilterMembers(entries, At(w, s));
      var own := Filter(entries, At(w, s));
      assert own != [] ==> own[0] in own;
    }
  }

  /** What the writer loop lists: the faults of some writer's entries. */
  lemma WriterFaultsListed(k: Checks, entries: seq<AuditEntry>, order: seq<string>, f: Finding)
    requires ListsWriters(entries, order)
    ensures f in Flatten(WriterParts(k, entries, order), |order|) <==> InSomeChain(k, entries, f)
  {
    hide ChainFindings;
    hide InOneChain;
    hide ChainOf;
    var parts := WriterParts(k, entries, order);
    FlattenMember(parts, |order|, f);
    forall i | 0 <= i < |order|
      ensures f in parts[i] <==> InOneChain(k, entries, order[i], f)
    {
      ChainListed(k, entries, order[i], f);
    }
    if InSomeChain(k, entries, f) {
      var w :| InOneChain(k, entries, w, f);
      HasEntries(k, entries, order, w, f);
      var i :| 0 <= i < |order| && order[i] == w;
      assert f in parts[i];
    }
  }

  lemma HasEntries(k: Checks, entries: seq<AuditEntry>, order: seq<string>, w: string, f: Finding)
    requires InOneChain(k, entries, w, f) && ListsWriters(entries, order)
    ensures w in order
  {
    var j :| InChain(k, entries, w, j, f);
    ChainMembers(entries, w);
    assert ChainOf(entries, w)[j] in ChainOf(entries, w);
  }

  lemma FaultsListed(k: Checks, entries: seq<AuditEntry>, order: seq<string>, checkpoints: seq<AuditCheckpoint>, cps: seq<AuditCheckpoint>)
    requires ListsWriters(entries, order) && cps == SortBy(checkpoints, CheckpointLe())
    ensures forall f :: f in Flatten(WriterParts(k, entries, order), |order|) + AnchorFindings(k, cps, IndexAll(entries, order, |order|), |cps|)
                        <==> Present(k, entries, checkpoints, f)
  {
    hide *;
    var index := IndexAll(entries, order, |order|);
    IndexHoldsLatest(entries, order);
    forall f
      ensures f in Flatten(WriterParts(k, entries, order), |order|) + AnchorFindings(k, cps, index, |cps|)
              <==> Present(k, entries, checkpoints, f)
    {
      WriterFaultsListed(k, entries, order, f);
      AnchorListed(k, cps, index, entries, f);
      PresentMeans(k, entries, checkpoints, cps, f);
    }
  }

  lemma PresentMeans(k: Checks, entries: seq<AuditEntry>, checkpoints: seq<AuditCheckpoint>, cps: seq<AuditCheckpoint>, f: Finding)
    requires cps == SortBy(checkpoints, CheckpointLe())
    ensures Present(k, entries, checkpoints, f) <==>
            InSomeChain(k, entries, f) || exists i :: InCheckpoint(k, entries, cps, i, f)
  {
  }

  lemma WriterCount(entries: seq<AuditEntry>, order: seq<string>)
    requires ListsWriters(entries, order)
    ensures |order| == |set e | e in entries :: e.content.writer|
  {
    var all := set e | e in entries :: e.content.writer;
    assert forall w :: w in all <==> w in order;
    DistinctSize(order);
    assert all == set w | w in order;
  }

  lemma {:induction false} DistinctSize<T>(s: seq<T>)
    requires Distinct(s)
    ensures |set x | x in s| == |s|
  {
    if s != [] {
      assert s == [s[0]] + s[1..];
      DistinctCons(s[0], s[1..]);
      DistinctSize(s[1..]);
      assert (set x | x in s) == {s[0]} + set x | x in s[1..];
    }
  }

  /** Putting the findings of the two loops together. */
  lemma VerdictMeans(k: Checks, entries: seq<AuditEntry>, order: seq<string>, index: map<(string, nat), string>,
                     checkpoints: seq<AuditCheckpoint>, cps: seq<AuditCheckpoint>)
    requires ListsWriters(entries, order) && IsIndex(index, entries)
    requires cps == SortBy(checkpoints, CheckpointLe())
    ensures var es, cs := multiset(entries), multiset(checkpoints);
            var errors := Flatten(WriterParts(k, entries, order), |order|) + AnchorFindings(k, cps, index, |cps|);
            && (errors == [] <==> Accepted(k, es, cs))
            && (Intact(errors) <==> EntriesIntact(k, es) && TipsHeld(es, cs))
  {
    hide EntriesIntact;
    hide CheckpointsSound;
    hide TipsHeld;
    hide WriterParts;
    hide AnchorFindings;
    hide Flatten;
    hide Intact;
    var a, b := Flatten(WriterParts(k, entries, order), |order|), AnchorFindings(k, cps, index, |cps|);
    WriterFindingsIntact(k, entries, order);
    WriterFindingsEmpty(k, entries, order);
    IntactAppend(a, b);
    AnchorVerdict(k, entries, index, checkpoints, cps);
  }

  /** What the checkpoint loop finds, once the entries are known to be intact. */
  lemma AnchorVerdict(k: Checks, entries: seq<AuditEntry>, index: map<(string, nat), string>,
                      checkpoints: seq<AuditCheckpoint>, cps: seq<AuditCheckpoint>)
    requires IsIndex(index, entries) && cps == SortBy(checkpoints, CheckpointLe())
    ensures var es, cs := multiset(entries), multiset(checkpoints);
            var b := AnchorFindings(k, cps, index, |cps|);
            EntriesIntact(k, es) ==>
              && (Intact(b) <==> TipsHeld(es, cs))
              && (b == [] <==> CheckpointsSound(k, cs) && TipsHeld(es, cs) && AnchorsSigned(k, cs))
  {
    AnchorFindingsMean(k, cps, index);
    SortedCheckpoints(checkpoints);
    CheckpointsSoundMeans(k, cps);
    CleanCheckpoints(k, cps, index);
    if EntriesIntact(k, multiset(entries)) {
      TipsHeldMeans(entries, index, checkpoints, cps);
    }
  }

  ghost predicate AnchorsSigned(k: Checks, cs: multiset<AuditCheckpoint>) {
    forall cp :: cp in cs ==> CheckpointSigned(k, cp)
  }

  lemma CleanCheckpoints(k: Checks, cps: seq<AuditCheckpoint>, index: map<(string, nat), string>)
    ensures (forall i :: 0 <= i < |cps| ==> CheckpointClean(k, cps, index, i)) <==>
            && (forall i :: 0 <= i < |cps| ==> CheckpointOk(k, cps, i))
            && (forall i :: 0 <= i < |cps| ==> TipsMatch(index, cps[i].content.tips))
            && (forall cp :: cp in multiset(cps) ==> CheckpointSigned(k, cp))
  {
    assert forall cp :: cp in multiset(cps) <==> cp in cps;
    if forall i :: 0 <= i < |cps| ==> CheckpointClean(k, cps, index, i) {
      forall i | 0 <= i < |cps|
        ensures CheckpointOk(k, cps, i) && TipsMatch(index, cps[i].content.tips) && CheckpointSigned(k, cps[i])
      {
        assert CheckpointClean(k, cps, index, i);
      }
    }
  }
}
