/** The sharded audit protocol as a step system: any number of replicas start, log, lose an
    append, checkpoint, shut down, crash and restart against one shared store. */
module Protocol {
  import opened ByteStrings
  import opened Json
  import opened Sorting
  import opened AuditLog
  import opened Options
  import opened AuditChain
  import opened Linked
  import opened Findings
  import opened Verifier

  datatype Store = Store(entries: seq<AuditEntry>, checkpoints: seq<AuditCheckpoint>)

  /** The shared store and the in-memory chain of every running replica, by writer id. */
  datatype System = System(store: Store, live: map<string, ChainState>)

  /** What a replica computes with: the digests and signature check the verifier recomputes,
      and signing, which may fail and may depend on randomness (`nonce`). */
  datatype Identity = Identity(sha3: Hash, checks: Checks, sign: (string, nat) -> Option<string>)

  /** The gateway's identity: SHA3-256 and one ML-DSA key. */
  function Gateway(c: Crypto, sign: (string, nat) -> Option<string>): (id: Identity) {
    Identity(c.sha3, ChecksOf(c), sign)
  }

  /** All that is assumed of signatures: what was signed verifies, and the empty signature of an
      unsigned checkpoint does not. */
  ghost predicate Signs(id: Identity) {
    && (forall h, n :: id.sign(h, n).Some? ==> id.checks.check(h, id.sign(h, n).value).Good?)
    && (forall h :: !id.checks.check(h, "").Good?)
  }

  /** What happens next. Clocks, uuids and signing randomness are part of the step; `stored` is
      false when the append is lost after the chain has advanced. */
  datatype Step =
    | Start(writer: string, batchSize: nat)
    | Log(writer: string, event: Event, stored: bool)
    | Checkpoint(writer: string, at: Moment)
    | Shutdown(writer: string, at: Moment)
    | Crash(writer: string)

  datatype Moment = Moment(timestamp: string, nonce: nat)

  datatype Event = Event(uuid: string, session: string, body: Value, at: Moment)

  // ---- The store ----

  /** `writer_tip`: the writer's entry with the greatest sequence (the last one on a tie). */
  function WriterTipOf(entries: seq<AuditEntry>, w: string): (r: Option<AuditEntry>) {
    if entries == [] then None
    else
      var e, rest := entries[|entries| - 1], WriterTipOf(entries[..|entries| - 1], w);
      if e.content.writer == w && (rest.None? || rest.value.content.sequence <= e.content.sequence) then Some(e) else rest
  }

  /** The map `all_writer_tips` builds: per writer the entry with the greatest sequence (the
      first one on a tie). */
  function TipMap(entries: seq<AuditEntry>): (m: map<string, AuditEntry>) {
    if entries == [] then map[]
    else NextTip(TipMap(entries[..|entries| - 1]), entries[|entries| - 1])
  }

  function NextTip(m: map<string, AuditEntry>, e: AuditEntry): (r: map<string, AuditEntry>) {
    if e.content.writer in m && e.content.sequence <= m[e.content.writer].content.sequence then m
    else m[e.content.writer := e]
  }

  function TipOf(e: AuditEntry): (t: WriterTip) {
    WriterTip(e.content.writer, e.content.sequence, e.contentHash)
  }

  /** The writers that have an entry, as first met. */
  function Writers(entries: seq<AuditEntry>): (r: seq<string>) {
    if entries == [] then []
    else
      var rest, w := Writers(entries[..|entries| - 1]), entries[|entries| - 1].content.writer;
      if w in rest then rest else rest + [w]
  }

  /** `all_writer_tips`: the values of the map by ascending key. */
  function AllTips(entries: seq<AuditEntry>): (tips: seq<WriterTip>)
    ensures |tips| == |Writers(entries)|
  {
    var order := SortBy(Writers(entries), LexLe);
    WritersHaveTips(entries);
    SameMembers(Writers(entries), order);
    seq(|order|, i requires 0 <= i < |order| => TipOf(TipMap(entries)[order[i]]))
  }

  lemma {:induction false} WritersHaveTips(entries: seq<AuditEntry>)
    ensures forall w :: w in Writers(entries) <==> w in TipMap(entries)
    ensures forall e :: e in entries ==> e.content.writer in Writers(entries)
  {
    if entries != [] {
      WritersHaveTips(entries[..|entries| - 1]);
      assert entries == entries[..|entries| - 1] + [entries[|entries| - 1]];
    }
  }

  lemma AllTipsByKey(entries: seq<AuditEntry>, order: seq<string>, i: nat)
    requires order == SortBy(Writers(entries), LexLe) && i < |order|
    ensures order[i] in TipMap(entries) && AllTips(entries)[i] == TipOf(TipMap(entries)[order[i]])
  {
    WritersHaveTips(entries);
    SameMembers(Writers(entries), order);
    assert order[i] in order;
  }

  /** Each tip is the newest stored entry of its writer. */
  lemma {:induction false} TipMapIsNewest(entries: seq<AuditEntry>)
    ensures forall w :: w in TipMap(entries) ==> TipMap(entries)[w] in entries && TipMap(entries)[w].content.writer == w
    ensures forall e :: e in entries ==> e.content.writer in TipMap(entries) && e.content.sequence <= TipMap(entries)[e.content.writer].content.sequence
  {
    if entries != [] {
      TipMapIsNewest(entries[..|entries| - 1]);
      assert entries == entries[..|entries| - 1] + [entries[|entries| - 1]];
    }
  }

  /** On a tie the map keeps the entry stored first. */
  lemma {:induction false} TipMapFirst(entries: seq<AuditEntry>, w: string) returns (i: nat)
    requires w in TipMap(entries)
    ensures i < |entries| && entries[i] == TipMap(entries)[w] && NoneAsNew(entries[..i], w, entries[i].content.sequence)
  {
    var n := |entries| - 1;
    var front, e := entries[..n], entries[n];
    TipMapIsNewest(front);
    if e.content.writer != w || (w in TipMap(front) && e.content.sequence <= TipMap(front)[w].content.sequence) {
      i := TipMapFirst(front, w);
      assert front[..i] == entries[..i];
    } else {
      i := n;
    }
  }

  /** No entry of the writer has that number or a greater one. */
  ghost predicate NoneAsNew(entries: seq<AuditEntry>, w: string, s: nat) {
    forall e :: e in entries && e.content.writer == w ==> e.content.sequence < s
  }

  /** A checkpoint commits, for every writer with entries, a stored entry that none of its entries exceeds. */
  lemma AllTipsAreNewest(entries: seq<AuditEntry>)
    ensures AllTips(entries) == [] <==> entries == []
    ensures forall t :: t in AllTips(entries) ==> TipHeld(multiset(entries), t)
    ensures forall e :: e in entries ==> exists t :: t in AllTips(entries) && t.writer == e.content.writer && e.content.sequence <= t.seqNo
  {
    var tips, order, m := AllTips(entries), SortBy(Writers(entries), LexLe), TipMap(entries);
    WritersHaveTips(entries);
    SameMembers(Writers(entries), order);
    TipMapIsNewest(entries);
    assert entries != [] ==> entries[0] in entries;
    assert order != [] ==> order[0] in order;
    forall t | t in tips
      ensures TipHeld(multiset(entries), t)
    {
      var i :| 0 <= i < |tips| && tips[i] == t;
      assert order[i] in order;
      assert m[order[i]] in multiset(entries);
    }
    forall e | e in entries
      ensures exists t :: t in tips && t.writer == e.content.writer && e.content.sequence <= t.seqNo
    {
      var i :| 0 <= i < |order| && order[i] == e.content.writer;
      assert tips[i] in tips;
    }
  }

  lemma {:induction false} WriterTipIsNewest(entries: seq<AuditEntry>, w: string)
    ensures var t := WriterTipOf(entries, w);
            && (t.None? <==> forall e :: e in entries ==> e.content.writer != w)
            && (t.Some? ==> t.value in entries && t.value.content.writer == w
                            && forall e :: e in entries && e.content.writer == w ==> e.content.sequence <= t.value.content.sequence)
  {
    if entries != [] {
      WriterTipIsNewest(entries[..|entries| - 1], w);
      assert entries == entries[..|entries| - 1] + [entries[|entries| - 1]];
    }
  }

  /** On a tie the resume point is the entry stored last. */
  lemma {:induction false} WriterTipLast(entries: seq<AuditEntry>, w: string) returns (i: nat)
    requires WriterTipOf(entries, w).Some?
    ensures i < |entries| && entries[i] == WriterTipOf(entries, w).value && NoneAsNew(entries[i + 1..], w, entries[i].content.sequence)
  {
    var n := |entries| - 1;
    var front, e := entries[..n], entries[n];
    var rest := WriterTipOf(front, w);
    if e.content.writer == w && (rest.None? || rest.value.content.sequence <= e.content.sequence) {
      i := n;
    } else {
      i := WriterTipLast(front, w);
      assert entries[i + 1..] == front[i + 1..] + [e];
    }
  }

  /** `commit_checkpoint`, as one atomic step. A failed signature still persists the checkpoint. */
  function Committed(id: Identity, store: Store, at: Moment): (r: Store) {
    var tips := AllTips(store.entries);
    if tips == [] then store
    else Store(store.entries, store.checkpoints + [NextCheckpoint(id, store, tips, at)])
  }

  /** `AuditCheckpoint::build` in terms of the digests alone. */
  function BuildWith(k: Checks, seqNo: nat, prevHash: string, tips: seq<WriterTip>, timestamp: string): (cp: AuditCheckpoint) {
    var sorted := SortBy(tips, TipLe());
    var content := CheckpointContent(seqNo, timestamp, sorted, k.rootOf(sorted), prevHash);
    AuditCheckpoint(content, k.checkpointHash(content), "")
  }

  lemma BuildWithIsBuild(c: Crypto, seqNo: nat, prevHash: string, tips: seq<WriterTip>, timestamp: string)
    ensures BuildWith(ChecksOf(c), seqNo, prevHash, tips, timestamp) == Build(c.sha3, seqNo, prevHash, tips, timestamp)
  {
  }

  function NextCheckpoint(id: Identity, store: Store, tips: seq<WriterTip>, at: Moment): (cp: AuditCheckpoint) {
    var cps := store.checkpoints;
    var cp := if cps == [] then BuildWith(id.checks, 0, "", tips, at.timestamp)
              else BuildWith(id.checks, cps[|cps| - 1].content.seqNo + 1, cps[|cps| - 1].contentHash, tips, at.timestamp);
    match id.sign(cp.contentHash, at.nonce)
    case Some(sig) => cp.(signature := sig)
    case None => cp
  }

  // ---- One replica ----

  function Opened(entries: seq<AuditEntry>, w: string, batchSize: nat): (c: ChainState) {
    match WriterTipOf(entries, w)
    case Some(e) => Resumed(e.contentHash, e.content.sequence + 1, batchSize)
    case None => Fresh(batchSize)
  }

  function ContentOf(w: string, chain: ChainState, event: Event): (c: EntryContent) {
    EntryContent(event.uuid, event.at.timestamp, w, chain.sequence, event.session, event.body, chain.lastHash)
  }

  /** The signature the replica gets for its next entry. */
  function EntrySignature(id: Identity, w: string, chain: ChainState, event: Event): (r: Option<string>) {
    id.sign(id.checks.entryHash(ContentOf(w, chain, event)), event.at.nonce)
  }

  /** The chain and the entry after a successful signature. */
  function Logged(id: Identity, w: string, chain: ChainState, event: Event, sig: string): (r: (ChainState, AuditEntry)) {
    var content := ContentOf(w, chain, event);
    var hash := id.checks.entryHash(content);
    var (next, root) := Advanced(id.sha3, chain, hash);
    (next, AuditEntry(content, hash, sig, root))
  }

  function AfterLog(id: Identity, sys: System, w: string, event: Event, stored: bool): (r: System)
    requires w in sys.live
  {
    match EntrySignature(id, w, sys.live[w], event)
    case None => sys
    case Some(sig) =>
      var (chain, entry) := Logged(id, w, sys.live[w], event, sig);
      System(if stored then sys.store.(entries := sys.store.entries + [entry]) else sys.store, sys.live[w := chain])
  }

  /** One step; a step of a replica that is not running (or is already) changes nothing. */
  function Next(id: Identity, sys: System, step: Step): (r: System) {
    match step
    case Start(w, n) =>
      if w in sys.live then sys else sys.(live := sys.live[w := Opened(sys.store.entries, w, n)])
    case Log(w, event, stored) =>
      if w in sys.live then AfterLog(id, sys, w, event, stored) else sys
    case Checkpoint(w, at) =>
      if w in sys.live then sys.(store := Committed(id, sys.store, at)) else sys
    case Shutdown(w, at) =>
      if w in sys.live then System(Committed(id, sys.store, at), sys.live - {w}) else sys
    case Crash(w) =>
      sys.(live := sys.live - {w})
  }

  const EMPTY := System(Store([], []), map[])

  /** The state after any interleaving of steps, from an empty store. */
  function Exec(id: Identity, steps: seq<Step>): (r: System) {
    if steps == [] then EMPTY else Next(id, Exec(id, steps[..|steps| - 1]), steps[|steps| - 1])
  }

  // ---- The two ways a run can spoil its log ----

  /** A replica that lost an append, and has entries in the store, appends again without restarting. */
  predicate Tears(id: Identity, sys: System, step: Step) {
    && step.Log? && step.stored && step.writer in sys.live
    && EntrySignature(id, step.writer, sys.live[step.writer], step.event).Some?
    && WriterTipOf(sys.store.entries, step.writer).Some?
    && WriterTipOf(sys.store.entries, step.writer).value.content.sequence + 1 != sys.live[step.writer].sequence
  }

  /** A checkpoint is persisted although signing it failed. */
  predicate LeavesUnsigned(id: Identity, sys: System, step: Step) {
    (step.Checkpoint? || step.Shutdown?) && step.writer in sys.live && CommitsUnsigned(id, sys.store, step.at)
  }

  predicate CommitsUnsigned(id: Identity, store: Store, at: Moment) {
    && store.entries != []
    && id.sign(NextCheckpoint(id, store, AllTips(store.entries), at).contentHash, at.nonce).None?
  }

  ghost predicate CleanRun(id: Identity, steps: seq<Step>) {
    forall i :: 0 <= i < |steps| ==> CleanAt(id, steps, i)
  }

  predicate CleanAt(id: Identity, steps: seq<Step>, i: nat)
    requires i < |steps|
  {
    var before := Exec(id, steps[..i]);
    !Tears(id, before, steps[i]) && !LeavesUnsigned(id, before, steps[i])
  }

  // ---- What every step keeps ----

  ghost predicate EntriesGood(k: Checks, entries: seq<AuditEntry>) {
    && (forall e :: e in entries ==> EntryHashOk(k, e) && EntrySigned(k, e) && GenesisOk(e))
    && (forall x, y :: x in entries && y in entries && SamePlace(x, y) ==> x == y)
  }

  predicate SamePlace(x: AuditEntry, y: AuditEntry) {
    x.content.writer == y.content.writer && x.content.sequence == y.content.sequence
  }

  /** A running replica's chain is past everything it stored, and continues its newest entry if
      it is exactly one past it. */
  ghost predicate Continues(entries: seq<AuditEntry>, w: string, chain: ChainState) {
    && (chain.sequence == 0 ==> chain.lastHash == "")
    && (forall e :: e in entries && e.content.writer == w ==> e.content.sequence < chain.sequence)
    && (forall e :: e in entries && e.content.writer == w && e.content.sequence + 1 == chain.sequence ==> e.contentHash == chain.lastHash)
  }

  ghost predicate CheckpointsGood(k: Checks, cps: seq<AuditCheckpoint>) {
    && Steps(CheckpointView(), cps)
    && (cps != [] ==> cps[0].content.seqNo == 0)
    && (forall cp :: cp in cps ==> CheckpointHashOk(k, cp) && CheckpointRootOk(k, cp))
  }

  ghost predicate Inv(id: Identity, sys: System) {
    var k := id.checks;
    && EntriesGood(k, sys.store.entries)
    && (forall w :: w in sys.live ==> Continues(sys.store.entries, w, sys.live[w]))
    && CheckpointsGood(k, sys.store.checkpoints)
    && TipsHeld(multiset(sys.store.entries), multiset(sys.store.checkpoints))
  }

  ghost predicate StoreAccepted(id: Identity, store: Store) {
    Accepted(id.checks, multiset(store.entries), multiset(store.checkpoints))
  }

  ghost predicate CheckpointsSigned(id: Identity, cps: seq<AuditCheckpoint>) {
    forall cp :: cp in cps ==> CheckpointSigned(id.checks, cp)
  }

  /** Under the invariant only two things are left to chance. */
  lemma AcceptedIff(id: Identity, sys: System)
    requires Inv(id, sys)
    ensures StoreAccepted(id, sys.store) <==>
            IsLinked(EntryView(), multiset(sys.store.entries)) && CheckpointsSigned(id, sys.store.checkpoints)
  {
    EntriesIntactIff(id.checks, sys.store.entries);
    CheckpointsSoundFor(id.checks, sys.store.checkpoints);
    assert forall e :: e in multiset(sys.store.entries) <==> e in sys.store.entries;
    assert forall cp :: cp in multiset(sys.store.checkpoints) <==> cp in sys.store.checkpoints;
  }

  lemma EntriesIntactIff(k: Checks, entries: seq<AuditEntry>)
    requires EntriesGood(k, entries)
    ensures EntriesIntact(k, multiset(entries)) <==> IsLinked(EntryView(), multiset(entries))
  {
    assert forall e :: e in multiset(entries) <==> e in entries;
  }

  lemma CheckpointsSoundFor(k: Checks, cps: seq<AuditCheckpoint>)
    requires CheckpointsGood(k, cps)
    ensures CheckpointsSound(k, multiset(cps))
  {
    assert forall cp :: cp in multiset(cps) <==> cp in cps;
    StepsImplyLinked(CheckpointView(), cps);
  }

  // ---- Logging ----

  lemma LoggedEntry(id: Identity, w: string, chain: ChainState, event: Event)
    requires Signs(id) && EntrySignature(id, w, chain, event).Some?
    requires chain.sequence == 0 ==> chain.lastHash == ""
    ensures var (next, e) := Logged(id, w, chain, event, EntrySignature(id, w, chain, event).value);
            var k := id.checks;
            && EntryHashOk(k, e) && EntrySigned(k, e) && GenesisOk(e)
            && e.content.writer == w && e.content.sequence == chain.sequence && e.content.prevHash == chain.lastHash
            && next.sequence == chain.sequence + 1 && next.lastHash == e.contentHash
  {
  }

  lemma AppendKeepsGood(k: Checks, entries: seq<AuditEntry>, e: AuditEntry)
    requires EntriesGood(k, entries) && EntryHashOk(k, e) && EntrySigned(k, e) && GenesisOk(e)
    requires forall x :: x in entries && x.content.writer == e.content.writer ==> x.content.sequence < e.content.sequence
    ensures EntriesGood(k, entries + [e])
  {
  }

  lemma AppendKeepsTips(entries: seq<AuditEntry>, e: AuditEntry, cs: multiset<AuditCheckpoint>)
    requires TipsHeld(multiset(entries), cs)
    ensures TipsHeld(multiset(entries + [e]), cs)
  {
    forall cp, t | cp in cs && t in cp.content.tips
      ensures TipHeld(multiset(entries + [e]), t)
    {
      assert TipHeld(multiset(entries), t);
      var x :| x in multiset(entries) && x.content.writer == t.writer && x.content.sequence == t.seqNo && x.contentHash == t.contentHash;
      assert x in multiset(entries + [e]);
    }
  }

  lemma OthersContinue(entries: seq<AuditEntry>, e: AuditEntry, w: string, chain: ChainState)
    requires Continues(entries, w, chain) && e.content.writer != w
    ensures Continues(entries + [e], w, chain)
  {
  }

  lemma LogStep(id: Identity, sys: System, w: string, event: Event, stored: bool)
    requires Signs(id) && Inv(id, sys) && w in sys.live
    requires EntrySignature(id, w, sys.live[w], event).Some?
    ensures Inv(id, AfterLog(id, sys, w, event, stored))
  {
    var (chain, e) := Logged(id, w, sys.live[w], event, EntrySignature(id, w, sys.live[w], event).value);
    var k, entries := id.checks, sys.store.entries;
    assert Continues(entries, w, sys.live[w]);
    LoggedEntry(id, w, sys.live[w], event);
    var next := AfterLog(id, sys, w, event, stored);
    if stored {
      AppendKeepsGood(k, entries, e);
      AppendKeepsTips(entries, e, multiset(sys.store.checkpoints));
    }
    forall u | u in next.live
      ensures Continues(next.store.entries, u, next.live[u])
    {
      if u != w && stored {
        assert Continues(entries, u, sys.live[u]);
        OthersContinue(entries, e, u, sys.live[u]);
      }
    }
  }

  /** The next entry links to a stored one exactly when the chain is one past the newest stored entry. */
  lemma LinksToTip(entries: seq<AuditEntry>, w: string, chain: ChainState, e: AuditEntry)
    requires Continues(entries, w, chain)
    requires e.content.writer == w && e.content.sequence == chain.sequence && e.content.prevHash == chain.lastHash
    requires WriterTipOf(entries, w).Some?
    ensures WriterTipOf(entries, w).value in multiset(entries) && WriterTipOf(entries, w).value.content.writer == w
    ensures HasPrevious(EntryView(), multiset(entries), e) <==> WriterTipOf(entries, w).value.content.sequence + 1 == chain.sequence
  {
    var v, es, tip := EntryView(), multiset(entries), WriterTipOf(entries, w).value;
    WriterTipIsNewest(entries, w);
    if HasPrevious(v, es, e) {
      var p :| p in es && v.chain(p) == v.chain(e) && v.number(p) + 1 == v.number(e) && v.hash(p) == v.link(e);
      assert p in entries && p.content.sequence <= tip.content.sequence;
    }
    if tip.content.sequence + 1 == chain.sequence {
      assert tip in es && v.chain(tip) == v.chain(e) && v.number(tip) + 1 == v.number(e) && v.hash(tip) == v.link(e);
    }
  }

  /** A stored append keeps the entries linked unless it tears. */
  lemma AppendLinks(id: Identity, sys: System, step: Step)
    requires Signs(id) && Inv(id, sys) && step.Log? && step.stored && step.writer in sys.live
    requires EntrySignature(id, step.writer, sys.live[step.writer], step.event).Some?
    ensures IsLinked(EntryView(), multiset(Next(id, sys, step).store.entries)) <==>
            IsLinked(EntryView(), multiset(sys.store.entries)) && !Tears(id, sys, step)
  {
    var w, entries := step.writer, sys.store.entries;
    var chain := sys.live[w];
    var (_, e) := Logged(id, w, chain, step.event, EntrySignature(id, w, chain, step.event).value);
    assert Continues(entries, w, chain);
    LoggedEntry(id, w, chain, step.event);
    EntryLinks(entries, w, chain, e);
    assert Next(id, sys, step).store.entries == entries + [e];
  }

  lemma EntryLinks(entries: seq<AuditEntry>, w: string, chain: ChainState, e: AuditEntry)
    requires Continues(entries, w, chain)
    requires e.content.writer == w && e.content.sequence == chain.sequence && e.content.prevHash == chain.lastHash
    ensures IsLinked(EntryView(), multiset(entries + [e])) <==>
            && IsLinked(EntryView(), multiset(entries))
            && (WriterTipOf(entries, w).Some? ==> WriterTipOf(entries, w).value.content.sequence + 1 == chain.sequence)
  {
    var v, es := EntryView(), multiset(entries);
    assert forall x :: x in es <==> x in entries;
    LinkedAppend(v, es, e);
    assert multiset(entries + [e]) == es + multiset{e};
    WriterTipIsNewest(entries, w);
    if WriterTipOf(entries, w).Some? {
      LinksToTip(entries, w, chain, e);
      assert v.chain(WriterTipOf(entries, w).value) == v.chain(e);
    }
  }

  // ---- Checkpoints ----

  lemma NextCheckpointGood(id: Identity, store: Store, at: Moment)
    requires Signs(id)
    ensures var cp := NextCheckpoint(id, store, AllTips(store.entries), at);
            var k := id.checks;
            && CheckpointHashOk(k, cp) && CheckpointRootOk(k, cp)
            && multiset(cp.content.tips) == multiset(AllTips(store.entries))
            && (if store.checkpoints == [] then cp.content.seqNo == 0
                else Follows(CheckpointView(), store.checkpoints[|store.checkpoints| - 1], cp))
            && (CheckpointSigned(k, cp) <==> id.sign(cp.contentHash, at.nonce).Some?)
  {
  }

  lemma CommitStep(id: Identity, sys: System, at: Moment)
    requires Signs(id) && Inv(id, sys)
    ensures Inv(id, sys.(store := Committed(id, sys.store, at)))
    ensures Committed(id, sys.store, at).entries == sys.store.entries
    ensures CheckpointsSigned(id, Committed(id, sys.store, at).checkpoints) <==>
            CheckpointsSigned(id, sys.store.checkpoints) && !CommitsUnsigned(id, sys.store, at)
  {
    var entries, cps := sys.store.entries, sys.store.checkpoints;
    AllTipsAreNewest(entries);
    if entries != [] {
      var cp := NextCheckpoint(id, sys.store, AllTips(entries), at);
      NextCheckpointGood(id, sys.store, at);
      SameMembers(cp.content.tips, AllTips(entries));
      CommitKeepsGood(id.checks, cps, cp);
      CommitKeepsTips(multiset(entries), cps, cp);
      assert forall x :: x in cps + [cp] <==> x in cps || x == cp;
    }
  }

  lemma CommitKeepsGood(k: Checks, cps: seq<AuditCheckpoint>, cp: AuditCheckpoint)
    requires CheckpointsGood(k, cps) && CheckpointHashOk(k, cp) && CheckpointRootOk(k, cp)
    requires if cps == [] then cp.content.seqNo == 0 else Follows(CheckpointView(), cps[|cps| - 1], cp)
    ensures CheckpointsGood(k, cps + [cp])
  {
    var more := cps + [cp];
    forall i | 0 < i < |more|
      ensures Follows(CheckpointView(), more[i - 1], more[i])
    {
      if i < |cps| {
        assert Follows(CheckpointView(), cps[i - 1], cps[i]);
      }
    }
  }

  lemma CommitKeepsTips(es: multiset<AuditEntry>, cps: seq<AuditCheckpoint>, cp: AuditCheckpoint)
    requires TipsHeld(es, multiset(cps)) && forall t :: t in cp.content.tips ==> TipHeld(es, t)
    ensures TipsHeld(es, multiset(cps + [cp]))
  {
    assert forall x :: x in multiset(cps + [cp]) <==> x in multiset(cps) || x == cp;
  }

  // ---- Every step ----

  lemma StartStep(id: Identity, sys: System, w: string, n: nat)
    requires Inv(id, sys) && w !in sys.live
    ensures Inv(id, Next(id, sys, Start(w, n)))
  {
    var entries := sys.store.entries;
    WriterTipIsNewest(entries, w);
    var chain := Opened(entries, w, n);
    forall e | e in entries && e.content.writer == w && e.content.sequence + 1 == chain.sequence
      ensures e.contentHash == chain.lastHash
    {
      assert SamePlace(e, WriterTipOf(entries, w).value);
    }
  }

  /** The step keeps the invariant, and the store stays verifiable exactly if the step neither
      tears a chain nor leaves a checkpoint unsigned; what is spoiled stays spoiled. */
  ghost predicate Judged(id: Identity, sys: System, step: Step) {
    && Inv(id, Next(id, sys, step))
    && (StoreAccepted(id, Next(id, sys, step).store) <==>
        StoreAccepted(id, sys.store) && !Tears(id, sys, step) && !LeavesUnsigned(id, sys, step))
  }

  lemma StepVerdict(id: Identity, sys: System, step: Step)
    requires Signs(id) && Inv(id, sys)
    ensures Judged(id, sys, step)
  {
    hide Inv;
    hide StoreAccepted;
    hide AfterLog;
    hide Committed;
    match step {
      case Start(w, n) =>
        if w !in sys.live {
          StartStep(id, sys, w, n);
        }
      case Crash(w) =>
        CrashStep(id, sys, w);
      case Log(w, event, stored) =>
        if w in sys.live && EntrySignature(id, w, sys.live[w], event).Some? {
          LogVerdict(id, sys, step);
        } else {
          IdleStep(id, sys, step);
        }
      case Checkpoint(w, at) =>
        if w in sys.live {
          CheckpointVerdict(id, sys, step);
        }
      case Shutdown(w, at) =>
        if w in sys.live {
          ShutdownVerdict(id, sys, step);
        }
    }
  }

  lemma IdleStep(id: Identity, sys: System, step: Step)
    requires step.Log? && !(step.writer in sys.live && EntrySignature(id, step.writer, sys.live[step.writer], step.event).Some?)
    ensures Next(id, sys, step) == sys && !Tears(id, sys, step) && !LeavesUnsigned(id, sys, step)
  {
  }

  lemma CrashStep(id: Identity, sys: System, w: string)
    requires Inv(id, sys)
    ensures Inv(id, sys.(live := sys.live - {w}))
  {
  }

  lemma LogVerdict(id: Identity, sys: System, step: Step)
    requires Signs(id) && Inv(id, sys) && step.Log? && step.writer in sys.live
    requires EntrySignature(id, step.writer, sys.live[step.writer], step.event).Some?
    ensures Judged(id, sys, step)
  {
    hide Inv;
    hide StoreAccepted;
    LogStep(id, sys, step.writer, step.event, step.stored);
    AcceptedIff(id, sys);
    AcceptedIff(id, Next(id, sys, step));
    if step.stored {
      AppendLinks(id, sys, step);
    }
  }

  lemma CommitVerdict(id: Identity, sys: System, at: Moment)
    requires Signs(id) && Inv(id, sys)
    ensures Inv(id, sys.(store := Committed(id, sys.store, at)))
    ensures StoreAccepted(id, Committed(id, sys.store, at)) <==>
            StoreAccepted(id, sys.store) && !CommitsUnsigned(id, sys.store, at)
  {
    CommitStep(id, sys, at);
    AcceptedIff(id, sys);
    AcceptedIff(id, sys.(store := Committed(id, sys.store, at)));
  }

  lemma CheckpointVerdict(id: Identity, sys: System, step: Step)
    requires Signs(id) && Inv(id, sys) && step.Checkpoint? && step.writer in sys.live
    ensures Judged(id, sys, step)
  {
    CommitVerdict(id, sys, step.at);
  }

  lemma ShutdownVerdict(id: Identity, sys: System, step: Step)
    requires Signs(id) && Inv(id, sys) && step.Shutdown? && step.writer in sys.live
    ensures Judged(id, sys, step)
  {
    hide Inv;
    hide StoreAccepted;
    hide Committed;
    hide CommitsUnsigned;
    CommitVerdict(id, sys, step.at);
    CrashStep(id, sys.(store := Committed(id, sys.store, step.at)), step.writer);
  }

  // ---- Every run ----

  lemma EmptyAccepted(id: Identity)
    ensures Inv(id, EMPTY) && StoreAccepted(id, EMPTY.store)
  {
    AcceptedIff(id, EMPTY);
  }

  /** In every reachable state of any interleaving, the verifier accepts the full store if and
      only if no step tore a chain and none left a checkpoint unsigned. */
  lemma {:induction false} RunVerdict(id: Identity, steps: seq<Step>)
    requires Signs(id)
    ensures Inv(id, Exec(id, steps))
    ensures StoreAccepted(id, Exec(id, steps).store) <==> CleanRun(id, steps)
  {
    if steps == [] {
      EmptyAccepted(id);
    } else {
      var n := |steps| - 1;
      var front := steps[..n];
      RunVerdict(id, front);
      StepVerdict(id, Exec(id, front), steps[n]);
      CleanPrefix(id, steps);
    }
  }

  lemma CleanPrefix(id: Identity, steps: seq<Step>)
    requires steps != []
    ensures CleanRun(id, steps) <==> CleanRun(id, steps[..|steps| - 1]) && CleanAt(id, steps, |steps| - 1)
  {
    var n := |steps| - 1;
    var front := steps[..n];
    forall i | 0 <= i < n
      ensures CleanAt(id, front, i) <==> CleanAt(id, steps, i)
    {
      assert front[..i] == steps[..i];
    }
  }

  // ---- Both spoilers occur ----

  lemma ExecOne(id: Identity, steps: seq<Step>, step: Step)
    ensures Exec(id, steps + [step]) == Next(id, Exec(id, steps), step)
  {
    assert (steps + [step])[..|steps|] == steps;
  }

  lemma LogsOn(id: Identity, sys: System, w: string, event: Event, stored: bool)
    requires w in sys.live && EntrySignature(id, w, sys.live[w], event).Some?
    ensures var r := Next(id, sys, Log(w, event, stored));
            && w in r.live && r.live[w].sequence == sys.live[w].sequence + 1
            && |r.store.entries| == |sys.store.entries| + (if stored then 1 else 0)
            && (stored ==> var e := r.store.entries[|sys.store.entries|]; e.content.writer == w && e.content.sequence == sys.live[w].sequence)
            && (!stored ==> r.store == sys.store)
  {
  }

  /** A replica that started on an empty store and logged once. */
  ghost predicate LoggedOnce(sys: System, w: string) {
    && w in sys.live && sys.live[w].sequence == 1 && sys.store.checkpoints == []
    && |sys.store.entries| == 1 && sys.store.entries[0].content.writer == w && sys.store.entries[0].content.sequence == 0
  }

  lemma FirstTwo(id: Identity, w: string, event: Event)
    requires event.at.nonce == 0 && forall h :: id.sign(h, 0).Some?
    ensures Exec(id, [Start(w, 1)]).store == EMPTY.store
    ensures LoggedOnce(Exec(id, [Start(w, 1), Log(w, event, true)]), w)
  {
    ExecOne(id, [], Start(w, 1));
    ExecOne(id, [Start(w, 1)], Log(w, event, true));
    assert [] + [Start(w, 1)] == [Start(w, 1)] && [Start(w, 1)] + [Log(w, event, true)] == [Start(w, 1), Log(w, event, true)];
    LogsOn(id, Exec(id, [Start(w, 1)]), w, event, true);
  }

  lemma TearsAfterLoss(id: Identity, sys: System, w: string, event: Event)
    requires event.at.nonce == 0 && (forall h :: id.sign(h, 0).Some?) && LoggedOnce(sys, w)
    ensures Tears(id, Next(id, sys, Log(w, event, false)), Log(w, event, true))
  {
    LogsOn(id, sys, w, event, false);
    assert sys.store.entries[..0] == [];
  }

  /** A replica that logs, loses an append and logs again leaves a store that is not accepted. */
  lemma TornRunRejected(id: Identity, w: string, event: Event)
    requires Signs(id) && event.at.nonce == 0 && forall h :: id.sign(h, 0).Some?
    ensures !StoreAccepted(id, Exec(id, [Start(w, 1), Log(w, event, true), Log(w, event, false), Log(w, event, true)]).store)
  {
    var two, lost, again := [Start(w, 1), Log(w, event, true)], Log(w, event, false), Log(w, event, true);
    var steps := [Start(w, 1), Log(w, event, true), Log(w, event, false), Log(w, event, true)];
    FirstTwo(id, w, event);
    ExecOne(id, two, lost);
    TearsAfterLoss(id, Exec(id, two), w, event);
    SpoiledAt(id, two + [lost], again, steps);
  }

  /** A run that a step spoils at its end is not accepted. */
  lemma SpoiledAt(id: Identity, before: seq<Step>, step: Step, steps: seq<Step>)
    requires Signs(id) && steps == before + [step]
    requires Tears(id, Exec(id, before), step) || LeavesUnsigned(id, Exec(id, before), step)
    ensures !StoreAccepted(id, Exec(id, steps).store)
  {
    assert steps[..|before|] == before;
    assert !CleanAt(id, steps, |before|);
    RunVerdict(id, steps);
  }

  /** A checkpoint whose signing fails is committed all the same, and the store is not accepted. */
  lemma UnsignedRunRejected(id: Identity, w: string, event: Event, at: Moment)
    requires Signs(id) && event.at.nonce == 0 && at.nonce == 1 && forall h :: id.sign(h, 0).Some? && id.sign(h, 1).None?
    ensures !StoreAccepted(id, Exec(id, [Start(w, 1), Log(w, event, true), Checkpoint(w, at)]).store)
  {
    FirstTwo(id, w, event);
    SpoiledAt(id, [Start(w, 1), Log(w, event, true)], Checkpoint(w, at), [Start(w, 1), Log(w, event, true), Checkpoint(w, at)]);
  }

  lemma CommitsOne(id: Identity, store: Store, at: Moment)
    requires store.entries != []
    ensures |Committed(id, store, at).checkpoints| == |store.checkpoints| + 1 && Committed(id, store, at).entries == store.entries
  {
    WritersHaveTips(store.entries);
    assert store.entries[0] in store.entries;
  }

  /** The same run with a good signature is accepted. */
  lemma SignedRunAccepted(id: Identity, w: string, event: Event, at: Moment)
    requires Signs(id) && event.at.nonce == 0 && at.nonce == 0 && forall h :: id.sign(h, 0).Some?
    ensures var store := Exec(id, [Start(w, 1), Log(w, event, true), Checkpoint(w, at)]).store;
            StoreAccepted(id, store) && |store.entries| == 1 && |store.checkpoints| == 1
  {
    var two, last := [Start(w, 1), Log(w, event, true)], Checkpoint(w, at);
    assert two + [last] == [Start(w, 1), Log(w, event, true), Checkpoint(w, at)];
    FirstTwo(id, w, event);
    ExecOne(id, two, last);
    CommitsOne(id, Exec(id, two).store, at);
    SignedRunClean(id, w, event, at);
    RunVerdict(id, two + [last]);
  }

  lemma SignedRunClean(id: Identity, w: string, event: Event, at: Moment)
    requires event.at.nonce == 0 && at.nonce == 0 && forall h :: id.sign(h, 0).Some?
    ensures CleanRun(id, [Start(w, 1), Log(w, event, true), Checkpoint(w, at)])
  {
    var steps := [Start(w, 1), Log(w, event, true), Checkpoint(w, at)];
    FirstTwo(id, w, event);
    assert steps[..0] == [] && steps[..1] == [Start(w, 1)] && steps[..2] == [Start(w, 1), Log(w, event, true)];
    assert CleanAt(id, steps, 0);
    assert CleanAt(id, steps, 1);
    assert CleanAt(id, steps, 2);
  }
}
