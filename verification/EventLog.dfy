/** What a run leaves in the store, told from its steps alone: the events that were logged, when the
    checkpoints were taken, and where the Merkle roots stand. */
module EventLog {
  import opened ByteStrings
  import opened Json
  import opened Sorting
  import opened AuditLog
  import opened Options
  import opened AuditChain
  import opened Findings
  import opened Protocol
  import Merkle

  /** What somebody wanted logged: who logged it, and the event. */
  datatype Record = Record(writer: string, uuid: string, timestamp: string, session: string, body: Value)

  function RecordOf(e: AuditEntry): (r: Record) {
    Record(e.content.writer, e.content.id, e.content.timestamp, e.content.session, e.content.event)
  }

  /** The content hash of an event logged at a place of a chain. */
  function HashAt(id: Identity, w: string, chain: ChainState, event: Event): (r: string) {
    id.checks.entryHash(EntryContent(event.uuid, event.at.timestamp, w, chain.sequence, event.session, event.body, chain.lastHash))
  }

  /** The step logs an event: its replica runs, and the entry could be signed. */
  ghost predicate Logs(id: Identity, sys: System, step: Step) {
    && step.Log? && step.writer in sys.live
    && id.sign(HashAt(id, step.writer, sys.live[step.writer], step.event), step.event.at.nonce).Some?
  }

  /** The events whose entry could be signed and was stored, in order. */
  ghost function Events(id: Identity, steps: seq<Step>): (r: seq<Record>) {
    if steps == [] then []
    else
      var front, last := steps[..|steps| - 1], steps[|steps| - 1];
      if Logs(id, Exec(id, front), last) && last.stored
      then Events(id, front) + [Record(last.writer, last.event.uuid, last.event.at.timestamp, last.event.session, last.event.body)]
      else Events(id, front)
  }

  /** What one step does to the stored entries. */
  lemma StepStores(id: Identity, sys: System, step: Step)
    ensures var r := Next(id, sys, step).store.entries;
            if Logs(id, sys, step) && step.stored
            then |r| == |sys.store.entries| + 1 && r == sys.store.entries + [r[|sys.store.entries|]]
                 && RecordOf(r[|sys.store.entries|]) == Record(step.writer, step.event.uuid, step.event.at.timestamp, step.event.session, step.event.body)
                 && r[|sys.store.entries|].content.sequence == sys.live[step.writer].sequence
                 && r[|sys.store.entries|].contentHash == HashAt(id, step.writer, sys.live[step.writer], step.event)
            else r == sys.store.entries
  {
  }

  /** In every run the stored entries hold exactly the logged events, in order. */
  lemma {:induction false} StoreHoldsEvents(id: Identity, steps: seq<Step>)
    ensures Map(Exec(id, steps).store.entries, RecordOf) == Events(id, steps)
    decreases |steps|
  {
    hide Next;
    if steps != [] {
      var front, last := steps[..|steps| - 1], steps[|steps| - 1];
      StoreHoldsEvents(id, front);
      StepStores(id, Exec(id, front), last);
    }
  }

  // ---- Each writer's events by number ----

  ghost function EventsOf(id: Identity, steps: seq<Step>, w: string): (r: seq<Record>) {
    Filter(Events(id, steps), (x: Record) => x.writer == w)
  }

  lemma {:induction false} FilterRecords(entries: seq<AuditEntry>, w: string)
    ensures Map(Filter(entries, OfWriter(w)), RecordOf) == Filter(Map(entries, RecordOf), (x: Record) => x.writer == w)
    decreases |entries|
  {
    if entries != [] {
      FilterRecords(entries[1..], w);
      assert Map(entries, RecordOf)[1..] == Map(entries[1..], RecordOf);
    }
  }

  /** The writer's stored entries are numbered from 0, and its running chain goes on from there. */
  ghost predicate NumberedFrom0(sys: System, w: string) {
    var own := Filter(sys.store.entries, OfWriter(w));
    && (forall i :: 0 <= i < |own| ==> own[i].content.sequence == i)
    && (w in sys.live ==> sys.live[w].sequence == |own|)
  }

  lemma OpenedAtEnd(entries: seq<AuditEntry>, w: string, batchSize: nat)
    requires var own := Filter(entries, OfWriter(w)); forall i :: 0 <= i < |own| ==> own[i].content.sequence == i
    ensures Opened(entries, w, batchSize).sequence == |Filter(entries, OfWriter(w))|
  {
    var own, tip := Filter(entries, OfWriter(w)), WriterTipOf(entries, w);
    WriterTipIsNewest(entries, w);
    FilterMembers(entries, OfWriter(w));
    if own != [] {
      var newest := own[|own| - 1];
      assert newest in own && newest in entries;
      assert tip.Some? && tip.value in own;
    }
    assert tip.Some? ==> tip.value in own;
  }

  lemma StepNumbers(id: Identity, sys: System, step: Step, w: string)
    requires NumberedFrom0(sys, w) && (step.Log? ==> step.stored)
    ensures NumberedFrom0(Next(id, sys, step), w)
  {
    match step {
      case Start(u, n) => OpenedAtEnd(sys.store.entries, w, n);
      case Log(u, event, stored) => LogNumbers(id, sys, step, w);
      case Checkpoint(_, _) =>
      case Shutdown(_, _) =>
      case Crash(_) =>
    }
  }

  lemma LogNumbers(id: Identity, sys: System, step: Step, w: string)
    requires NumberedFrom0(sys, w) && step.Log? && step.stored
    ensures NumberedFrom0(Next(id, sys, step), w)
  {
    StepStores(id, sys, step);
    if Logs(id, sys, step) {
      var e := Next(id, sys, step).store.entries[|sys.store.entries|];
      FilterAppend(sys.store.entries, [e], OfWriter(w));
    }
  }

  lemma {:induction false} LosslessNumbered(id: Identity, steps: seq<Step>, w: string)
    requires forall i :: 0 <= i < |steps| && steps[i].Log? ==> steps[i].stored
    ensures NumberedFrom0(Exec(id, steps), w)
    decreases |steps|
  {
    if steps != [] {
      hide Next;
      LosslessNumbered(id, steps[..|steps| - 1], w);
      StepNumbers(id, Exec(id, steps[..|steps| - 1]), steps[|steps| - 1], w);
    }
  }

  /** Without lost appends a stored entry number `s` of a writer holds that writer's event number `s`. */
  lemma NumberIsPlace(id: Identity, steps: seq<Step>, x: AuditEntry)
    requires (forall i :: 0 <= i < |steps| && steps[i].Log? ==> steps[i].stored) && x in Exec(id, steps).store.entries
    ensures x.content.sequence < |EventsOf(id, steps, x.content.writer)|
    ensures EventsOf(id, steps, x.content.writer)[x.content.sequence] == RecordOf(x)
  {
    var w, entries := x.content.writer, Exec(id, steps).store.entries;
    var own := Filter(entries, OfWriter(w));
    LosslessNumbered(id, steps, w);
    StoreHoldsEvents(id, steps);
    FilterRecords(entries, w);
    FilterMembers(entries, OfWriter(w));
    var i :| 0 <= i < |own| && own[i] == x;
    assert Map(own, RecordOf)[i] == RecordOf(x);
  }

  // ---- When checkpoints were taken ----

  /** The step takes a checkpoint: its replica runs, and there is something to commit. */
  ghost predicate Commits(sys: System, step: Step) {
    (step.Checkpoint? || step.Shutdown?) && step.writer in sys.live && sys.store.entries != []
  }

  ghost function CheckpointTimes(id: Identity, steps: seq<Step>): (r: seq<string>) {
    if steps == [] then []
    else
      var front, last := steps[..|steps| - 1], steps[|steps| - 1];
      CheckpointTimes(id, front) + if Commits(Exec(id, front), last) then [last.at.timestamp] else []
  }

  function TimeOf(cp: AuditCheckpoint): (t: string) {
    cp.content.timestamp
  }

  lemma StepCommits(id: Identity, sys: System, step: Step)
    ensures var r := Next(id, sys, step).store.checkpoints;
            if Commits(sys, step)
            then |r| == |sys.store.checkpoints| + 1 && r == sys.store.checkpoints + [r[|sys.store.checkpoints|]]
                 && r[|sys.store.checkpoints|].content.timestamp == step.at.timestamp
            else r == sys.store.checkpoints
  {
    if step.Checkpoint? || step.Shutdown? {
      CommitTimed(id, sys.store, step.at);
    }
    hide Committed;
    hide Logged;
    hide EntrySignature;
  }

  lemma CommitTimed(id: Identity, store: Store, at: Moment)
    ensures var r, n := Committed(id, store, at).checkpoints, |store.checkpoints|;
            if store.entries != []
            then |r| == n + 1 && r == store.checkpoints + [r[n]] && r[n].content.timestamp == at.timestamp
            else r == store.checkpoints
  {
    AllTipsAreNewest(store.entries);
    hide AllTips;
  }

  /** In every run the checkpoints carry, in order, the times of the steps that took them. */
  lemma {:induction false} CheckpointsTimed(id: Identity, steps: seq<Step>)
    ensures Map(Exec(id, steps).store.checkpoints, TimeOf) == CheckpointTimes(id, steps)
    decreases |steps|
  {
    hide Next;
    if steps != [] {
      var front, last := steps[..|steps| - 1], steps[|steps| - 1];
      CheckpointsTimed(id, front);
      StepCommits(id, Exec(id, front), last);
    }
  }

  /** The tip is a stored entry of its writer, and no stored entry of that writer is newer. */
  ghost predicate IsNewest(entries: seq<AuditEntry>, t: WriterTip) {
    && (exists e :: e in entries && e.content.writer == t.writer && e.content.sequence == t.seqNo && e.contentHash == t.contentHash)
    && (forall e :: e in entries && e.content.writer == t.writer ==> e.content.sequence <= t.seqNo)
  }

  /** One tip for each writer that has an entry, its newest, by ascending writer. */
  ghost predicate ListsNewest(entries: seq<AuditEntry>, tips: seq<WriterTip>) {
    && (forall t :: t in tips ==> IsNewest(entries, t))
    && (forall e :: e in entries ==> exists t :: t in tips && t.writer == e.content.writer)
    && (forall i, j :: 0 <= i < j < |tips| ==> tips[i].writer != tips[j].writer && LexLe(tips[i].writer, tips[j].writer))
  }

  lemma {:induction false} WritersDistinct(entries: seq<AuditEntry>)
    ensures Distinct(Writers(entries))
    decreases |entries|
  {
    if entries != [] {
      WritersDistinct(entries[..|entries| - 1]);
    }
  }

  function WriterOf(t: WriterTip): (w: string) {
    t.writer
  }

  lemma TipWriters(entries: seq<AuditEntry>)
    ensures Distinct(Map(AllTips(entries), WriterOf))
  {
    var tips, order := AllTips(entries), SortBy(Writers(entries), LexLe);
    TipMapIsNewest(entries);
    forall i | 0 <= i < |order|
      ensures tips[i].writer == order[i]
    {
      AllTipsByKey(entries, order, i);
    }
    assert Map(tips, WriterOf) == order;
    WritersDistinct(entries);
    DistinctPermutation(Writers(entries), order);
  }

  lemma TipsNewest(entries: seq<AuditEntry>, t: WriterTip)
    requires t in AllTips(entries)
    ensures IsNewest(entries, t)
  {
    var tips, order, m := AllTips(entries), SortBy(Writers(entries), LexLe), TipMap(entries);
    TipMapIsNewest(entries);
    var i :| 0 <= i < |tips| && tips[i] == t;
    AllTipsByKey(entries, order, i);
    assert m[order[i]] in entries;
  }

  lemma SortedTips(entries: seq<AuditEntry>)
    ensures ListsNewest(entries, SortBy(AllTips(entries), TipLe()))
  {
    var tips := AllTips(entries);
    var sorted := SortBy(tips, TipLe());
    SameMembers(tips, sorted);
    forall t | t in sorted
      ensures IsNewest(entries, t)
    {
      TipsNewest(entries, t);
    }
    AllTipsAreNewest(entries);
    TipWriters(entries);
    MapPermutation(tips, sorted, WriterOf);
    DistinctPermutation(Map(tips, WriterOf), Map(sorted, WriterOf));
    TipOrder();
    SortBySorted(tips, TipLe());
    var writers := Map(sorted, WriterOf);
    forall i, j | 0 <= i < j < |sorted|
      ensures sorted[i].writer != sorted[j].writer && LexLe(sorted[i].writer, sorted[j].writer)
    {
      assert writers[i] != writers[j] && TipLe()(sorted[i], sorted[j]);
    }
  }

  /** In every run a checkpoint lists exactly the newest entry of each writer stored when it was taken,
      and continues the newest checkpoint by number and hash. */
  lemma CheckpointListsNewest(id: Identity, steps: seq<Step>, step: Step)
    requires Commits(Exec(id, steps), step)
    ensures var store, cps := Exec(id, steps).store, Exec(id, steps + [step]).store.checkpoints;
            var n := |store.checkpoints|;
            && |cps| == n + 1 && cps[..n] == store.checkpoints && ListsNewest(store.entries, cps[n].content.tips)
            && (n == 0 ==> cps[n].content.seqNo == 0 && cps[n].content.prevHash == "")
            && (n > 0 ==> cps[n].content.seqNo == cps[n - 1].content.seqNo + 1 && cps[n].content.prevHash == cps[n - 1].contentHash)
  {
    hide ListsNewest;
    ExecOne(id, steps, step);
    var sys := Exec(id, steps);
    hide Exec;
    CommitLists(id, sys.store, step.at);
  }

  lemma CommitLists(id: Identity, store: Store, at: Moment)
    requires store.entries != []
    ensures var cps, n := Committed(id, store, at).checkpoints, |store.checkpoints|;
            && |cps| == n + 1 && cps[..n] == store.checkpoints && ListsNewest(store.entries, cps[n].content.tips)
            && (n == 0 ==> cps[n].content.seqNo == 0 && cps[n].content.prevHash == "")
            && (n > 0 ==> cps[n].content.seqNo == cps[n - 1].content.seqNo + 1 && cps[n].content.prevHash == cps[n - 1].contentHash)
  {
    hide ListsNewest;
    AllTipsAreNewest(store.entries);
    SortedTips(store.entries);
  }

  // ---- Where the Merkle roots stand ----

  /** The content hashes a running replica built since it started. */
  ghost function SessionHashes(id: Identity, steps: seq<Step>, w: string): (r: seq<string>) {
    if steps == [] then []
    else
      var front, last := steps[..|steps| - 1], steps[|steps| - 1];
      var sys := Exec(id, front);
      if last.writer != w then SessionHashes(id, front, w)
      else if w !in sys.live then []
      else if Logs(id, sys, last) then SessionHashes(id, front, w) + [HashAt(id, w, sys.live[w], last.event)]
      else SessionHashes(id, front, w)
  }

  /** The batch size it was started with. */
  ghost function SessionBatch(id: Identity, steps: seq<Step>, w: string): (n: nat) {
    if steps == [] then 0
    else
      var front, last := steps[..|steps| - 1], steps[|steps| - 1];
      if last.Start? && last.writer == w && w !in Exec(id, front).live then last.batchSize else SessionBatch(id, front, w)
  }

  /** A chain that started empty, with a batch size, and went over some hashes. */
  ghost predicate WentOver(h: Hash, chain: ChainState, batchSize: nat, hashes: seq<string>) {
    exists start: ChainState :: start.batch == [] && start.batchSize == batchSize && chain == AfterAll(h, start, hashes)
  }

  lemma WentOneFurther(h: Hash, chain: ChainState, batchSize: nat, hashes: seq<string>, hash: string)
    requires WentOver(h, chain, batchSize, hashes)
    ensures WentOver(h, Advanced(h, chain, hash).0, batchSize, hashes + [hash])
  {
    var start: ChainState :| start.batch == [] && start.batchSize == batchSize && chain == AfterAll(h, start, hashes);
    var more := hashes + [hash];
    assert more[..|more| - 1] == hashes;
    assert Advanced(h, chain, hash).0 == AfterAll(h, start, more);
  }

  lemma OpenedEmpty(h: Hash, entries: seq<AuditEntry>, w: string, n: nat)
    ensures WentOver(h, Opened(entries, w, n), n, [])
  {
    assert Opened(entries, w, n) == AfterAll(h, Opened(entries, w, n), []);
  }

  /** What one step does to a running chain. */
  lemma StepAdvances(id: Identity, sys: System, step: Step, w: string)
    ensures var r := Next(id, sys, step).live;
            && (step.writer != w ==> (w in r <==> w in sys.live) && (w in r ==> r[w] == sys.live[w]))
            && (step.writer == w && w !in sys.live ==> (w in r <==> step.Start?) && (w in r ==> r[w] == Opened(sys.store.entries, w, step.batchSize)))
            && (step.writer == w && w in sys.live ==>
                  (w in r <==> !step.Shutdown? && !step.Crash?)
                  && (w in r ==> r[w] == if Logs(id, sys, step) then Advanced(id.sha3, sys.live[w], HashAt(id, w, sys.live[w], step.event)).0 else sys.live[w]))
  {
  }

  lemma {:induction false} SessionChain(id: Identity, steps: seq<Step>, w: string)
    requires w in Exec(id, steps).live
    ensures WentOver(id.sha3, Exec(id, steps).live[w], SessionBatch(id, steps, w), SessionHashes(id, steps, w))
    decreases |steps|
  {
    hide Next;
    hide WentOver;
    var front, last := steps[..|steps| - 1], steps[|steps| - 1];
    var sys := Exec(id, front);
    StepAdvances(id, sys, last, w);
    if w in sys.live {
      SessionChain(id, front, w);
      if last.writer == w && Logs(id, sys, last) {
        WentOneFurther(id.sha3, sys.live[w], SessionBatch(id, front, w), SessionHashes(id, front, w), HashAt(id, w, sys.live[w], last.event));
      }
    } else {
      OpenedEmpty(id.sha3, sys.store.entries, w, last.batchSize);
    }
  }

  /** In every run: a stored entry carries a root exactly when its number since its replica started is a
      multiple of the batch size given then (0 acts as 1), and it is the root of the last batch of hashes. */
  lemma StoredRoots(id: Identity, steps: seq<Step>, step: Step)
    requires Logs(id, Exec(id, steps), step) && step.stored
    ensures var w, n := step.writer, |Exec(id, steps).store.entries|;
            var hashes, m := SessionHashes(id, steps + [step], w), if SessionBatch(id, steps, w) == 0 then 1 else SessionBatch(id, steps, w);
            var r := Exec(id, steps + [step]).store.entries;
            && |r| == n + 1 && hashes != [] && hashes[|hashes| - 1] == r[n].contentHash
            && RootedBy(id.sha3, r[n].merkleRoot, hashes, m)
  {
    hide Next;
    hide WentOver;
    hide Advanced;
    hide RootedBy;
    var w, sys := step.writer, Exec(id, steps);
    ExecOne(id, steps, step);
    StepStores(id, sys, step);
    StepRoot(id, sys, step);
    SessionChain(id, steps, w);
    SessionGrows(id, steps, step);
    hide SessionHashes;
    hide Exec;
    RootOfSession(id.sha3, sys.live[w], SessionBatch(id, steps, w), SessionHashes(id, steps, w), HashAt(id, w, sys.live[w], step.event));
  }

  lemma SessionGrows(id: Identity, steps: seq<Step>, step: Step)
    requires Logs(id, Exec(id, steps), step)
    ensures SessionHashes(id, steps + [step], step.writer)
         == SessionHashes(id, steps, step.writer) + [HashAt(id, step.writer, Exec(id, steps).live[step.writer], step.event)]
  {
    hide Next;
    assert (steps + [step])[..|steps|] == steps;
  }

  /** A root comes after every `m` hashes, and is that of the last `m`. */
  ghost predicate RootedBy(h: Hash, root: Option<string>, hashes: seq<string>, m: nat)
    requires m > 0
  {
    && (root.Some? <==> |hashes| % m == 0)
    && (root.Some? ==> m <= |hashes| && root.value == Hex(Merkle.Root(h, Leaves(h, hashes[|hashes| - m..]))))
  }

  /** The root that comes with one more hash. */
  lemma RootOfSession(h: Hash, chain: ChainState, batchSize: nat, before: seq<string>, hash: string)
    requires WentOver(h, chain, batchSize, before)
    ensures RootedBy(h, Advanced(h, chain, hash).1, before + [hash], if batchSize == 0 then 1 else batchSize)
  {
    var start: ChainState :| start.batch == [] && start.batchSize == batchSize && chain == AfterAll(h, start, before);
    var hashes := before + [hash];
    assert hashes[..|before|] == before;
    RootsCoverTheLog(h, start, hashes, |before|);
    if RootAt(h, start, hashes, |before|).Some? {
      var from := |hashes| - Period(batchSize);
      assert hashes[from..|before| + 1] == hashes[from..];
    }
  }

  lemma StepRoot(id: Identity, sys: System, step: Step)
    requires Logs(id, sys, step) && step.stored
    ensures var r := Next(id, sys, step).store.entries;
            |r| == |sys.store.entries| + 1
            && r[|sys.store.entries|].merkleRoot == Advanced(id.sha3, sys.live[step.writer], HashAt(id, step.writer, sys.live[step.writer], step.event)).1
  {
  }
}
