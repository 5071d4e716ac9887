/** Protocol and verifier together: what an honest run pins down about any log that is
    presented later and accepted. */
module TamperEvidence {
  import opened ByteStrings
  import opened AuditLog
  import opened Options
  import opened Linked
  import opened Findings
  import opened Verifier
  import opened Protocol
  import opened Agreement
  import opened EventLog

  // ---- Without lost appends the stored chains start at 0 and have no gap ----

  ghost predicate Lossless(steps: seq<Step>) {
    forall i :: 0 <= i < |steps| && steps[i].Log? ==> steps[i].stored
  }

  ghost predicate Holds(entries: seq<AuditEntry>, w: string, s: nat) {
    exists e :: e in entries && e.content.writer == w && e.content.sequence == s
  }

  ghost predicate HoldsBelow(entries: seq<AuditEntry>, w: string, n: nat) {
    forall s: nat :: s < n ==> Holds(entries, w, s)
  }

  ghost predicate Gapless(sys: System) {
    && (forall e :: e in sys.store.entries ==> HoldsBelow(sys.store.entries, e.content.writer, e.content.sequence + 1))
    && (forall w :: w in sys.live ==> HoldsBelow(sys.store.entries, w, sys.live[w].sequence))
  }

  lemma HoldsGrows(entries: seq<AuditEntry>, e: AuditEntry, w: string, n: nat)
    requires HoldsBelow(entries, w, n)
    ensures HoldsBelow(entries + [e], w, n)
  {
    forall s: nat | s < n
      ensures Holds(entries + [e], w, s)
    {
      assert Holds(entries, w, s);
      var x :| x in entries && x.content.writer == w && x.content.sequence == s;
      assert x in entries + [e];
    }
  }

  lemma HoldsNext(entries: seq<AuditEntry>, e: AuditEntry)
    requires HoldsBelow(entries, e.content.writer, e.content.sequence)
    ensures HoldsBelow(entries + [e], e.content.writer, e.content.sequence + 1)
  {
    HoldsGrows(entries, e, e.content.writer, e.content.sequence);
    assert e in entries + [e];
    assert Holds(entries + [e], e.content.writer, e.content.sequence);
  }

  lemma GaplessLog(id: Identity, sys: System, w: string, event: Event)
    requires Gapless(sys) && w in sys.live && EntrySignature(id, w, sys.live[w], event).Some?
    ensures Gapless(AfterLog(id, sys, w, event, true))
  {
    var (chain, e) := Logged(id, w, sys.live[w], event, EntrySignature(id, w, sys.live[w], event).value);
    var entries := sys.store.entries;
    var next := AfterLog(id, sys, w, event, true);
    assert next.store.entries == entries + [e];
    HoldsNext(entries, e);
    forall x | x in entries + [e]
      ensures HoldsBelow(entries + [e], x.content.writer, x.content.sequence + 1)
    {
      if x in entries {
        HoldsGrows(entries, e, x.content.writer, x.content.sequence + 1);
      }
    }
    forall u | u in next.live
      ensures HoldsBelow(entries + [e], u, next.live[u].sequence)
    {
      if u != w {
        HoldsGrows(entries, e, u, sys.live[u].sequence);
      }
    }
  }

  lemma GaplessStep(id: Identity, sys: System, step: Step)
    requires Gapless(sys) && (step.Log? ==> step.stored)
    ensures Gapless(Next(id, sys, step))
  {
    match step {
      case Start(w, n) => WriterTipIsNewest(sys.store.entries, w);
      case Log(w, event, stored) =>
        if w in sys.live && EntrySignature(id, w, sys.live[w], event).Some? {
          GaplessLog(id, sys, w, event);
        }
      case Checkpoint(_, _) =>
      case Shutdown(_, _) =>
      case Crash(_) =>
    }
  }

  lemma {:induction false} LosslessIsGapless(id: Identity, steps: seq<Step>)
    requires Lossless(steps)
    ensures Gapless(Exec(id, steps))
  {
    if steps != [] {
      LosslessIsGapless(id, steps[..|steps| - 1]);
      GaplessStep(id, Exec(id, steps[..|steps| - 1]), steps[|steps| - 1]);
    }
  }

  // ---- What a checkpoint of an honest run pins down ----

  function LogOf(c: Crypto, store: Store): (l: Agreement.Log) {
    Agreement.Log(c.check, multiset(store.entries), multiset(store.checkpoints))
  }

  /** The presented entry is the one the run stored at that place. */
  ghost predicate IsStored(entries: seq<AuditEntry>, y: AuditEntry) {
    exists x :: x in entries && x.content == y.content
  }

  lemma CheckpointNumbers(k: Checks, cps: seq<AuditCheckpoint>, i: nat)
    requires CheckpointsGood(k, cps) && i < |cps|
    ensures cps[i].content.seqNo == i
  {
    StepsCount(CheckpointView(), cps, i);
  }

  /** The store of a clean run is itself an accepted log. */
  lemma HonestLogAccepted(c: Crypto, sign: (string, nat) -> Option<string>, steps: seq<Step>)
    requires Signs(Gateway(c, sign)) && CleanRun(Gateway(c, sign), steps)
    ensures var store := Exec(Gateway(c, sign), steps).store;
            && LogAccepted(c.sha3, LogOf(c, store))
            && forall i :: 0 <= i < |store.checkpoints| ==> store.checkpoints[i].content.seqNo == i
  {
    var id := Gateway(c, sign);
    RunVerdict(id, steps);
    var store := Exec(id, steps).store;
    assert Crypto(c.sha3, c.check) == c;
    forall i | 0 <= i < |store.checkpoints|
      ensures store.checkpoints[i].content.seqNo == i
    {
      CheckpointNumbers(id.checks, store.checkpoints, i);
    }
  }

  /** Some entry of the log carries this content. */
  ghost predicate IsPresented(b: Agreement.Log, x: AuditEntry) {
    exists y :: y in b.entries && y.content == x.content
  }

  /** An entry of the tip's writer, at or below the tip. */
  predicate AtOrBelow(t: WriterTip, y: AuditEntry) {
    y.content.writer == t.writer && y.content.sequence <= t.seqNo
  }

  /** `low` is an entry of the same writer as `y`, at or below it. */
  predicate StartsBefore(low: AuditEntry, y: AuditEntry) {
    low.content.writer == y.content.writer && low.content.sequence <= y.content.sequence
  }

  /** Nothing is forged: from the writer's first stored entry up to the tip, what is presented was stored. */
  ghost predicate NothingForged(store: Store, b: Agreement.Log, t: WriterTip) {
    forall x, y :: x in store.entries && y in b.entries && AtOrBelow(t, y) && StartsBefore(x, y) ==> IsStored(store.entries, y)
  }

  /** Nothing is left out: from the writer's first presented entry up to the tip, what was stored is presented. */
  ghost predicate NothingDropped(store: Store, b: Agreement.Log, t: WriterTip) {
    forall x, y :: x in store.entries && y in b.entries && AtOrBelow(t, x) && StartsBefore(y, x) ==> IsPresented(b, x)
  }

  /** What an honest store pins down about a presented checkpoint `q` and the entries below its tips. */
  ghost predicate Pinned(store: Store, b: Agreement.Log, q: AuditCheckpoint) {
    && q.content.seqNo < |store.checkpoints|
    && q.content == store.checkpoints[q.content.seqNo].content
    && (forall t :: t in q.content.tips ==> TipHeld(b.entries, t) && NothingForged(store, b, t) && NothingDropped(store, b, t))
  }

  /** A linked log that holds a tip and an entry below it holds everything in between. */
  lemma HeldBetween(es: multiset<AuditEntry>, t: WriterTip, low: AuditEntry, s: nat) returns (z: AuditEntry)
    requires IsLinked(EntryView(), es) && TipHeld(es, t) && low in es && low.content.writer == t.writer && low.content.sequence <= s <= t.seqNo
    ensures z in es && z.content.writer == t.writer && z.content.sequence == s
  {
    var top :| top in es && top.content.writer == t.writer && top.content.sequence == t.seqNo && top.contentHash == t.contentHash;
    z := NoneMissing(EntryView(), es, low, top, s);
  }

  lemma ForgesNothing(store: Store, a: Agreement.Log, b: Agreement.Log, tips: seq<WriterTip>, t: WriterTip)
    requires a.entries == multiset(store.entries) && IsLinked(EntryView(), a.entries) && AgreeBelowTips(a, b, tips) && t in tips
    ensures NothingForged(store, b, t)
  {
    forall x, y | x in store.entries && y in b.entries && AtOrBelow(t, y) && StartsBefore(x, y)
      ensures IsStored(store.entries, y)
    {
      var z := HeldBetween(a.entries, t, x, y.content.sequence);
      assert BelowTip(t, z, y) && z in store.entries;
    }
  }

  lemma DropsNothing(store: Store, a: Agreement.Log, b: Agreement.Log, tips: seq<WriterTip>, t: WriterTip)
    requires a.entries == multiset(store.entries) && IsLinked(EntryView(), b.entries) && AgreeBelowTips(a, b, tips) && t in tips
    ensures NothingDropped(store, b, t)
  {
    forall x, y | x in store.entries && y in b.entries && AtOrBelow(t, x) && StartsBefore(y, x)
      ensures IsPresented(b, x)
    {
      var z := HeldBetween(b.entries, t, y, x.content.sequence);
      assert BelowTip(t, x, z) && x in a.entries;
    }
  }

  lemma AgreementPins(store: Store, a: Agreement.Log, b: Agreement.Log, q: AuditCheckpoint)
    requires a.entries == multiset(store.entries) && IsLinked(EntryView(), a.entries) && IsLinked(EntryView(), b.entries)
    requires AgreeBelowTips(a, b, q.content.tips)
    requires q.content.seqNo < |store.checkpoints| && q.content == store.checkpoints[q.content.seqNo].content
    ensures Pinned(store, b, q)
  {
    forall t | t in q.content.tips
      ensures TipHeld(b.entries, t) && NothingForged(store, b, t) && NothingDropped(store, b, t)
    {
      ForgesNothing(store, a, b, q.content.tips, t);
      DropsNothing(store, a, b, q.content.tips, t);
    }
  }

  lemma StoreAnchorFixesLog(c: Crypto, store: Store, b: Agreement.Log, n: nat, anchor: AuditCheckpoint, q: AuditCheckpoint)
    requires LogAccepted(c.sha3, LogOf(c, store))
    requires forall i :: 0 <= i < |store.checkpoints| ==> store.checkpoints[i].content.seqNo == i
    requires LogAccepted(c.sha3, b) && anchor in b.checkpoints && q in b.checkpoints && q.content.seqNo <= n
    requires n < |store.checkpoints| && anchor.contentHash == store.checkpoints[n].contentHash
    ensures Pinned(store, b, q) || CollisionWithin(c.sha3, LogInputs(LogOf(c, store)) + LogInputs(b))
  {
    var cps, a := store.checkpoints, LogOf(c, store);
    AnchorFixesLog(c.sha3, a, b, cps[n], anchor, cps[q.content.seqNo], q);
    AcceptedHashes(c.sha3, a);
    AcceptedHashes(c.sha3, b);
    if !CollisionWithin(c.sha3, LogInputs(a) + LogInputs(b)) {
      AgreementPins(store, a, b, q);
    }
  }

  /** A log presented later, checked under any key, that is accepted and contains the hash of
      checkpoint `n` of a clean run: every checkpoint it presents up to there is the one the run
      committed, every tip such a checkpoint commits is present, and below such a tip nothing is
      forged and nothing is left out, or a collision can be pointed at. */
  lemma HonestAnchorFixesLog(c: Crypto, sign: (string, nat) -> Option<string>, steps: seq<Step>, b: Agreement.Log,
                             n: nat, anchor: AuditCheckpoint, q: AuditCheckpoint)
    requires Signs(Gateway(c, sign)) && CleanRun(Gateway(c, sign), steps)
    requires LogAccepted(c.sha3, b) && anchor in b.checkpoints && q in b.checkpoints && q.content.seqNo <= n
    requires var cps := Exec(Gateway(c, sign), steps).store.checkpoints;
             n < |cps| && anchor.contentHash == cps[n].contentHash
    ensures var store := Exec(Gateway(c, sign), steps).store;
            Pinned(store, b, q) || CollisionWithin(c.sha3, LogInputs(LogOf(c, store)) + LogInputs(b))
  {
    HonestLogAccepted(c, sign, steps);
    StoreAnchorFixesLog(c, Exec(Gateway(c, sign), steps).store, b, n, anchor, q);
  }

  /** Without lost appends the stored chains start at 0, so everything presented at or below a tip was stored. */
  lemma LosslessPinsAll(id: Identity, steps: seq<Step>, b: Agreement.Log, q: AuditCheckpoint, t: WriterTip, y: AuditEntry)
    requires Lossless(steps) && Pinned(Exec(id, steps).store, b, q) && TipsHeld(multiset(Exec(id, steps).store.entries), multiset(Exec(id, steps).store.checkpoints))
    requires t in q.content.tips && y in b.entries && AtOrBelow(t, y)
    ensures IsStored(Exec(id, steps).store.entries, y)
  {
    var sys := Exec(id, steps);
    LosslessIsGapless(id, steps);
    assert sys.store.checkpoints[q.content.seqNo] in multiset(sys.store.checkpoints);
    assert TipHeld(multiset(sys.store.entries), t);
    var x :| x in multiset(sys.store.entries) && x.content.writer == t.writer && x.content.sequence == t.seqNo && x.contentHash == t.contentHash;
    assert x in sys.store.entries && Holds(sys.store.entries, t.writer, 0);
    var z :| z in sys.store.entries && z.content.writer == t.writer && z.content.sequence == 0;
    assert StartsBefore(z, y) && NothingForged(sys.store, b, t);
  }

  lemma HonestAnchorFixesAll(c: Crypto, sign: (string, nat) -> Option<string>, steps: seq<Step>, b: Agreement.Log,
                             n: nat, anchor: AuditCheckpoint, q: AuditCheckpoint, t: WriterTip, y: AuditEntry)
    requires Signs(Gateway(c, sign)) && CleanRun(Gateway(c, sign), steps) && Lossless(steps)
    requires LogAccepted(c.sha3, b) && anchor in b.checkpoints && q in b.checkpoints && q.content.seqNo <= n
    requires var cps := Exec(Gateway(c, sign), steps).store.checkpoints;
             n < |cps| && anchor.contentHash == cps[n].contentHash
    requires t in q.content.tips && y in b.entries && AtOrBelow(t, y)
    ensures var store := Exec(Gateway(c, sign), steps).store;
            IsStored(store.entries, y) || CollisionWithin(c.sha3, LogInputs(LogOf(c, store)) + LogInputs(b))
  {
    hide *;
    var id := Gateway(c, sign);
    HonestAnchorFixesLog(c, sign, steps, b, n, anchor, q);
    HonestTipsHeld(c, sign, steps);
    if Pinned(Exec(id, steps).store, b, q) {
      LosslessPinsAll(id, steps, b, q, t, y);
    }
  }

  /** So what an anchor fixes is the logged events: without lost appends an entry presented at or below
      such a tip, with number `s`, is its writer's logged event number `s`. */
  lemma HonestAnchorFixesEvents(c: Crypto, sign: (string, nat) -> Option<string>, steps: seq<Step>, b: Agreement.Log,
                                n: nat, anchor: AuditCheckpoint, q: AuditCheckpoint, t: WriterTip, y: AuditEntry)
    requires Signs(Gateway(c, sign)) && CleanRun(Gateway(c, sign), steps) && Lossless(steps)
    requires LogAccepted(c.sha3, b) && anchor in b.checkpoints && q in b.checkpoints && q.content.seqNo <= n
    requires var cps := Exec(Gateway(c, sign), steps).store.checkpoints;
             n < |cps| && anchor.contentHash == cps[n].contentHash
    requires t in q.content.tips && y in b.entries && AtOrBelow(t, y)
    ensures var events := EventsOf(Gateway(c, sign), steps, y.content.writer);
            || (y.content.sequence < |events| && RecordOf(y) == events[y.content.sequence])
            || CollisionWithin(c.sha3, LogInputs(LogOf(c, Exec(Gateway(c, sign), steps).store)) + LogInputs(b))
  {
    HonestAnchorFixesAll(c, sign, steps, b, n, anchor, q, t, y);
    if IsStored(Exec(Gateway(c, sign), steps).store.entries, y) {
      StoredIsEvent(Gateway(c, sign), steps, y);
    }
  }

  lemma StoredIsEvent(id: Identity, steps: seq<Step>, y: AuditEntry)
    requires Lossless(steps) && IsStored(Exec(id, steps).store.entries, y)
    ensures var events := EventsOf(id, steps, y.content.writer);
            y.content.sequence < |events| && RecordOf(y) == events[y.content.sequence]
  {
    var x :| x in Exec(id, steps).store.entries && x.content == y.content;
    NumberIsPlace(id, steps, x);
  }

  /** And none is left out: the writer's events from the first presented one up to the tip are all presented. */
  lemma HonestAnchorShowsEvents(c: Crypto, sign: (string, nat) -> Option<string>, steps: seq<Step>, b: Agreement.Log,
                                n: nat, anchor: AuditCheckpoint, q: AuditCheckpoint, t: WriterTip, first: AuditEntry, s: nat)
    requires Signs(Gateway(c, sign)) && CleanRun(Gateway(c, sign), steps) && Lossless(steps)
    requires LogAccepted(c.sha3, b) && anchor in b.checkpoints && q in b.checkpoints && q.content.seqNo <= n
    requires var cps := Exec(Gateway(c, sign), steps).store.checkpoints;
             n < |cps| && anchor.contentHash == cps[n].contentHash
    requires t in q.content.tips && first in b.entries && first.content.writer == t.writer && first.content.sequence <= s <= t.seqNo
    ensures var events := EventsOf(Gateway(c, sign), steps, t.writer);
            || (s < |events| && exists y :: y in b.entries && y.content.sequence == s && RecordOf(y) == events[s])
            || CollisionWithin(c.sha3, LogInputs(LogOf(c, Exec(Gateway(c, sign), steps).store)) + LogInputs(b))
  {
    hide Exec;
    hide CleanRun;
    hide EventsOf;
    hide LogInputs;
    AcceptedTip(c, b, q, t);
    var y := HeldBetween(b.entries, t, first, s);
    HonestAnchorFixesEvents(c, sign, steps, b, n, anchor, q, t, y);
  }

  lemma AcceptedTip(c: Crypto, b: Agreement.Log, q: AuditCheckpoint, t: WriterTip)
    requires LogAccepted(c.sha3, b) && q in b.checkpoints && t in q.content.tips
    ensures IsLinked(EntryView(), b.entries) && TipHeld(b.entries, t)
  {
    AcceptedHashes(c.sha3, b);
    TipsHeldIn(c.sha3, b, q, t);
  }

  lemma HonestTipsHeld(c: Crypto, sign: (string, nat) -> Option<string>, steps: seq<Step>)
    requires Signs(Gateway(c, sign)) && CleanRun(Gateway(c, sign), steps)
    ensures var store := Exec(Gateway(c, sign), steps).store; TipsHeld(multiset(store.entries), multiset(store.checkpoints))
  {
    HonestLogAccepted(c, sign, steps);
    AcceptedHashes(c.sha3, LogOf(c, Exec(Gateway(c, sign), steps).store));
  }
}
