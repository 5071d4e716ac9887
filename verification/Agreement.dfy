/** What one anchor fixes: two logs that the verifier accepts and that share a committed tip,
    or a checkpoint hash, agree on everything below it, or a collision can be pointed at among
    the bytes that were hashed for the two logs. */
module Agreement {
  import opened ByteStrings
  import opened AuditLog
  import opened Linked
  import opened Findings
  import opened Verifier

  /** The byte strings whose hashes the verifier recomputes. */
  function Inputs<T>(bytes: T -> Bytes, ms: multiset<T>): (r: set<Bytes>) {
    set x | x in ms :: bytes(x)
  }

  function BytesOfEntry(): (f: AuditEntry -> Bytes) {
    (e: AuditEntry) => EntryBytes(e.content)
  }

  function BytesOfCheckpoint(): (f: AuditCheckpoint -> Bytes) {
    (cp: AuditCheckpoint) => CheckpointBytes(cp.content)
  }

  function EntryInputs(es: multiset<AuditEntry>): (r: set<Bytes>) {
    Inputs(BytesOfEntry(), es)
  }

  function CheckpointInputs(cs: multiset<AuditCheckpoint>): (r: set<Bytes>) {
    Inputs(BytesOfCheckpoint(), cs)
  }

  /** Records with the same hash have the same bytes, or there is a collision among them. */
  lemma HashesFixBytes<T>(h: Hash, v: View<T>, bytes: T -> Bytes, a: multiset<T>, b: multiset<T>)
    requires forall x :: x in a || x in b ==> v.hash(x) == HashHex(h, bytes(x))
    ensures || CollisionWithin(h, Inputs(bytes, a) + Inputs(bytes, b))
            || forall x, y :: x in a && y in b && v.hash(x) == v.hash(y) ==> bytes(x) == bytes(y)
  {
    var inputs := Inputs(bytes, a) + Inputs(bytes, b);
    if !CollisionWithin(h, inputs) {
      forall x, y | x in a && y in b && v.hash(x) == v.hash(y)
        ensures bytes(x) == bytes(y)
      {
        HashHexBinds(h, bytes(x), bytes(y));
        if bytes(x) != bytes(y) {
          assert bytes(x) in inputs && bytes(y) in inputs;
          CollisionGrows(h, {bytes(x), bytes(y)}, inputs);
        }
      }
    }
  }

  function SameEntry(): (same: (AuditEntry, AuditEntry) -> bool) {
    (a: AuditEntry, b: AuditEntry) => a.content == b.content
  }

  function SameCheckpoint(): (same: (AuditCheckpoint, AuditCheckpoint) -> bool) {
    (a: AuditCheckpoint, b: AuditCheckpoint) => a.content == b.content
  }

  lemma EntryHashesFix(h: Hash, a: multiset<AuditEntry>, b: multiset<AuditEntry>)
    requires forall e :: e in a || e in b ==> e.contentHash == HashHex(h, BytesOfEntry()(e))
    ensures HashFixes(EntryView(), a, b, SameEntry()) || CollisionWithin(h, EntryInputs(a) + EntryInputs(b))
  {
    HashesFixBytes(h, EntryView(), BytesOfEntry(), a, b);
    if !CollisionWithin(h, EntryInputs(a) + EntryInputs(b)) {
      EntriesFixed(a, b);
    }
  }

  lemma EntriesFixed(a: multiset<AuditEntry>, b: multiset<AuditEntry>)
    requires forall x, y :: x in a && y in b && EntryView().hash(x) == EntryView().hash(y) ==> BytesOfEntry()(x) == BytesOfEntry()(y)
    ensures HashFixes(EntryView(), a, b, SameEntry())
  {
    forall x, y | x in a && y in b && EntryView().hash(x) == EntryView().hash(y)
      ensures x.content == y.content
    {
      EntryBytesFix(x, y);
    }
  }

  lemma EntryBytesFix(x: AuditEntry, y: AuditEntry)
    requires BytesOfEntry()(x) == BytesOfEntry()(y)
    ensures x.content == y.content
  {
    EntryBytesInjective(x.content, y.content);
  }

  lemma CheckpointBytesFix(x: AuditCheckpoint, y: AuditCheckpoint)
    requires BytesOfCheckpoint()(x) == BytesOfCheckpoint()(y)
    ensures x.content == y.content
  {
    CheckpointBytesInjective(x.content, y.content);
  }

  lemma CheckpointHashesFix(h: Hash, a: multiset<AuditCheckpoint>, b: multiset<AuditCheckpoint>)
    requires forall cp :: cp in a || cp in b ==> cp.contentHash == HashHex(h, BytesOfCheckpoint()(cp))
    ensures HashFixes(CheckpointView(), a, b, SameCheckpoint()) || CollisionWithin(h, CheckpointInputs(a) + CheckpointInputs(b))
  {
    HashesFixBytes(h, CheckpointView(), BytesOfCheckpoint(), a, b);
    if !CollisionWithin(h, CheckpointInputs(a) + CheckpointInputs(b)) {
      CheckpointsFixed(a, b);
    }
  }

  lemma CheckpointsFixed(a: multiset<AuditCheckpoint>, b: multiset<AuditCheckpoint>)
    requires forall x, y :: x in a && y in b && CheckpointView().hash(x) == CheckpointView().hash(y) ==> BytesOfCheckpoint()(x) == BytesOfCheckpoint()(y)
    ensures HashFixes(CheckpointView(), a, b, SameCheckpoint())
  {
    forall x, y | x in a && y in b && CheckpointView().hash(x) == CheckpointView().hash(y)
      ensures x.content == y.content
    {
      CheckpointBytesFix(x, y);
    }
  }

  /** Two presented logs, each accepted; they may be checked under different keys. */
  datatype Log = Log(check: (string, string) -> SignatureCheck, entries: multiset<AuditEntry>, checkpoints: multiset<AuditCheckpoint>)

  ghost predicate LogAccepted(h: Hash, l: Log) {
    Accepted(ChecksOf(Crypto(h, l.check)), l.entries, l.checkpoints)
  }

  lemma AcceptedHashes(h: Hash, l: Log)
    requires LogAccepted(h, l)
    ensures HashLinked(h, l.entries) && IsLinked(CheckpointView(), l.checkpoints)
    ensures forall cp :: cp in l.checkpoints ==> cp.contentHash == HashHex(h, BytesOfCheckpoint()(cp))
    ensures TipsHeld(l.entries, l.checkpoints)
  {
    var k := ChecksOf(Crypto(h, l.check));
    assert forall e :: e in l.entries ==> EntryHashOk(k, e);
    assert forall cp :: cp in l.checkpoints ==> CheckpointHashOk(k, cp);
  }

  /** `x` and `y` stand at the same place of the tip's chain, at or below the tip. */
  predicate BelowTip(t: WriterTip, x: AuditEntry, y: AuditEntry) {
    x.content.writer == y.content.writer == t.writer && x.content.sequence == y.content.sequence <= t.seqNo
  }

  /** Entries that are linked and carry their own hashes. */
  ghost predicate HashLinked(h: Hash, es: multiset<AuditEntry>) {
    IsLinked(EntryView(), es) && forall e :: e in es ==> e.contentHash == HashHex(h, BytesOfEntry()(e))
  }

  lemma HeldTipFixesEntries(h: Hash, a: multiset<AuditEntry>, b: multiset<AuditEntry>, t: WriterTip, x: AuditEntry, y: AuditEntry)
    requires HashLinked(h, a) && HashLinked(h, b) && TipHeld(a, t) && TipHeld(b, t)
    requires x in a && y in b && BelowTip(t, x, y)
    ensures x.content == y.content || CollisionWithin(h, EntryInputs(a) + EntryInputs(b))
  {
    EntryHashesFix(h, a, b);
    if !CollisionWithin(h, EntryInputs(a) + EntryInputs(b)) {
      AgreeBelowTip(a, b, t, x, y);
    }
  }

  lemma AgreeBelowTip(a: multiset<AuditEntry>, b: multiset<AuditEntry>, t: WriterTip, x: AuditEntry, y: AuditEntry)
    requires IsLinked(EntryView(), a) && IsLinked(EntryView(), b) && HashFixes(EntryView(), a, b, SameEntry())
    requires TipHeld(a, t) && TipHeld(b, t) && x in a && y in b && BelowTip(t, x, y)
    ensures x.content == y.content
  {
    var p :| p in a && p.content.writer == t.writer && p.content.sequence == t.seqNo && p.contentHash == t.contentHash;
    var q :| q in b && q.content.writer == t.writer && q.content.sequence == t.seqNo && q.contentHash == t.contentHash;
    AgreeBelow(EntryView(), a, b, SameEntry(), p, q, x, y);
  }

  /** Both logs commit the tip `t`: whatever both present of that writer at or below it is the same. */
  lemma TipFixesEntries(h: Hash, a: Log, b: Log, p: AuditCheckpoint, q: AuditCheckpoint, t: WriterTip, x: AuditEntry, y: AuditEntry)
    requires LogAccepted(h, a) && LogAccepted(h, b)
    requires p in a.checkpoints && t in p.content.tips && q in b.checkpoints && t in q.content.tips
    requires x in a.entries && y in b.entries && BelowTip(t, x, y)
    ensures x.content == y.content || CollisionWithin(h, EntryInputs(a.entries) + EntryInputs(b.entries))
  {
    AcceptedHashes(h, a);
    AcceptedHashes(h, b);
    HeldTipFixesEntries(h, a.entries, b.entries, t, x, y);
  }

  /** Both logs present a checkpoint with the hash of `top`: every checkpoint at or below it
      that both present is the same. */
  lemma AnchorFixesCheckpoints(h: Hash, a: Log, b: Log, top: AuditCheckpoint, anchor: AuditCheckpoint, p: AuditCheckpoint, q: AuditCheckpoint)
    requires LogAccepted(h, a) && LogAccepted(h, b)
    requires top in a.checkpoints && anchor in b.checkpoints && top.contentHash == anchor.contentHash
    requires p in a.checkpoints && q in b.checkpoints && p.content.seqNo == q.content.seqNo <= top.content.seqNo
    ensures p.content == q.content || CollisionWithin(h, CheckpointInputs(a.checkpoints) + CheckpointInputs(b.checkpoints))
  {
    AcceptedHashes(h, a);
    AcceptedHashes(h, b);
    CheckpointHashesFix(h, a.checkpoints, b.checkpoints);
    if !CollisionWithin(h, CheckpointInputs(a.checkpoints) + CheckpointInputs(b.checkpoints)) {
      AgreeBelow(CheckpointView(), a.checkpoints, b.checkpoints, SameCheckpoint(), top, anchor, p, q);
    }
  }

  /** Everything hashed for a log's entries and checkpoints. */
  function LogInputs(l: Log): (r: set<Bytes>) {
    EntryInputs(l.entries) + CheckpointInputs(l.checkpoints)
  }

  /** Both logs hold the tips, and below them they do not differ. */
  ghost predicate AgreeBelowTips(a: Log, b: Log, tips: seq<WriterTip>) {
    && (forall t :: t in tips ==> TipHeld(a.entries, t) && TipHeld(b.entries, t))
    && (forall t, x, y :: t in tips && x in a.entries && y in b.entries && BelowTip(t, x, y) ==> x.content == y.content)
  }

  lemma TipsHeldIn(h: Hash, l: Log, cp: AuditCheckpoint, t: WriterTip)
    requires LogAccepted(h, l) && cp in l.checkpoints && t in cp.content.tips
    ensures TipHeld(l.entries, t)
  {
  }

  lemma SharedTipsAgree(h: Hash, a: Log, b: Log, p: AuditCheckpoint, q: AuditCheckpoint)
    requires LogAccepted(h, a) && LogAccepted(h, b)
    requires p in a.checkpoints && q in b.checkpoints && p.content == q.content
    ensures AgreeBelowTips(a, b, p.content.tips) || CollisionWithin(h, EntryInputs(a.entries) + EntryInputs(b.entries))
  {
    forall t | t in p.content.tips
      ensures TipHeld(a.entries, t) && TipHeld(b.entries, t)
    {
      TipsHeldIn(h, a, p, t);
      TipsHeldIn(h, b, q, t);
    }
    AcceptedHashes(h, a);
    AcceptedHashes(h, b);
    EntryHashesFix(h, a.entries, b.entries);
    if !CollisionWithin(h, EntryInputs(a.entries) + EntryInputs(b.entries)) {
      HeldTipsAgree(a, b, p.content.tips);
    }
  }

  /** Where equal hashes mean equal entries, logs that hold the same tips agree below them. */
  lemma HeldTipsAgree(a: Log, b: Log, tips: seq<WriterTip>)
    requires IsLinked(EntryView(), a.entries) && IsLinked(EntryView(), b.entries)
    requires HashFixes(EntryView(), a.entries, b.entries, SameEntry())
    requires forall t :: t in tips ==> TipHeld(a.entries, t) && TipHeld(b.entries, t)
    ensures AgreeBelowTips(a, b, tips)
  {
    forall t, x, y | t in tips && x in a.entries && y in b.entries && BelowTip(t, x, y)
      ensures x.content == y.content
    {
      AgreeBelowTip(a.entries, b.entries, t, x, y);
    }
  }

  /** One matching checkpoint hash fixes every entry that any checkpoint at or below it commits:
      the tips of shared checkpoints are the same, both logs still hold them, and below them the
      logs cannot differ. */
  lemma AnchorFixesLog(h: Hash, a: Log, b: Log, top: AuditCheckpoint, anchor: AuditCheckpoint, p: AuditCheckpoint, q: AuditCheckpoint)
    requires LogAccepted(h, a) && LogAccepted(h, b)
    requires top in a.checkpoints && anchor in b.checkpoints && top.contentHash == anchor.contentHash
    requires p in a.checkpoints && q in b.checkpoints && p.content.seqNo == q.content.seqNo <= top.content.seqNo
    ensures CollisionWithin(h, LogInputs(a) + LogInputs(b)) || (p.content == q.content && AgreeBelowTips(a, b, p.content.tips))
  {
    var inputs := LogInputs(a) + LogInputs(b);
    AnchorFixesCheckpoints(h, a, b, top, anchor, p, q);
    if p.content == q.content {
      SharedTipsAgree(h, a, b, p, q);
      if !AgreeBelowTips(a, b, p.content.tips) {
        CollisionGrows(h, EntryInputs(a.entries) + EntryInputs(b.entries), inputs);
      }
    } else {
      CollisionGrows(h, CheckpointInputs(a.checkpoints) + CheckpointInputs(b.checkpoints), inputs);
    }
  }
}
