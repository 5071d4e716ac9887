/** Entries and checkpoints of the sharded audit log: what they hold, what their content
    hashes commit to, and how a checkpoint Merkle-roots the writers' tips. */
module AuditLog {
  import opened ByteStrings
  import opened Json
  import opened Options
  import opened Sorting
  import Merkle

  /** The fields of an entry that `content_bytes` covers. `timestamp` is its RFC 3339 text
      and `event` the JSON value of the event. */
  datatype EntryContent = EntryContent(
    id: string, timestamp: string, writer: string, sequence: nat,
    session: string, event: Value, prevHash: string)

  datatype AuditEntry = AuditEntry(
    content: EntryContent, contentHash: string, signature: string, merkleRoot: Option<string>)

  datatype WriterTip = WriterTip(writer: string, seqNo: nat, contentHash: string)

  /** The fields of a checkpoint that its `content_bytes` covers. */
  datatype CheckpointContent = CheckpointContent(
    seqNo: nat, timestamp: string, tips: seq<WriterTip>, merkleRoot: string, prevHash: string)

  datatype AuditCheckpoint = AuditCheckpoint(content: CheckpointContent, contentHash: string, signature: string)

  /** What `decode_and_verify` can answer for a hash and a base64 signature. */
  datatype SignatureCheck = Good | Bad | Failed(message: string)

  /** SHA3-256, and ML-DSA-65 verification under one public key. */
  datatype Crypto = Crypto(sha3: Hash, check: (string, string) -> SignatureCheck)

  // ---- content_bytes ----

  function DecimalNumber(n: nat): (v: Value) {
    DecimalIsNumeral(n);
    Number(Decimal(n))
  }

  lemma DecimalIsNumeral(n: nat)
    ensures IsNumeral(Decimal(n))
  {
    assert forall i :: 0 <= i < |Decimal(n)| ==> IsDecDigit(Decimal(n)[i]);
  }

  function EntryBytes(c: EntryContent): (r: Bytes) {
    Write(Object(
            Field("event", c.event,
            Field("id", Text(c.id),
            Field("prev_hash", Text(c.prevHash),
            Field("sequence", DecimalNumber(c.sequence),
            Field("session_id", Text(c.session),
            Field("timestamp", Text(c.timestamp),
            Field("writer_id", Text(c.writer), NoFields)))))))))
  }

  function TipItems(tips: seq<WriterTip>): (r: Items) {
    if tips == [] then NoItems
    else
      Item(Object(
             Field("content_hash", Text(tips[0].contentHash),
             Field("seq", DecimalNumber(tips[0].seqNo),
             Field("writer_id", Text(tips[0].writer), NoFields)))),
           TipItems(tips[1..]))
  }

  function CheckpointBytes(c: CheckpointContent): (r: Bytes) {
    Write(Object(
            Field("checkpoint_seq", DecimalNumber(c.seqNo),
            Field("merkle_root", Text(c.merkleRoot),
            Field("prev_checkpoint_hash", Text(c.prevHash),
            Field("timestamp", Text(c.timestamp),
            Field("tips", Array(TipItems(c.tips)), NoFields)))))))
  }

  /** The bytes of an entry determine every committed field, the writer and the link included. */
  lemma EntryBytesInjective(a: EntryContent, b: EntryContent)
    requires EntryBytes(a) == EntryBytes(b)
    ensures a == b
  {
    WriteInjective(
      Object(Field("event", a.event, Field("id", Text(a.id), Field("prev_hash", Text(a.prevHash),
             Field("sequence", DecimalNumber(a.sequence), Field("session_id", Text(a.session),
             Field("timestamp", Text(a.timestamp), Field("writer_id", Text(a.writer), NoFields)))))))),
      Object(Field("event", b.event, Field("id", Text(b.id), Field("prev_hash", Text(b.prevHash),
             Field("sequence", DecimalNumber(b.sequence), Field("session_id", Text(b.session),
             Field("timestamp", Text(b.timestamp), Field("writer_id", Text(b.writer), NoFields)))))))));
    DecimalInjective(a.sequence, b.sequence);
  }

  lemma {:induction false} TipItemsInjective(a: seq<WriterTip>, b: seq<WriterTip>)
    requires TipItems(a) == TipItems(b)
    ensures a == b
  {
    if a != [] {
      DecimalInjective(a[0].seqNo, b[0].seqNo);
      TipItemsInjective(a[1..], b[1..]);
      assert a == [a[0]] + a[1..] && b == [b[0]] + b[1..];
    }
  }

  /** The bytes of a checkpoint determine its tips, its root and its link. */
  lemma CheckpointBytesInjective(a: CheckpointContent, b: CheckpointContent)
    requires CheckpointBytes(a) == CheckpointBytes(b)
    ensures a == b
  {
    WriteInjective(
      Object(Field("checkpoint_seq", DecimalNumber(a.seqNo), Field("merkle_root", Text(a.merkleRoot),
             Field("prev_checkpoint_hash", Text(a.prevHash), Field("timestamp", Text(a.timestamp),
             Field("tips", Array(TipItems(a.tips)), NoFields)))))),
      Object(Field("checkpoint_seq", DecimalNumber(b.seqNo), Field("merkle_root", Text(b.merkleRoot),
             Field("prev_checkpoint_hash", Text(b.prevHash), Field("timestamp", Text(b.timestamp),
             Field("tips", Array(TipItems(b.tips)), NoFields)))))));
    DecimalInjective(a.seqNo, b.seqNo);
    TipItemsInjective(a.tips, b.tips);
  }

  // ---- Checkpoints ----

  const EMPTY_CHECKPOINT := "quantawatch-audit-empty-checkpoint"

  function TipLe(): (le: (WriterTip, WriterTip) -> bool) {
    (a: WriterTip, b: WriterTip) => LexLe(a.writer, b.writer)
  }

  lemma TipOrder()
    ensures TotalPreorder(TipLe())
    ensures forall a, b :: TipLe()(a, b) && TipLe()(b, a) ==> a.writer == b.writer
  {
    LexOrder();
  }

  function TipText(t: WriterTip): (r: string) {
    (t.writer + ":" + Decimal(t.seqNo)) + ":" + t.contentHash
  }

  function TipLeaves(h: Hash, tips: seq<WriterTip>): (r: seq<Digest>)
    ensures |r| == |tips|
    ensures forall i :: 0 <= i < |tips| ==> r[i] == h(TipText(tips[i]))
  {
    seq<Digest>(|tips|, i requires 0 <= i < |tips| => h(TipText(tips[i])))
  }

  function MerkleRootOf(h: Hash, tips: seq<WriterTip>): (r: string) {
    var sorted := SortBy(tips, TipLe());
    if sorted == [] then HashHex(h, EMPTY_CHECKPOINT)
    else Hex(Merkle.Root(h, TipLeaves(h, sorted)))
  }

  /** `AuditCheckpoint::build`: hashed but not yet signed. */
  function Build(h: Hash, seqNo: nat, prevHash: string, tips: seq<WriterTip>, timestamp: string): (cp: AuditCheckpoint)
    ensures cp.contentHash == HashHex(h, CheckpointBytes(cp.content))
    ensures cp.content.merkleRoot == MerkleRootOf(h, cp.content.tips)
    ensures multiset(cp.content.tips) == multiset(tips)
    ensures cp.content.seqNo == seqNo && cp.content.prevHash == prevHash && cp.content.timestamp == timestamp && cp.signature == ""
  {
    var sorted := SortBy(tips, TipLe());
    var content := CheckpointContent(seqNo, timestamp, sorted, MerkleRootOf(h, sorted), prevHash);
    AuditCheckpoint(content, HashHex(h, CheckpointBytes(content)), "")
  }

  ghost predicate DistinctWriters(tips: seq<WriterTip>) {
    forall a, b :: a in tips && b in tips && a.writer == b.writer ==> a == b
  }

  // ---- The root alone already commits to the tips ----

  /** `writer:seq:hash` is unambiguous for hex hashes, even if the writer id holds colons. */
  lemma TipTextInjective(a: WriterTip, b: WriterTip)
    requires NoColon(a.contentHash) && NoColon(b.contentHash)
    requires TipText(a) == TipText(b)
    ensures a == b
  {
    SplitAtLastColon(a.writer + ":" + Decimal(a.seqNo), a.contentHash, b.writer + ":" + Decimal(b.seqNo), b.contentHash);
    DigitsHaveNoColon(a.seqNo);
    DigitsHaveNoColon(b.seqNo);
    SplitAtLastColon(a.writer, Decimal(a.seqNo), b.writer, Decimal(b.seqNo));
    DecimalInjective(a.seqNo, b.seqNo);
  }

  /** Everything hashed to get the root of a sorted tip list. */
  function RootInputs(h: Hash, sorted: seq<WriterTip>): (r: set<Bytes>) {
    (set t | t in sorted :: TipText(t)) + Merkle.TreeInputs(h, TipLeaves(h, sorted))
  }

  ghost predicate SameTexts(s: seq<WriterTip>, t: seq<WriterTip>) {
    |s| == |t| && forall i :: 0 <= i < |s| ==> TipText(s[i]) == TipText(t[i])
  }

  /** Equal roots of equally many tips mean equal texts in sorted order, or a collision. */
  lemma EqualRootsEqualTexts(h: Hash, a: seq<WriterTip>, b: seq<WriterTip>)
    requires |a| == |b| && MerkleRootOf(h, a) == MerkleRootOf(h, b)
    ensures || SameTexts(SortBy(a, TipLe()), SortBy(b, TipLe()))
            || CollisionWithin(h, RootInputs(h, SortBy(a, TipLe())) + RootInputs(h, SortBy(b, TipLe())))
  {
    var s, t := SortBy(a, TipLe()), SortBy(b, TipLe());
    if s != [] {
      LeavesFixTexts(h, s, t);
    }
  }

  lemma LeavesFixTexts(h: Hash, s: seq<WriterTip>, t: seq<WriterTip>)
    requires |s| == |t| > 0 && Hex(Merkle.Root(h, TipLeaves(h, s))) == Hex(Merkle.Root(h, TipLeaves(h, t)))
    ensures SameTexts(s, t) || CollisionWithin(h, RootInputs(h, s) + RootInputs(h, t))
  {
    var l, m, inputs := TipLeaves(h, s), TipLeaves(h, t), RootInputs(h, s) + RootInputs(h, t);
    HexInjective(Merkle.Root(h, l), Merkle.Root(h, m));
    Merkle.RootBinds(h, l, m);
    if l != m {
      CollisionGrows(h, Merkle.TreeInputs(h, l) + Merkle.TreeInputs(h, m), inputs);
    } else if i :| 0 <= i < |s| && TipText(s[i]) != TipText(t[i]) {
      assert h(TipText(s[i])) == l[i] == m[i] == h(TipText(t[i]));
      assert s[i] in s && t[i] in t;
      assert TipText(s[i]) in inputs && TipText(t[i]) in inputs;
    }
  }

  /** Two tip lists of the same size with the same root are the same commitments, or a
      collision lies among what was hashed for the two roots. */
  lemma RootCommitsToTips(h: Hash, a: seq<WriterTip>, b: seq<WriterTip>)
    requires |a| == |b|
    requires forall t :: t in a || t in b ==> NoColon(t.contentHash)
    requires MerkleRootOf(h, a) == MerkleRootOf(h, b)
    ensures || multiset(a) == multiset(b)
            || CollisionWithin(h, RootInputs(h, SortBy(a, TipLe())) + RootInputs(h, SortBy(b, TipLe())))
  {
    var s, t := SortBy(a, TipLe()), SortBy(b, TipLe());
    SameMembers(a, s);
    SameMembers(b, t);
    EqualRootsEqualTexts(h, a, b);
    if SameTexts(s, t) {
      forall i | 0 <= i < |s|
        ensures s[i] == t[i]
      {
        assert s[i] in s && t[i] in t;
        TipTextInjective(s[i], t[i]);
      }
      assert s == t;
    }
  }

  // ---- When the order of the tips does not matter ----

  /** The root does not depend on the order the tips are handed over in. */
  lemma RootOrderIndependent(h: Hash, tips: seq<WriterTip>, other: seq<WriterTip>)
    requires multiset(tips) == multiset(other) && DistinctWriters(tips)
    ensures MerkleRootOf(h, tips) == MerkleRootOf(h, other)
  {
    TipOrder();
    SortByPermutation(tips, other, TipLe());
  }

  ghost predicate RootOrderFree(h: Hash, tips: seq<WriterTip>) {
    forall other :: multiset(tips) == multiset(other) ==> MerkleRootOf(h, tips) == MerkleRootOf(h, other)
  }

  /** Two rearrangements of the tips whose roots were hashed with a collision. */
  ghost predicate RearrangedCollide(h: Hash, tips: seq<WriterTip>) {
    exists i: nat, j: nat :: i < |tips| && j < |tips| && FrontsCollide(h, tips, i, j)
  }

  ghost predicate FrontsCollide(h: Hash, tips: seq<WriterTip>, i: nat, j: nat)
    requires i < |tips| && j < |tips|
  {
    CollisionWithin(h, RootInputs(h, SortBy(ToFront(tips, i), TipLe())) + RootInputs(h, SortBy(ToFront(tips, j), TipLe())))
  }

  /** Sorted rearrangements show the same writers in the same places. */
  lemma SameWriters(a: seq<WriterTip>, b: seq<WriterTip>)
    requires multiset(a) == multiset(b)
    ensures Map(SortBy(a, TipLe()), WriterOf) == Map(SortBy(b, TipLe()), WriterOf)
  {
    var s, t := SortBy(a, TipLe()), SortBy(b, TipLe());
    TipOrder();
    LexOrder();
    SortBySorted(a, TipLe());
    SortBySorted(b, TipLe());
    MapPermutation(s, t, WriterOf);
    assert forall i, j :: 0 <= i < j < |s| ==> TipLe()(s[i], s[j]);
    assert forall i, j :: 0 <= i < j < |t| ==> TipLe()(t[i], t[j]);
    SortedUnique(Map(s, WriterOf), Map(t, WriterOf), LexLe);
  }

  function WriterOf(t: WriterTip): (w: string) {
    t.writer
  }

  /** For one writer the text is unambiguous whatever the hash. */
  lemma OneWritersText(a: WriterTip, b: WriterTip)
    requires a.writer == b.writer && TipText(a) == TipText(b)
    ensures a == b
  {
    var n := |a.writer| + 1;
    assert TipText(a)[n..] == Decimal(a.seqNo) + ":" + a.contentHash;
    assert TipText(b)[n..] == Decimal(b.seqNo) + ":" + b.contentHash;
    DigitsHaveNoColon(a.seqNo);
    DigitsHaveNoColon(b.seqNo);
    SplitAtFirstColon(Decimal(a.seqNo), a.contentHash, Decimal(b.seqNo), b.contentHash);
    DecimalInjective(a.seqNo, b.seqNo);
  }

  lemma EqualRootsEqualLists(h: Hash, a: seq<WriterTip>, b: seq<WriterTip>)
    requires multiset(a) == multiset(b) && MerkleRootOf(h, a) == MerkleRootOf(h, b)
    ensures || SortBy(a, TipLe()) == SortBy(b, TipLe())
            || CollisionWithin(h, RootInputs(h, SortBy(a, TipLe())) + RootInputs(h, SortBy(b, TipLe())))
  {
    var s, t := SortBy(a, TipLe()), SortBy(b, TipLe());
    MultisetSize(a);
    MultisetSize(b);
    EqualRootsEqualTexts(h, a, b);
    if SameTexts(s, t) {
      SameWriters(a, b);
      forall i | 0 <= i < |s|
        ensures s[i] == t[i]
      {
        assert Map(s, WriterOf)[i] == Map(t, WriterOf)[i];
        OneWritersText(s[i], t[i]);
      }
    }
  }

  /** The sort is stable, so the tip moved to the front comes first among those of its writer. */
  lemma FrontTipFirst(tips: seq<WriterTip>, i: nat)
    requires i < |tips|
    ensures var own := Filter(SortBy(ToFront(tips, i), TipLe()), (t: WriterTip) => t.writer == tips[i].writer);
            own != [] && own[0] == tips[i]
  {
    var keep := (t: WriterTip) => t.writer == tips[i].writer;
    TipOrder();
    assert LexLe(tips[i].writer, tips[i].writer) by {
      LexTotal(tips[i].writer, tips[i].writer);
    }
    assert IsClass(TipLe(), keep);
    SortByStable(ToFront(tips, i), TipLe(), keep);
  }

  /** Two different tips of one writer: whichever is handed over first makes a different root. */
  lemma OrderMatters(h: Hash, tips: seq<WriterTip>, i: nat, j: nat)
    requires i < |tips| && j < |tips| && tips[i].writer == tips[j].writer && tips[i] != tips[j]
    ensures MerkleRootOf(h, ToFront(tips, i)) != MerkleRootOf(h, ToFront(tips, j)) || FrontsCollide(h, tips, i, j)
  {
    FrontTipFirst(tips, i);
    FrontTipFirst(tips, j);
    if MerkleRootOf(h, ToFront(tips, i)) == MerkleRootOf(h, ToFront(tips, j)) {
      EqualRootsEqualLists(h, ToFront(tips, i), ToFront(tips, j));
      assert ((t: WriterTip) => t.writer == tips[i].writer) == ((t: WriterTip) => t.writer == tips[j].writer);
    }
  }

  /** The root is independent of the order of the tips if and only if no writer has two different
      tips, or a collision lies among what was hashed for two rearrangements. */
  lemma RootOrderExactly(h: Hash, tips: seq<WriterTip>)
    ensures (RootOrderFree(h, tips) <==> DistinctWriters(tips)) || RearrangedCollide(h, tips)
  {
    if DistinctWriters(tips) {
      forall other | multiset(tips) == multiset(other)
        ensures MerkleRootOf(h, tips) == MerkleRootOf(h, other)
      {
        RootOrderIndependent(h, tips, other);
      }
    } else {
      var a, b :| a in tips && b in tips && a.writer == b.writer && a != b;
      var i: nat :| i < |tips| && tips[i] == a;
      var j: nat :| j < |tips| && tips[j] == b;
      OrderMatters(h, tips, i, j);
    }
  }
}
