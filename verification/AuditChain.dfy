/** The per-writer hash chain state and its Merkle batches. */
module AuditChain {
  import opened ByteStrings
  import opened Options
  import Merkle

  /** The chain's fields as a value, for reasoning about runs. */
  datatype ChainState = ChainState(lastHash: string, sequence: nat, batch: seq<Digest>, batchSize: nat)

  function Fresh(batchSize: nat): (c: ChainState) {
    ChainState("", 0, [], batchSize)
  }

  function Resumed(lastHash: string, sequence: nat, batchSize: nat): (c: ChainState) {
    ChainState(lastHash, sequence, [], batchSize)
  }

  function Advanced(h: Hash, c: ChainState, contentHash: string): (r: (ChainState, Option<string>)) {
    var batch := c.batch + [h(contentHash)];
    if |batch| >= c.batchSize
    then (ChainState(contentHash, c.sequence + 1, [], c.batchSize), Some(Hex(Merkle.Root(h, batch))))
    else (ChainState(contentHash, c.sequence + 1, batch, c.batchSize), None)
  }

  class Chain {
    var lastHash: string
    var sequence: nat
    var batchBuffer: seq<Digest>
    const batchSize: nat

    function State(): (c: ChainState)
      reads this
    {
      ChainState(lastHash, sequence, batchBuffer, batchSize)
    }

    constructor New(batchSize: nat)
      ensures State() == Fresh(batchSize)
    {
      this.lastHash := "";
      this.sequence := 0;
      this.batchBuffer := [];
      this.batchSize := batchSize;
    }

    constructor Resume(lastHash: string, sequence: nat, batchSize: nat)
      ensures State() == Resumed(lastHash, sequence, batchSize)
    {
      this.lastHash := lastHash;
      this.sequence := sequence;
      this.batchBuffer := [];
      this.batchSize := batchSize;
    }

    method Advance(h: Hash, contentHash: string) returns (root: Option<string>)
      modifies this
      ensures (State(), root) == Advanced(h, old(State()), contentHash)
    {
      lastHash := contentHash;
      sequence := sequence + 1;
      batchBuffer := batchBuffer + [h(contentHash)];
      if |batchBuffer| >= batchSize {
        var r := Merkle.ComputeRoot(h, batchBuffer);
        batchBuffer := [];
        root := Some(Hex(r));
      } else {
        root := None;
      }
    }
  }

  // ---- Runs of advances ----

  /** The state after advancing over `hashes` from `c`. */
  function AfterAll(h: Hash, c: ChainState, hashes: seq<string>): (r: ChainState) {
    if hashes == [] then c
    else Advanced(h, AfterAll(h, c, hashes[..|hashes| - 1]), hashes[|hashes| - 1]).0
  }

  /** The root emitted by advance number `k` (from 0). */
  function RootAt(h: Hash, c: ChainState, hashes: seq<string>, k: nat): (r: Option<string>)
    requires k < |hashes|
  {
    Advanced(h, AfterAll(h, c, hashes[..k]), hashes[k]).1
  }

  function Leaves(h: Hash, hashes: seq<string>): (r: seq<Digest>)
    ensures |r| == |hashes|
  {
    seq<Digest>(|hashes|, i requires 0 <= i < |hashes| => h(hashes[i]))
  }

  function Period(batchSize: nat): (m: nat)
    ensures m >= 1
  {
    if batchSize == 0 then 1 else batchSize
  }

  /** How many of `n` hashes are in the unfinished batch. */
  function Unfinished(n: nat, m: nat): (r: nat)
    requires m >= 1
    ensures r < m && r <= n
  {
    if n == 0 || Unfinished(n - 1, m) + 1 == m then 0 else Unfinished(n - 1, m) + 1
  }

  lemma UnfinishedIsRemainder(n: nat, m: nat)
    requires m >= 1
    ensures Unfinished(n, m) == n % m
  {
    var q := FinishedBatches(n, m);
    RemainderOf(q, m, Unfinished(n, m));
  }

  lemma {:induction false} FinishedBatches(n: nat, m: nat) returns (q: nat)
    requires m >= 1
    ensures n == q * m + Unfinished(n, m)
  {
    q := 0;
    if n > 0 {
      q := FinishedBatches(n - 1, m);
      if Unfinished(n, m) == 0 {
        assert (q + 1) * m == q * m + m;
        q := q + 1;
      }
    }
  }

  lemma RemainderOf(q: nat, m: nat, r: nat)
    requires r < m
    ensures (q * m + r) % m == r
  {
    var x := q * m + r;
    var d := x / m - q;
    assert d * m == (x / m) * m - q * m == r - x % m;
    MultipleBound(d, m);
  }

  lemma MultipleBound(d: int, m: nat)
    ensures d >= 1 ==> d * m >= m
    ensures d <= -1 ==> d * m + m <= 0
  {
  }

  lemma LeavesAppend(h: Hash, hashes: seq<string>, from: nat, k: nat)
    requires from <= k < |hashes|
    ensures Leaves(h, hashes[..k][from..]) + [h(hashes[k])] == Leaves(h, hashes[from..k + 1])
  {
  }

  /** After any number of advances the sequence has moved by exactly that number, the last
      hash is the newest, and the buffer holds exactly the hashes since the last full batch. */
  lemma {:induction false} ChainAfterAdvances(h: Hash, c: ChainState, hashes: seq<string>)
    requires c.batch == []
    ensures var r := AfterAll(h, c, hashes);
            && r.sequence == c.sequence + |hashes|
            && r.lastHash == (if hashes == [] then c.lastHash else hashes[|hashes| - 1])
            && r.batchSize == c.batchSize
            && r.batch == Leaves(h, hashes[|hashes| - Unfinished(|hashes|, Period(c.batchSize))..])
  {
    var n, m := |hashes|, Period(c.batchSize);
    if n > 0 {
      var front := hashes[..n - 1];
      ChainAfterAdvances(h, c, front);
      LeavesAppend(h, hashes, n - 1 - Unfinished(n - 1, m), n - 1);
      assert hashes[..n] == hashes;
    }
  }

  /** A root is emitted at exactly the multiples of the batch size (a batch size of 0 acts
      as 1), and it is the root of exactly the hashes since the previous one. */
  lemma RootsCoverTheLog(h: Hash, c: ChainState, hashes: seq<string>, k: nat)
    requires c.batch == [] && k < |hashes|
    ensures RootAt(h, c, hashes, k).Some? <==> (k + 1) % Period(c.batchSize) == 0
    ensures RootAt(h, c, hashes, k).Some? ==>
              && Period(c.batchSize) <= k + 1
              && RootAt(h, c, hashes, k).value == Hex(Merkle.Root(h, Leaves(h, hashes[k + 1 - Period(c.batchSize)..k + 1])))
  {
    var m := Period(c.batchSize);
    ChainAfterAdvances(h, c, hashes[..k]);
    UnfinishedIsRemainder(k + 1, m);
    LeavesAppend(h, hashes, k - Unfinished(k, m), k);
  }
}
