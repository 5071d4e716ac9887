/** The audit logger: the in-memory backend and the task that serves one replica's commands,
    as imperative code proved to take exactly the protocol's steps. */
module Logger {
  import opened ByteStrings
  import opened Sorting
  import opened AuditLog
  import opened Options
  import opened AuditChain
  import opened Findings
  import opened Protocol

  /** `m.values()` of the `BTreeMap`, each turned into a tip. */
  method TipsByKey(m: map<string, AuditEntry>, keys: seq<string>, ghost entries: seq<AuditEntry>) returns (tips: seq<WriterTip>)
    requires m == TipMap(entries) && keys == Writers(entries)
    ensures tips == AllTips(entries)
  {
    var order := SortBy(keys, LexLe);
    forall i | 0 <= i < |order|
      ensures order[i] in m && AllTips(entries)[i] == TipOf(m[order[i]])
    {
      AllTipsByKey(entries, order, i);
    }
    tips := TipsInOrder(m, order, AllTips(entries));
  }

  method TipsInOrder(m: map<string, AuditEntry>, order: seq<string>, ghost all: seq<WriterTip>) returns (tips: seq<WriterTip>)
    requires |all| == |order| && forall i :: 0 <= i < |order| ==> order[i] in m && all[i] == TipOf(m[order[i]])
    ensures tips == all
  {
    tips := [];
    for j := 0 to |order|
      invariant tips == all[..j]
    {
      tips := tips + [TipOf(m[order[j]])];
    }
  }

  class MemBackend {
    var entries: seq<AuditEntry>
    var checkpoints: seq<AuditCheckpoint>

    function State(): (s: Store)
      reads this
    {
      Store(entries, checkpoints)
    }

    constructor ()
      ensures State() == EMPTY.store
    {
      entries, checkpoints := [], [];
    }

    method AppendEntry(e: AuditEntry)
      modifies this
      ensures State() == Store(old(entries) + [e], old(checkpoints))
    {
      entries := entries + [e];
    }

    method WriterTip(w: string) returns (tip: Option<(nat, string)>)
      ensures tip == match WriterTipOf(entries, w) case Some(e) => Some((e.content.sequence, e.contentHash)) case None => None
    {
      var best: Option<AuditEntry> := None;
      var i := 0;
      while i < |entries|
        invariant 0 <= i <= |entries|
        invariant best == WriterTipOf(entries[..i], w)
      {
        var e := entries[i];
        assert entries[..i + 1][..i] == entries[..i];
        if e.content.writer == w && (best.None? || best.value.content.sequence <= e.content.sequence) {
          best := Some(e);
        }
        i := i + 1;
      }
      assert entries[..|entries|] == entries;
      tip := match best case Some(e) => Some((e.content.sequence, e.contentHash)) case None => None;
    }

    /** The `BTreeMap` of newest entries, and its keys as first met. */
    method NewestByWriter() returns (m: map<string, AuditEntry>, keys: seq<string>)
      ensures m == TipMap(entries) && keys == Writers(entries)
    {
      m, keys := map[], [];
      var i := 0;
      while i < |entries|
        invariant 0 <= i <= |entries|
        invariant m == TipMap(entries[..i]) && keys == Writers(entries[..i])
      {
        var e := entries[i];
        assert entries[..i + 1][..i] == entries[..i];
        WritersHaveTips(entries[..i]);
        if e.content.writer in m {
          if e.content.sequence > m[e.content.writer].content.sequence {
            m := m[e.content.writer := e];
          }
        } else {
          m := m[e.content.writer := e];
          keys := keys + [e.content.writer];
        }
        i := i + 1;
      }
      assert entries[..|entries|] == entries;
    }

    method AllWriterTips() returns (tips: seq<WriterTip>)
      ensures tips == AllTips(entries)
    {
      var m, keys := NewestByWriter();
      tips := TipsByKey(m, keys, entries);
    }

    /** The logger's `build` closure, on the next sequence and the previous hash. */
    method BuildNext(id: Identity, tips: seq<WriterTip>, at: Moment) returns (cp: AuditCheckpoint)
      ensures cp == NextCheckpoint(id, State(), tips, at)
    {
      var seqNo, prev := 0, "";
      if checkpoints != [] {
        seqNo := checkpoints[|checkpoints| - 1].content.seqNo + 1;
        prev := checkpoints[|checkpoints| - 1].contentHash;
      }
      cp := BuildWith(id.checks, seqNo, prev, tips, at.timestamp);
      var sig := id.sign(cp.contentHash, at.nonce);
      if sig.Some? {
        cp := cp.(signature := sig.value);
      }
    }

    /** `MemBackend::commit_checkpoint`. */
    method CommitCheckpoint(id: Identity, at: Moment) returns (r: Option<AuditCheckpoint>)
      modifies this
      ensures State() == Committed(id, old(State()), at)
      ensures r == if AllTips(old(entries)) == [] then None else Some(NextCheckpoint(id, old(State()), AllTips(old(entries)), at))
    {
      var tips := AllWriterTips();
      if tips == [] {
        return None;
      }
      var cp := BuildNext(id, tips, at);
      checkpoints := checkpoints + [cp];
      r := Some(cp);
    }
  }

  /** What arrives on a replica's channel. */
  datatype Command =
    | LogEvent(event: Event, stored: bool)
    | CheckpointNow(at: Moment)
    | Flush
    | Stop(at: Moment)

  function StepOf(w: string, cmd: Command): (r: seq<Step>) {
    match cmd
    case LogEvent(event, stored) => [Log(w, event, stored)]
    case CheckpointNow(at) => [Checkpoint(w, at)]
    case Flush => []
    case Stop(at) => [Shutdown(w, at)]
  }

  /** The protocol steps of a task: it starts, serves commands up to a stop, and if the channel
      closes first it just ends. */
  function ServedSteps(w: string, cmds: seq<Command>): (r: seq<Step>) {
    if cmds == [] then [Crash(w)]
    else if cmds[0].Stop? then StepOf(w, cmds[0])
    else StepOf(w, cmds[0]) + ServedSteps(w, cmds[1..])
  }

  predicate Works(cmd: Command) {
    cmd.LogEvent? || cmd.CheckpointNow?
  }

  function Worked(w: string): (f: Command -> Step) {
    (cmd: Command) =>
      if cmd.LogEvent? then Log(w, cmd.event, cmd.stored) else if cmd.CheckpointNow? then Checkpoint(w, cmd.at) else Crash(w)
  }

  /** What a task does for some commands before it ends. */
  function Work(w: string, cmds: seq<Command>): (r: seq<Step>) {
    Map(Filter(cmds, Works), Worked(w))
  }

  lemma WorkOn(w: string, cmd: Command, cmds: seq<Command>)
    requires !cmd.Stop?
    ensures Work(w, [cmd] + cmds) == StepOf(w, cmd) + Work(w, cmds)
  {
    FilterCons(cmd, cmds, Works);
    var kept, f := Filter(cmds, Works), Worked(w);
    hide Filter;
    hide Map;
    if Works(cmd) {
      MapFirst(cmd, kept, f);
      assert StepOf(w, cmd) == [f(cmd)];
    } else {
      assert StepOf(w, cmd) == [];
    }
  }

  /** The task logs and checkpoints exactly what it is told before the first stop, in that order; it
      shuts down at the stop, or ends without one. */
  lemma {:induction false} ServesUntilStop(w: string, cmds: seq<Command>) returns (n: nat)
    ensures n <= |cmds| && (forall i :: 0 <= i < n ==> !cmds[i].Stop?) && (n < |cmds| ==> cmds[n].Stop?)
    ensures ServedSteps(w, cmds) == Work(w, cmds[..n]) + [if n < |cmds| then Shutdown(w, cmds[n].at) else Crash(w)]
    decreases |cmds|
  {
    if cmds == [] || cmds[0].Stop? {
      n := 0;
    } else {
      hide StepOf;
      hide Work;
      var m := ServesUntilStop(w, cmds[1..]);
      n := m + 1;
      assert cmds[..n] == [cmds[0]] + cmds[1..][..m];
      WorkOn(w, cmds[0], cmds[1..][..m]);
      assert forall i :: 0 < i < n ==> cmds[i] == cmds[1..][i - 1];
    }
  }

  function ExecFrom(id: Identity, sys: System, steps: seq<Step>): (r: System)
    decreases |steps|
  {
    if steps == [] then sys else ExecFrom(id, Next(id, sys, steps[0]), steps[1..])
  }

  /** A task's steps continue whatever run led to the state it starts in. */
  lemma {:induction false} ExecContinues(id: Identity, before: seq<Step>, steps: seq<Step>)
    ensures ExecFrom(id, Exec(id, before), steps) == Exec(id, before + steps)
    decreases |steps|
  {
    if steps == [] {
      assert before + steps == before;
    } else {
      var more := before + [steps[0]];
      assert more[..|more| - 1] == before;
      ExecContinues(id, more, steps[1..]);
      assert more + steps[1..] == before + steps;
    }
  }

  lemma {:induction false} ExecFromAppend(id: Identity, sys: System, a: seq<Step>, b: seq<Step>)
    ensures ExecFrom(id, sys, a + b) == ExecFrom(id, ExecFrom(id, sys, a), b)
    decreases |a|
  {
    if a == [] {
      assert a + b == b;
    } else {
      assert (a + b)[1..] == a[1..] + b;
      ExecFromAppend(id, Next(id, sys, a[0]), a[1..], b);
    }
  }

  /** One `Log` command: build, hash, sign, advance, append; a failed signature skips the entry. */
  method ServeLog(id: Identity, backend: MemBackend, chain: Chain, w: string, event: Event, stored: bool, ghost live: map<string, ChainState>)
    requires w in live && live[w] == chain.State()
    modifies backend, chain
    ensures System(backend.State(), live[w := chain.State()]) == AfterLog(id, System(old(backend.State()), live), w, event, stored)
  {
    var content := EntryContent(event.uuid, event.at.timestamp, w, chain.sequence, event.session, event.body, chain.lastHash);
    var hash := id.checks.entryHash(content);
    var sig := id.sign(hash, event.at.nonce);
    if sig.None? {
      assert live[w := chain.State()] == live;
      return;
    }
    var root := chain.Advance(id.sha3, hash);
    if stored {
      backend.AppendEntry(AuditEntry(content, hash, sig.value, root));
    }
  }

  method OpenChain(backend: MemBackend, w: string, batchSize: nat) returns (chain: Chain)
    ensures fresh(chain) && chain.State() == Opened(backend.entries, w, batchSize)
  {
    var tip := backend.WriterTip(w);
    if tip.Some? {
      chain := new Chain.Resume(tip.value.1, tip.value.0 + 1, batchSize);
    } else {
      chain := new Chain.New(batchSize);
    }
  }

  /** One command of the task's loop. */
  method Serve(id: Identity, backend: MemBackend, chain: Chain, w: string, cmd: Command, ghost others: map<string, ChainState>)
    requires w !in others
    modifies backend, chain
    ensures var done := ExecFrom(id, System(old(backend.State()), others[w := old(chain.State())]), StepOf(w, cmd));
            System(backend.State(), if cmd.Stop? then others else others[w := chain.State()]) == done
  {
    hide AfterLog;
    hide Committed;
    hide ExecFrom;
    ghost var now := System(backend.State(), others[w := chain.State()]);
    match cmd {
      case LogEvent(event, stored) =>
        OneStep(id, now, Log(w, event, stored));
        ServeLog(id, backend, chain, w, event, stored, others[w := chain.State()]);
        assert others[w := now.live[w]][w := chain.State()] == others[w := chain.State()];
      case CheckpointNow(at) =>
        OneStep(id, now, Checkpoint(w, at));
        var _ := backend.CommitCheckpoint(id, at);
      case Flush =>
        NoStep(id, now);
      case Stop(at) =>
        OneStep(id, now, Shutdown(w, at));
        assert others[w := chain.State()] - {w} == others;
        var _ := backend.CommitCheckpoint(id, at);
    }
  }

  /** `writer_task` beside any other replicas: the system ends up exactly as the protocol steps leave it. */
  method WriterTask(id: Identity, backend: MemBackend, w: string, batchSize: nat, cmds: seq<Command>, ghost others: map<string, ChainState>)
    requires w !in others
    modifies backend
    ensures System(backend.State(), others) == ExecFrom(id, System(old(backend.State()), others), [Start(w, batchSize)] + ServedSteps(w, cmds))
  {
    ghost var start := System(backend.State(), others);
    var chain := OpenChain(backend, w, batchSize);
    ghost var ready := Next(id, start, Start(w, batchSize));
    assert ([Start(w, batchSize)] + ServedSteps(w, cmds))[1..] == ServedSteps(w, cmds);
    var i := 0;
    while i < |cmds|
      invariant 0 <= i <= |cmds| && fresh(chain)
      invariant ExecFrom(id, System(backend.State(), others[w := chain.State()]), ServedSteps(w, cmds[i..])) == ExecFrom(id, ready, ServedSteps(w, cmds))
    {
      ghost var now := System(backend.State(), others[w := chain.State()]);
      assert cmds[i..][1..] == cmds[i + 1..];
      Serve(id, backend, chain, w, cmds[i], others);
      if cmds[i].Stop? {
        return;
      }
      ExecFromAppend(id, now, StepOf(w, cmds[i]), ServedSteps(w, cmds[i + 1..]));
      i := i + 1;
    }
    assert cmds[i..] == [];
    assert others[w := chain.State()] - {w} == others;
    OneStep(id, System(backend.State(), others[w := chain.State()]), Crash(w));
  }

  lemma NoStep(id: Identity, sys: System)
    ensures ExecFrom(id, sys, []) == sys
  {
  }

  lemma OneStep(id: Identity, sys: System, step: Step)
    ensures ExecFrom(id, sys, [step]) == Next(id, sys, step)
  {
    assert [step][1..] == [];
  }
}
