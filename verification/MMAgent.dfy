/** The agent that feeds a step's log to the memory manager, entry by entry. */
module MMAgent {
  import opened Arithmetic
  import opened Common
  import opened Merkle
  import opened MemoryManager
  import opened Machine
  import opened PartitionAgent

  // one entry of the emulator's step log; its siblings come root first
  datatype Access = Access(isRead: bool, address: nat, valueRead: Word, valueWritten: Word, siblings: seq<Hash>)

  function Reversed(s: seq<Hash>): seq<Hash> {
    seq(|s|, i requires 0 <= i < |s| => s[|s| - 1 - i])
  }

  /** MM::react. */
  function ReactMM(c: MMCtx, divergenceTime: nat, stepLog: seq<Access>): Reaction<Move> {
    if c.currentState != WaitingProofs then Idle
    else if divergenceTime >= U64 then Fail(Overflow)
    else if |c.history| >= |stepLog| then Send(FinishProofPhase)
    else
      var access := stepLog[|c.history|];
      var siblings := Reversed(access.siblings);
      if access.isRead then Send(ProveRead(access.address, access.valueRead, siblings))
      else Send(ProveWrite(access.address, access.valueRead, access.valueWritten, siblings))
  }

  /** The emulator's log of a true step: the value each access meets and its branch in the
      memory of that moment. */
  function EmulatorLog(depth: nat, m: Memory, log: seq<ReadWrite>): (entries: seq<Access>)
    requires Shaped(m, depth)
    ensures |entries| == |log|
  {
    seq(|log|, i requires 0 <= i < |log| =>
      var before := Written(m, log[..i]);
      var index := log[i].position / 8;
      if index < |before| then
        Access(log[i].wasRead, log[i].position, before[index], log[i].value, Reversed(Path(before, depth, index)))
      else Access(log[i].wasRead, log[i].position, 0, log[i].value, []))
  }

  // the entries the emulator reports for step t
  ghost function StepLog(truth: Truth, t: nat): seq<Access>
    requires TrueRun(truth)
  {
    EmulatorLog(truth.depth, truth.mem(t), truth.log(t))
  }

  /** The instance has been fed a prefix of a log from the root of m, and nothing else. */
  ghost predicate Fed(depth: nat, m: Memory, log: seq<ReadWrite>, c: MMCtx) {
    && Shaped(m, depth)
    && |c.history| <= |log|
    && c.history == log[..|c.history|]
    && c.newHash == Root(Written(m, c.history), depth)
    && (c.currentState == WaitingReplay ==> c.history == log)
    && c.currentState != FinishedReplay
  }

  /** It has been fed a prefix of the true log of step t. */
  ghost predicate OnTrack(truth: Truth, t: nat, c: MMCtx)
    requires TrueRun(truth)
  {
    Fed(truth.depth, truth.mem(t), truth.log(t), c)
  }

  lemma ReversedTwice(s: seq<Hash>)
    ensures Reversed(Reversed(s)) == s
  {
  }

  // what the emulator reports for entry k
  lemma EntryOf(truth: Truth, t: nat, k: nat)
    requires TrueRun(truth) && k < |truth.log(t)|
    ensures var now, rw := Written(truth.mem(t), truth.log(t)[..k]), truth.log(t)[k];
      var index := rw.position / 8;
      && Shaped(now, truth.depth) && rw.position % 8 == 0 && index < |now|
      && Shaped(now[index := rw.value], truth.depth) && |StepLog(truth, t)| == |truth.log(t)|
      && (rw.wasRead ==> now[index] == rw.value)
      && StepLog(truth, t)[k] == Access(rw.wasRead, rw.position, now[index], rw.value, Reversed(Path(now, truth.depth, index)))
  {
    assert TrueAt(truth.mem(t), truth.log(t), k);
    hide Path, Reversed, Root, Written, Pow2;
  }

  // what entry k does to memory
  lemma WrittenNext(m: Memory, log: seq<ReadWrite>, k: nat)
    requires k < |log| && log[k].position / 8 < |m|
    ensures var now := Written(m, log[..k]);
      Written(m, log[..k + 1]) == if log[k].wasRead then now else now[log[k].position / 8 := log[k].value]
  {
    assert log[..k + 1][..k] == log[..k];
  }

  lemma WordInSpace(m: Memory, depth: nat, position: nat)
    requires Shaped(m, depth) && position / 8 < |m|
    ensures InSpace(depth, position)
  {
  }

  // the proof of an access is accepted at the root of the memory it is made on
  lemma ProofAccepted(depth: nat, now: Memory, c: MMCtx, rw: ReadWrite)
    requires Shaped(now, depth) && c.newHash == Root(now, depth) && c.currentState == WaitingProofs
    requires rw.position % 8 == 0 && rw.position / 8 < |now| && (rw.wasRead ==> now[rw.position / 8] == rw.value)
    ensures var index := rw.position / 8;
      var path := Path(now, depth, index);
      Apply(depth, c, c.provider, if rw.wasRead then ProveRead(rw.position, rw.value, path)
                                  else ProveWrite(rw.position, now[index], rw.value, path))
      == Some(c.(newHash := if rw.wasRead then c.newHash else Root(now[index := rw.value], depth),
                 history := c.history + [rw]))
  {
    hide Root, Path, Shaped, GetRoot;
    WordInSpace(now, depth, rw.position);
    GetRootOfMemory(now, depth, rw.position, now[rw.position / 8], Path(now, depth, rw.position / 8), rw.value);
  }

  lemma FedOn(depth: nat, m: Memory, log: seq<ReadWrite>, c: MMCtx, c': MMCtx)
    requires Shaped(m, depth) && Fed(depth, m, log, c) && c.currentState == WaitingProofs && |c.history| < |log|
    requires log[|c.history|].position / 8 < |m|
    requires var now, rw := Written(m, c.history), log[|c.history|];
      c' == c.(newHash := if rw.wasRead then c.newHash else Root(now[rw.position / 8 := rw.value], depth),
               history := c.history + [rw])
    ensures Fed(depth, m, log, c')
  {
    var k := |c.history|;
    WrittenNext(m, log, k);
    assert log[..k + 1] == log[..k] + [log[k]];
    hide Written, Root, Shaped;
  }

  /** The next true entry is accepted, and the instance stays on track. */
  lemma EntryAccepted(truth: Truth, t: nat, c: MMCtx)
    requires TrueRun(truth) && OnTrack(truth, t, c) && c.currentState == WaitingProofs
    requires t < U64 && |c.history| < |truth.log(t)|
    ensures var r := ReactMM(c, t, StepLog(truth, t));
      && r.Send? && Apply(truth.depth, c, c.provider, r.call).Some?
      && var c' := Apply(truth.depth, c, c.provider, r.call).value;
         OnTrack(truth, t, c') && |c'.history| == |c.history| + 1 && c'.currentState == WaitingProofs
         && c'.provider == c.provider
  {
    hide Root, Path, Reversed, Shaped, Apply, StepLog, Written;
    var log, m, stepLog := truth.log(t), truth.mem(t), StepLog(truth, t);
    var now, rw := Written(m, c.history), log[|c.history|];
    EntryOf(truth, t, |c.history|);
    var index := rw.position / 8;
    ReversedTwice(Path(now, truth.depth, index));
    ProofAccepted(truth.depth, now, c, rw);
    var c' := c.(newHash := if rw.wasRead then c.newHash else Root(now[index := rw.value], truth.depth),
                 history := c.history + [rw]);
    FedOn(truth.depth, m, log, c, c');
    hide TrueRun, Fed;
    assert stepLog[|c.history|].isRead == rw.wasRead;
  }

  /** With the whole log in, the proof phase is closed. */
  lemma LogFinished(truth: Truth, t: nat, c: MMCtx)
    requires TrueRun(truth) && OnTrack(truth, t, c) && c.currentState == WaitingProofs
    requires t < U64 && |c.history| >= |truth.log(t)|
    ensures var r := ReactMM(c, t, StepLog(truth, t));
      && r.Send? && Apply(truth.depth, c, c.provider, r.call) == Some(c.(currentState := WaitingReplay))
      && OnTrack(truth, t, c.(currentState := WaitingReplay))
  {
  }

  /** MM::react along a true step: each of its transactions is accepted. */
  lemma ProverReacts(truth: Truth, t: nat, c: MMCtx)
    requires TrueRun(truth) && OnTrack(truth, t, c) && t < U64
    ensures var r := ReactMM(c, t, StepLog(truth, t));
      && (r.Send? <==> c.currentState == WaitingProofs) && !r.Fail?
      && (r.Send? ==>
            && Apply(truth.depth, c, c.provider, r.call).Some?
            && OnTrack(truth, t, Apply(truth.depth, c, c.provider, r.call).value))
  {
    if c.currentState == WaitingProofs && |c.history| < |truth.log(t)| {
      EntryAccepted(truth, t, c);
    } else if c.currentState == WaitingProofs {
      LogFinished(truth, t, c);
    }
  }

  /** n transactions of the agent, one after the other; a revert or an idle agent stops it. */
  function Drive(depth: nat, c: MMCtx, t: nat, stepLog: seq<Access>, n: nat): MMCtx
    decreases n
  {
    if n == 0 then c
    else
      var r := ReactMM(c, t, stepLog);
      var next := if r.Send? then Apply(depth, c, c.provider, r.call) else None;
      if next.None? then c else Drive(depth, next.value, t, stepLog, n - 1)
  }

  lemma {:induction false} DriveOn(truth: Truth, t: nat, c: MMCtx, n: nat)
    requires TrueRun(truth) && OnTrack(truth, t, c) && c.currentState == WaitingProofs && t < U64
    requires n <= |truth.log(t)| + 1 - |c.history|
    ensures var d := Drive(truth.depth, c, t, StepLog(truth, t), n);
      && OnTrack(truth, t, d)
      && (n <= |truth.log(t)| - |c.history| ==> d.currentState == WaitingProofs && |d.history| == |c.history| + n)
      && (n == |truth.log(t)| + 1 - |c.history| ==> d.currentState == WaitingReplay)
    decreases n
  {
    hide Apply, ReactMM, StepLog, Root, Written;
    if n > 0 {
      var r := ReactMM(c, t, StepLog(truth, t));
      if |c.history| < |truth.log(t)| {
        EntryAccepted(truth, t, c);
        DriveOn(truth, t, Apply(truth.depth, c, c.provider, r.call).value, n - 1);
      } else {
        LogFinished(truth, t, c);
      }
    }
  }

  /** An honest challenger can always prove it: from the true root at t, the agent's
      transactions are all accepted; the phase ends with exactly log length + 1 of them and
      not before, the history is the true log, the running root is the true root at t + 1,
      and the machine accepts the log. */
  lemma HonestProver(truth: Truth, t: nat, owner: Address, provider: Address, step: StepFn, machine: Address, n: nat)
    requires TrueRun(truth) && t < U64 && Runs(step, machine, truth.program)
    requires n <= |truth.log(t)| + 1
    ensures var d := Drive(truth.depth, Create(owner, provider, TrueHash(truth, t)), t, StepLog(truth, t), n);
      && (d.currentState == WaitingReplay <==> n == |truth.log(t)| + 1)
      && (n <= |truth.log(t)| ==> d.currentState == WaitingProofs && d.history == truth.log(t)[..n])
      && (d.currentState == WaitingReplay ==>
            && d.history == truth.log(t)
            && d.newHash == TrueHash(truth, t + 1)
            && Accepts(step, machine, d.history))
  {
    var c := Create(owner, provider, TrueHash(truth, t));
    assert Shaped(truth.mem(t), truth.depth);
    assert truth.log(t)[..0] == [];
    assert OnTrack(truth, t, c);
    DriveOn(truth, t, c, n);
  }
}
