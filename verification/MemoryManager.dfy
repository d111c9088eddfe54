/** The memory manager: a log of Merkle-proved accesses and the running root. */
module MemoryManager {
  import opened Arithmetic
  import opened Common
  import opened Merkle

  datatype ReadWrite = ReadWrite(wasRead: bool, position: nat, value: Word)

  datatype MMState = WaitingProofs | WaitingReplay | FinishedReplay

  datatype MMCtx = MMCtx(
    owner: Address,
    provider: Address,
    initialHash: Hash,
    newHash: Hash,
    history: seq<ReadWrite>,
    currentState: MMState)

  datatype Move =
    | ProveRead(position: nat, value: Word, proof: seq<Hash>)
    | ProveWrite(position: nat, oldValue: Word, newValue: Word, proof: seq<Hash>)
    | FinishProofPhase
    | FinishReplayPhase

  function Create(owner: Address, provider: Address, initialHash: Hash): MMCtx {
    MMCtx(owner, provider, initialHash, initialHash, [], WaitingProofs)
  }

  /** One public call on one instance; None is a revert. */
  function Apply(depth: nat, c: MMCtx, caller: Address, move: Move): Option<MMCtx> {
    match move
    case ProveRead(position, value, proof) =>
      if caller != c.provider || c.currentState != WaitingProofs then None
      else if GetRoot(depth, position, value, proof) != Some(c.newHash) then None
      else Some(c.(history := c.history + [ReadWrite(true, position, value)]))
    case ProveWrite(position, oldValue, newValue, proof) =>
      if caller != c.provider || c.currentState != WaitingProofs then None
      else if GetRoot(depth, position, oldValue, proof) != Some(c.newHash) then None
      else
        var updated := GetRoot(depth, position, newValue, proof);
        if updated.None? then None
        else Some(c.(newHash := updated.value, history := c.history + [ReadWrite(false, position, newValue)]))
    case FinishProofPhase =>
      if caller != c.provider || c.currentState != WaitingProofs then None
      else Some(c.(currentState := WaitingReplay))
    case FinishReplayPhase =>
      if caller != c.owner || c.currentState != WaitingReplay then None
      else Some(c.(history := [], currentState := FinishedReplay))
  }

  /** getMaxInstanceDuration: proofs, replay, and the proofs again. */
  function MaxInstanceDuration(roundDuration: nat, timeToStart: nat): nat {
    var proofs := Add(timeToStart, Mul(2, roundDuration));
    Add(Add(proofs, roundDuration), proofs)
  }

  // ----- an ordinary memory -----

  /** The memory once the log's writes have been made in order. */
  function Written(m: Memory, log: seq<ReadWrite>): (m': Memory)
    ensures |m'| == |m|
  {
    if log == [] then m
    else
      var before, last := Written(m, log[..|log| - 1]), log[|log| - 1];
      if last.wasRead || last.position / 8 >= |m| then before
      else before[last.position / 8 := last.value]
  }

  /** Entry i addresses an aligned word, and if it is a read it holds what memory held then. */
  ghost predicate TrueAt(m: Memory, log: seq<ReadWrite>, i: nat)
    requires i < |log|
  {
    && log[i].position % 8 == 0
    && log[i].position / 8 < |m|
    && (log[i].wasRead ==> Written(m, log[..i])[log[i].position / 8] == log[i].value)
  }

  ghost predicate Truthful(m: Memory, log: seq<ReadWrite>) {
    forall i :: 0 <= i < |log| ==> TrueAt(m, log, i)
  }

  lemma TruthfulPush(m: Memory, log: seq<ReadWrite>, rw: ReadWrite)
    ensures Truthful(m, log + [rw]) <==> Truthful(m, log) && TrueAt(m, log + [rw], |log|)
  {
    var pushed := log + [rw];
    assert forall i :: 0 <= i < |log| ==> pushed[..i] == log[..i] && pushed[i] == log[i];
    assert forall i :: 0 <= i < |log| ==> (TrueAt(m, pushed, i) <==> TrueAt(m, log, i));
  }

  // ----- log soundness -----

  /** The log and its running root agree with memory m. */
  ghost predicate Sound(depth: nat, m: Memory, c: MMCtx)
    requires Shaped(m, depth)
  {
    && Truthful(m, c.history)
    && c.newHash == Root(Written(m, c.history), depth)
  }

  /** A read is accepted exactly when it is the value memory holds, with its real path. */
  lemma ProveReadExact(depth: nat, m: Memory, c: MMCtx, caller: Address, position: nat, value: Word, proof: seq<Hash>)
    requires Shaped(m, depth) && Sound(depth, m, c)
    ensures var now := Written(m, c.history);
      Apply(depth, c, caller, ProveRead(position, value, proof)).Some?
      <==> caller == c.provider && c.currentState == WaitingProofs
           && InSpace(depth, position) && position % 8 == 0
           && value == now[position / 8] && proof == Path(now, depth, position / 8)
  {
    GetRootOfMemory(Written(m, c.history), depth, position, value, proof, value);
  }

  /** A write is accepted exactly when it names the value it overwrites, with its real path. */
  lemma ProveWriteExact(depth: nat, m: Memory, c: MMCtx, caller: Address, position: nat, oldValue: Word, newValue: Word, proof: seq<Hash>)
    requires Shaped(m, depth) && Sound(depth, m, c)
    ensures var now := Written(m, c.history);
      Apply(depth, c, caller, ProveWrite(position, oldValue, newValue, proof)).Some?
      <==> caller == c.provider && c.currentState == WaitingProofs
           && InSpace(depth, position) && position % 8 == 0
           && oldValue == now[position / 8] && proof == Path(now, depth, position / 8)
  {
    GetRootOfMemory(Written(m, c.history), depth, position, oldValue, proof, newValue);
  }

  lemma SoundStep(depth: nat, m: Memory, c: MMCtx, caller: Address, move: Move)
    requires Shaped(m, depth) && Sound(depth, m, c)
    requires Apply(depth, c, caller, move).Some? && !move.FinishReplayPhase?
    ensures Sound(depth, m, Apply(depth, c, caller, move).value)
  {
    var now, c' := Written(m, c.history), Apply(depth, c, caller, move).value;
    match move
    case ProveRead(position, value, proof) =>
      GetRootOfMemory(now, depth, position, value, proof, value);
      TruthfulPush(m, c.history, ReadWrite(true, position, value));
      assert c'.history[..|c.history|] == c.history;
    case ProveWrite(position, oldValue, newValue, proof) =>
      GetRootOfMemory(now, depth, position, oldValue, proof, newValue);
      TruthfulPush(m, c.history, ReadWrite(false, position, newValue));
      assert c'.history[..|c.history|] == c.history;
    case FinishProofPhase =>
  }

  datatype Call = Call(caller: Address, move: Move)

  /** A run of calls by anybody; a reverted call leaves the instance as it was. */
  function Run(depth: nat, c: MMCtx, calls: seq<Call>): MMCtx
    decreases |calls|
  {
    if calls == [] then c
    else
      var next := Apply(depth, c, calls[0].caller, calls[0].move);
      Run(depth, if next.Some? then next.value else c, calls[1..])
  }

  lemma {:induction false} SoundRun(depth: nat, m: Memory, c: MMCtx, calls: seq<Call>)
    requires Shaped(m, depth)
    requires c.currentState != FinishedReplay ==> Sound(depth, m, c)
    ensures var d := Run(depth, c, calls); d.currentState != FinishedReplay ==> Sound(depth, m, d)
    decreases |calls|
  {
    if calls != [] {
      var next := Apply(depth, c, calls[0].caller, calls[0].move);
      if next.Some? && !calls[0].move.FinishReplayPhase? {
        SoundStep(depth, m, c, calls[0].caller, calls[0].move);
      }
      SoundRun(depth, m, if next.Some? then next.value else c, calls[1..]);
    }
  }

  /** Log soundness: from the root of m, whatever calls are made by whomever, the running
      root is the root of m with the logged writes applied in order, and every logged read
      is the value memory held at that point of the log. */
  lemma LogSoundness(depth: nat, m: Memory, owner: Address, provider: Address, calls: seq<Call>)
    requires Shaped(m, depth)
    ensures var d := Run(depth, Create(owner, provider, Root(m, depth)), calls);
      d.currentState != FinishedReplay ==>
        && d.newHash == Root(Written(m, d.history), depth)
        && Truthful(m, d.history)
  {
    SoundRun(depth, m, Create(owner, provider, Root(m, depth)), calls);
  }
}
