/** The machine: a deterministic step that talks to memory one access at a time. */
module Machine {
  import opened Arithmetic
  import opened Common
  import opened Merkle
  import opened MemoryManager

  // what a step asks for next
  datatype Request = ReadAt(position: nat) | WriteAt(position: nat, value: Word) | Halt

  // a step is determined by the accesses answered so far
  type Program = seq<ReadWrite> -> Request

  predicate Answers(request: Request, rw: ReadWrite) {
    match request
    case ReadAt(position) => rw.wasRead && rw.position == position
    case WriteAt(position, value) => rw == ReadWrite(false, position, value)
    case Halt => false
  }

  /** The log holds exactly the accesses the step asks for, up to its end. */
  ghost predicate Complete(program: Program, log: seq<ReadWrite>) {
    && (forall i :: 0 <= i < |log| ==> Answers(program(log[..i]), log[i]))
    && program(log) == Halt
  }

  /** The log of the step run on memory m. */
  ghost predicate TraceOn(program: Program, m: Memory, log: seq<ReadWrite>) {
    Complete(program, log) && Truthful(m, log)
  }

  lemma {:induction false} SamePrefix(program: Program, m: Memory, log: seq<ReadWrite>, log': seq<ReadWrite>, k: nat)
    requires TraceOn(program, m, log) && TraceOn(program, m, log')
    requires k <= |log| && k <= |log'|
    ensures log[..k] == log'[..k]
  {
    if k > 0 {
      SamePrefix(program, m, log, log', k - 1);
      assert TrueAt(m, log, k - 1) && TrueAt(m, log', k - 1);
      assert Answers(program(log[..k - 1]), log[k - 1]) && Answers(program(log'[..k - 1]), log'[k - 1]);
      assert log[..k] == log[..k - 1] + [log[k - 1]] && log'[..k] == log'[..k - 1] + [log'[k - 1]];
    }
  }

  /** Determinism: one memory, one log. */
  lemma TraceUnique(program: Program, m: Memory, log: seq<ReadWrite>, log': seq<ReadWrite>)
    requires TraceOn(program, m, log) && TraceOn(program, m, log')
    ensures log == log'
  {
    var k := if |log| <= |log'| then |log| else |log'|;
    SamePrefix(program, m, log, log', k);
    assert log[..|log|] == log && log'[..|log'|] == log';
  }

  // ----- the on-chain replay -----

  datatype StepOutcome = Reverts | Returns(exitCode: nat, accesses: nat)

  function Positions(history: seq<ReadWrite>): seq<nat> {
    seq(|history|, i requires 0 <= i < |history| => history[i].position)
  }

  function Values(history: seq<ReadWrite>): seq<Word> {
    seq(|history|, i requires 0 <= i < |history| => history[i].value)
  }

  function Kinds(history: seq<ReadWrite>): seq<bool> {
    seq(|history|, i requires 0 <= i < |history| => history[i].wasRead)
  }

  // what a machine is handed, entry by entry
  function Rebuilt(positions: seq<nat>, values: seq<Word>, kinds: seq<bool>): seq<ReadWrite>
    requires |positions| == |values| == |kinds|
  {
    if positions == [] then []
    else
      var last := |positions| - 1;
      Rebuilt(positions[..last], values[..last], kinds[..last]) + [ReadWrite(kinds[last], positions[last], values[last])]
  }

  /** The arrays handed to a machine carry the whole log, in its order. */
  lemma {:induction false} ArraysRebuild(history: seq<ReadWrite>)
    ensures |Positions(history)| == |Values(history)| == |Kinds(history)| == |history|
    ensures Rebuilt(Positions(history), Values(history), Kinds(history)) == history
    decreases |history|
  {
    if history != [] {
      var last := |history| - 1;
      var front := history[..last];
      ArraysRebuild(front);
      assert Positions(history)[..last] == Positions(front);
      assert Values(history)[..last] == Values(front);
      assert Kinds(history)[..last] == Kinds(front);
      assert history == front + [history[last]];
    }
  }

  // machine.step, by the machine's address
  type StepFn = (Address, seq<nat>, seq<Word>, seq<bool>) -> StepOutcome

  function Replay(step: StepFn, machine: Address, history: seq<ReadWrite>): StepOutcome {
    step(machine, Positions(history), Values(history), Kinds(history))
  }

  // the first two conditions of the settlement: exit code 0 and every access used
  predicate Accepts(step: StepFn, machine: Address, history: seq<ReadWrite>) {
    Replay(step, machine, history) == Returns(0, |history|)
  }

  /** All that is assumed of a machine contract: it accepts a log when and only when the log
      is the program's own access sequence. On other logs it may revert or return anything else. */
  ghost predicate Runs(step: StepFn, machine: Address, program: Program) {
    forall history :: Accepts(step, machine, history) <==> Complete(program, history)
  }

  // ----- the true run -----

  /** mem(t) is memory after t steps and log(t) the accesses of step t. */
  datatype Truth = Truth(depth: nat, program: Program, mem: nat -> Memory, log: nat -> seq<ReadWrite>)

  ghost predicate TrueRun(truth: Truth) {
    forall t: nat ::
      && Shaped(truth.mem(t), truth.depth)
      && TraceOn(truth.program, truth.mem(t), truth.log(t))
      && truth.mem(t + 1) == Written(truth.mem(t), truth.log(t))
  }

  // the root of memory after t steps
  ghost function TrueHash(truth: Truth, t: nat): Hash {
    if Shaped(truth.mem(t), truth.depth) then Root(truth.mem(t), truth.depth) else ZERO_HASH
  }

  /** The settlement's heart: from the true root at t, a log the machine accepts can only be
      the true log of step t, and the running root can only be the true root at t + 1. */
  lemma AcceptedLogIsTrue(truth: Truth, t: nat, step: StepFn, machine: Address, c: MMCtx)
    requires TrueRun(truth) && Runs(step, machine, truth.program)
    requires Shaped(truth.mem(t), truth.depth) && Sound(truth.depth, truth.mem(t), c)
    requires Accepts(step, machine, c.history)
    ensures c.history == truth.log(t)
    ensures c.newHash == TrueHash(truth, t + 1)
  {
    TraceUnique(truth.program, truth.mem(t), c.history, truth.log(t));
  }
}
