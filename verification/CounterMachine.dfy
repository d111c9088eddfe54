/** A small machine that meets every assumption the theorems make: two words of memory, and a
    step that reads the first, copies it to the second and writes it back one larger. */
module CounterMachine {
  import opened Arithmetic
  import opened Common
  import opened Merkle
  import opened MemoryManager
  import opened MMAgent
  import opened Machine
  import opened Protocol
  import opened Linkage
  import opened Agents
  import opened EndToEnd
  import opened HonestChallenger
  import opened DisputePlay

  function Tick(word: Word): Word { (word + 1) % U64 }

  function Count(log: seq<ReadWrite>): Request {
    if |log| == 0 then ReadAt(0)
    else if |log| == 1 then WriteAt(8, log[0].value)
    else if |log| == 2 then WriteAt(0, Tick(log[0].value))
    else Halt
  }

  // the counter, and what it was a step ago
  function CountMemory(t: nat): Memory { [t % U64, if t == 0 then 0 else (t - 1) % U64] }

  function CountLog(t: nat): seq<ReadWrite> {
    [ReadWrite(true, 0, t % U64), ReadWrite(false, 8, t % U64), ReadWrite(false, 0, Tick(t % U64))]
  }

  function CountStep(machine: Address, positions: seq<nat>, values: seq<Word>, kinds: seq<bool>): StepOutcome {
    if kinds == [true, false, false] && positions == [0, 8, 0] && |values| == 3
       && values[1] == values[0] && values[2] == Tick(values[0]) then Returns(0, 3)
    else Reverts
  }

  const COUNTER: Truth := Truth(1, Count, CountMemory, CountLog)

  lemma CompleteIsAccepted(machine: Address, history: seq<ReadWrite>)
    requires Complete(Count, history)
    ensures Accepts(CountStep, machine, history)
  {
    var n := |history|;
    assert Count(history) == Halt;
    assert Answers(Count(history[..0]), history[0]) && Answers(Count(history[..1]), history[1]);
    assert Answers(Count(history[..2]), history[2]);
    assert n > 3 ==> Count(history[..3]) == Halt;
    assert Kinds(history) == [true, false, false] && Positions(history) == [0, 8, 0];
  }

  lemma AcceptedIsComplete(machine: Address, history: seq<ReadWrite>)
    requires Accepts(CountStep, machine, history)
    ensures Complete(Count, history)
  {
    var kinds, positions, values := Kinds(history), Positions(history), Values(history);
    assert |history| == |kinds| == 3;
    assert kinds[0] && !kinds[1] && !kinds[2] && positions[0] == 0 && positions[1] == 8 && positions[2] == 0;
    assert values[0] == history[0].value && values[1] == history[1].value && values[2] == history[2].value;
    forall i | 0 <= i < 3 ensures Answers(Count(history[..i]), history[i]) { }
  }

  lemma StepRuns(machine: Address)
    ensures Runs(CountStep, machine, Count)
  {
    forall history ensures Accepts(CountStep, machine, history) <==> Complete(Count, history) {
      if Complete(Count, history) { CompleteIsAccepted(machine, history); }
      if Accepts(CountStep, machine, history) { AcceptedIsComplete(machine, history); }
    }
  }

  lemma Ticked(t: nat)
    ensures Tick(t % U64) == (t + 1) % U64
  {
  }

  lemma OneTick(t: nat)
    ensures TraceOn(Count, CountMemory(t), CountLog(t)) && Written(CountMemory(t), CountLog(t)) == CountMemory(t + 1)
  {
    var m, log := CountMemory(t), CountLog(t);
    var copied: Memory := m[1 := t % U64];
    Ticked(t);
    hide Tick;
    assert log[..0] == [] && log[..1] == [log[0]] && log[..2] == [log[0], log[1]];
    assert Written(m, []) == m && Written(m, log[..1]) == m;
    assert log[..2][..1] == log[..1] && Written(m, log[..2]) == copied;
    assert log[..2] == log[..|log| - 1] && Written(m, log) == copied[0 := Tick(t % U64)];
    assert TrueAt(m, log, 0) && TrueAt(m, log, 1) && TrueAt(m, log, 2);
  }

  lemma CounterRuns()
    ensures TrueRun(COUNTER)
  {
    assert Pow2(1) == 2 * Pow2(0) == 2;
    forall t: nat
      ensures Shaped(CountMemory(t), 1) && TraceOn(Count, CountMemory(t), CountLog(t))
        && Written(CountMemory(t), CountLog(t)) == CountMemory(t + 1)
    {
      OneTick(t);
    }
  }

  /** The assumptions of AgentsDecide, and with them those of the other theorems, can be met. */
  lemma AssumptionsMet(settleReturns: bool) returns (env: Env, claimers: Emulator, w: World)
    ensures env.settleReturns == settleReturns
    ensures Setting(env, COUNTER, 3, 3) && Linked(env, w) && |w.computes| == 1
    ensures var c := w.computes[0];
      c.currentState == WaitingClaim && Terms(COUNTER, 3, c) && Fair(env, c) && Quarrel(COUNTER, claimers, c)
  {
    env := Env(9, 1, CountStep, settleReturns);
    StepRuns(3);
    CounterRuns();
    claimers := Emulator((t: nat) => if t < 500 then TrueHash(COUNTER, t) else Raw(t), (t: nat) => []);
    w := World([], [], [], [OpenCompute(1, 2, 60, 3, TrueHash(COUNTER, 0), 1000, 0).value]);
  }
}
