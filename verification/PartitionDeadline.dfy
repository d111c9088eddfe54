/** The deadlines of the partition game: when the wrapping formula is the exact one, and how
    the allowance changes as the game goes on. */
module PartitionDeadline {
  import opened Arithmetic
  import opened Common
  import opened Partition
  import opened PartitionRuns

  /** The instructions a round may have to run, in exact integers. */
  function Work(querySize: nat, gameIndex: nat, finalTime: nat): nat {
    var share := Share(querySize, gameIndex, finalTime);
    if gameIndex != 0 && querySize > 0 then Times(share, querySize - 1) else share
  }

  function Share(querySize: nat, gameIndex: nat, finalTime: nat): nat {
    var divisor := Pow(querySize, gameIndex);
    if divisor == 0 then 0 else finalTime / divisor
  }

  /** The allowance in exact integers. */
  function ExactDuration(roundDuration: nat, querySize: nat, gameIndex: nat, finalTime: nat): nat {
    40 + Work(querySize, gameIndex, finalTime) * 500 / 1_000_000_000_000 + roundDuration
  }

  // ----- the power does not wrap -----

  lemma PowBelowMod(querySize: nat, gameIndex: nat)
    requires (1 <= querySize <= 4 && gameIndex <= 64) || (1 <= querySize <= 32 && gameIndex <= 38)
    ensures 1 <= Pow(querySize, gameIndex) < MOD
  {
    PowPositive(querySize, gameIndex);
    Pow2Word(64, 256);
    if querySize <= 4 {
      PowMonoBase(querySize, 4, gameIndex);
      Pow4(gameIndex);
      Pow2Mono(2 * gameIndex, 255);
    } else {
      PowMonoBase(querySize, 32, gameIndex);
      Pow32(gameIndex);
      Pow2Mono(5 * gameIndex, 255);
    }
    assert Pow2(256) == 2 * Pow2(255);
    hide Pow, Pow2;
  }

  /** How many replies a game can have: 64, and 38 when it has five points or more. */
  lemma RepliesFit(p: PartitionCtx)
    requires Wf(p) && p.finalTime < U64
    ensures p.partitionGameIndex <= 64
    ensures p.querySize >= 5 ==> p.partitionGameIndex <= 38
  {
    Pow2Word(64, 256);
    if p.partitionGameIndex > 64 { HalvedLess(p, Queries(p), 64); }
    if p.querySize >= 5 && Last(p) > First(p) + 18 { FewRounds(Last(p) - First(p), Queries(p), p.finalTime); }
    hide Pow2, BitLength, Sliced, Near, Commitments, Answered;
  }

  lemma PowerFits(p: PartitionCtx)
    requires Wf(p) && p.finalTime < U64
    ensures 1 <= Pow(p.querySize, p.partitionGameIndex) < MOD
  {
    RepliesFit(p);
    PowBelowMod(p.querySize, p.partitionGameIndex);
    hide Pow, Sliced, Near, Halved, Shrunk;
  }

  // ----- the exact duration falls with the index -----

  lemma DivAntitone(a: nat, c: nat, d: nat)
    requires 1 <= c <= d
    ensures a / d <= a / c
  {
    var q, r := a / d, a / c;
    assert a == q * d + a % d && a == r * c + a % c;
    MulMono(c, d, q);
    if q > r { MulMono(r + 1, q, c); }
  }

  lemma FirstRoundLess(querySize: nat, finalTime: nat)
    requires querySize > 2
    ensures Work(querySize, 1, finalTime) <= Work(querySize, 0, finalTime)
  {
    assert Pow(querySize, 0) == 1 && Pow(querySize, 1) == querySize * Pow(querySize, 0);
    var share := finalTime / querySize;
    assert finalTime == share * querySize + finalTime % querySize;
    hide Pow;
    assert share * querySize == Times(share, querySize - 1) + share;
  }

  lemma ShareAntitone(querySize: nat, i: nat, finalTime: nat)
    requires querySize > 2
    ensures Share(querySize, i + 1, finalTime) <= Share(querySize, i, finalTime)
  {
    PowPositive(querySize, i);
    PowMonoExp(querySize, i, i + 1);
    hide Pow;
    DivAntitone(finalTime, Pow(querySize, i), Pow(querySize, i + 1));
  }

  lemma WorkAntitone(querySize: nat, i: nat, finalTime: nat)
    requires querySize > 2
    ensures Work(querySize, i + 1, finalTime) <= Work(querySize, i, finalTime)
  {
    if i == 0 {
      FirstRoundLess(querySize, finalTime);
    } else {
      ShareAntitone(querySize, i, finalTime);
      hide Share;
      MulMono(Share(querySize, i + 1, finalTime), Share(querySize, i, finalTime), querySize - 1);
    }
  }

  lemma {:induction false} WorkFalls(querySize: nat, i: nat, j: nat, finalTime: nat)
    requires querySize > 2 && i <= j
    ensures Work(querySize, j, finalTime) <= Work(querySize, i, finalTime)
    decreases j
  {
    if i < j {
      WorkFalls(querySize, i, j - 1, finalTime);
      WorkAntitone(querySize, j - 1, finalTime);
    }
  }

  lemma WorkBelow(querySize: nat, gameIndex: nat, finalTime: nat)
    requires querySize > 2
    ensures Work(querySize, gameIndex, finalTime) <= finalTime
  {
    WorkFalls(querySize, 0, gameIndex, finalTime);
    assert Pow(querySize, 0) == 1;
  }

  // the picoseconds of a round, in seconds
  function Seconds(querySize: nat, gameIndex: nat, finalTime: nat): nat {
    Work(querySize, gameIndex, finalTime) * PICO_PER_INSN / PICO_PER_SECOND
  }

  lemma SecondsFall(querySize: nat, i: nat, j: nat, finalTime: nat)
    requires querySize > 2 && i <= j && finalTime * PICO_PER_INSN < MOD
    ensures Seconds(querySize, j, finalTime) <= Seconds(querySize, i, finalTime) < MOD / 2
  {
    WorkFalls(querySize, i, j, finalTime);
    WorkBelow(querySize, i, finalTime);
    hide Work;
  }

  // ----- the wrapping duration -----

  /** The duration is the exact one modulo 2^256 while power and product stay below that. */
  lemma DurationWraps(state: PartitionState, roundDuration: nat, querySize: nat, gameIndex: nat, finalTime: nat)
    requires state.WaitingQuery? || state.WaitingHashes?
    requires 2 < querySize < MAX_QUERY_SIZE && 1 <= Pow(querySize, gameIndex) < MOD && finalTime * PICO_PER_INSN < MOD
    ensures MaxStateDuration(state, roundDuration, START_TIME, querySize, gameIndex, finalTime, PICO_PER_INSN)
      == Some(ExactDuration(roundDuration, querySize, gameIndex, finalTime) % MOD)
  {
    hide Add, Sub, Mul, Pow;
    ModExact(Pow(querySize, gameIndex));
    WorkBelow(querySize, gameIndex, finalTime);
    SubExact(querySize, 1);
    var share, work := Share(querySize, gameIndex, finalTime), Work(querySize, gameIndex, finalTime);
    if gameIndex != 0 { MulExact(share, querySize - 1); }
    MulExact(work, PICO_PER_INSN);
    var seconds := work * PICO_PER_INSN / PICO_PER_SECOND;
    AddExact(START_TIME, seconds);
    SumWraps(START_TIME + seconds, roundDuration);
  }

  lemma SumWraps(a: nat, b: nat)
    ensures Add(a, b) == (a + b) % MOD
  {
  }

  /** The duration at a later index is at most that at an earlier one if and only if the
      earlier one does not wrap, or the later one wraps as well. That the earlier one does not
      is a sum over the round duration and the final time. */
  lemma DurationAntitone(state: PartitionState, roundDuration: uint256, querySize: nat, i: nat, j: nat, finalTime: nat)
    requires state.WaitingQuery? || state.WaitingHashes?
    requires 2 < querySize < MAX_QUERY_SIZE && i <= j && Pow(querySize, j) < MOD && finalTime * PICO_PER_INSN < MOD
    ensures var earlier := MaxStateDuration(state, roundDuration, START_TIME, querySize, i, finalTime, PICO_PER_INSN);
      var later := MaxStateDuration(state, roundDuration, START_TIME, querySize, j, finalTime, PICO_PER_INSN);
      && earlier.Some? && later.Some?
      && (later.value <= earlier.value <==>
            ExactDuration(roundDuration, querySize, i, finalTime) < MOD
            || ExactDuration(roundDuration, querySize, j, finalTime) >= MOD)
  {
    PowPositive(querySize, i);
    PowPositive(querySize, j);
    PowMonoExp(querySize, i, j);
    DurationWraps(state, roundDuration, querySize, i, finalTime);
    DurationWraps(state, roundDuration, querySize, j, finalTime);
    SecondsFall(querySize, i, j, finalTime);
    Compared(roundDuration, Seconds(querySize, i, finalTime), Seconds(querySize, j, finalTime));
    hide MaxStateDuration, Work, Pow;
  }

  lemma Compared(roundDuration: uint256, earlier: nat, later: nat)
    requires later <= earlier < MOD / 2
    ensures var e, l := START_TIME + earlier + roundDuration, START_TIME + later + roundDuration;
      l % MOD <= e % MOD <==> e < MOD || l >= MOD
  {
  }

  /** The deadline of every reachable waiting state with a final time a u64 can hold, for every
      query size, is the exact one modulo 2^256: the exact one if and only if that is a word.
      It rests on the bound on replies. */
  lemma DeadlineIsExact(p: PartitionCtx)
    requires Wf(p) && p.Waiting() && p.finalTime < U64
    ensures var exact := p.timeOfLastMove + ExactDuration(p.roundDuration, p.querySize, p.partitionGameIndex, p.finalTime);
      && Deadline(p) == Some(exact % MOD)
      && (Deadline(p) == Some(exact) <==> exact < MOD)
  {
    PowerFits(p);
    hide Pow, Wf, Add, MaxStateDuration, ExactDuration;
    DurationWraps(p.currentState, p.roundDuration, p.querySize, p.partitionGameIndex, p.finalTime);
    AddMod(p.timeOfLastMove, ExactDuration(p.roundDuration, p.querySize, p.partitionGameIndex, p.finalTime));
  }

  lemma DeadlineDefined(p: PartitionCtx)
    requires Wf(p) && p.finalTime < U64
    ensures Deadline(p).Some?
  {
    PowerFits(p);
    hide Pow, Wf;
    ModExact(Pow(p.querySize, p.partitionGameIndex));
  }

  /** Game index 0 is the worst case, as the duration estimates assume, along any run by
      anybody: the allowance of a waiting state is at most the one of index 0 on the terms the
      game was opened with, if and only if that one does not wrap or the state's does too. */
  lemma AllowanceAtMostFirst(p: PartitionCtx, events: seq<Event>)
    requires Wf(p) && p.finalTime < U64 && p.roundDuration < MOD && Run(p, events).Waiting()
    ensures var q := Run(p, events);
      var first := MaxStateDuration(q.currentState, p.roundDuration, START_TIME, p.querySize, 0, p.finalTime, PICO_PER_INSN);
      && Allowance(q).Some? && first.Some?
      && (Allowance(q).value <= first.value <==>
            ExactDuration(p.roundDuration, p.querySize, 0, p.finalTime) < MOD
            || ExactDuration(p.roundDuration, p.querySize, q.partitionGameIndex, p.finalTime) >= MOD)
  {
    RunKeeps(p, events);
    var q := Run(p, events);
    assert Shape(q);
    PowerFits(q);
    hide Run, Wf, Pow, MaxStateDuration, ExactDuration;
    DurationAntitone(q.currentState, p.roundDuration, p.querySize, 0, q.partitionGameIndex, p.finalTime);
  }

  // the final time of the game below; times 500 it is just past 2^256
  const LONG: nat := MOD / PICO_PER_INSN + 1

  lemma LongFirst(state: PartitionState)
    requires state.WaitingQuery? || state.WaitingHashes?
    ensures MaxStateDuration(state, 51, START_TIME, 10, 0, LONG, PICO_PER_INSN) == Some(91)
  {
    assert Pow(10, 0) == 1;
    ModExact(1);
    assert LONG / 1 == LONG && Mul(LONG, PICO_PER_INSN) < PICO_PER_SECOND;
    AddExact(START_TIME, 0);
    AddExact(START_TIME, 51);
    hide Pow, Add, Mul;
  }

  lemma LongLater(state: PartitionState)
    requires state.WaitingQuery? || state.WaitingHashes?
    ensures var later := MaxStateDuration(state, 51, START_TIME, 10, 1, LONG, PICO_PER_INSN);
      later.Some? && later.value > 1_000_000
  {
    assert Pow(10, 1) == 10;
    ModExact(10);
    SubExact(10, 1);
    var share := LONG / 10;
    MulExact(share, 9);
    MulExact(share * 9, PICO_PER_INSN);
    var seconds := share * 9 * PICO_PER_INSN / PICO_PER_SECOND;
    assert 1_000_000 < seconds < MOD - 100;
    AddExact(START_TIME, seconds);
    AddExact(START_TIME + seconds, 51);
    hide Pow, Add, Sub, Mul;
  }

  /** Where 500 * finalTime wraps it is not: this game allows 91 seconds for the first answer,
      and after that answer more than a million. */
  lemma AllowanceGrows(hashes: seq<Hash>) returns (p: PartitionCtx, q: PartitionCtx)
    requires |hashes| == 10
    ensures Create(1, 2, ZERO_HASH, ZERO_HASH, LONG, 10, 51, 0) == Some(p)
    ensures Apply(p, p.claimer, 0, ReplyQuery(p.queryArray, hashes)) == Some(q)
    ensures Allowance(p) == Some(91)
    ensures Allowance(q).Some? && Allowance(q).value > 1_000_000
  {
    p := Create(1, 2, ZERO_HASH, ZERO_HASH, LONG, 10, 51, 0).value;
    hide Points, Posted, Pow, MaxStateDuration;
    q := Apply(p, p.claimer, 0, ReplyQuery(p.queryArray, hashes)).value;
    PostedIsWriteOnce(p, p.queryArray, hashes);
    LongFirst(WaitingHashes);
    LongLater(WaitingQuery);
  }
}
