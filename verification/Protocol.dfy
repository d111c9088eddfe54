/** The verification game and compute contracts, and the four contracts as one system. */
module Protocol {
  import opened Arithmetic
  import opened Common
  import P = Partition
  import M = MemoryManager
  import opened Machine

  // ----- the verification game, instance by instance -----

  const VG_QUERY_SIZE: nat := 10

  datatype VGState = WaitPartition | WaitMemoryProveValues | FinishedClaimerWon | FinishedChallengerWon

  datatype VGCtx = VGCtx(
    challenger: Address,
    claimer: Address,
    roundDuration: nat,
    machine: Address,
    initialHash: Hash,
    claimerFinalHash: Hash,
    finalTime: nat,
    timeOfLastMove: nat,
    mmInstance: nat,
    partitionInstance: nat,
    divergenceTime: nat,
    hashBeforeDivergence: Hash,
    hashAfterDivergence: Hash,
    currentState: VGState)
  {
    predicate Live() { currentState.WaitPartition? || currentState.WaitMemoryProveValues? }
  }

  /** What is fixed about the deployment: the verification game's own address, the height of
      the Merkle tree (61), the machines' step, and whether the settlement returns after
      declaring the challenger the winner. In the code as it stands it does not. */
  datatype Env = Env(vgAddress: Address, depth: nat, step: StepFn, settleReturns: bool)

  function OpenGame(challenger: Address, claimer: Address, roundDuration: nat, machine: Address, initialHash: Hash,
                    claimerFinalHash: Hash, finalTime: nat, now: nat, partitionInstance: nat): VGCtx
  {
    VGCtx(challenger, claimer, Add(Mul(roundDuration, Log2OverTwo(finalTime)), 4), machine, initialHash,
          claimerFinalHash, finalTime, now, 0, partitionInstance, 0, ZERO_HASH, ZERO_HASH, WaitPartition)
  }

  /** clearInstance, then the final state. */
  function Won(v: VGCtx, byChallenger: bool): VGCtx {
    VGCtx(NOBODY, NOBODY, 0, NOBODY, ZERO_HASH, ZERO_HASH, 0, 0, 0, v.partitionInstance, 0, ZERO_HASH, ZERO_HASH,
          if byChallenger then FinishedChallengerWon else FinishedClaimerWon)
  }

  // whom the partition's timeout favours, if it ended by one
  function TimeoutVerdict(p: P.PartitionCtx): Option<bool> {
    if p.currentState == P.ChallengerWon then Some(true)
    else if p.currentState == P.ClaimerWon then Some(false)
    else None
  }

  function TimedOut(v: VGCtx, p: P.PartitionCtx): Option<VGCtx> {
    if v.currentState != WaitPartition || TimeoutVerdict(p).None? then None
    else Some(Won(v, TimeoutVerdict(p).value))
  }

  /** startMachineRunChallenge on the game itself; the memory it opens has index mmIndex. */
  function Started(v: VGCtx, p: P.PartitionCtx, mmIndex: nat, now: nat): Option<VGCtx> {
    if v.currentState != WaitPartition || p.currentState != P.DivergenceFound then None
    else Some(v.(divergenceTime := p.divergenceTime,
                 hashBeforeDivergence := p.HashAt(p.divergenceTime),
                 hashAfterDivergence := p.HashAt(p.divergenceTime + 1),
                 mmInstance := mmIndex, partitionInstance := 0, timeOfLastMove := now,
                 currentState := WaitMemoryProveValues))
  }

  function OpenMemory(env: Env, v: VGCtx): M.MMCtx {
    M.Create(env.vgAddress, v.challenger, v.hashBeforeDivergence)
  }

  /** The settlement's guard: the step exits well, uses every access, and the proved root is
      not the claimer's. */
  predicate Disproves(env: Env, v: VGCtx, m: M.MMCtx) {
    Accepts(env.step, v.machine, m.history) && m.newHash != v.hashAfterDivergence
  }

  /** The verdict as the code reaches it. challengerWins is not followed by a return, so
      claimerWins then runs as well and has the last word. */
  function Verdict(env: Env, v: VGCtx, disproved: bool): VGCtx {
    if disproved && env.settleReturns then Won(v, true)
    else Won(if disproved then Won(v, true) else v, false)
  }

  function Settled(env: Env, v: VGCtx, m: M.MMCtx, caller: Address): Option<(VGCtx, M.MMCtx)> {
    if caller != v.challenger || v.currentState != WaitMemoryProveValues || m.currentState != M.WaitingReplay then None
    else if Replay(env.step, v.machine, m.history).Reverts? then None
    else
      var finished := M.Apply(env.depth, m, env.vgAddress, M.FinishReplayPhase);
      if finished.None? then None
      else Some((Verdict(env, v, Disproves(env, v, m)), finished.value))
  }

  function MemoryDeadline(v: VGCtx): nat {
    Add(v.timeOfLastMove, M.MaxInstanceDuration(v.roundDuration, P.START_TIME))
  }

  function ClaimedByTime(v: VGCtx, caller: Address, now: nat): Option<VGCtx> {
    if caller != v.claimer || v.currentState != WaitMemoryProveValues || now <= MemoryDeadline(v) then None
    else Some(Won(v, false))
  }

  // ----- compute, instance by instance -----

  datatype ComputeState =
    | WaitingClaim
    | WaitingConfirmation
    | ClaimerMissedDeadline
    | WaitingChallenge
    | ChallengerWon
    | ClaimerWon
    | ConsensusResult

  datatype ComputeCtx = ComputeCtx(
    challenger: Address,
    claimer: Address,
    roundDuration: nat,
    timeOfLastMove: nat,
    machine: Address,
    initialHash: Hash,
    finalTime: nat,
    claimedFinalHash: Hash,
    vgInstance: nat,
    currentState: ComputeState)
  {
    predicate Open() { currentState.WaitingClaim? || currentState.WaitingConfirmation? || currentState.WaitingChallenge? }
  }

  function OpenCompute(challenger: Address, claimer: Address, roundDuration: nat, machine: Address, initialHash: Hash,
                       finalTime: nat, now: nat): Option<ComputeCtx>
  {
    if challenger == claimer then None
    else Some(ComputeCtx(challenger, claimer, roundDuration, now, machine, initialHash, finalTime, ZERO_HASH, 0, WaitingClaim))
  }

  function Submitted(c: ComputeCtx, caller: Address, hash: Hash): Option<ComputeCtx> {
    if caller != c.claimer || c.currentState != WaitingClaim then None
    else Some(c.(claimedFinalHash := hash, currentState := WaitingConfirmation))
  }

  /** clearInstance, then the final state; the claimed hash stays. */
  function Closed(c: ComputeCtx, state: ComputeState): ComputeCtx {
    ComputeCtx(NOBODY, NOBODY, 0, 0, NOBODY, ZERO_HASH, 0, c.claimedFinalHash, 0, state)
  }

  function Confirmed(c: ComputeCtx, caller: Address): Option<ComputeCtx> {
    if caller != c.challenger || c.currentState != WaitingConfirmation then None
    else Some(Closed(c, ConsensusResult))
  }

  predicate CanChallenge(c: ComputeCtx, caller: Address) {
    caller == c.challenger && c.currentState == WaitingConfirmation
  }

  /** The game opened for a claim, and the partition opened for that game; both reverts of
      the nested calls revert the challenge. */
  function GameFor(c: ComputeCtx, now: nat, partitionIndex: nat): Option<(VGCtx, P.PartitionCtx)> {
    if c.finalTime == 0 then None
    else
      var p := P.Create(c.challenger, c.claimer, c.initialHash, c.claimedFinalHash, c.finalTime, VG_QUERY_SIZE, c.roundDuration, now);
      if p.None? then None
      else Some((OpenGame(c.challenger, c.claimer, c.roundDuration, c.machine, c.initialHash, c.claimedFinalHash,
                          c.finalTime, now, partitionIndex), p.value))
  }

  function Decided(c: ComputeCtx, v: VGCtx): Option<ComputeCtx> {
    if c.currentState != WaitingChallenge then None
    else if v.currentState == FinishedChallengerWon then Some(Closed(c, ChallengerWon))
    else if v.currentState == FinishedClaimerWon then Some(Closed(c, ClaimerWon))
    else None
  }

  // the allowance of WaitingClaim and of WaitingConfirmation
  function ComputeDeadline(c: ComputeCtx): nat {
    Add(c.timeOfLastMove, Add(Add(P.START_TIME, Mul(c.finalTime, P.PICO_PER_INSN) / P.PICO_PER_SECOND), c.roundDuration))
  }

  function Expired(c: ComputeCtx, caller: Address, now: nat): Option<ComputeCtx> {
    if caller == c.challenger && c.currentState == WaitingClaim && now > ComputeDeadline(c) then
      Some(c.(currentState := ClaimerMissedDeadline))
    else if caller == c.claimer && c.currentState == WaitingConfirmation && now > ComputeDeadline(c) then
      Some(c.(currentState := ConsensusResult))
    else None
  }

  // ----- the four contracts -----

  // instance i of a contract is entry i; the length is the contract's currentIndex
  datatype World = World(
    partitions: seq<P.PartitionCtx>,
    memories: seq<M.MMCtx>,
    games: seq<VGCtx>,
    computes: seq<ComputeCtx>)

  const GENESIS: World := World([], [], [], [])

  datatype Call =
    | NewPartition(challenger: Address, claimer: Address, initialHash: Hash, finalHash: Hash, finalTime: uint256,
                   querySize: nat, roundDuration: nat)
    | PartitionCall(index: nat, partitionMove: P.Move)
    | NewMemory(owner: Address, provider: Address, initialHash: Hash)
    | MemoryCall(index: nat, memoryMove: M.Move)
    | NewGame(challenger: Address, claimer: Address, roundDuration: nat, machine: Address, initialHash: Hash,
              finalHash: Hash, finalTime: uint256)
    | WinByPartitionTimeout(index: nat)
    | StartMachineRunChallenge(index: nat)
    | SettleVerificationGame(index: nat)
    | GameClaimVictoryByTime(index: nat)
    | NewCompute(challenger: Address, claimer: Address, roundDuration: nat, machine: Address, initialHash: Hash,
                 finalTime: uint256)
    | SubmitClaim(index: nat, hash: Hash)
    | Confirm(index: nat)
    | Challenge(index: nat)
    | WinByVG(index: nat)
    | ComputeClaimVictoryByTime(index: nat)

  function ExecPartition(w: World, caller: Address, now: nat, i: nat, move: P.Move): Option<World> {
    if i >= |w.partitions| then None
    else
      var p := P.Apply(w.partitions[i], caller, now, move);
      if p.None? then None else Some(w.(partitions := w.partitions[i := p.value]))
  }

  function ExecMemory(env: Env, w: World, caller: Address, i: nat, move: M.Move): Option<World> {
    if i >= |w.memories| then None
    else
      var m := M.Apply(env.depth, w.memories[i], caller, move);
      if m.None? then None else Some(w.(memories := w.memories[i := m.value]))
  }

  function ExecNewGame(w: World, now: nat, challenger: Address, claimer: Address, roundDuration: nat, machine: Address,
                       initialHash: Hash, finalHash: Hash, finalTime: nat): Option<World>
  {
    if finalTime == 0 then None
    else
      var p := P.Create(challenger, claimer, initialHash, finalHash, finalTime, VG_QUERY_SIZE, roundDuration, now);
      if p.None? then None
      else
        var v := OpenGame(challenger, claimer, roundDuration, machine, initialHash, finalHash, finalTime, now, |w.partitions|);
        Some(w.(partitions := w.partitions + [p.value], games := w.games + [v]))
  }

  function ExecTimeout(w: World, i: nat): Option<World> {
    if i >= |w.games| || w.games[i].partitionInstance >= |w.partitions| then None
    else
      var v := TimedOut(w.games[i], w.partitions[w.games[i].partitionInstance]);
      if v.None? then None else Some(w.(games := w.games[i := v.value]))
  }

  function ExecStart(env: Env, w: World, now: nat, i: nat): Option<World> {
    if i >= |w.games| || w.games[i].partitionInstance >= |w.partitions| then None
    else
      var v := Started(w.games[i], w.partitions[w.games[i].partitionInstance], |w.memories|, now);
      if v.None? then None
      else Some(w.(games := w.games[i := v.value], memories := w.memories + [OpenMemory(env, v.value)]))
  }

  function ExecSettle(env: Env, w: World, caller: Address, i: nat): Option<World> {
    if i >= |w.games| || w.games[i].mmInstance >= |w.memories| then None
    else
      var j := w.games[i].mmInstance;
      var vm := Settled(env, w.games[i], w.memories[j], caller);
      if vm.None? then None
      else Some(w.(games := w.games[i := vm.value.0], memories := w.memories[j := vm.value.1]))
  }

  function ExecGameClaim(w: World, caller: Address, now: nat, i: nat): Option<World> {
    // getQuerySize is asked of the partition, whose index was deleted
    if i >= |w.games| || w.games[i].partitionInstance >= |w.partitions| then None
    else
      var v := ClaimedByTime(w.games[i], caller, now);
      if v.None? then None else Some(w.(games := w.games[i := v.value]))
  }

  function ExecChallenge(w: World, caller: Address, now: nat, i: nat): Option<World> {
    if i >= |w.computes| || !CanChallenge(w.computes[i], caller) then None
    else
      var c := w.computes[i];
      var staged := ExecNewGame(w, now, c.challenger, c.claimer, c.roundDuration, c.machine, c.initialHash,
                                c.claimedFinalHash, c.finalTime);
      if staged.None? then None
      else Some(staged.value.(computes := w.computes[i := c.(vgInstance := |w.games|, currentState := WaitingChallenge)]))
  }

  function ExecCompute(w: World, i: nat, c: Option<ComputeCtx>): Option<World> {
    if i >= |w.computes| || c.None? then None else Some(w.(computes := w.computes[i := c.value]))
  }

  /** One transaction on the system; None is a revert. */
  function Exec(env: Env, w: World, caller: Address, now: nat, call: Call): Option<World> {
    match call
    case NewPartition(challenger, claimer, initialHash, finalHash, finalTime, querySize, roundDuration) =>
      var p := P.Create(challenger, claimer, initialHash, finalHash, finalTime, querySize, roundDuration, now);
      if p.None? then None else Some(w.(partitions := w.partitions + [p.value]))
    case PartitionCall(i, move) => ExecPartition(w, caller, now, i, move)
    case NewMemory(owner, provider, initialHash) =>
      Some(w.(memories := w.memories + [M.Create(owner, provider, initialHash)]))
    case MemoryCall(i, move) => ExecMemory(env, w, caller, i, move)
    case NewGame(challenger, claimer, roundDuration, machine, initialHash, finalHash, finalTime) =>
      ExecNewGame(w, now, challenger, claimer, roundDuration, machine, initialHash, finalHash, finalTime)
    case WinByPartitionTimeout(i) => ExecTimeout(w, i)
    case StartMachineRunChallenge(i) => ExecStart(env, w, now, i)
    case SettleVerificationGame(i) => ExecSettle(env, w, caller, i)
    case GameClaimVictoryByTime(i) => ExecGameClaim(w, caller, now, i)
    case NewCompute(challenger, claimer, roundDuration, machine, initialHash, finalTime) =>
      var c := OpenCompute(challenger, claimer, roundDuration, machine, initialHash, finalTime, now);
      if c.None? then None else Some(w.(computes := w.computes + [c.value]))
    case SubmitClaim(i, hash) => ExecCompute(w, i, if i < |w.computes| then Submitted(w.computes[i], caller, hash) else None)
    case Confirm(i) => ExecCompute(w, i, if i < |w.computes| then Confirmed(w.computes[i], caller) else None)
    case Challenge(i) => ExecChallenge(w, caller, now, i)
    case WinByVG(i) =>
      if i >= |w.computes| || w.computes[i].vgInstance >= |w.games| then None
      else ExecCompute(w, i, Decided(w.computes[i], w.games[w.computes[i].vgInstance]))
    case ComputeClaimVictoryByTime(i) =>
      ExecCompute(w, i, if i < |w.computes| then Expired(w.computes[i], caller, now) else None)
  }

  datatype Event = Event(now: nat, caller: Address, call: Call)

  // a contract never signs a transaction of its own
  predicate External(env: Env, e: Event) { e.caller != env.vgAddress }

  // a reverted transaction leaves the system as it was
  function Step(env: Env, w: World, e: Event): World {
    var next := Exec(env, w, e.caller, e.now, e.call);
    if next.Some? then next.value else w
  }

  function Run(env: Env, w: World, events: seq<Event>): World {
    if events == [] then w else Step(env, Run(env, w, events[..|events| - 1]), events[|events| - 1])
  }

  // ----- where the code and its documents part -----

  /** The verdict is the documented one - the challenger wins if and only if the guard holds -
      exactly when the settlement returns or the guard is false. As the code stands, the
      claimer is always declared the winner. */
  lemma VerdictExact(env: Env, v: VGCtx, disproved: bool)
    ensures Verdict(env, v, disproved) == Won(v, disproved) <==> env.settleReturns || !disproved
    ensures !env.settleReturns ==> Verdict(env, v, disproved).currentState == FinishedClaimerWon
  {
    assert Won(Won(v, true), false) == Won(v, false);
  }

  /** A concrete settlement where they part: the machine accepts the (empty) log, the proved
      root is not the claimer's, and the code ends the game for the claimer. */
  lemma VerdictFallsThrough() returns (env: Env, v: VGCtx, m: M.MMCtx)
    ensures !env.settleReturns && Disproves(env, v, m)
    ensures Settled(env, v, m, v.challenger).Some?
    ensures Settled(env, v, m, v.challenger).value.0.currentState == FinishedClaimerWon
  {
    env := Env(9, 0, (machine, positions, values, kinds) => Returns(0, |positions|), false);
    v := OpenGame(1, 2, 100, 3, Raw(0), Raw(1), 1, 0, 0).(currentState := WaitMemoryProveValues, hashAfterDivergence := Raw(1));
    m := M.Create(env.vgAddress, 1, Raw(0)).(currentState := M.WaitingReplay);
  }

  /** A challenge goes through exactly when the claim is waiting for this challenger and the
      terms it was opened with, which instantiate does not check, suit the game. */
  lemma ChallengeExact(w: World, caller: Address, now: nat, i: nat)
    requires i < |w.computes| && w.computes[i].challenger != w.computes[i].claimer
    ensures ExecChallenge(w, caller, now, i).Some? <==>
      && CanChallenge(w.computes[i], caller)
      && w.computes[i].finalTime > 0 && w.computes[i].roundDuration > 50
  {
  }

  /** submitClaim does not restart the clock: once a claim is in, the claimer can close it by
      time exactly when the clock started at instantiation has run out, and the challenger may
      be left no time at all. */
  lemma ConfirmationWindow(c: ComputeCtx, hash: Hash, submitted: nat, now: nat)
    requires c.currentState == WaitingClaim && c.challenger != c.claimer
    ensures var c' := Submitted(c, c.claimer, hash).value;
      && (Expired(c', c.claimer, now).Some? <==> now > ComputeDeadline(c))
      && (Expired(c', c.claimer, submitted).Some? <==> submitted > ComputeDeadline(c))
  {
  }

  // ----- the deadlines in exact integers -----

  lemma MulTwoMod(a: nat)
    ensures Mul(2, a % MOD) == (2 * a) % MOD
  {
    var q, r := a / MOD, a % MOD;
    assert 2 * a == 2 * r + MOD * (2 * q);
  }

  /** The proof's duration, for a round of any length, wraps as a whole. */
  lemma ProofDuration(round: nat)
    ensures M.MaxInstanceDuration(round % MOD, P.START_TIME) == (2 * P.START_TIME + 5 * round) % MOD
  {
    MulTwoMod(round);
    AddMod(P.START_TIME, 2 * round);
    SumMod(P.START_TIME + 2 * round, round);
    SumMod(P.START_TIME + 3 * round, P.START_TIME + 2 * round);
    hide Add, Mul;
  }

  lemma StretchedRound(roundDuration: nat, rounds: nat)
    ensures Add(Mul(roundDuration, rounds), 4) == (roundDuration * rounds + 4) % MOD
  {
    SumMod(roundDuration * rounds, 4);
    ModExact(4);
  }

  /** The prover's allowance. A game opened for c grants, once its memory is open, two machine
      starts and five rounds, each round stretched by the log base 4 of the final time: modulo
      2^256, and so exactly that if and only if it is a word. */
  lemma MemoryDeadlineExact(c: ComputeCtx, opening: nat, index: nat, start: nat) returns (rounds: nat)
    requires GameFor(c, opening, index).Some?
    ensures Pow(4, rounds) <= c.finalTime < Pow(4, rounds + 1)
    ensures var exact := start + 2 * P.START_TIME + 5 * (c.roundDuration * rounds + 4);
      var deadline := MemoryDeadline(GameFor(c, opening, index).value.0.(timeOfLastMove := start));
      deadline == exact % MOD && (deadline == exact <==> exact < MOD)
  {
    rounds := Log2OverTwo(c.finalTime);
    Log2OverTwoIsLog4(c.finalTime);
    hide Log2OverTwo, Pow, P.Create, M.MaxInstanceDuration, Add, Mul;
    var round := c.roundDuration * rounds + 4;
    StretchedRound(c.roundDuration, rounds);
    ProofDuration(round);
    AddMod(start, 2 * P.START_TIME + 5 * round);
  }

  /** The allowance of a claim and of its confirmation is a machine start, a whole run and a
      round, if and only if neither 500 * finalTime nor the sum leaves the words. */
  lemma ComputeDeadlineExact(c: ComputeCtx)
    ensures var exact := c.timeOfLastMove + P.START_TIME + c.finalTime * P.PICO_PER_INSN / P.PICO_PER_SECOND + c.roundDuration;
      ComputeDeadline(c) == exact <==> c.finalTime * P.PICO_PER_INSN < MOD && exact < MOD
  {
    var picos := c.finalTime * P.PICO_PER_INSN;
    var work := (picos % MOD) / P.PICO_PER_SECOND;
    AddMod(P.START_TIME, work);
    AddModLeft(P.START_TIME + work, c.roundDuration);
    AddMod(c.timeOfLastMove, P.START_TIME + work + c.roundDuration);
    WorkLost(picos);
    ModExact(work);
    hide Add;
  }

  // what wraps loses time
  lemma WorkLost(picos: nat)
    ensures (picos % MOD) / P.PICO_PER_SECOND < MOD
    ensures picos >= MOD ==> (picos % MOD) / P.PICO_PER_SECOND < picos / P.PICO_PER_SECOND
    ensures picos < MOD ==> picos % MOD == picos
  {
    if picos >= MOD {
      var rest := picos % MOD;
      assert picos >= rest + MOD;
    }
  }
}
