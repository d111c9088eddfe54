/** The off-chain agents of the verification game and of compute, reacting to one dispute. */
module Agents {
  import opened Arithmetic
  import opened Common
  import P = Partition
  import PA = PartitionAgent
  import M = MemoryManager
  import opened MMAgent
  import opened Machine
  import opened Protocol
  import opened OneDispute

  // what the agent can compute offline: the hash at a time, and the log of a step
  datatype Emulator = Emulator(hash: PA.Oracle, stepLog: nat -> seq<Access>)

  function OfPartition(r: PA.Reaction<P.Move>): PA.Reaction<Move> {
    match r
    case Idle => PA.Idle
    case Send(call) => PA.Send(OnPartition(call))
    case Fail(why) => PA.Fail(why)
  }

  function OfMemory(r: PA.Reaction<M.Move>): PA.Reaction<Move> {
    match r
    case Idle => PA.Idle
    case Send(call) => PA.Send(OnMemory(call))
    case Fail(why) => PA.Fail(why)
  }

  /** VG::react in WaitPartition; `mine` is the timeout verdict that favours the user. */
  function ReactWaitPartition(d: View, mine: P.PartitionState, user: Address, now: nat, em: Emulator): PA.Reaction<Move> {
    if d.partition.None? then PA.Fail(PA.BadContext)
    else if d.partition.value.currentState == mine then PA.Send(TakeTimeout)
    else if d.partition.value.currentState == P.DivergenceFound then PA.Send(StartRun)
    else OfPartition(PA.Observe(d.partition.value, user, now, em.hash))
  }

  /** VG::react for the challenger once the memory manager is open. */
  function ReactProver(d: View, v: VGCtx, em: Emulator): PA.Reaction<Move> {
    if d.memory.None? then PA.Fail(PA.BadContext)
    else
      match d.memory.value.currentState
      case WaitingProofs => OfMemory(ReactMM(d.memory.value, v.divergenceTime, em.stepLog(v.divergenceTime)))
      case WaitingReplay => PA.Send(Settle)
      case FinishedReplay => PA.Idle
  }

  function ReactVG(d: View, v: VGCtx, user: Address, now: nat, em: Emulator): PA.Reaction<Move> {
    if !v.Live() then PA.Idle
    else if user == v.claimer then
      if v.currentState == WaitPartition then ReactWaitPartition(d, P.ClaimerWon, user, now, em)
      else PA.WinByDeadlineOrIdle(now, MemoryDeadline(v), ClaimGame)
    else if user == v.challenger then
      if v.currentState == WaitPartition then ReactWaitPartition(d, P.ChallengerWon, user, now, em)
      else ReactProver(d, v, em)
    else PA.Fail(PA.NotAParty)
  }

  /** Compute::react under challenge; `mine` and `theirs` are the two ends of the game. */
  function ReactChallenged(d: View, mine: VGState, theirs: VGState, user: Address, now: nat, em: Emulator): PA.Reaction<Move> {
    if d.game.None? then PA.Fail(PA.BadContext)
    else if d.game.value.currentState == mine then PA.Send(TakeVerdict)
    else if d.game.value.currentState == theirs then PA.Idle
    else ReactVG(d, d.game.value, user, now, em)
  }

  function ReactCompute(d: View, user: Address, now: nat, em: Emulator): PA.Reaction<Move> {
    var c := d.compute;
    if !c.Open() then PA.Idle
    else if user == c.claimer then
      match c.currentState
      case WaitingConfirmation => PA.WinByDeadlineOrIdle(now, ComputeDeadline(c), ExpireCompute)
      case WaitingClaim => if c.finalTime >= U64 then PA.Fail(PA.Overflow) else PA.Send(Submit(em.hash(c.finalTime)))
      case _ => ReactChallenged(d, FinishedClaimerWon, FinishedChallengerWon, user, now, em)
    else if user == c.challenger then
      match c.currentState
      case WaitingClaim => PA.WinByDeadlineOrIdle(now, ComputeDeadline(c), ExpireCompute)
      case WaitingConfirmation =>
        if c.finalTime >= U64 then PA.Fail(PA.Overflow)
        else if em.hash(c.finalTime) == c.claimedFinalHash then PA.Send(Agree)
        else PA.Send(OpenDispute)
      case _ => ReactChallenged(d, FinishedChallengerWon, FinishedClaimerWon, user, now, em)
    else PA.Fail(PA.NotAParty)
  }

  /** The transaction an agent sends for a move, on the instance the move is about. */
  function CallOf(w: World, ci: nat, move: Move): Call
    requires ci < |w.computes|
  {
    var g := w.computes[ci].vgInstance;
    match move
    case OnPartition(m) => PartitionCall(if g < |w.games| then w.games[g].partitionInstance else 0, m)
    case OnMemory(m) => MemoryCall(if g < |w.games| then w.games[g].mmInstance else 0, m)
    case TakeTimeout => WinByPartitionTimeout(g)
    case StartRun => StartMachineRunChallenge(g)
    case Settle => SettleVerificationGame(g)
    case ClaimGame => GameClaimVictoryByTime(g)
    case Submit(hash) => SubmitClaim(ci, hash)
    case Agree => Confirm(ci)
    case OpenDispute => Challenge(ci)
    case TakeVerdict => WinByVG(ci)
    case ExpireCompute => ComputeClaimVictoryByTime(ci)
    case Elsewhere => Confirm(|w.computes|)
  }
}
