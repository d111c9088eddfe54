/** The whole dispute played out between the two agents, to its verdict. */
module DisputePlay {
  import opened Arithmetic
  import opened Common
  import opened Merkle
  import P = Partition
  import PR = PartitionRuns
  import PA = PartitionAgent
  import M = MemoryManager
  import opened MMAgent
  import opened Machine
  import opened Protocol
  import opened Linkage
  import opened OneDispute
  import opened Agents
  import opened EndToEnd
  import opened HonestChallenger

  // whom the dispute waits for; a game that ended for the claimer is the claimer's to report
  function Turn(d: View): Address {
    if d.compute.currentState == WaitingClaim
      || (d.partition.Some? && d.partition.value.currentState == P.WaitingHashes)
      || (d.game.Some? && d.game.value.currentState == FinishedClaimerWon)
    then d.compute.claimer else d.compute.challenger
  }

  // the claimer's emulator, or the challenger's
  function ReactOnTurn(d: View, now: nat, claimers: Emulator, challengers: Emulator): PA.Reaction<Move> {
    ReactCompute(d, Turn(d), now, if Turn(d) == d.compute.claimer then claimers else challengers)
  }

  /** Turn by turn, the agent the dispute waits for reacts and its transaction is executed on
      the system; the play stops at a closed instance, an error, an idle agent or a revert. */
  function Play(env: Env, w: World, ci: nat, claimers: Emulator, challengers: Emulator, clock: nat -> nat, turns: nat): World
    requires ci < |w.computes|
    decreases turns
  {
    if turns == 0 then w
    else
      var now := clock(turns);
      var r := ReactOnTurn(ViewOf(w, ci), now, claimers, challengers);
      if !r.Send? then w
      else
        var next := Exec(env, w, Turn(ViewOf(w, ci)), now, CallOf(w, ci, r.call));
        if next.None? || ci >= |next.value.computes| then w
        else Play(env, next.value, ci, claimers, challengers, clock, turns - 1)
  }

  // ----- a dispute on its way to the verdict -----

  /** The parties' emulators agree at time 0 and not at the final time, which fits them. */
  ghost predicate Quarrel(truth: Truth, claimers: Emulator, c: ComputeCtx) {
    && c.finalTime < U64
    && claimers.hash(0) == TrueHash(truth, 0)
    && claimers.hash(c.finalTime) != TrueHash(truth, c.finalTime)
  }

  ghost predicate PartitionOnCourse(truth: Truth, claimers: Emulator, p: P.PartitionCtx) {
    if p.Waiting() then PA.Contest(p, claimers.hash, OracleOf(truth)) && p.querySize == VG_QUERY_SIZE
    else PA.Ended(p, claimers.hash, OracleOf(truth)) && p.finalTime < U64
  }

  // who ends up winning: the challenger, if the settlement returns
  predicate Winner(env: Env, byChallenger: bool) { byChallenger == env.settleReturns }

  ghost predicate GameOnCourse(env: Env, truth: Truth, claimers: Emulator, d: View) {
    d.game.Some? &&
    match d.game.value.currentState
    case WaitPartition => d.partition.Some? && PartitionOnCourse(truth, claimers, d.partition.value)
    case WaitMemoryProveValues => d.memory.Some? && d.game.value.divergenceTime < U64
    case FinishedChallengerWon => Winner(env, true)
    case FinishedClaimerWon => Winner(env, false)
  }

  ghost predicate OnCourse(env: Env, truth: Truth, machine: Address, claimers: Emulator, d: View)
    requires TrueRun(truth)
  {
    ChallengerTrue(truth, machine, d) &&
    match d.compute.currentState
    case WaitingClaim => Quarrel(truth, claimers, d.compute)
    case WaitingConfirmation =>
      Quarrel(truth, claimers, d.compute) && d.compute.claimedFinalHash == claimers.hash(d.compute.finalTime)
    case WaitingChallenge => GameOnCourse(env, truth, claimers, d)
    case ChallengerWon => Winner(env, true)
    case ClaimerWon => Winner(env, false)
    case _ => false
  }

  /** Transactions still to come, when no step makes more than `most` accesses. */
  ghost function Left(truth: Truth, most: nat, d: View): int {
    match d.compute.currentState
    case WaitingClaim => 2 * BitLength(if d.compute.finalTime > 0 then d.compute.finalTime - 1 else 0) + most + 8
    case WaitingConfirmation => 2 * BitLength(if d.compute.finalTime > 0 then d.compute.finalTime - 1 else 0) + most + 7
    case WaitingChallenge => LeftInGame(truth, most, d)
    case _ => 0
  }

  ghost function LeftInGame(truth: Truth, most: nat, d: View): int {
    if d.partition.Some? then
      match d.partition.value.currentState
      case WaitingHashes => 2 * PR.Rounds(d.partition.value) + most + 6
      case WaitingQuery => 2 * PR.Rounds(d.partition.value) + most + 5
      case _ => most + 4
    else if d.game.Some? && d.memory.Some? then
      if d.memory.value.currentState == M.WaitingProofs
      then |truth.log(d.game.value.divergenceTime)| - |d.memory.value.history| + 3 else 2
    else 1
  }

  // the turn taken: the agent's move is accepted, and the end comes nearer
  ghost predicate Taken(env: Env, truth: Truth, machine: Address, claimers: Emulator, most: nat, d: View, next: Upcoming, now: nat)
    requires TrueRun(truth)
  {
    var r := ReactOnTurn(d, now, claimers, EmulatorOf(truth));
    && r.Send?
    && var d' := Apply(env, d, next, Turn(d), now, r.call);
       d'.Some? && OnCourse(env, truth, machine, claimers, d'.value) && Left(truth, most, d'.value) < Left(truth, most, d)
  }

  ghost predicate Setting(env: Env, truth: Truth, machine: Address, most: nat) {
    && TrueRun(truth) && env.depth == truth.depth && Runs(env.step, machine, truth.program)
    && forall t: nat :: |truth.log(t)| <= most
  }

  lemma ClaimTurn(env: Env, truth: Truth, machine: Address, claimers: Emulator, most: nat, d: View, next: Upcoming, now: nat)
    requires Setting(env, truth, machine, most) && ViewLinked(env, d) && OnCourse(env, truth, machine, claimers, d)
    requires d.compute.currentState == WaitingClaim
    ensures Taken(env, truth, machine, claimers, most, d, next, now)
  {
    hide TrueRun, Runs, BitLength;
  }

  // a claim the challenger's emulator denies is disputed
  lemma Denied(env: Env, d: View, next: Upcoming, now: nat, em: Emulator)
    requires ViewLinked(env, d) && d.compute.currentState == WaitingConfirmation
    requires d.compute.finalTime < U64 && em.hash(d.compute.finalTime) != d.compute.claimedFinalHash
    requires GameFor(d.compute, now, next.partition).Some?
    ensures Turn(d) == d.compute.challenger != d.compute.claimer
    ensures ReactCompute(d, d.compute.challenger, now, em) == PA.Send(OpenDispute)
    ensures var vp := GameFor(d.compute, now, next.partition).value;
      Apply(env, d, next, d.compute.challenger, now, OpenDispute)
      == Some(View(d.compute.(vgInstance := next.game, currentState := WaitingChallenge), Some(vp.0), Some(vp.1), None))
  {
    hide GameFor, ComputeDeadline;
  }

  lemma GameOpens(truth: Truth, claimers: Emulator, c: ComputeCtx, now: nat, index: nat)
    requires Quarrel(truth, claimers, c) && c.claimedFinalHash == claimers.hash(c.finalTime)
    requires c.initialHash == TrueHash(truth, 0) && c.challenger != c.claimer && c.roundDuration > 50
    ensures GameFor(c, now, index).Some? && GameFor(c, now, index).value.0.currentState == WaitPartition
    ensures var p := GameFor(c, now, index).value.1;
      PartitionOnCourse(truth, claimers, p) && p.currentState == P.WaitingHashes
      && PR.Rounds(p) == BitLength(if c.finalTime > 0 then c.finalTime - 1 else 0)
  {
    PA.OpeningIsContest(c.challenger, c.claimer, claimers.hash, OracleOf(truth), c.finalTime, VG_QUERY_SIZE, c.roundDuration, now);
    hide Log2OverTwo, PA.Contest, PA.Ended, BitLength;
  }

  lemma DisputeTurn(env: Env, truth: Truth, machine: Address, claimers: Emulator, most: nat, d: View, next: Upcoming, now: nat)
    requires Setting(env, truth, machine, most) && ViewLinked(env, d) && OnCourse(env, truth, machine, claimers, d)
    requires d.compute.currentState == WaitingConfirmation && Fair(env, d.compute)
    ensures Taken(env, truth, machine, claimers, most, d, next, now)
  {
    var c := d.compute;
    hide TrueRun, Runs, BitLength, PR.Rounds, GameFor, PartitionOnCourse, ReactCompute, Apply, Turn, PA.InHand, PA.Bisected,
      CaseTrue;
    GameOpens(truth, claimers, c, now, next.partition);
    Denied(env, d, next, now, EmulatorOf(truth));
    hide ChallengerTrue;
    ChallengerTrueNext(env, truth, machine, d, next, c.challenger, now, OpenDispute);
  }

  // in a waiting partition the agent of compute does what the agent of the partition does
  lemma PassedDown(env: Env, d: View, next: Upcoming, user: Address, now: nat, em: Emulator, move: P.Move, q: P.PartitionCtx)
    requires ViewLinked(env, d) && d.partition.Some? && d.partition.value.Waiting()
    requires user == d.compute.claimer || user == d.compute.challenger
    requires PA.Observe(d.partition.value, user, now, em.hash) == PA.Send(move)
    requires P.Apply(d.partition.value, user, now, move) == Some(q)
    ensures ReactCompute(d, user, now, em) == PA.Send(OnPartition(move))
    ensures Apply(env, d, next, user, now, OnPartition(move)) == Some(d.(partition := Some(q)))
  {
    hide Kept, PlaysFor, P.Apply, PA.Observe;
  }

  lemma RoundsSame(p: P.PartitionCtx, q: P.PartitionCtx)
    requires q.queryArray == p.queryArray
    ensures PR.Rounds(q) == PR.Rounds(p)
  {
    hide BitLength;
  }

  // a partition that goes on, or ends as it should, keeps the dispute on course
  lemma PartitionTurn(env: Env, truth: Truth, machine: Address, claimers: Emulator, most: nat, d: View, next: Upcoming,
                      user: Address, now: nat, em: Emulator, move: P.Move, q: P.PartitionCtx)
    requires TrueRun(truth) && env.depth == truth.depth && user != env.vgAddress
    requires ViewLinked(env, d) && OnCourse(env, truth, machine, claimers, d)
    requires d.partition.Some? && d.partition.value.Waiting() && user == Turn(d)
    requires em == if user == d.compute.claimer then claimers else EmulatorOf(truth)
    requires PA.Observe(d.partition.value, user, now, em.hash) == PA.Send(move)
    requires P.Apply(d.partition.value, user, now, move) == Some(q)
    requires PartitionOnCourse(truth, claimers, q)
    requires LeftInGame(truth, most, d.(partition := Some(q))) < LeftInGame(truth, most, d)
    ensures Taken(env, truth, machine, claimers, most, d, next, now)
  {
    PassedDown(env, d, next, user, now, em, move, q);
    hide TrueRun, PlaysFor, Kept, P.Apply, PA.Observe, PartitionOnCourse, LeftInGame, ChallengerTrue, ReactCompute, Apply;
    assert FollowsAgent(truth, d, user, now, OnPartition(move));
    ChallengerTrueNext(env, truth, machine, d, next, user, now, OnPartition(move));
  }

  lemma HashesTurn(env: Env, truth: Truth, machine: Address, claimers: Emulator, most: nat, d: View, next: Upcoming, now: nat)
    requires Setting(env, truth, machine, most) && ViewLinked(env, d) && OnCourse(env, truth, machine, claimers, d)
    requires d.partition.Some? && d.partition.value.currentState == P.WaitingHashes
    requires d.compute.claimer != env.vgAddress
    ensures Taken(env, truth, machine, claimers, most, d, next, now)
  {
    ClaimerSame(env, d);
    hide TrueRun, Runs, ChallengerTrue, Kept, PlaysFor, Backs, P.Apply, PA.Observe, PA.Contest, PA.Ended, PR.Rounds;
    var p := d.partition.value;
    var asked, q := PA.ClaimerTurn(p, claimers.hash, OracleOf(truth), now);
    RoundsSame(p, q);
    PartitionTurn(env, truth, machine, claimers, most, d, next, d.compute.claimer, now, claimers, asked, q);
  }

  lemma GoesOn(truth: Truth, claimers: Emulator, p: P.PartitionCtx, q: P.PartitionCtx)
    requires PartitionOnCourse(truth, claimers, p) && p.Waiting() && PR.Keeps(p, q)
    requires PA.Ended(q, claimers.hash, OracleOf(truth)) || PA.Contest(q, claimers.hash, OracleOf(truth))
    ensures PartitionOnCourse(truth, claimers, q)
  {
    hide PA.Posts, PA.Divergent, PA.Bisected, PR.Wf;
  }

  lemma QueryTurn(env: Env, truth: Truth, machine: Address, claimers: Emulator, most: nat, d: View, next: Upcoming, now: nat)
    requires Setting(env, truth, machine, most) && ViewLinked(env, d) && OnCourse(env, truth, machine, claimers, d)
    requires d.partition.Some? && d.partition.value.currentState == P.WaitingQuery
    requires d.compute.challenger != env.vgAddress
    ensures Taken(env, truth, machine, claimers, most, d, next, now)
  {
    ClaimerSame(env, d);
    hide TrueRun, Runs, ChallengerTrue, Kept, PlaysFor, Backs, P.Apply, PA.Observe, PR.Rounds, PA.Posts, PA.Divergent,
      PA.Bisected, PR.Wf, Terms, Disputes;
    var p := d.partition.value;
    var made, q := PA.ChallengerTurn(p, claimers.hash, OracleOf(truth), now);
    GoesOn(truth, claimers, p, q);
    assert q.currentState == P.DivergenceFound || (q.currentState == P.WaitingHashes && PR.Rounds(q) < PR.Rounds(p));
    hide PA.Contest, PA.Ended, PartitionOnCourse, PR.Keeps;
    PartitionTurn(env, truth, machine, claimers, most, d, next, d.compute.challenger, now, EmulatorOf(truth), made, q);
  }

  lemma StartTurn(env: Env, truth: Truth, machine: Address, claimers: Emulator, most: nat, d: View, next: Upcoming, now: nat)
    requires Setting(env, truth, machine, most) && ViewLinked(env, d) && OnCourse(env, truth, machine, claimers, d)
    requires d.partition.Some? && d.partition.value.currentState == P.DivergenceFound
    requires d.compute.challenger != env.vgAddress
    ensures Taken(env, truth, machine, claimers, most, d, next, now)
  {
    ClaimerSame(env, d);
    var p := d.partition.value;
    assert p.divergenceTime < U64 by { assert PR.Answered(p); }
    assert |truth.log(p.divergenceTime)| <= most;
    ChallengerTrueNext(env, truth, machine, d, next, d.compute.challenger, now, StartRun);
    hide TrueRun, Runs, BitLength, PA.Contest, PA.Ended, ChallengerTrue, Kept, PlaysFor;
  }

  // the prover's transaction is accepted and one fewer is left
  lemma ProofGoesOn(truth: Truth, t: nat, m: M.MMCtx) returns (move: M.Move, m': M.MMCtx)
    requires TrueRun(truth) && OnTrack(truth, t, m) && m.currentState == M.WaitingProofs && t < U64
    ensures ReactMM(m, t, StepLog(truth, t)) == PA.Send(move)
    ensures M.Apply(truth.depth, m, m.provider, move) == Some(m')
    ensures |m.history| <= |truth.log(t)|
    ensures m'.currentState == M.WaitingReplay
      || (m'.currentState == M.WaitingProofs && |m'.history| == |m.history| + 1 <= |truth.log(t)|)
  {
    if |m.history| < |truth.log(t)| { EntryAccepted(truth, t, m); } else { LogFinished(truth, t, m); }
    hide TrueRun, StepLog, ReactMM, M.Apply;
    move := ReactMM(m, t, StepLog(truth, t)).call;
    m' := M.Apply(truth.depth, m, m.provider, move).value;
  }

  // with the log open, the agent of compute does what the prover does
  lemma PassedToProver(env: Env, d: View, next: Upcoming, now: nat, em: Emulator, move: M.Move, m': M.MMCtx)
    requires ViewLinked(env, d) && d.memory.Some? && d.memory.value.currentState == M.WaitingProofs
    requires var t := d.game.value.divergenceTime; ReactMM(d.memory.value, t, em.stepLog(t)) == PA.Send(move)
    requires M.Apply(env.depth, d.memory.value, d.memory.value.provider, move) == Some(m')
    ensures Turn(d) == d.compute.challenger != d.compute.claimer
    ensures ReactCompute(d, d.compute.challenger, now, em) == PA.Send(OnMemory(move))
    ensures Apply(env, d, next, d.compute.challenger, now, OnMemory(move)) == Some(d.(memory := Some(m')))
  {
    hide Kept, PlaysFor, M.Apply, ReactMM;
  }

  lemma ProofTurn(env: Env, truth: Truth, machine: Address, claimers: Emulator, most: nat, d: View, next: Upcoming, now: nat)
    requires Setting(env, truth, machine, most) && ViewLinked(env, d) && OnCourse(env, truth, machine, claimers, d)
    requires d.memory.Some? && d.memory.value.currentState == M.WaitingProofs
    requires d.compute.challenger != env.vgAddress
    ensures Taken(env, truth, machine, claimers, most, d, next, now)
  {
    var m, t := d.memory.value, d.game.value.divergenceTime;
    var move, m' := ProofGoesOn(truth, t, m);
    PassedToProver(env, d, next, now, EmulatorOf(truth), move, m');
    hide TrueRun, Runs, ChallengerTrue, Kept, PlaysFor, Backs, ReactCompute, ReactMM, StepLog, M.Apply, Apply, Turn;
    ChallengerTrueNext(env, truth, machine, d, next, d.compute.challenger, now, OnMemory(move));
  }

  lemma SettleTurn(env: Env, truth: Truth, machine: Address, claimers: Emulator, most: nat, d: View, next: Upcoming, now: nat)
    requires Setting(env, truth, machine, most) && ViewLinked(env, d) && OnCourse(env, truth, machine, claimers, d)
    requires d.memory.Some? && d.memory.value.currentState == M.WaitingReplay
    requires d.compute.challenger != env.vgAddress
    ensures Taken(env, truth, machine, claimers, most, d, next, now)
  {
    SettlesForChallenger(env, truth, machine, d, next, now);
    ChallengerTrueNext(env, truth, machine, d, next, d.compute.challenger, now, Settle);
    hide TrueRun, Runs, ChallengerTrue, Kept, PlaysFor, Settled;
  }

  lemma VerdictTurn(env: Env, truth: Truth, machine: Address, claimers: Emulator, most: nat, d: View, next: Upcoming, now: nat)
    requires Setting(env, truth, machine, most) && ViewLinked(env, d) && OnCourse(env, truth, machine, claimers, d)
    requires d.game.Some? && !d.game.value.Live()
    ensures Taken(env, truth, machine, claimers, most, d, next, now)
  {
    hide TrueRun, Runs;
  }

  lemma EveryTurn(env: Env, truth: Truth, machine: Address, claimers: Emulator, most: nat, d: View, next: Upcoming, now: nat)
    requires Setting(env, truth, machine, most) && ViewLinked(env, d) && OnCourse(env, truth, machine, claimers, d)
    requires d.compute.Open() && Fair(env, d.compute)
    ensures Taken(env, truth, machine, claimers, most, d, next, now)
  {
    if d.compute.currentState == WaitingClaim {
      ClaimTurn(env, truth, machine, claimers, most, d, next, now);
    } else if d.compute.currentState == WaitingConfirmation {
      DisputeTurn(env, truth, machine, claimers, most, d, next, now);
    } else {
      match d.game.value.currentState
      case WaitPartition =>
        match d.partition.value.currentState {
          case WaitingHashes => HashesTurn(env, truth, machine, claimers, most, d, next, now);
          case WaitingQuery => QueryTurn(env, truth, machine, claimers, most, d, next, now);
          case _ => StartTurn(env, truth, machine, claimers, most, d, next, now);
        }
      case WaitMemoryProveValues =>
        if d.memory.value.currentState == M.WaitingProofs {
          ProofTurn(env, truth, machine, claimers, most, d, next, now);
        } else {
          SettleTurn(env, truth, machine, claimers, most, d, next, now);
        }
      case _ => VerdictTurn(env, truth, machine, claimers, most, d, next, now);
    }
  }

  lemma LeftPositive(env: Env, truth: Truth, machine: Address, claimers: Emulator, most: nat, w: World, ci: nat)
    requires TrueRun(truth) && Linked(env, w) && ci < |w.computes| && w.computes[ci].Open()
    requires OnCourse(env, truth, machine, claimers, ViewOf(w, ci))
    ensures Left(truth, most, ViewOf(w, ci)) > 0
  {
    LinkedView(env, w, ci);
    hide Linked, TrueRun, BitLength, PR.Rounds;
  }

  lemma ClosedIsDecided(env: Env, truth: Truth, machine: Address, claimers: Emulator, w: World, ci: nat)
    requires TrueRun(truth) && ci < |w.computes| && !w.computes[ci].Open()
    requires OnCourse(env, truth, machine, claimers, ViewOf(w, ci))
    ensures w.computes[ci].currentState == if env.settleReturns then ChallengerWon else ClaimerWon
  {
    hide TrueRun, ChallengerTrue;
  }

  // the agent's move on the dispute, as a transaction on the system
  lemma TurnOnSystem(env: Env, w: World, ci: nat, user: Address, now: nat, em: Emulator)
    requires Linked(env, w) && ci < |w.computes| && user != env.vgAddress
    requires var r := ReactCompute(ViewOf(w, ci), user, now, em);
      r.Send? && Apply(env, ViewOf(w, ci), NextIndices(w), user, now, r.call).Some?
    ensures var r := ReactCompute(ViewOf(w, ci), user, now, em);
      var w' := Exec(env, w, user, now, CallOf(w, ci, r.call));
      && w'.Some? && Linked(env, w'.value) && ci < |w'.value.computes|
      && Some(ViewOf(w'.value, ci)) == Apply(env, ViewOf(w, ci), NextIndices(w), user, now, r.call)
  {
    hide Linked, Exec, ReactCompute, Apply;
    var r := ReactCompute(ViewOf(w, ci), user, now, em);
    ReactionPlaced(ViewOf(w, ci), user, now, em);
    CallLabelled(w, ci, r.call);
    hide Label, CallOf, ViewOf;
    var e := Event(now, user, CallOf(w, ci, r.call));
    LinkedStep(env, w, e);
    StepSimulates(env, w, e, ci);
  }

  /** One turn on the system. */
  lemma TakeTurn(env: Env, truth: Truth, machine: Address, claimers: Emulator, most: nat, w: World, ci: nat, now: nat)
      returns (w': World)
    requires Setting(env, truth, machine, most)
    requires Linked(env, w) && ci < |w.computes| && w.computes[ci].Open() && Fair(env, w.computes[ci])
    requires OnCourse(env, truth, machine, claimers, ViewOf(w, ci))
    ensures var d := ViewOf(w, ci);
      var r := ReactOnTurn(d, now, claimers, EmulatorOf(truth));
      r.Send? && Exec(env, w, Turn(d), now, CallOf(w, ci, r.call)) == Some(w')
    ensures Linked(env, w') && ci < |w'.computes| && Fair(env, w'.computes[ci])
    ensures OnCourse(env, truth, machine, claimers, ViewOf(w', ci))
    ensures Left(truth, most, ViewOf(w', ci)) < Left(truth, most, ViewOf(w, ci))
  {
    var d := ViewOf(w, ci);
    LinkedView(env, w, ci);
    hide OnCourse, Linked, ViewLinked, TrueRun, Left, Apply, Exec, ReactCompute, CallOf;
    EveryTurn(env, truth, machine, claimers, most, d, NextIndices(w), now);
    TurnOnSystem(env, w, ci, Turn(d), now, if Turn(d) == d.compute.claimer then claimers else EmulatorOf(truth));
    var r := ReactOnTurn(d, now, claimers, EmulatorOf(truth));
    FairNext(env, d, NextIndices(w), Turn(d), now, r.call);
    w' := Exec(env, w, Turn(d), now, CallOf(w, ci, r.call)).value;
  }

  lemma PlayStep(env: Env, w: World, ci: nat, claimers: Emulator, challengers: Emulator, clock: nat -> nat, turns: nat, w': World)
    requires ci < |w.computes| && ci < |w'.computes| && turns > 0
    requires var d := ViewOf(w, ci);
      var r := ReactOnTurn(d, clock(turns), claimers, challengers);
      r.Send? && Exec(env, w, Turn(d), clock(turns), CallOf(w, ci, r.call)) == Some(w')
    ensures Play(env, w, ci, claimers, challengers, clock, turns) == Play(env, w', ci, claimers, challengers, clock, turns - 1)
  {
    hide ReactOnTurn, Exec, CallOf, Turn, ViewOf;
  }

  lemma PlayStops(env: Env, w: World, ci: nat, claimers: Emulator, challengers: Emulator, clock: nat -> nat, turns: nat)
    requires ci < |w.computes| && !w.computes[ci].Open()
    ensures Play(env, w, ci, claimers, challengers, clock, turns) == w
  {
    hide Exec, CallOf;
  }

  lemma {:induction false} PlayDecides(env: Env, truth: Truth, machine: Address, claimers: Emulator, most: nat,
                                       w: World, ci: nat, clock: nat -> nat, turns: nat)
    requires Setting(env, truth, machine, most)
    requires Linked(env, w) && ci < |w.computes| && Fair(env, w.computes[ci])
    requires OnCourse(env, truth, machine, claimers, ViewOf(w, ci)) && turns >= Left(truth, most, ViewOf(w, ci))
    ensures var w' := Play(env, w, ci, claimers, EmulatorOf(truth), clock, turns);
      ci < |w'.computes| && w'.computes[ci].currentState == if env.settleReturns then ChallengerWon else ClaimerWon
    decreases turns
  {
    hide Play, Linked, TrueRun, Runs, OnCourse, Left, Exec, ReactOnTurn, CallOf, Turn, ViewOf, Fair;
    if w.computes[ci].Open() {
      LeftPositive(env, truth, machine, claimers, most, w, ci);
      var w' := TakeTurn(env, truth, machine, claimers, most, w, ci, clock(turns));
      PlayStep(env, w, ci, claimers, EmulatorOf(truth), clock, turns, w');
      PlayDecides(env, truth, machine, claimers, most, w', ci, clock, turns - 1);
    } else {
      PlayStops(env, w, ci, claimers, EmulatorOf(truth), clock, turns);
      ClosedIsDecided(env, truth, machine, claimers, w, ci);
    }
  }

  /** A whole dispute between the two agents, from an open instance to its verdict. The parties
      agree on the initial hash and differ on the final one; the challenger's emulator is right.
      Then, on the system as a whole, every agent in its turn sends a transaction that goes
      through, and within 2 ceil(log2 finalTime) + (accesses of a step) + 8 of them the instance
      is closed: for the challenger with the settlement that returns, and for the claimer, whose
      claim is false, in the code as it stands. */
  lemma AgentsDecide(env: Env, truth: Truth, machine: Address, claimers: Emulator, most: nat,
                     w: World, ci: nat, clock: nat -> nat, turns: nat)
    requires Setting(env, truth, machine, most) && Linked(env, w) && ci < |w.computes|
    requires var c := w.computes[ci];
      && c.currentState == WaitingClaim && Terms(truth, machine, c) && Fair(env, c) && Quarrel(truth, claimers, c)
      && turns >= 2 * BitLength(c.finalTime - 1) + most + 8
    ensures var w' := Play(env, w, ci, claimers, EmulatorOf(truth), clock, turns);
      ci < |w'.computes| && w'.computes[ci].currentState == if env.settleReturns then ChallengerWon else ClaimerWon
  {
    hide Linked, TrueRun, Play, BitLength;
    PlayDecides(env, truth, machine, claimers, most, w, ci, clock, turns);
  }
}
