/** The challenger that follows its agent, over every run of the whole system. */
module HonestChallenger {
  import opened Arithmetic
  import opened Common
  import opened Merkle
  import P = Partition
  import PR = PartitionRuns
  import PA = PartitionAgent
  import M = MemoryManager
  import opened MMAgent
  import opened Machine
  import opened Protocol
  import opened Linkage
  import opened OneDispute
  import opened Agents
  import opened EndToEnd

  /** The challenger's case: it disputes a false claim, the partition is bisected on the truth,
      and the memory manager holds a prefix of the true log of the disputed step. */
  ghost predicate ChallengerTrue(truth: Truth, machine: Address, d: View)
    requires TrueRun(truth)
  {
    && Terms(truth, machine, d.compute)
    && (d.compute.currentState == WaitingChallenge ==> d.compute.claimedFinalHash != TrueHash(truth, d.compute.finalTime))
    && (d.partition.Some? ==> PA.InHand(d.partition.value) && PA.Bisected(d.partition.value, OracleOf(truth)))
    && (d.game.Some? && d.memory.Some? ==> CaseTrue(truth, d.game.value, d.memory.value))
  }

  ghost predicate CaseTrue(truth: Truth, v: VGCtx, m: M.MMCtx)
    requires TrueRun(truth)
  {
    && v.hashAfterDivergence != TrueHash(truth, v.divergenceTime + 1)
    && OnTrack(truth, v.divergenceTime, m)
  }

  // the challenger's own transactions on this dispute are its agent's
  ghost predicate FollowsAgent(truth: Truth, d: View, caller: Address, now: nat, move: Move)
    requires TrueRun(truth)
  {
    caller == d.compute.challenger && (move.OnPartition? || move.OnMemory? || move.OpenDispute? || move.Agree?) ==>
      ReactCompute(d, caller, now, EmulatorOf(truth)) == PA.Send(move)
  }

  // ----- one move -----

  lemma PartitionCase(env: Env, truth: Truth, machine: Address, d: View, caller: Address, now: nat, move: P.Move)
    requires TrueRun(truth) && ViewLinked(env, d) && ChallengerTrue(truth, machine, d)
    requires FollowsAgent(truth, d, caller, now, OnPartition(move))
    requires d.partition.Some? && P.Apply(d.partition.value, caller, now, move).Some?
    ensures PA.InHand(P.Apply(d.partition.value, caller, now, move).value)
    ensures PA.Bisected(P.Apply(d.partition.value, caller, now, move).value, OracleOf(truth))
  {
    var p, h := d.partition.value, OracleOf(truth);
    ClaimerSame(env, d);
    if caller == p.challenger {
      ObserveOnly(env, d, caller, now, EmulatorOf(truth), move);
    }
    PA.BisectedStep(p, h, PR.Event(now, caller, move));
  }

  // a reaction that is a partition call is the partition agent's
  lemma ObserveOnly(env: Env, d: View, user: Address, now: nat, em: Emulator, move: P.Move)
    requires ViewLinked(env, d) && d.partition.Some?
    requires ReactCompute(d, user, now, em) == PA.Send(OnPartition(move))
    ensures PA.Observe(d.partition.value, user, now, em.hash) == PA.Send(move)
  {
    hide PA.Observe, ComputeDeadline, MemoryDeadline, PlaysFor, Kept;
  }

  // a reaction that is a memory call is the memory agent's
  lemma ProverOnly(env: Env, d: View, user: Address, now: nat, em: Emulator, move: M.Move)
    requires ViewLinked(env, d) && d.memory.Some?
    requires ReactCompute(d, user, now, em) == PA.Send(OnMemory(move))
    ensures var v := d.game.value; ReactMM(d.memory.value, v.divergenceTime, em.stepLog(v.divergenceTime)) == PA.Send(move)
  {
    hide ReactMM, PA.Observe, ComputeDeadline, MemoryDeadline, PlaysFor, Kept;
  }

  lemma MemoryCase(env: Env, truth: Truth, machine: Address, d: View, caller: Address, now: nat, move: M.Move)
    requires TrueRun(truth) && env.depth == truth.depth && caller != env.vgAddress
    requires ViewLinked(env, d) && ChallengerTrue(truth, machine, d)
    requires FollowsAgent(truth, d, caller, now, OnMemory(move))
    requires d.memory.Some? && M.Apply(env.depth, d.memory.value, caller, move).Some?
    ensures CaseTrue(truth, d.game.value, M.Apply(env.depth, d.memory.value, caller, move).value)
  {
    var v, m := d.game.value, d.memory.value;
    assert caller == m.provider == v.challenger == d.compute.challenger by { hide OnTrack, TrueRun; }
    ProverOnly(env, d, caller, now, EmulatorOf(truth), move);
    assert v.divergenceTime < U64;
    hide M.Apply, ReactMM;
    ProverReacts(truth, v.divergenceTime, m);
  }

  lemma StartCase(env: Env, truth: Truth, machine: Address, d: View, next: Upcoming, now: nat)
    requires TrueRun(truth) && env.depth == truth.depth && ViewLinked(env, d) && ChallengerTrue(truth, machine, d)
    requires d.partition.Some? && Started(d.game.value, d.partition.value, next.memory, now).Some?
    ensures var v := Started(d.game.value, d.partition.value, next.memory, now).value;
      CaseTrue(truth, v, OpenMemory(env, v))
  {
    var t := d.partition.value.divergenceTime;
    assert Shaped(truth.mem(t), truth.depth);
    assert truth.log(t)[..0] == [];
  }

  lemma OpenCase(truth: Truth, machine: Address, d: View, next: Upcoming, now: nat)
    requires TrueRun(truth) && ChallengerTrue(truth, machine, d) && d.compute.currentState == WaitingConfirmation
    requires d.compute.finalTime < MOD && d.compute.claimedFinalHash != TrueHash(truth, d.compute.finalTime)
    requires GameFor(d.compute, now, next.partition).Some?
    ensures PA.InHand(GameFor(d.compute, now, next.partition).value.1)
    ensures PA.Bisected(GameFor(d.compute, now, next.partition).value.1, OracleOf(truth))
  {
    var c := d.compute;
    hide Log2OverTwo;
    PR.CreateCore(c.challenger, c.claimer, c.initialHash, c.claimedFinalHash, c.finalTime, VG_QUERY_SIZE, c.roundDuration, now);
    PA.OpeningInHand(c.challenger, c.claimer, c.initialHash, c.claimedFinalHash, c.finalTime, VG_QUERY_SIZE, c.roundDuration, now);
  }

  lemma DisputesFalseClaim(truth: Truth, d: View, now: nat)
    requires TrueRun(truth) && d.compute.challenger != d.compute.claimer
    requires ReactCompute(d, d.compute.challenger, now, EmulatorOf(truth)) == PA.Send(OpenDispute)
    ensures d.compute.claimedFinalHash != TrueHash(truth, d.compute.finalTime)
  {
    hide PA.Observe, ReactMM, ComputeDeadline, MemoryDeadline, TrueRun;
  }

  /** One move, by anybody, keeps the challenger's case true. */
  lemma ChallengerTrueNext(env: Env, truth: Truth, machine: Address, d: View, next: Upcoming, caller: Address,
                           now: nat, move: Move)
    requires TrueRun(truth) && env.depth == truth.depth && caller != env.vgAddress
    requires ViewLinked(env, d) && ChallengerTrue(truth, machine, d) && FollowsAgent(truth, d, caller, now, move)
    ensures ChallengerTrue(truth, machine, Next(env, d, next, caller, now, move))
  {
    hide P.Apply, M.Apply, Kept, PlaysFor, Backs, PA.Bisected, PA.InHand, CaseTrue, TrueRun, Started, GameFor, Disproves,
      ComputeDeadline, MemoryDeadline, ReactCompute;
    if Apply(env, d, next, caller, now, move).Some? {
      match move
      case OnPartition(m) => PartitionCase(env, truth, machine, d, caller, now, m);
      case OnMemory(m) => MemoryCase(env, truth, machine, d, caller, now, m);
      case StartRun => StartCase(env, truth, machine, d, next, now);
      case OpenDispute =>
        DisputesFalseClaim(truth, d, now);
        OpenCase(truth, machine, d, next, now);
      case _ =>
    }
  }

  // ----- the case is won -----

  /** Once the log is in, the settlement's guard holds. */
  lemma CaseIsWon(env: Env, truth: Truth, machine: Address, d: View)
    requires TrueRun(truth) && Runs(env.step, machine, truth.program)
    requires ViewLinked(env, d) && ChallengerTrue(truth, machine, d)
    requires d.memory.Some? && d.memory.value.currentState == M.WaitingReplay
    ensures Disproves(env, d.game.value, d.memory.value)
  {
    var v, m := d.game.value, d.memory.value;
    assert TraceOn(truth.program, truth.mem(v.divergenceTime), truth.log(v.divergenceTime));
    assert Accepts(env.step, machine, m.history);
    assert Shaped(truth.mem(v.divergenceTime + 1), truth.depth);
  }

  /** The settlement goes through, and with the return in place the game is the challenger's;
      in the code as it stands it is the claimer's all the same. */
  lemma SettlesForChallenger(env: Env, truth: Truth, machine: Address, d: View, next: Upcoming, now: nat)
    requires TrueRun(truth) && Runs(env.step, machine, truth.program)
    requires ViewLinked(env, d) && ChallengerTrue(truth, machine, d)
    requires d.memory.Some? && d.memory.value.currentState == M.WaitingReplay
    ensures var d' := Apply(env, d, next, d.compute.challenger, now, Settle);
      d'.Some? && d'.value.game.Some?
      && d'.value.game.value.currentState == if env.settleReturns then FinishedChallengerWon else FinishedClaimerWon
  {
    CaseIsWon(env, truth, machine, d);
    hide Kept, PlaysFor, ChallengerTrue, TrueRun;
  }

  // ----- the agents only send enabled transactions -----

  lemma ClaimerEnabled(env: Env, d: View, next: Upcoming, now: nat, em: Emulator)
    requires ViewLinked(env, d)
    ensures var r := ReactCompute(d, d.compute.claimer, now, em);
      PA.Sane(r) && (r.Send? ==> Apply(env, d, next, d.compute.claimer, now, r.call).Some?)
  {
    if d.partition.Some? {
      ClaimerSame(env, d);
      PA.ClaimerCallAccepted(d.partition.value, em.hash, now);
    }
    hide P.Apply, M.Apply, Kept, PlaysFor, PA.Observe, Log2OverTwo, P.Deadline, ComputeDeadline, MemoryDeadline;
  }

  lemma ChallengerPartitionEnabled(env: Env, truth: Truth, machine: Address, d: View, next: Upcoming, now: nat)
    requires TrueRun(truth) && ViewLinked(env, d) && ChallengerTrue(truth, machine, d) && d.partition.Some?
    ensures var r := ReactWaitPartition(d, P.ChallengerWon, d.compute.challenger, now, EmulatorOf(truth));
      PA.Sane(r) && (r.Send? ==> Apply(env, d, next, d.compute.challenger, now, r.call).Some?)
  {
    ClaimerSame(env, d);
    PA.ChallengerReacts(d.partition.value, OracleOf(truth), now);
    hide P.Apply, PA.Observe, Kept, PlaysFor, PA.Bisected, PA.InHand, TrueRun, Log2OverTwo;
  }

  lemma TooLate(m: M.MMCtx, t: nat, stepLog: seq<Access>)
    requires t >= U64
    ensures var r := ReactMM(m, t, stepLog); PA.Sane(r) && !r.Send?
  {
  }

  lemma ChallengerMemoryEnabled(env: Env, truth: Truth, machine: Address, d: View, next: Upcoming, now: nat)
    requires TrueRun(truth) && env.depth == truth.depth && Runs(env.step, machine, truth.program)
    requires ViewLinked(env, d) && ChallengerTrue(truth, machine, d) && d.memory.Some?
    ensures var r := ReactProver(d, d.game.value, EmulatorOf(truth));
      PA.Sane(r) && (r.Send? ==> Apply(env, d, next, d.compute.challenger, now, r.call).Some?)
  {
    var v, m := d.game.value, d.memory.value;
    hide M.Apply, Kept, PlaysFor, TrueRun, OnTrack, StepLog, Disproves, Settled, Accepts, ReactMM, Runs;
    if m.currentState == M.WaitingReplay {
      SettlesForChallenger(env, truth, machine, d, next, now);
    } else if v.divergenceTime < U64 {
      ProverReacts(truth, v.divergenceTime, m);
    } else {
      TooLate(m, v.divergenceTime, StepLog(truth, v.divergenceTime));
    }
  }

  lemma ChallengerEnabled(env: Env, truth: Truth, machine: Address, d: View, next: Upcoming, now: nat)
    requires TrueRun(truth) && env.depth == truth.depth && Runs(env.step, machine, truth.program)
    requires ViewLinked(env, d) && ChallengerTrue(truth, machine, d)
    requires d.compute.Open() ==> d.compute.finalTime > 0 && d.compute.roundDuration > 50
    ensures var r := ReactCompute(d, d.compute.challenger, now, EmulatorOf(truth));
      PA.Sane(r) && (r.Send? ==> Apply(env, d, next, d.compute.challenger, now, r.call).Some?)
  {
    if d.partition.Some? { ChallengerPartitionEnabled(env, truth, machine, d, next, now); }
    if d.memory.Some? { ChallengerMemoryEnabled(env, truth, machine, d, next, now); }
    hide P.Apply, M.Apply, Kept, PlaysFor, Backs, ReactWaitPartition, ReactProver, Log2OverTwo, TrueRun, ChallengerTrue,
      Settled, Started, TimedOut, ComputeDeadline, MemoryDeadline;
  }

  // the instance a move needs is there
  predicate Placed(d: View, move: Move) {
    && (move.OnPartition? ==> d.partition.Some?)
    && (move.OnMemory? ==> d.memory.Some?)
    && (move.TakeTimeout? || move.StartRun? || move.Settle? || move.ClaimGame? ==> d.game.Some?)
    && !move.Elsewhere?
  }

  lemma ReactionPlaced(d: View, user: Address, now: nat, em: Emulator)
    requires ReactCompute(d, user, now, em).Send?
    ensures Placed(d, ReactCompute(d, user, now, em).call)
  {
    hide PA.Observe, ReactMM, ComputeDeadline, MemoryDeadline;
  }

  // an agent's transaction is its move on the dispute it reacts to
  lemma CallLabelled(w: World, ci: nat, move: Move)
    requires ci < |w.computes| && Placed(ViewOf(w, ci), move)
    ensures Label(w, ci, CallOf(w, ci, move)) == move
  {
  }

  /** Agents only send enabled transactions, on the system as a whole: in every linked world,
      the claimer's agent always; the challenger's while its case is true, on terms a
      challenge accepts. */
  lemma AgentsEnabled(env: Env, truth: Truth, machine: Address, w: World, ci: nat, now: nat, em: Emulator)
    requires TrueRun(truth) && env.depth == truth.depth && Runs(env.step, machine, truth.program)
    requires Linked(env, w) && ci < |w.computes|
    ensures var c := w.computes[ci];
      var r := ReactCompute(ViewOf(w, ci), c.claimer, now, em);
      PA.Sane(r) && (r.Send? && c.claimer != env.vgAddress ==> Exec(env, w, c.claimer, now, CallOf(w, ci, r.call)).Some?)
    ensures var c := w.computes[ci];
      var r := ReactCompute(ViewOf(w, ci), c.challenger, now, EmulatorOf(truth));
      ChallengerTrue(truth, machine, ViewOf(w, ci)) && (c.Open() ==> c.finalTime > 0 && c.roundDuration > 50) ==>
        PA.Sane(r)
        && (r.Send? && c.challenger != env.vgAddress ==> Exec(env, w, c.challenger, now, CallOf(w, ci, r.call)).Some?)
  {
    var d, c := ViewOf(w, ci), w.computes[ci];
    LinkedView(env, w, ci);
    hide Linked, ViewLinked, ChallengerTrue, TrueRun, Exec, Label, Apply, ReactCompute;
    ClaimerEnabled(env, d, NextIndices(w), now, em);
    var r := ReactCompute(d, c.claimer, now, em);
    if r.Send? && c.claimer != env.vgAddress {
      ReactionPlaced(d, c.claimer, now, em);
      CallLabelled(w, ci, r.call);
      StepSimulates(env, w, Event(now, c.claimer, CallOf(w, ci, r.call)), ci);
    }
    if ChallengerTrue(truth, machine, d) && (c.Open() ==> c.finalTime > 0 && c.roundDuration > 50) {
      ChallengerEnabled(env, truth, machine, d, NextIndices(w), now);
      var s := ReactCompute(d, c.challenger, now, EmulatorOf(truth));
      if s.Send? && c.challenger != env.vgAddress {
        ReactionPlaced(d, c.challenger, now, EmulatorOf(truth));
        CallLabelled(w, ci, s.call);
        StepSimulates(env, w, Event(now, c.challenger, CallOf(w, ci, s.call)), ci);
      }
    }
  }

  // ----- over every run -----

  ghost predicate FollowsAgentIn(env: Env, truth: Truth, w: World, ci: nat, events: seq<Event>)
    requires TrueRun(truth)
  {
    forall k :: 0 <= k < |events| ==>
      var before := Run(env, w, events[..k]);
      ci < |before.computes|
      && FollowsAgent(truth, ViewOf(before, ci), events[k].caller, events[k].now, Label(before, ci, events[k].call))
  }

  lemma {:induction false} ChallengerTrueRun(env: Env, truth: Truth, machine: Address, w: World, ci: nat,
                                             events: seq<Event>, k: nat)
    requires TrueRun(truth) && env.depth == truth.depth && AllExternal(env, events)
    requires Linked(env, w) && ci < |w.computes| && ChallengerTrue(truth, machine, ViewOf(w, ci))
    requires FollowsAgentIn(env, truth, w, ci, events) && k <= |events|
    ensures var w' := Run(env, w, events[..k]);
      Linked(env, w') && ci < |w'.computes| && ChallengerTrue(truth, machine, ViewOf(w', ci))
  {
    hide Linked, ChallengerTrue, FollowsAgent, Exec, Label, Apply, TrueRun, ViewOf;
    if k == 0 {
      assert events[..0] == [];
    } else {
      ChallengerTrueRun(env, truth, machine, w, ci, events, k - 1);
      assert events[..k][..k - 1] == events[..k - 1];
      var before, e := Run(env, w, events[..k - 1]), events[k - 1];
      LinkedStep(env, before, e);
      LinkedView(env, before, ci);
      ChallengerTrueNext(env, truth, machine, ViewOf(before, ci), NextIndices(before), e.caller, e.now, Label(before, ci, e.call));
      StepIsNext(env, before, e, ci);
    }
  }

  /** Nothing is decided against the challenger: with a settlement that returns no verdict, and
      in any case no consensus on a false claim. */
  ghost predicate ChallengerStands(env: Env, truth: Truth, finalTime: nat, d: View) {
    && (d.compute.Open() ==> d.compute.finalTime == finalTime)
    && (d.compute.currentState == ConsensusResult ==> d.compute.claimedFinalHash == TrueHash(truth, finalTime))
    && (d.partition.Some? ==> d.partition.value.currentState != P.ClaimerWon)
    && (env.settleReturns ==>
          && (d.game.Some? ==> d.game.value.currentState != FinishedClaimerWon)
          && d.compute.currentState != ClaimerWon)
  }

  // no deadline of the challenger is past: for the claim, for its next query, or for the proof
  predicate ChallengerInTime(d: View, now: nat) {
    && (d.compute.currentState == WaitingConfirmation ==> now <= ComputeDeadline(d.compute))
    && (d.partition.Some? && d.partition.value.currentState == P.WaitingQuery ==> PR.InTime(d.partition.value, now))
    && (d.game.Some? && d.memory.Some? ==> now <= MemoryDeadline(d.game.value))
  }

  lemma AgreesWithTruth(truth: Truth, d: View, now: nat)
    requires TrueRun(truth) && d.compute.challenger != d.compute.claimer
    requires ReactCompute(d, d.compute.challenger, now, EmulatorOf(truth)) == PA.Send(Agree)
    ensures d.compute.claimedFinalHash == TrueHash(truth, d.compute.finalTime)
  {
    hide PA.Observe, ReactMM, ComputeDeadline, MemoryDeadline, TrueRun;
  }

  lemma ConsensusNext(env: Env, truth: Truth, finalTime: nat, d: View, next: Upcoming, caller: Address, now: nat,
                      move: Move)
    requires TrueRun(truth) && ViewLinked(env, d) && FollowsAgent(truth, d, caller, now, move)
    requires d.compute.Open() ==> d.compute.finalTime == finalTime
    requires d.compute.currentState == ConsensusResult ==> d.compute.claimedFinalHash == TrueHash(truth, finalTime)
    requires ChallengerInTime(d, now)
    ensures var c := Next(env, d, next, caller, now, move).compute;
      && (c.Open() ==> c.finalTime == finalTime)
      && (c.currentState == ConsensusResult ==> c.claimedFinalHash == TrueHash(truth, finalTime))
  {
    if move.Agree? && Apply(env, d, next, caller, now, move).Some? { AgreesWithTruth(truth, d, now); }
    hide P.Apply, M.Apply, Kept, PlaysFor, Backs, Disputes, TrueRun, ComputeDeadline, MemoryDeadline, PR.InTime, TrueHash,
      Started, Settled, TimedOut, ClaimedByTime, GameFor, ReactCompute;
  }

  lemma WonNext(env: Env, truth: Truth, machine: Address, d: View, next: Upcoming, caller: Address, now: nat)
    requires TrueRun(truth) && Runs(env.step, machine, truth.program) && env.settleReturns
    requires ViewLinked(env, d) && ChallengerTrue(truth, machine, d) && d.memory.Some?
    requires Apply(env, d, next, caller, now, Settle).Some?
    ensures var v := Apply(env, d, next, caller, now, Settle).value.game; v.Some? && v.value.currentState == FinishedChallengerWon
  {
    CaseIsWon(env, truth, machine, d);
    hide ChallengerTrue, TrueRun, Kept, PlaysFor, Backs, Disproves;
  }

  lemma ChallengerStandsNext(env: Env, truth: Truth, machine: Address, finalTime: nat, d: View, next: Upcoming,
                             caller: Address, now: nat, move: Move)
    requires TrueRun(truth) && Runs(env.step, machine, truth.program)
    requires ViewLinked(env, d) && ChallengerTrue(truth, machine, d) && FollowsAgent(truth, d, caller, now, move)
    requires ChallengerStands(env, truth, finalTime, d) && ChallengerInTime(d, now)
    ensures ChallengerStands(env, truth, finalTime, Next(env, d, next, caller, now, move))
  {
    hide P.Apply, M.Apply, P.Deadline, Kept, PlaysFor, Backs, Disputes, TrueRun, ChallengerTrue, Log2OverTwo, ComputeDeadline,
      MemoryDeadline, PR.InTime, P.Points, Runs, Settled, TrueHash, FollowsAgent;
    ConsensusNext(env, truth, finalTime, d, next, caller, now, move);
    if Apply(env, d, next, caller, now, move).Some? {
      if move.Settle? && env.settleReturns { WonNext(env, truth, machine, d, next, caller, now); }
      if move.OnPartition? { NotBeatenOnTime(d.partition.value, caller, now, move.partitionMove); }
    }
  }

  // the challenger moves the dispute on: a challenge or a confirmation, a query, a divergence,
  // or the settlement
  ghost predicate MovedAt(env: Env, w: World, ci: nat, events: seq<Event>, j: nat)
    requires j < |events|
  {
    var before := Run(env, w, events[..j]);
    && ci < |before.computes|
    && Exec(env, before, events[j].caller, events[j].now, events[j].call).Some?
    && var move := Label(before, ci, events[j].call);
       move.OpenDispute? || move.Agree? || move.Settle?
       || (move.OnPartition? && (move.partitionMove.MakeQuery? || move.partitionMove.PresentDivergence?))
  }

  /** From point n, if the challenger owes a move: one is accepted by the deadline, or the run
      stops before the deadline has passed. */
  ghost predicate MovesFrom(env: Env, w: World, ci: nat, events: seq<Event>, n: nat)
    requires n <= |events|
  {
    var before := Run(env, w, events[..n]);
    ci < |before.computes| ==>
      var d := ViewOf(before, ci);
      || (exists j :: n <= j < |events| && ChallengerInTime(d, events[j].now) && MovedAt(env, w, ci, events, j))
      || (forall j :: n <= j < |events| ==> ChallengerInTime(d, events[j].now))
  }

  lemma EarlierInTime(d: View, earlier: nat, later: nat)
    requires earlier <= later && ChallengerInTime(d, later)
    ensures ChallengerInTime(d, earlier)
  {
    hide P.Deadline, MemoryDeadline, ComputeDeadline;
  }

  lemma MovesInTime(env: Env, w: World, ci: nat, events: seq<Event>, n: nat)
    requires Clocked(events) && n < |events| && MovesFrom(env, w, ci, events, n)
    requires ci < |Run(env, w, events[..n]).computes|
    ensures ChallengerInTime(ViewOf(Run(env, w, events[..n]), ci), events[n].now)
  {
    hide ChallengerInTime, MovedAt, Run, ViewOf;
    var d := ViewOf(Run(env, w, events[..n]), ci);
    if j :| n <= j < |events| && ChallengerInTime(d, events[j].now) {
      EarlierInTime(d, events[n].now, events[j].now);
    }
  }

  lemma {:induction false} ChallengerStandsRun(env: Env, truth: Truth, machine: Address, finalTime: nat, w: World,
                                               ci: nat,
                                               events: seq<Event>, k: nat)
    requires TrueRun(truth) && env.depth == truth.depth && Runs(env.step, machine, truth.program)
    requires AllExternal(env, events) && Clocked(events)
    requires Linked(env, w) && ci < |w.computes|
    requires ChallengerTrue(truth, machine, ViewOf(w, ci)) && ChallengerStands(env, truth, finalTime, ViewOf(w, ci))
    requires FollowsAgentIn(env, truth, w, ci, events)
    requires forall n :: 0 <= n <= |events| ==> MovesFrom(env, w, ci, events, n)
    requires k <= |events|
    ensures ci < |Run(env, w, events[..k]).computes|
    ensures ChallengerStands(env, truth, finalTime, ViewOf(Run(env, w, events[..k]), ci))
  {
    hide Linked, ChallengerTrue, ChallengerStands, FollowsAgent, ChallengerInTime, MovesFrom, Exec, Label, Apply, TrueRun,
      ViewOf, ViewLinked;
    ChallengerTrueRun(env, truth, machine, w, ci, events, k);
    if k == 0 {
      assert events[..0] == [];
    } else {
      ChallengerStandsRun(env, truth, machine, finalTime, w, ci, events, k - 1);
      ChallengerTrueRun(env, truth, machine, w, ci, events, k - 1);
      assert events[..k][..k - 1] == events[..k - 1];
      var before, e := Run(env, w, events[..k - 1]), events[k - 1];
      LinkedView(env, before, ci);
      MovesInTime(env, w, ci, events, k - 1);
      ChallengerStandsNext(env, truth, machine, finalTime, ViewOf(before, ci), NextIndices(before), e.caller, e.now,
                           Label(before, ci, e.call));
      StepIsNext(env, before, e, ci);
    }
  }

  // what the theorems below assume of a run
  ghost predicate Dispute(env: Env, truth: Truth, machine: Address, w: World, ci: nat, events: seq<Event>)
    requires TrueRun(truth)
  {
    && env.depth == truth.depth && Runs(env.step, machine, truth.program)
    && Linked(env, w) && AllExternal(env, events)
    && ci < |w.computes| && w.computes[ci].currentState == WaitingClaim && Terms(truth, machine, w.computes[ci])
    && FollowsAgentIn(env, truth, w, ci, events)
  }

  lemma DisputeRun(env: Env, truth: Truth, machine: Address, w: World, ci: nat, events: seq<Event>)
    requires TrueRun(truth) && Dispute(env, truth, machine, w, ci, events)
    ensures ci < |Run(env, w, events).computes|
    ensures ChallengerTrue(truth, machine, ViewOf(Run(env, w, events), ci))
    ensures ViewLinked(env, ViewOf(Run(env, w, events), ci))
  {
    assert ChallengerTrue(truth, machine, ViewOf(w, ci));
    assert events[..|events|] == events;
    hide ChallengerTrue, FollowsAgentIn, ViewOf, Run, TrueRun;
    ChallengerTrueRun(env, truth, machine, w, ci, events, |events|);
    LinkedView(env, Run(env, w, events), ci);
  }

  // terms a challenge accepts, between parties that are not the contract itself
  predicate Fair(env: Env, c: ComputeCtx) {
    c.Open() ==>
      && c.finalTime > 0 && c.roundDuration > 50
      && c.challenger != env.vgAddress && c.claimer != env.vgAddress
  }

  lemma FairNext(env: Env, d: View, next: Upcoming, caller: Address, now: nat, move: Move)
    requires Fair(env, d.compute)
    ensures Fair(env, Next(env, d, next, caller, now, move).compute)
  {
    hide P.Apply, M.Apply, Started, Settled, TimedOut, ClaimedByTime, GameFor, ComputeDeadline;
  }

  lemma {:induction false} FairRun(env: Env, w: World, ci: nat, events: seq<Event>)
    requires Linked(env, w) && AllExternal(env, events) && ci < |w.computes| && Fair(env, w.computes[ci])
    ensures var w' := Run(env, w, events);
      Linked(env, w') && ci < |w'.computes| && Fair(env, w'.computes[ci])
    decreases |events|
  {
    hide Linked, Fair, Step, Label, Next;
    if events != [] {
      var before, e := Run(env, w, events[..|events| - 1]), events[|events| - 1];
      FairRun(env, w, ci, events[..|events| - 1]);
      LinkedStep(env, before, e);
      StepIsNext(env, before, e, ci);
      FairNext(env, ViewOf(before, ci), NextIndices(before), e.caller, e.now, Label(before, ci, e.call));
    }
  }

  /** Agents only send enabled transactions, in every reachable state: after any run in which
      the challenger followed its agent, whatever either agent sends next is executed. */
  lemma AgentsEnabledAlways(env: Env, truth: Truth, machine: Address, w: World, ci: nat, events: seq<Event>,
                            now: nat, em: Emulator)
    requires TrueRun(truth) && Dispute(env, truth, machine, w, ci, events) && Fair(env, w.computes[ci])
    ensures var w' := Run(env, w, events);
      ci < |w'.computes| &&
      var d := ViewOf(w', ci);
      var r, s := ReactCompute(d, d.compute.claimer, now, em), ReactCompute(d, d.compute.challenger, now, EmulatorOf(truth));
      && PA.Sane(r) && (r.Send? ==> Exec(env, w', d.compute.claimer, now, CallOf(w', ci, r.call)).Some?)
      && PA.Sane(s) && (s.Send? ==> Exec(env, w', d.compute.challenger, now, CallOf(w', ci, s.call)).Some?)
  {
    DisputeRun(env, truth, machine, w, ci, events);
    FairRun(env, w, ci, events);
    var w' := Run(env, w, events);
    hide Linked, ChallengerTrue, FollowsAgentIn, Run, TrueRun, Exec, CallOf;
    AgentsEnabled(env, truth, machine, w', ci, now, em);
    OnlyOpenSends(ViewOf(w', ci), now, em, EmulatorOf(truth));
    hide ReactCompute;
  }

  lemma OnlyOpenSends(d: View, now: nat, em: Emulator, em': Emulator)
    ensures !d.compute.Open() ==>
      ReactCompute(d, d.compute.claimer, now, em) == PA.Idle && ReactCompute(d, d.compute.challenger, now, em') == PA.Idle
  {
  }

  /** The honest challenger can always prove it, end to end. The parties agree on the initial
      hash and the machine; the challenger disputes, queries and proves as its agent says;
      everybody else, the claimer first, sends whatever they like. Then in every reachable
      state its case is true, and once the memory manager waits for the replay the guard of
      the settlement holds and the settlement goes through. */
  lemma HonestChallengerProves(env: Env, truth: Truth, machine: Address, w: World, ci: nat, events: seq<Event>)
    requires TrueRun(truth) && Dispute(env, truth, machine, w, ci, events)
    ensures ci < |Run(env, w, events).computes|
    ensures var d := ViewOf(Run(env, w, events), ci);
      && ChallengerTrue(truth, machine, d)
      && (d.game.Some? && d.memory.Some? && d.memory.value.currentState == M.WaitingReplay ==>
            && Disproves(env, d.game.value, d.memory.value)
            && var settled := Settled(env, d.game.value, d.memory.value, d.compute.challenger);
               settled.Some? && settled.value.0 == Verdict(env, d.game.value, true))
  {
    DisputeRun(env, truth, machine, w, ci, events);
    var d := ViewOf(Run(env, w, events), ci);
    hide ChallengerTrue, FollowsAgentIn, ViewOf, Run, TrueRun, Linked;
    if d.memory.Some? && d.memory.value.currentState == M.WaitingReplay { GuardSettles(env, truth, machine, d); }
  }

  lemma GuardSettles(env: Env, truth: Truth, machine: Address, d: View)
    requires TrueRun(truth) && Runs(env.step, machine, truth.program)
    requires ViewLinked(env, d) && ChallengerTrue(truth, machine, d)
    requires d.memory.Some? && d.memory.value.currentState == M.WaitingReplay
    ensures Disproves(env, d.game.value, d.memory.value)
    ensures var settled := Settled(env, d.game.value, d.memory.value, d.compute.challenger);
      settled.Some? && settled.value.0 == Verdict(env, d.game.value, true)
  {
    CaseIsWon(env, truth, machine, d);
    hide Kept, PlaysFor, ChallengerTrue, TrueRun, Verdict;
  }

  /** An honest challenger that keeps its deadlines never lets a false claim become the consensus,
      in the code as it stands too; and with the settlement that returns neither the game nor
      compute is ever decided against it. (In the code as it stands every settlement is: see
      VerdictExact.) */
  lemma TimelyChallengerNeverLoses(env: Env, truth: Truth, machine: Address, w: World, ci: nat, events: seq<Event>)
    requires TrueRun(truth) && Dispute(env, truth, machine, w, ci, events) && Clocked(events)
    requires forall n :: 0 <= n <= |events| ==> MovesFrom(env, w, ci, events, n)
    ensures ci < |Run(env, w, events).computes|
    ensures var d := ViewOf(Run(env, w, events), ci);
      && (d.compute.currentState == ConsensusResult ==>
            d.compute.claimedFinalHash == TrueHash(truth, w.computes[ci].finalTime))
      && (d.partition.Some? ==> d.partition.value.currentState != P.ClaimerWon)
      && (env.settleReturns ==>
            d.compute.currentState != ClaimerWon && (d.game.Some? ==> d.game.value.currentState != FinishedClaimerWon))
  {
    var finalTime := w.computes[ci].finalTime;
    assert ChallengerTrue(truth, machine, ViewOf(w, ci)) && ChallengerStands(env, truth, finalTime, ViewOf(w, ci));
    assert events[..|events|] == events;
    hide ChallengerTrue, FollowsAgentIn, ViewOf, Run, TrueRun, MovesFrom, Linked;
    ChallengerStandsRun(env, truth, machine, finalTime, w, ci, events, |events|);
  }
}
