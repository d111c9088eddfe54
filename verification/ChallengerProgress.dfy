/** How far a challenger that follows its agent has to go, against any claimer. */
module ChallengerProgress {
  import opened Arithmetic
  import opened Common
  import P = Partition
  import PR = PartitionRuns
  import PA = PartitionAgent
  import PD = PartitionDeadline
  import M = MemoryManager
  import opened MMAgent
  import opened Machine
  import opened Protocol
  import opened Linkage
  import opened OneDispute
  import opened Agents
  import opened EndToEnd
  import opened HonestChallenger
  import DP = DisputePlay

  // the ceiling of log base 2 of the final time
  function Halvings(finalTime: nat): nat { if finalTime > 0 then BitLength(finalTime - 1) else 0 }

  /** Transactions the challenger can still make, when no step makes more than `most` accesses. */
  ghost function Budget(truth: Truth, most: nat, d: View): int {
    match d.compute.currentState
    case WaitingClaim => Halvings(d.compute.finalTime) + most + 7
    case WaitingConfirmation => Halvings(d.compute.finalTime) + most + 6
    case WaitingChallenge => InGame(truth, most, d)
    case _ => 0
  }

  ghost function InGame(truth: Truth, most: nat, d: View): int {
    if d.partition.Some? then InPartition(most, d.partition.value)
    else if d.game.Some? && d.memory.Some? then InMemory(truth, d.game.value.divergenceTime, d.memory.value)
    else 1
  }

  ghost function InPartition(most: nat, p: P.PartitionCtx): int {
    if p.Waiting() then PR.Rounds(p) + most + 5 else most + 4
  }

  ghost function InMemory(truth: Truth, t: nat, m: M.MMCtx): int {
    if m.currentState == M.WaitingProofs then |truth.log(t)| - |m.history| + 3 else 2
  }

  ghost predicate Bounded(truth: Truth, most: nat) { forall t: nat :: |truth.log(t)| <= most }

  // times an emulator can count
  predicate Countable(d: View) { d.compute.Open() ==> d.compute.finalTime < U64 }

  // ----- one move -----

  lemma CountableWf(env: Env, d: View)
    requires ViewLinked(env, d) && Countable(d) && d.partition.Some?
    ensures PR.Wf(d.partition.value) && d.partition.value.finalTime == d.compute.finalTime < U64
  {
    ClaimerSame(env, d);
    var p := d.partition.value;
    assert PR.Core(p);
    P.SafeBelow(p.finalTime, p.querySize);
    hide P.Safe, PR.Wf;
  }

  lemma SameRounds(p: P.PartitionCtx, q: P.PartitionCtx)
    requires q.queryArray == p.queryArray
    ensures PR.Rounds(q) == PR.Rounds(p) >= 0
  {
    hide BitLength;
  }

  lemma QueryBudget(p: P.PartitionCtx, caller: Address, now: nat, piece: nat, left: nat, right: nat)
    requires PR.Wf(p) && P.Apply(p, caller, now, P.MakeQuery(piece, left, right)).Some?
    ensures PR.Rounds(P.Apply(p, caller, now, P.MakeQuery(piece, left, right)).value) < PR.Rounds(p)
  {
    var q := P.Apply(p, caller, now, P.MakeQuery(piece, left, right)).value;
    PR.QueryHalves(p, caller, now, piece, left, right, PR.Queries(p));
    assert q.queryArray != [] && right > left + 1;
    hide P.Points, PR.Core, PR.Wf, PR.Sliced, PR.Near, PR.Halved, PR.First, PR.Last, P.Apply;
    PA.FewerRounds(p, q);
  }

  /** No call adds a round, and a query takes one away. */
  lemma PartitionBudget(most: nat, p: P.PartitionCtx, caller: Address, now: nat, move: P.Move)
    requires PR.Wf(p) && P.Apply(p, caller, now, move).Some?
    ensures var q := P.Apply(p, caller, now, move).value;
      && InPartition(most, q) <= InPartition(most, p)
      && (p.Waiting() && !move.ReplyQuery? ==> InPartition(most, q) < InPartition(most, p))
  {
    hide PR.Wf, P.Posted, P.Points, P.Deadline, PR.Rounds;
    var q := P.Apply(p, caller, now, move).value;
    match move
    case ReplyQuery(times, hashes) =>
      PR.PostedIsWriteOnce(p, times, hashes);
      SameRounds(p, q);
    case MakeQuery(piece, left, right) => QueryBudget(p, caller, now, piece, left, right);
    case _ => SameRounds(p, q);
  }

  lemma PartitionNext(env: Env, truth: Truth, machine: Address, most: nat, d: View, next: Upcoming, caller: Address,
                      now: nat, move: P.Move)
    requires TrueRun(truth) && ViewLinked(env, d) && Countable(d)
    requires FollowsAgent(truth, d, caller, now, OnPartition(move))
    requires Apply(env, d, next, caller, now, OnPartition(move)).Some?
    ensures var d' := Apply(env, d, next, caller, now, OnPartition(move)).value;
      && Budget(truth, most, d') <= Budget(truth, most, d)
      && (caller == d.compute.challenger ==> Budget(truth, most, d') < Budget(truth, most, d))
  {
    CountableWf(env, d);
    ClaimerSame(env, d);
    var p := d.partition.value;
    PartitionBudget(most, p, caller, now, move);
    if caller == d.compute.challenger {
      ObserveOnly(env, d, caller, now, EmulatorOf(truth), move);
      OnlyWaitingMoves(p, caller, now, OracleOf(truth), move);
    }
    hide P.Apply, PR.Wf, Kept, PlaysFor, TrueRun, InPartition, PA.Observe, FollowsAgent;
  }

  lemma OnlyWaitingMoves(p: P.PartitionCtx, user: Address, now: nat, h: PA.Oracle, move: P.Move)
    requires PA.Observe(p, user, now, h) == PA.Send(move)
    ensures p.Waiting() && (user != p.claimer ==> !move.ReplyQuery?)
  {
    hide P.Deadline;
    if p.Waiting() && user != p.claimer && p.currentState == P.WaitingQuery {
      SearchAsks(PA.GetState(p).value, PA.Sampled(PA.GetState(p).value.queryArray, h), 0);
    }
  }

  lemma {:induction false} SearchAsks(v: PA.PartitionView, sampled: seq<Hash>, i: nat)
    requires |sampled| == |v.queryArray|
    ensures var r := PA.Search(v, sampled, i); r.Send? ==> r.call.MakeQuery? || r.call.PresentDivergence?
    decreases v.querySize - i
  {
    if i + 1 < v.querySize && i + 1 < |v.queryArray| && i + 1 < |v.hashArray| && sampled[i + 1] == v.hashArray[i + 1] {
      SearchAsks(v, sampled, i + 1);
    }
  }

  lemma MemoryNext(env: Env, truth: Truth, machine: Address, most: nat, d: View, next: Upcoming, caller: Address,
                   now: nat, move: M.Move)
    requires TrueRun(truth) && env.depth == truth.depth && caller != env.vgAddress
    requires ViewLinked(env, d) && ChallengerTrue(truth, machine, d) && Countable(d)
    requires FollowsAgent(truth, d, caller, now, OnMemory(move))
    requires Apply(env, d, next, caller, now, OnMemory(move)).Some?
    ensures Budget(truth, most, Apply(env, d, next, caller, now, OnMemory(move)).value) < Budget(truth, most, d)
  {
    var v, m := d.game.value, d.memory.value;
    assert caller == m.provider == d.compute.challenger && m.currentState == M.WaitingProofs by { hide OnTrack, TrueRun; }
    ProverOnly(env, d, caller, now, EmulatorOf(truth), move);
    assert v.divergenceTime < U64;
    hide M.Apply, ReactMM;
    var sent, m' := DP.ProofGoesOn(truth, v.divergenceTime, m);
    hide TrueRun, Kept, PlaysFor, StepLog, FollowsAgent;
  }

  lemma SomeMemoryLeft(truth: Truth, machine: Address, d: View)
    requires TrueRun(truth) && ChallengerTrue(truth, machine, d) && d.game.Some? && d.memory.Some?
    ensures InMemory(truth, d.game.value.divergenceTime, d.memory.value) >= 2
  {
    hide TrueRun;
  }

  /** The other moves take the dispute a stage on. */
  lemma StageNext(env: Env, truth: Truth, machine: Address, most: nat, d: View, next: Upcoming, caller: Address,
                  now: nat, move: Move)
    requires TrueRun(truth) && ViewLinked(env, d) && ChallengerTrue(truth, machine, d)
    requires !move.OnPartition? && !move.OnMemory? && !move.OpenDispute? && !move.StartRun?
    requires Apply(env, d, next, caller, now, move).Some?
    ensures var d' := Apply(env, d, next, caller, now, move).value;
      && Budget(truth, most, d') <= Budget(truth, most, d)
      && (!move.Elsewhere? ==> Budget(truth, most, d') < Budget(truth, most, d))
  {
    if d.game.Some? && d.memory.Some? { SomeMemoryLeft(truth, machine, d); }
    hide P.Apply, M.Apply, Kept, PlaysFor, ComputeDeadline, MemoryDeadline, Disproves, BitLength, PR.Rounds, ChallengerTrue,
      TrueRun, InMemory;
  }

  lemma StartNext(env: Env, truth: Truth, most: nat, d: View, next: Upcoming, caller: Address, now: nat)
    requires ViewLinked(env, d) && Bounded(truth, most)
    requires Apply(env, d, next, caller, now, StartRun).Some?
    ensures Budget(truth, most, Apply(env, d, next, caller, now, StartRun).value) < Budget(truth, most, d)
  {
    hide Kept, PlaysFor, BitLength, PR.Rounds;
    assert |truth.log(d.partition.value.divergenceTime)| <= most;
  }

  lemma OpenNext(env: Env, truth: Truth, most: nat, d: View, next: Upcoming, caller: Address, now: nat)
    requires ViewLinked(env, d)
    requires Apply(env, d, next, caller, now, OpenDispute).Some?
    ensures Budget(truth, most, Apply(env, d, next, caller, now, OpenDispute).value) < Budget(truth, most, d)
  {
    var c := d.compute;
    hide Kept, PlaysFor, BitLength, Log2OverTwo;
    PR.CreateCore(c.challenger, c.claimer, c.initialHash, c.claimedFinalHash, c.finalTime, VG_QUERY_SIZE, c.roundDuration, now);
    hide P.Create, PR.Core, PR.First, PR.Last;
  }

  /** Nobody's move raises the budget, and each move of the challenger's own lowers it. */
  lemma BudgetNext(env: Env, truth: Truth, machine: Address, most: nat, d: View, next: Upcoming, caller: Address,
                   now: nat, move: Move)
    requires TrueRun(truth) && env.depth == truth.depth && Bounded(truth, most) && caller != env.vgAddress
    requires ViewLinked(env, d) && ChallengerTrue(truth, machine, d) && Countable(d) && FollowsAgent(truth, d, caller, now, move)
    ensures var d' := Next(env, d, next, caller, now, move);
      && Budget(truth, most, d') <= Budget(truth, most, d)
      && (Apply(env, d, next, caller, now, move).Some? && caller == d.compute.challenger && !move.Elsewhere? ==>
            Budget(truth, most, d') < Budget(truth, most, d))
  {
    hide TrueRun, Bounded, ViewLinked, ChallengerTrue, Countable, FollowsAgent, Apply, Budget;
    if Apply(env, d, next, caller, now, move).Some? {
      match move
      case OnPartition(m) => PartitionNext(env, truth, machine, most, d, next, caller, now, m);
      case OnMemory(m) => MemoryNext(env, truth, machine, most, d, next, caller, now, m);
      case StartRun => StartNext(env, truth, most, d, next, caller, now);
      case OpenDispute => OpenNext(env, truth, most, d, next, caller, now);
      case _ => StageNext(env, truth, machine, most, d, next, caller, now, move);
    }
  }

  lemma BudgetNatural(truth: Truth, machine: Address, most: nat, d: View)
    requires TrueRun(truth) && ChallengerTrue(truth, machine, d)
    ensures Budget(truth, most, d) >= 0
  {
    if d.game.Some? && d.memory.Some? { SomeMemoryLeft(truth, machine, d); }
    hide TrueRun, ChallengerTrue, InMemory;
  }

  lemma CountableNext(env: Env, d: View, next: Upcoming, caller: Address, now: nat, move: Move)
    requires Countable(d)
    ensures Countable(Next(env, d, next, caller, now, move))
  {
    hide P.Apply, M.Apply, Started, Settled, TimedOut, ClaimedByTime, GameFor, ComputeDeadline;
  }

  // ----- over a run -----

  // an accepted transaction of the challenger's on its dispute
  predicate Own(env: Env, w: World, ci: nat, e: Event) {
    ci < |w.computes| && e.caller == w.computes[ci].challenger
    && Label(w, ci, e.call) != Elsewhere && Exec(env, w, e.caller, e.now, e.call).Some?
  }

  function OwnMoves(env: Env, w: World, ci: nat, events: seq<Event>): nat {
    if events == [] then 0
    else
      var last := |events| - 1;
      OwnMoves(env, w, ci, events[..last]) + if Own(env, Run(env, w, events[..last]), ci, events[last]) then 1 else 0
  }

  lemma OwnIsAccepted(env: Env, w: World, ci: nat, e: Event)
    requires Linked(env, w) && External(env, e) && Own(env, w, ci, e)
    ensures Apply(env, ViewOf(w, ci), NextIndices(w), e.caller, e.now, Label(w, ci, e.call)).Some?
    ensures e.caller == ViewOf(w, ci).compute.challenger
  {
    StepSimulates(env, w, e, ci);
    hide Linked, Exec, Label, Apply;
  }

  lemma {:induction false} BudgetRun(env: Env, truth: Truth, machine: Address, most: nat, w: World, ci: nat,
                                     events: seq<Event>, k: nat)
    requires TrueRun(truth) && env.depth == truth.depth && Bounded(truth, most) && AllExternal(env, events)
    requires Linked(env, w) && ci < |w.computes| && ChallengerTrue(truth, machine, ViewOf(w, ci)) && Countable(ViewOf(w, ci))
    requires FollowsAgentIn(env, truth, w, ci, events) && k <= |events|
    ensures var w' := Run(env, w, events[..k]);
      && Linked(env, w') && ci < |w'.computes| && Countable(ViewOf(w', ci))
      && OwnMoves(env, w, ci, events[..k]) + Budget(truth, most, ViewOf(w', ci)) <= Budget(truth, most, ViewOf(w, ci))
  {
    hide Linked, ChallengerTrue, FollowsAgent, Exec, Label, Apply, Next, TrueRun, ViewOf, Bounded, Budget, Countable, Own, ViewLinked;
    if k == 0 {
      assert events[..0] == [];
    } else {
      BudgetRun(env, truth, machine, most, w, ci, events, k - 1);
      ChallengerTrueRun(env, truth, machine, w, ci, events, k - 1);
      assert events[..k][..k - 1] == events[..k - 1];
      var before, e := Run(env, w, events[..k - 1]), events[k - 1];
      var d, move := ViewOf(before, ci), Label(before, ci, e.call);
      LinkedStep(env, before, e);
      LinkedView(env, before, ci);
      if Own(env, before, ci, e) { OwnIsAccepted(env, before, ci, e); OwnMove(env, before, ci, e); }
      BudgetNext(env, truth, machine, most, d, NextIndices(before), e.caller, e.now, move);
      CountableNext(env, d, NextIndices(before), e.caller, e.now, move);
      StepIsNext(env, before, e, ci);
    }
  }

  lemma OwnMove(env: Env, w: World, ci: nat, e: Event)
    requires Own(env, w, ci, e)
    ensures ci < |w.computes| && Label(w, ci, e.call) != Elsewhere
  {
    hide Label, Exec;
  }

  // ----- never stuck -----

  // the claimer is to move and still has time
  predicate ClaimersTurn(d: View, now: nat) {
    || (d.compute.currentState == WaitingClaim && now <= ComputeDeadline(d.compute))
    || (d.partition.Some? && d.partition.value.currentState == P.WaitingHashes && PR.InTime(d.partition.value, now))
  }

  // the claimer has won on time, or was declared the winner
  predicate Lost(d: View) {
    || (d.partition.Some? && d.partition.value.currentState == P.ClaimerWon)
    || (d.game.Some? && d.game.value.currentState == FinishedClaimerWon)
  }

  // the deadline the challenger waits for fits a u64
  predicate OnTheClock(d: View) {
    && (d.compute.currentState == WaitingClaim ==> ComputeDeadline(d.compute) < U64)
    && (d.partition.Some? && d.partition.value.currentState == P.WaitingHashes && P.Deadline(d.partition.value).Some? ==>
          P.Deadline(d.partition.value).value < U64)
  }

  lemma PartitionSends(p: P.PartitionCtx, h: PA.Oracle, now: nat)
    requires PR.Wf(p) && PA.Bisected(p, h) && p.Waiting() && p.finalTime < U64
    requires p.currentState == P.WaitingHashes ==> !PR.InTime(p, now) && (P.Deadline(p).Some? ==> P.Deadline(p).value < U64)
    ensures PA.Observe(p, p.challenger, now, h).Send?
  {
    PD.DeadlineDefined(p);
    PA.StateShows(p);
    if p.currentState == P.WaitingQuery {
      forall i | 0 <= i < |p.queryArray| ensures p.queryArray[i] < U64 { PR.PointsBetween(p, p.queryArray[i]); }
      PA.SearchFinds(p, h, PA.GetState(p).value, 0);
    }
    hide P.Deadline, P.Cut, PR.Halved, PR.Shrunk, PR.Near, BitLength;
  }

  /** Outside the claimer's turns an agent that has not lost always has something to send. */
  lemma AgentSends(env: Env, truth: Truth, machine: Address, d: View, now: nat)
    requires TrueRun(truth) && ViewLinked(env, d) && ChallengerTrue(truth, machine, d) && Countable(d) && OnTheClock(d)
    requires d.compute.Open() && !Lost(d) && !ClaimersTurn(d, now)
    ensures ReactCompute(d, d.compute.challenger, now, EmulatorOf(truth)).Send?
  {
    if d.partition.Some? {
      CountableWf(env, d);
      ClaimerSame(env, d);
      if d.partition.value.Waiting() { PartitionSends(d.partition.value, OracleOf(truth), now); }
    }
    hide P.Deadline, P.Apply, PR.Wf, PR.InTime, Kept, TrueRun, PA.Observe, PA.Bisected, PA.InHand, ComputeDeadline, OnTrack, StepLog;
  }

  /** Against any claimer. In a run in which the challenger follows its agent, on terms a challenge
      accepts, at most ceil(log2 finalTime) + (accesses of a step) + 7 transactions of its own on
      the dispute are accepted; and after it, unless the instance is closed, the game lost, or the
      claimer still has time to move, the agent sends a transaction of its dispute that is. So
      the challenger gets to the settlement, or to a timeout, within that number of its own. */
  lemma ChallengerGetsThere(env: Env, truth: Truth, machine: Address, most: nat, w: World, ci: nat,
                            events: seq<Event>, now: nat)
    requires TrueRun(truth) && Dispute(env, truth, machine, w, ci, events) && Fair(env, w.computes[ci])
    requires Bounded(truth, most) && w.computes[ci].finalTime < U64
    ensures OwnMoves(env, w, ci, events) <= BitLength(w.computes[ci].finalTime - 1) + most + 7
    ensures var w' := Run(env, w, events);
      ci < |w'.computes| &&
      var d := ViewOf(w', ci);
      d.compute.Open() && OnTheClock(d) && !Lost(d) && !ClaimersTurn(d, now) ==>
        var r := ReactCompute(d, d.compute.challenger, now, EmulatorOf(truth));
        r.Send? && Own(env, w', ci, Event(now, d.compute.challenger, CallOf(w', ci, r.call)))
  {
    var em := EmulatorOf(truth);
    assert ChallengerTrue(truth, machine, ViewOf(w, ci)) && Countable(ViewOf(w, ci));
    assert Budget(truth, most, ViewOf(w, ci)) == BitLength(w.computes[ci].finalTime - 1) + most + 7;
    assert events[..|events|] == events;
    hide Linked, ChallengerTrue, FollowsAgentIn, Run, TrueRun, Exec, CallOf, Label, Budget, Bounded, OwnMoves, ViewLinked, ViewOf,
      OnTheClock, Lost, ClaimersTurn, Countable, BitLength;
    BudgetRun(env, truth, machine, most, w, ci, events, |events|);
    DisputeRun(env, truth, machine, w, ci, events);
    AgentsEnabledAlways(env, truth, machine, w, ci, events, now, em);
    var w' := Run(env, w, events);
    var d := ViewOf(w', ci);
    BudgetNatural(truth, machine, most, d);
    if d.compute.Open() && OnTheClock(d) && !Lost(d) && !ClaimersTurn(d, now) {
      AgentSends(env, truth, machine, d, now);
      ReactionPlaced(d, d.compute.challenger, now, em);
      CallLabelled(w', ci, ReactCompute(d, d.compute.challenger, now, em).call);
      ViewsCompute(w', ci);
      hide ReactCompute;
    }
  }

  lemma ViewsCompute(w: World, ci: nat)
    requires ci < |w.computes|
    ensures ViewOf(w, ci).compute == w.computes[ci]
  {
  }
}
