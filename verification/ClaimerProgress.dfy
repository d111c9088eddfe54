/** The claimer's agent: never stuck outside the challenger's turns, and honest. */
module ClaimerProgress {
  import opened Arithmetic
  import opened Common
  import P = Partition
  import PR = PartitionRuns
  import PA = PartitionAgent
  import PD = PartitionDeadline
  import M = MemoryManager
  import opened MMAgent
  import opened Machine
  import opened Protocol
  import opened Linkage
  import opened OneDispute
  import opened Agents
  import opened EndToEnd
  import opened HonestChallenger
  import opened ChallengerProgress

  // ----- never stuck -----

  // the challenger is to move and still has time: to confirm or dispute, to query, or to prove
  predicate ChallengersTurn(d: View, now: nat) {
    || (d.compute.currentState == WaitingConfirmation && now <= ComputeDeadline(d.compute))
    || (d.partition.Some? && d.partition.value.currentState == P.WaitingQuery && PR.InTime(d.partition.value, now))
    || (d.game.Some? && d.game.value.currentState == WaitMemoryProveValues && now <= MemoryDeadline(d.game.value))
  }

  // the challenger has won on time, or was declared the winner
  predicate LostByClaimer(d: View) {
    || (d.partition.Some? && d.partition.value.currentState == P.ChallengerWon)
    || (d.game.Some? && d.game.value.currentState == FinishedChallengerWon)
  }

  // the deadline the claimer waits for fits a u64
  predicate ClaimersClock(d: View) {
    && (d.compute.currentState == WaitingConfirmation ==> ComputeDeadline(d.compute) < U64)
    && (d.partition.Some? && d.partition.value.currentState == P.WaitingQuery && P.Deadline(d.partition.value).Some? ==>
          P.Deadline(d.partition.value).value < U64)
    && (d.game.Some? && d.game.value.currentState == WaitMemoryProveValues ==> MemoryDeadline(d.game.value) < U64)
  }

  lemma ClaimersPartitionSends(p: P.PartitionCtx, h: PA.Oracle, now: nat)
    requires PR.Wf(p) && p.Waiting() && p.finalTime < U64
    requires p.currentState == P.WaitingQuery ==> !PR.InTime(p, now) && (P.Deadline(p).Some? ==> P.Deadline(p).value < U64)
    ensures PA.Observe(p, p.claimer, now, h).Send?
  {
    PD.DeadlineDefined(p);
    if p.currentState == P.WaitingHashes { PA.ClaimerReplies(p, h, now); }
    hide P.Deadline, P.Cut, PR.Halved, PR.Shrunk, PR.Near, BitLength;
  }

  /** Outside the challenger's turns an agent that has not lost always has something to send:
      the claim, the hashes, a victory by time over a late confirmation, query or proof, the
      start after a divergence, or the verdict. */
  lemma ClaimerSends(env: Env, d: View, now: nat, em: Emulator)
    requires ViewLinked(env, d) && Countable(d) && ClaimersClock(d)
    requires d.compute.Open() && !LostByClaimer(d) && !ChallengersTurn(d, now)
    ensures ReactCompute(d, d.compute.claimer, now, em).Send?
  {
    if d.partition.Some? {
      CountableWf(env, d);
      ClaimerSame(env, d);
      if d.partition.value.Waiting() { ClaimersPartitionSends(d.partition.value, em.hash, now); }
    }
    hide P.Deadline, P.Apply, PR.Wf, PR.InTime, Kept, PA.Observe, ComputeDeadline, MemoryDeadline;
  }

  /** And what it sends is executed, on the system as a whole, in every linked world. */
  lemma ClaimerGetsThere(env: Env, w: World, ci: nat, now: nat, em: Emulator)
    requires Linked(env, w) && ci < |w.computes| && w.computes[ci].claimer != env.vgAddress
    requires Countable(ViewOf(w, ci)) && ClaimersClock(ViewOf(w, ci))
    requires w.computes[ci].Open() && !LostByClaimer(ViewOf(w, ci)) && !ChallengersTurn(ViewOf(w, ci), now)
    ensures var r := ReactCompute(ViewOf(w, ci), w.computes[ci].claimer, now, em);
      r.Send? && Exec(env, w, w.computes[ci].claimer, now, CallOf(w, ci, r.call)).Some?
  {
    var d, claimer := ViewOf(w, ci), w.computes[ci].claimer;
    LinkedView(env, w, ci);
    ViewsCompute(w, ci);
    hide Linked, ViewLinked, Countable, ClaimersClock, LostByClaimer, ChallengersTurn, ReactCompute, Exec, Label, Apply, ViewOf;
    ClaimerSends(env, d, now, em);
    ClaimerEnabled(env, d, NextIndices(w), now, em);
    var r := ReactCompute(d, claimer, now, em);
    ReactionPlaced(d, claimer, now, em);
    CallLabelled(w, ci, r.call);
    StepSimulates(env, w, Event(now, claimer, CallOf(w, ci, r.call)), ci);
  }

  /** The two decisions on a claim are sent exactly when the final time fits a u64. */
  lemma DecidesWithinU64(d: View, now: nat, em: Emulator)
    requires d.compute.challenger != d.compute.claimer
    ensures d.compute.currentState == WaitingClaim ==>
      (ReactCompute(d, d.compute.claimer, now, em).Send? <==> d.compute.finalTime < U64)
    ensures d.compute.currentState == WaitingConfirmation ==>
      (ReactCompute(d, d.compute.challenger, now, em).Send? <==> d.compute.finalTime < U64)
  {
    hide PA.Observe, ReactMM, ComputeDeadline, MemoryDeadline;
  }

  // ----- honest -----

  // the claimer's claims and replies are its agent's, with a true emulator
  ghost predicate ClaimerFollows(truth: Truth, d: View, caller: Address, now: nat, move: Move)
    requires TrueRun(truth)
  {
    caller == d.compute.claimer && (move.Submit? || (move.OnPartition? && move.partitionMove.ReplyQuery?)) ==>
      ReactCompute(d, caller, now, EmulatorOf(truth)) == PA.Send(move)
  }

  lemma RepliesTruly(p: P.PartitionCtx, user: Address, now: nat, h: PA.Oracle, move: P.Move)
    requires PA.Observe(p, user, now, h) == PA.Send(move) && move.ReplyQuery?
    ensures forall k :: 0 <= k < |move.postedTimes| && k < |move.postedHashes| ==> move.postedHashes[k] == h(move.postedTimes[k])
  {
    hide P.Deadline;
    if p.Waiting() && user != p.claimer && p.currentState == P.WaitingQuery {
      SearchAsks(PA.GetState(p).value, PA.Sampled(PA.GetState(p).value.queryArray, h), 0);
    }
  }

  /** What the claimer's agent sends is what an honest claimer may: the true hash as its claim,
      and true hashes in its replies. */
  lemma AgentIsHonest(env: Env, truth: Truth, d: View, caller: Address, now: nat, move: Move)
    requires TrueRun(truth) && ViewLinked(env, d) && ClaimerFollows(truth, d, caller, now, move)
    ensures HonestClaimer(truth, d, caller, move)
  {
    if caller == d.compute.claimer && move.OnPartition? && move.partitionMove.ReplyQuery? {
      ReactionPlaced(d, caller, now, EmulatorOf(truth));
      ObserveOnly(env, d, caller, now, EmulatorOf(truth), move.partitionMove);
      RepliesTruly(d.partition.value, caller, now, OracleOf(truth), move.partitionMove);
    }
    if caller == d.compute.claimer && move.Submit? { ClaimsTruly(truth, d, now, move); }
    hide ReactCompute, TrueRun, Kept, PlaysFor, Backs, P.Apply, M.Apply;
  }

  ghost predicate ClaimerFollowsIn(env: Env, truth: Truth, w: World, ci: nat, events: seq<Event>)
    requires TrueRun(truth)
  {
    forall k :: 0 <= k < |events| ==>
      var before := Run(env, w, events[..k]);
      ci < |before.computes|
      && ClaimerFollows(truth, ViewOf(before, ci), events[k].caller, events[k].now, Label(before, ci, events[k].call))
  }

  /** So a claimer that follows its agent is the one HonestClaimerSafe is about, over every run. */
  lemma FollowingClaimerIsHonest(env: Env, truth: Truth, w: World, ci: nat, events: seq<Event>)
    requires TrueRun(truth) && Linked(env, w) && AllExternal(env, events) && ClaimerFollowsIn(env, truth, w, ci, events)
    ensures ClaimerHonestIn(env, truth, w, ci, events)
  {
    hide Linked, ViewOf, Label, ClaimerFollows, HonestClaimer, TrueRun, Run;
    forall k | 0 <= k < |events|
      ensures var before := Run(env, w, events[..k]);
        ci < |before.computes| && HonestClaimer(truth, ViewOf(before, ci), events[k].caller, Label(before, ci, events[k].call))
    {
      var before := Run(env, w, events[..k]);
      LinkedRun(env, w, events[..k]);
      LinkedView(env, before, ci);
      AgentIsHonest(env, truth, ViewOf(before, ci), events[k].caller, events[k].now, Label(before, ci, events[k].call));
    }
  }

  lemma ClaimsTruly(truth: Truth, d: View, now: nat, move: Move)
    requires TrueRun(truth) && move.Submit? && ReactCompute(d, d.compute.claimer, now, EmulatorOf(truth)) == PA.Send(move)
    ensures move.hash == TrueHash(truth, d.compute.finalTime)
  {
    hide PA.Observe, ReactMM, ComputeDeadline, MemoryDeadline, TrueRun;
  }
}
