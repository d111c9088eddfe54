/** What is over stays over, and where a verdict comes from, over every run of the system. */
module Finality {
  import opened Arithmetic
  import opened Common
  import P = Partition
  import PR = PartitionRuns
  import M = MemoryManager
  import opened Machine
  import opened Protocol

  /** Finished games and closed computes are absorbing, and a claim is written once. */
  ghost predicate Lasts(w: World, w': World) {
    && |w.partitions| <= |w'.partitions| && |w.games| <= |w'.games| && |w.computes| <= |w'.computes|
    && (forall i :: 0 <= i < |w.partitions| ==> PR.Keeps(w.partitions[i], w'.partitions[i]))
    && (forall i :: 0 <= i < |w.games| && !w.games[i].Live() ==> w'.games[i] == w.games[i])
    && (forall i :: 0 <= i < |w.computes| ==> ComputeLasts(w.computes[i], w'.computes[i]))
  }

  ghost predicate ComputeLasts(c: ComputeCtx, c': ComputeCtx) {
    && (!c.Open() ==> c' == c)
    && (c.currentState != WaitingClaim ==> c'.claimedFinalHash == c.claimedFinalHash && c'.currentState != WaitingClaim)
  }

  /** Where a new verdict comes from. A game goes to the challenger on the partition's timeout,
      or by a settlement that returns; to the claimer on the partition's timeout, by a settlement
      (which, if it returns, finds the guard false), or on its claim past the proof's deadline;
      a compute instance follows its game. */
  ghost predicate Sourced(env: Env, w: World, e: Event, w': World) {
    && |w.games| <= |w'.games| && |w.computes| <= |w'.computes|
    && (forall i :: 0 <= i < |w.games| && w'.games[i].currentState == FinishedChallengerWon != w.games[i].currentState ==>
          ChallengerEarned(env, w, w.games[i]))
    && (forall i :: 0 <= i < |w.games| && w'.games[i].currentState == FinishedClaimerWon != w.games[i].currentState ==>
          ClaimerEarned(env, w, e, i))
    && (forall i :: |w.games| <= i < |w'.games| ==> w'.games[i].Live())
    && (forall i :: 0 <= i < |w.computes| && w'.computes[i].currentState != w.computes[i].currentState ==>
          ComputeEarned(w, w.computes[i], w'.computes[i].currentState))
    && (forall i :: |w.computes| <= i < |w'.computes| ==> w'.computes[i].Open())
  }

  ghost predicate ChallengerEarned(env: Env, w: World, v: VGCtx) {
    || (v.currentState == WaitPartition && v.partitionInstance < |w.partitions|
        && w.partitions[v.partitionInstance].currentState == P.ChallengerWon)
    || (env.settleReturns && v.currentState == WaitMemoryProveValues && v.mmInstance < |w.memories|
        && Disproves(env, v, w.memories[v.mmInstance]))
  }

  ghost predicate ClaimerEarned(env: Env, w: World, e: Event, i: nat)
    requires i < |w.games|
  {
    var v := w.games[i];
    || (v.currentState == WaitPartition && v.partitionInstance < |w.partitions|
        && w.partitions[v.partitionInstance].currentState == P.ClaimerWon)
    || (e.call == SettleVerificationGame(i) && e.caller == v.challenger
        && v.currentState == WaitMemoryProveValues && v.mmInstance < |w.memories|
        && w.memories[v.mmInstance].currentState == M.WaitingReplay
        && (env.settleReturns ==> !Disproves(env, v, w.memories[v.mmInstance])))
    || (e.call == GameClaimVictoryByTime(i) && e.caller == v.claimer
        && v.currentState == WaitMemoryProveValues && e.now > MemoryDeadline(v))
  }

  ghost predicate ComputeEarned(w: World, c: ComputeCtx, verdict: ComputeState) {
    verdict.ChallengerWon? || verdict.ClaimerWon? ==>
      && c.currentState == WaitingChallenge && c.vgInstance < |w.games|
      && w.games[c.vgInstance].currentState == (if verdict.ChallengerWon? then FinishedChallengerWon else FinishedClaimerWon)
  }

  lemma PartitionKept(w: World, caller: Address, now: nat, i: nat, move: P.Move)
    requires ExecPartition(w, caller, now, i, move).Some?
    ensures Lasts(w, ExecPartition(w, caller, now, i, move).value)
  {
    PR.ApplyKeeps(w.partitions[i], caller, now, move);
    hide P.Apply;
  }

  lemma SamePartitions(w: World, w': World)
    requires |w.partitions| <= |w'.partitions| && w'.partitions[..|w.partitions|] == w.partitions
    ensures forall i :: 0 <= i < |w.partitions| ==> PR.Keeps(w.partitions[i], w'.partitions[i])
  {
    forall i | 0 <= i < |w.partitions| ensures PR.Keeps(w.partitions[i], w'.partitions[i]) {
      assert w'.partitions[..|w.partitions|][i] == w'.partitions[i];
    }
  }

  lemma SubInstancesLast(env: Env, w: World, e: Event)
    requires e.call.NewPartition? || e.call.PartitionCall? || e.call.NewMemory? || e.call.MemoryCall?
    ensures Lasts(w, Step(env, w, e)) && Sourced(env, w, e, Step(env, w, e))
  {
    hide P.Apply, M.Apply, P.Create, PR.Keeps;
    if e.call.PartitionCall? && Exec(env, w, e.caller, e.now, e.call).Some? {
      PartitionKept(w, e.caller, e.now, e.call.index, e.call.partitionMove);
    } else {
      SamePartitions(w, Step(env, w, e));
    }
  }

  lemma GamesLast(env: Env, w: World, e: Event)
    requires e.call.NewGame? || e.call.WinByPartitionTimeout? || e.call.StartMachineRunChallenge?
      || e.call.SettleVerificationGame? || e.call.GameClaimVictoryByTime?
    ensures Lasts(w, Step(env, w, e)) && Sourced(env, w, e, Step(env, w, e))
  {
    hide P.Create, M.Apply, Log2OverTwo, Disproves, MemoryDeadline, PR.Keeps;
    SamePartitions(w, Step(env, w, e));
  }

  lemma ComputesLast(env: Env, w: World, e: Event)
    requires e.call.NewCompute? || e.call.SubmitClaim? || e.call.Confirm? || e.call.Challenge? || e.call.WinByVG?
      || e.call.ComputeClaimVictoryByTime?
    ensures Lasts(w, Step(env, w, e)) && Sourced(env, w, e, Step(env, w, e))
  {
    hide P.Create, Log2OverTwo, ComputeDeadline, PR.Keeps;
    SamePartitions(w, Step(env, w, e));
  }

  lemma StepLasts(env: Env, w: World, e: Event)
    ensures Lasts(w, Step(env, w, e)) && Sourced(env, w, e, Step(env, w, e))
  {
    hide Lasts, Sourced, Step;
    match e.call
    case NewPartition(_, _, _, _, _, _, _) => SubInstancesLast(env, w, e);
    case PartitionCall(_, _) => SubInstancesLast(env, w, e);
    case NewMemory(_, _, _) => SubInstancesLast(env, w, e);
    case MemoryCall(_, _) => SubInstancesLast(env, w, e);
    case NewGame(_, _, _, _, _, _, _) => GamesLast(env, w, e);
    case WinByPartitionTimeout(_) => GamesLast(env, w, e);
    case StartMachineRunChallenge(_) => GamesLast(env, w, e);
    case SettleVerificationGame(_) => GamesLast(env, w, e);
    case GameClaimVictoryByTime(_) => GamesLast(env, w, e);
    case _ => ComputesLast(env, w, e);
  }

  lemma KeepsTrans(p: P.PartitionCtx, q: P.PartitionCtx, r: P.PartitionCtx)
    requires PR.Keeps(p, q) && PR.Keeps(q, r)
    ensures PR.Keeps(p, r)
  {
  }

  lemma LastsTrans(w: World, w': World, w'': World)
    requires Lasts(w, w') && Lasts(w', w'')
    ensures Lasts(w, w'')
  {
    forall i | 0 <= i < |w.partitions| ensures PR.Keeps(w.partitions[i], w''.partitions[i]) {
      KeepsTrans(w.partitions[i], w'.partitions[i], w''.partitions[i]);
    }
    hide PR.Keeps;
  }

  /** Finished is final, over every run: finished games and closed computes never change
      again, a claimed hash is written at most once, and posted hashes stay posted. */
  lemma {:induction false} RunLasts(env: Env, w: World, events: seq<Event>)
    ensures Lasts(w, Run(env, w, events))
    decreases |events|
  {
    if events == [] {
      SamePartitions(w, w);
    } else {
      var last := |events| - 1;
      RunLasts(env, w, events[..last]);
      StepLasts(env, Run(env, w, events[..last]), events[last]);
      hide Lasts, Step;
      LastsTrans(w, Run(env, w, events[..last]), Run(env, w, events));
    }
  }

  // the verdict of a game that a verdict of compute repeats
  function GameVerdict(verdict: ComputeState): VGState {
    if verdict.ChallengerWon? then FinishedChallengerWon else FinishedClaimerWon
  }

  /** Verdicts agree: a compute instance that ends ClaimerWon or ChallengerWon was under
      challenge at some point k of the run, and the game linked to it there stands finished
      the same way, to the end of the run. */
  lemma {:induction false} VerdictsAgree(env: Env, events: seq<Event>, i: nat) returns (g: nat, k: nat)
    requires i < |Run(env, GENESIS, events).computes|
    requires var verdict := Run(env, GENESIS, events).computes[i].currentState; verdict.ChallengerWon? || verdict.ClaimerWon?
    ensures k < |events|
    ensures var before := Run(env, GENESIS, events[..k]);
      i < |before.computes| && before.computes[i].currentState == WaitingChallenge && before.computes[i].vgInstance == g
    ensures g < |Run(env, GENESIS, events).games|
    ensures Run(env, GENESIS, events).games[g].currentState == GameVerdict(Run(env, GENESIS, events).computes[i].currentState)
    decreases |events|
  {
    var last := |events| - 1;
    var before, w := Run(env, GENESIS, events[..last]), Run(env, GENESIS, events);
    StepLasts(env, before, events[last]);
    hide Step;
    if i < |before.computes| && before.computes[i].currentState == w.computes[i].currentState {
      g, k := VerdictsAgree(env, events[..last], i);
      assert events[..last][..k] == events[..k];
    } else {
      g, k := before.computes[i].vgInstance, last;
    }
  }

  /** In the code as it stands a game goes to the challenger only if, at some point of the
      run, its partition stood won by the challenger on time. */
  lemma {:induction false} OnlyTimeFavoursChallenger(env: Env, events: seq<Event>, g: nat) returns (k: nat)
    requires !env.settleReturns
    requires g < |Run(env, GENESIS, events).games| && Run(env, GENESIS, events).games[g].currentState == FinishedChallengerWon
    ensures k < |events|
    ensures var w := Run(env, GENESIS, events[..k]);
      && g < |w.games| && w.games[g].currentState == WaitPartition && w.games[g].partitionInstance < |w.partitions|
      && w.partitions[w.games[g].partitionInstance].currentState == P.ChallengerWon
    decreases |events|
  {
    var last := |events| - 1;
    var before := Run(env, GENESIS, events[..last]);
    StepLasts(env, before, events[last]);
    hide Step;
    if g < |before.games| && before.games[g].currentState == FinishedChallengerWon {
      k := OnlyTimeFavoursChallenger(env, events[..last], g);
      assert events[..last][..k] == events[..k];
    } else {
      k := last;
    }
  }
}
