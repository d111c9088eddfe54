/** How the instances of the four contracts hang together, over every run. */
module Linkage {
  import opened Arithmetic
  import opened Common
  import P = Partition
  import PR = PartitionRuns
  import M = MemoryManager
  import opened Machine
  import opened Protocol

  // ----- the invariant -----

  /** A partition plays for its game: its parties, its hashes at 0 and at finalTime. */
  ghost predicate PlaysFor(v: VGCtx, p: P.PartitionCtx) {
    && v.challenger != v.claimer
    && p.challenger == v.challenger && p.claimer == v.claimer
    && p.finalTime == v.finalTime && p.querySize == VG_QUERY_SIZE
    && 0 in p.timeSubmitted && p.finalTime in p.timeSubmitted
    && p.HashAt(0) == v.initialHash && p.HashAt(p.finalTime) == v.claimerFinalHash
  }

  /** A memory backs its game: owned by the game's contract, provided by the challenger,
      opened at the hash before the divergence, and not yet replayed. */
  ghost predicate Backs(env: Env, v: VGCtx, m: M.MMCtx) {
    && v.challenger != v.claimer && v.divergenceTime < v.finalTime
    && m.owner == env.vgAddress && m.provider == v.challenger
    && m.initialHash == v.hashBeforeDivergence
    && m.currentState != M.FinishedReplay
  }

  ghost predicate GameLinked(env: Env, w: World, v: VGCtx) {
    && (v.currentState == WaitPartition ==>
          v.partitionInstance < |w.partitions| && PlaysFor(v, w.partitions[v.partitionInstance]))
    && (v.currentState == WaitMemoryProveValues ==>
          v.partitionInstance < |w.partitions| && v.mmInstance < |w.memories| && Backs(env, v, w.memories[v.mmInstance]))
  }

  // live games share no sub-instance
  ghost predicate Apart(v: VGCtx, u: VGCtx) {
    && (v.currentState == u.currentState == WaitPartition ==> v.partitionInstance != u.partitionInstance)
    && (v.currentState == u.currentState == WaitMemoryProveValues ==> v.mmInstance != u.mmInstance)
  }

  /** A live game disputes exactly the claim of the compute instance it was opened for. */
  ghost predicate Disputes(c: ComputeCtx, v: VGCtx) {
    v.Live() ==>
      && v.challenger == c.challenger && v.claimer == c.claimer && v.machine == c.machine
      && v.initialHash == c.initialHash && v.claimerFinalHash == c.claimedFinalHash && v.finalTime == c.finalTime
  }

  ghost predicate ComputeLinked(w: World, c: ComputeCtx) {
    && (c.Open() ==> c.challenger != c.claimer && c.finalTime < MOD)
    && (c.currentState == WaitingChallenge ==> c.vgInstance < |w.games| && Disputes(c, w.games[c.vgInstance]))
  }

  /** A partition as every run keeps it, and more so clear of 2^256. */
  ghost predicate Kept(p: P.PartitionCtx) { PR.Core(p) && (P.Safe(p.finalTime, p.querySize) ==> PR.Wf(p)) }

  ghost predicate AllKept(w: World) { forall i :: 0 <= i < |w.partitions| ==> Kept(w.partitions[i]) }

  ghost predicate AllGames(env: Env, w: World) { forall i :: 0 <= i < |w.games| ==> GameLinked(env, w, w.games[i]) }

  ghost predicate AllApart(w: World) {
    forall i, j :: 0 <= i < |w.games| && 0 <= j < |w.games| && i != j ==> Apart(w.games[i], w.games[j])
  }

  ghost predicate AllComputes(w: World) {
    && (forall i :: 0 <= i < |w.computes| ==> ComputeLinked(w, w.computes[i]))
    && (forall i, j :: 0 <= i < |w.computes| && 0 <= j < |w.computes| && i != j
          && w.computes[i].currentState == w.computes[j].currentState == WaitingChallenge
          ==> w.computes[i].vgInstance != w.computes[j].vgInstance)
  }

  ghost predicate Linked(env: Env, w: World) {
    AllKept(w) && AllGames(env, w) && AllApart(w) && AllComputes(w)
  }

  // ----- sub-contract steps -----

  // p stays what its game relies on
  lemma PlaysOn(v: VGCtx, p: P.PartitionCtx, q: P.PartitionCtx)
    requires PlaysFor(v, p) && PR.Keeps(p, q)
    ensures PlaysFor(v, q)
  {
  }

  lemma KeptOn(p: P.PartitionCtx, caller: Address, now: nat, move: P.Move)
    requires Kept(p) && P.Apply(p, caller, now, move).Some?
    ensures Kept(P.Apply(p, caller, now, move).value)
  {
    PR.ApplyCore(p, caller, now, move);
    PR.ApplyKeeps(p, caller, now, move);
    if PR.Wf(p) { PR.ApplyWf(p, caller, now, move); }
    hide P.Apply, PR.Core, PR.Wf;
  }

  lemma KeptFromStart(challenger: Address, claimer: Address, initialHash: Hash, finalHash: Hash,
                      finalTime: uint256, querySize: nat, roundDuration: nat, now: nat)
    requires P.Create(challenger, claimer, initialHash, finalHash, finalTime, querySize, roundDuration, now).Some?
    ensures Kept(P.Create(challenger, claimer, initialHash, finalHash, finalTime, querySize, roundDuration, now).value)
  {
    PR.CreateWf(challenger, claimer, initialHash, finalHash, finalTime, querySize, roundDuration, now);
    hide PR.Core, PR.Wf, P.Points;
  }

  lemma PartitionStep(env: Env, w: World, caller: Address, now: nat, i: nat, move: P.Move)
    requires Linked(env, w) && ExecPartition(w, caller, now, i, move).Some?
    ensures Linked(env, ExecPartition(w, caller, now, i, move).value)
  {
    var p, w' := w.partitions[i], ExecPartition(w, caller, now, i, move).value;
    KeptOn(p, caller, now, move);
    PR.ApplyKeeps(p, caller, now, move);
    hide P.Apply, Kept, PR.Keeps, PlaysFor, Backs;
    forall k | 0 <= k < |w'.games| ensures GameLinked(env, w', w'.games[k]) {
      var v := w.games[k];
      assert GameLinked(env, w, v);
      if v.currentState == WaitPartition && v.partitionInstance == i { PlaysOn(v, p, w'.partitions[i]); }
    }
  }

  lemma MemoryMoveBacks(env: Env, v: VGCtx, m: M.MMCtx, caller: Address, move: M.Move)
    requires Backs(env, v, m) && caller != env.vgAddress && M.Apply(env.depth, m, caller, move).Some?
    ensures Backs(env, v, M.Apply(env.depth, m, caller, move).value)
  {
  }

  lemma MemoryStep(env: Env, w: World, caller: Address, i: nat, move: M.Move)
    requires Linked(env, w) && caller != env.vgAddress && ExecMemory(env, w, caller, i, move).Some?
    ensures Linked(env, ExecMemory(env, w, caller, i, move).value)
  {
    var w' := ExecMemory(env, w, caller, i, move).value;
    hide M.Apply, PR.Wf, PlaysFor, Backs;
    forall k | 0 <= k < |w'.games| ensures GameLinked(env, w', w'.games[k]) {
      var v := w.games[k];
      assert GameLinked(env, w, v);
      if v.currentState == WaitMemoryProveValues && v.mmInstance == i {
        MemoryMoveBacks(env, v, w.memories[i], caller, move);
      }
    }
  }

  lemma PushPartition(env: Env, w: World, p: P.PartitionCtx)
    requires Linked(env, w) && Kept(p)
    ensures Linked(env, w.(partitions := w.partitions + [p]))
  {
    hide Kept, PlaysFor, Backs;
    var w' := w.(partitions := w.partitions + [p]);
    forall k | 0 <= k < |w'.games| ensures GameLinked(env, w', w'.games[k]) {
      assert GameLinked(env, w, w.games[k]);
    }
  }

  lemma PushMemory(env: Env, w: World, m: M.MMCtx)
    requires Linked(env, w)
    ensures Linked(env, w.(memories := w.memories + [m]))
  {
    hide Kept, PlaysFor, Backs;
    var w' := w.(memories := w.memories + [m]);
    forall k | 0 <= k < |w'.games| ensures GameLinked(env, w', w'.games[k]) {
      assert GameLinked(env, w, w.games[k]);
    }
  }

  /** A game replaced by one that is linked, apart from the others, and still disputes the
      same claim if it is live. */
  lemma ReplaceGame(env: Env, w: World, i: nat, v: VGCtx)
    requires Linked(env, w) && i < |w.games| && GameLinked(env, w, v)
    requires v.Live() ==> w.games[i].Live() && (forall c :: Disputes(c, w.games[i]) ==> Disputes(c, v))
    requires forall k :: 0 <= k < |w.games| && k != i ==> Apart(w.games[k], v)
    ensures Linked(env, w.(games := w.games[i := v]))
  {
    hide Kept, PlaysFor, Backs;
    var w' := w.(games := w.games[i := v]);
    forall k | 0 <= k < |w'.games| ensures GameLinked(env, w', w'.games[k]) {
      assert k == i || GameLinked(env, w, w.games[k]);
    }
    forall k | 0 <= k < |w'.computes| ensures ComputeLinked(w', w'.computes[k]) {
      assert ComputeLinked(w, w.computes[k]);
    }
  }

  lemma EndGame(env: Env, w: World, i: nat, v: VGCtx)
    requires Linked(env, w) && i < |w.games| && !v.Live()
    ensures Linked(env, w.(games := w.games[i := v]))
  {
    ReplaceGame(env, w, i, v);
  }

  lemma PushGame(env: Env, w: World, v: VGCtx)
    requires Linked(env, w) && GameLinked(env, w, v)
    requires forall k :: 0 <= k < |w.games| ==> Apart(w.games[k], v)
    ensures Linked(env, w.(games := w.games + [v]))
  {
    hide Kept, PlaysFor, Backs;
    var w' := w.(games := w.games + [v]);
    forall k | 0 <= k < |w'.games| ensures GameLinked(env, w', w'.games[k]) {
      assert k == |w.games| || GameLinked(env, w, w.games[k]);
    }
    forall k | 0 <= k < |w'.computes| ensures ComputeLinked(w', w'.computes[k]) {
      assert ComputeLinked(w, w.computes[k]);
    }
  }

  lemma ReplaceCompute(env: Env, w: World, i: nat, c: ComputeCtx)
    requires Linked(env, w) && i < |w.computes| && ComputeLinked(w, c)
    requires c.currentState == WaitingChallenge ==>
      forall k :: 0 <= k < |w.computes| && w.computes[k].currentState == WaitingChallenge ==> w.computes[k].vgInstance != c.vgInstance
    ensures Linked(env, w.(computes := w.computes[i := c]))
  {
    hide Kept, PlaysFor, Backs, Disputes;
    var w' := w.(computes := w.computes[i := c]);
    forall k | 0 <= k < |w'.games| ensures GameLinked(env, w', w'.games[k]) { assert GameLinked(env, w, w.games[k]); }
    forall k | 0 <= k < |w'.computes| ensures ComputeLinked(w', w'.computes[k]) {
      assert k == i || ComputeLinked(w, w.computes[k]);
    }
  }

  // ----- steps of the game and of compute -----

  lemma NewGameStep(env: Env, w: World, now: nat, challenger: Address, claimer: Address, roundDuration: nat,
                    machine: Address, initialHash: Hash, finalHash: Hash, finalTime: uint256)
    requires Linked(env, w)
    requires ExecNewGame(w, now, challenger, claimer, roundDuration, machine, initialHash, finalHash, finalTime).Some?
    ensures var w' := ExecNewGame(w, now, challenger, claimer, roundDuration, machine, initialHash, finalHash, finalTime).value;
      Linked(env, w')
  {
    var p := P.Create(challenger, claimer, initialHash, finalHash, finalTime, VG_QUERY_SIZE, roundDuration, now).value;
    KeptFromStart(challenger, claimer, initialHash, finalHash, finalTime, VG_QUERY_SIZE, roundDuration, now);
    PR.CreateCore(challenger, claimer, initialHash, finalHash, finalTime, VG_QUERY_SIZE, roundDuration, now);
    var v := OpenGame(challenger, claimer, roundDuration, machine, initialHash, finalHash, finalTime, now, |w.partitions|);
    assert PlaysFor(v, p);
    PushPartition(env, w, p);
    hide Kept, PlaysFor, Backs, Log2OverTwo;
    var w1 := w.(partitions := w.partitions + [p]);
    forall k | 0 <= k < |w1.games| ensures Apart(w1.games[k], v) { assert GameLinked(env, w, w.games[k]); }
    PushGame(env, w1, v);
  }

  lemma StartBacks(env: Env, w: World, now: nat, i: nat)
    requires Linked(env, w) && ExecStart(env, w, now, i).Some?
    ensures var p := w.partitions[w.games[i].partitionInstance];
      var v := Started(w.games[i], p, |w.memories|, now).value;
      Backs(env, v, OpenMemory(env, v))
  {
    assert GameLinked(env, w, w.games[i]);
    assert Kept(w.partitions[w.games[i].partitionInstance]);
  }

  lemma StartStep(env: Env, w: World, now: nat, i: nat)
    requires Linked(env, w) && ExecStart(env, w, now, i).Some?
    ensures Linked(env, ExecStart(env, w, now, i).value)
  {
    StartBacks(env, w, now, i);
    hide Kept, PlaysFor, Backs;
    var v := Started(w.games[i], w.partitions[w.games[i].partitionInstance], |w.memories|, now).value;
    var m := OpenMemory(env, v);
    PushMemory(env, w, m);
    var w1 := w.(memories := w.memories + [m]);
    forall k | 0 <= k < |w1.games| ensures Apart(w1.games[k], v) { assert GameLinked(env, w, w.games[k]); }
    ReplaceGame(env, w1, i, v);
  }

  lemma SettleStep(env: Env, w: World, caller: Address, i: nat)
    requires Linked(env, w) && ExecSettle(env, w, caller, i).Some?
    ensures Linked(env, ExecSettle(env, w, caller, i).value)
  {
    var j := w.games[i].mmInstance;
    var vm := Settled(env, w.games[i], w.memories[j], caller).value;
    assert !vm.0.Live();
    EndGame(env, w, i, vm.0);
    hide Kept, PlaysFor, Backs, Settled;
    var w1 := w.(games := w.games[i := vm.0]);
    var w2 := w1.(memories := w1.memories[j := vm.1]);
    forall k | 0 <= k < |w2.games| ensures GameLinked(env, w2, w2.games[k]) {
      assert GameLinked(env, w1, w1.games[k]);
      assert k == i || Apart(w.games[k], w.games[i]);
    }
    assert AllComputes(w2);
  }

  lemma ChallengeStep(env: Env, w: World, caller: Address, now: nat, i: nat)
    requires Linked(env, w) && ExecChallenge(w, caller, now, i).Some?
    ensures Linked(env, ExecChallenge(w, caller, now, i).value)
  {
    var c := w.computes[i];
    assert ComputeLinked(w, c);
    NewGameStep(env, w, now, c.challenger, c.claimer, c.roundDuration, c.machine, c.initialHash, c.claimedFinalHash, c.finalTime);
    var w1 := ExecNewGame(w, now, c.challenger, c.claimer, c.roundDuration, c.machine, c.initialHash, c.claimedFinalHash, c.finalTime).value;
    var c' := c.(vgInstance := |w.games|, currentState := WaitingChallenge);
    assert Disputes(c', w1.games[|w.games|]);
    hide Kept, PlaysFor, Backs, GameLinked, Disputes;
    forall k | 0 <= k < |w1.computes| && w1.computes[k].currentState == WaitingChallenge
      ensures w1.computes[k].vgInstance != c'.vgInstance
    {
      assert ComputeLinked(w, w.computes[k]);
    }
    ReplaceCompute(env, w1, i, c');
  }

  lemma ComputeStep(env: Env, w: World, i: nat, c: ComputeCtx)
    requires Linked(env, w) && i < |w.computes|
    requires c.currentState != WaitingChallenge
    requires c.Open() ==> w.computes[i].Open() && c.challenger == w.computes[i].challenger
                          && c.claimer == w.computes[i].claimer && c.finalTime == w.computes[i].finalTime
    ensures Linked(env, w.(computes := w.computes[i := c]))
  {
    assert ComputeLinked(w, w.computes[i]);
    ReplaceCompute(env, w, i, c);
  }

  lemma NewComputeStep(env: Env, w: World, c: ComputeCtx)
    requires Linked(env, w) && c.currentState == WaitingClaim && c.challenger != c.claimer && c.finalTime < MOD
    ensures Linked(env, w.(computes := w.computes + [c]))
  {
    hide Kept, PlaysFor, Backs, Disputes;
    var w' := w.(computes := w.computes + [c]);
    forall k | 0 <= k < |w'.games| ensures GameLinked(env, w', w'.games[k]) { assert GameLinked(env, w, w.games[k]); }
    forall k | 0 <= k < |w'.computes| ensures ComputeLinked(w', w'.computes[k]) {
      assert k == |w.computes| || ComputeLinked(w, w.computes[k]);
    }
  }

  lemma SubInstanceStep(env: Env, w: World, e: Event)
    requires Linked(env, w) && External(env, e) && Exec(env, w, e.caller, e.now, e.call).Some?
    requires e.call.NewPartition? || e.call.PartitionCall? || e.call.NewMemory? || e.call.MemoryCall?
    ensures Linked(env, Exec(env, w, e.caller, e.now, e.call).value)
  {
    hide Linked, P.Apply, M.Apply, P.Create;
    match e.call
    case NewPartition(challenger, claimer, initialHash, finalHash, finalTime, querySize, roundDuration) =>
      KeptFromStart(challenger, claimer, initialHash, finalHash, finalTime, querySize, roundDuration, e.now);
      PushPartition(env, w, P.Create(challenger, claimer, initialHash, finalHash, finalTime, querySize, roundDuration, e.now).value);
    case PartitionCall(i, move) => PartitionStep(env, w, e.caller, e.now, i, move);
    case NewMemory(owner, provider, initialHash) => PushMemory(env, w, M.Create(owner, provider, initialHash));
    case MemoryCall(i, move) => MemoryStep(env, w, e.caller, i, move);
    case _ =>
  }

  lemma GameStep(env: Env, w: World, e: Event)
    requires Linked(env, w) && Exec(env, w, e.caller, e.now, e.call).Some?
    requires e.call.NewGame? || e.call.WinByPartitionTimeout? || e.call.StartMachineRunChallenge?
      || e.call.SettleVerificationGame? || e.call.GameClaimVictoryByTime?
    ensures Linked(env, Exec(env, w, e.caller, e.now, e.call).value)
  {
    hide Linked, ExecNewGame, ExecStart, ExecSettle, Log2OverTwo;
    match e.call
    case NewGame(challenger, claimer, roundDuration, machine, initialHash, finalHash, finalTime) =>
      NewGameStep(env, w, e.now, challenger, claimer, roundDuration, machine, initialHash, finalHash, finalTime);
    case WinByPartitionTimeout(i) =>
      EndGame(env, w, i, TimedOut(w.games[i], w.partitions[w.games[i].partitionInstance]).value);
    case StartMachineRunChallenge(i) => StartStep(env, w, e.now, i);
    case SettleVerificationGame(i) => SettleStep(env, w, e.caller, i);
    case GameClaimVictoryByTime(i) => EndGame(env, w, i, ClaimedByTime(w.games[i], e.caller, e.now).value);
    case _ =>
  }

  lemma ComputeCallStep(env: Env, w: World, e: Event)
    requires Linked(env, w) && Exec(env, w, e.caller, e.now, e.call).Some?
    requires e.call.NewCompute? || e.call.SubmitClaim? || e.call.Confirm? || e.call.Challenge? || e.call.WinByVG?
      || e.call.ComputeClaimVictoryByTime?
    ensures Linked(env, Exec(env, w, e.caller, e.now, e.call).value)
  {
    hide Linked, ExecChallenge;
    match e.call
    case NewCompute(challenger, claimer, roundDuration, machine, initialHash, finalTime) =>
      NewComputeStep(env, w, OpenCompute(challenger, claimer, roundDuration, machine, initialHash, finalTime, e.now).value);
    case SubmitClaim(i, hash) => ComputeStep(env, w, i, Submitted(w.computes[i], e.caller, hash).value);
    case Confirm(i) => ComputeStep(env, w, i, Confirmed(w.computes[i], e.caller).value);
    case Challenge(i) => ChallengeStep(env, w, e.caller, e.now, i);
    case WinByVG(i) => ComputeStep(env, w, i, Decided(w.computes[i], w.games[w.computes[i].vgInstance]).value);
    case ComputeClaimVictoryByTime(i) => ComputeStep(env, w, i, Expired(w.computes[i], e.caller, e.now).value);
    case _ =>
  }

  lemma LinkedStep(env: Env, w: World, e: Event)
    requires Linked(env, w) && External(env, e)
    ensures Linked(env, Step(env, w, e))
  {
    hide Linked, Exec;
    if Exec(env, w, e.caller, e.now, e.call).Some? {
      match e.call
      case NewPartition(_, _, _, _, _, _, _) => SubInstanceStep(env, w, e);
      case PartitionCall(_, _) => SubInstanceStep(env, w, e);
      case NewMemory(_, _, _) => SubInstanceStep(env, w, e);
      case MemoryCall(_, _) => SubInstanceStep(env, w, e);
      case NewGame(_, _, _, _, _, _, _) => GameStep(env, w, e);
      case WinByPartitionTimeout(_) => GameStep(env, w, e);
      case StartMachineRunChallenge(_) => GameStep(env, w, e);
      case SettleVerificationGame(_) => GameStep(env, w, e);
      case GameClaimVictoryByTime(_) => GameStep(env, w, e);
      case _ => ComputeCallStep(env, w, e);
    }
  }

  ghost predicate AllExternal(env: Env, events: seq<Event>) {
    forall k :: 0 <= k < |events| ==> External(env, events[k])
  }

  /** Cross-contract linkage over all runs: whatever transactions are sent by whomever, every
      game in WaitPartition points to a partition with its parties and its hashes at 0 and
      finalTime, every game in WaitMemoryProveValues to a memory owned by the game contract,
      provided by the challenger and opened at the hash before the divergence, no two live
      games share a sub-instance, and every game under challenge disputes its own claim. */
  lemma {:induction false} LinkedRun(env: Env, w: World, events: seq<Event>)
    requires Linked(env, w) && AllExternal(env, events)
    ensures Linked(env, Run(env, w, events))
    decreases |events|
  {
    if events != [] {
      LinkedRun(env, w, events[..|events| - 1]);
      LinkedStep(env, Run(env, w, events[..|events| - 1]), events[|events| - 1]);
    }
  }

  lemma GenesisLinked(env: Env)
    ensures Linked(env, GENESIS)
  {
  }
}
