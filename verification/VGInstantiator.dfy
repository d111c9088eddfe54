/** VGInstantiator as a contract: its instances, and its calls into the two below it. */
module VGContract {
  import opened Arithmetic
  import opened Common
  import opened Machine
  import opened Storage
  import opened Protocol
  import P = Partition
  import M = MemoryManager
  import opened PartitionContract
  import opened MMContract

  // A call that reads no sender or no clock has NOBODY or 0 in its place.
  class VGInstantiator {
    const address: Address
    const step: StepFn
    const partition: PartitionInstantiator
    const mm: MMInstantiator
    var currentIndex: nat
    var instance: map<nat, VGCtx>

    ghost predicate Valid()
      reads this, partition, mm
    {
      Stored(instance, currentIndex) && partition.Valid() && mm.Valid()
    }

    // the three contracts as one system; no compute contract is involved
    ghost function System(): World
      requires Valid()
      reads this, partition, mm
    {
      World(partition.Model(), mm.Model(), Listing(instance, currentIndex), [])
    }

    // the deployment, with the settlement that does not return
    ghost function Deployment(): Env { Env(address, mm.depth, step, false) }

    constructor (address: Address, step: StepFn, partition: PartitionInstantiator, mm: MMInstantiator)
      requires partition.Valid() && mm.Valid()
      ensures Valid() && System() == World(partition.Model(), mm.Model(), [], [])
      ensures this.address == address && this.step == step && this.partition == partition && this.mm == mm
    {
      this.address := address;
      this.step := step;
      this.partition := partition;
      this.mm := mm;
      currentIndex := 0;
      instance := map[];
    }

    // None is a revert; otherwise the new instance's index
    method Instantiate(challenger: Address, claimer: Address, roundDuration: uint256, machine: Address,
                       initialHash: Hash, claimerFinalHash: Hash, finalTime: uint256, now: uint256)
        returns (index: Option<nat>)
      requires Valid()
      modifies this, partition
      ensures Valid()
      ensures var w := Exec(Deployment(), old(System()), NOBODY, now,
                            NewGame(challenger, claimer, roundDuration, machine, initialHash, claimerFinalHash, finalTime));
        && index == (if w.Some? then Some(old(currentIndex)) else None)
        && System() == if w.Some? then w.value else old(System())
    {
      if finalTime == 0 { return None; }
      var rounds := ComputeLog2OverTwo(finalTime);
      hide Log2OverTwo;
      ghost var partitionIndex := partition.currentIndex;
      var opening := partition.Instantiate(challenger, claimer, initialHash, claimerFinalHash, finalTime,
                                           VG_QUERY_SIZE, roundDuration, now);
      if opening.None? { return None; }
      var v := VGCtx(challenger, claimer, Add(Mul(roundDuration, rounds), 4), machine, initialHash, claimerFinalHash,
                     finalTime, now, 0, opening.value, 0, ZERO_HASH, ZERO_HASH, WaitPartition);
      Pushed(instance, currentIndex, v);
      instance := instance[currentIndex := v];
      index := Some(currentIndex);
      currentIndex := currentIndex + 1;
    }

    method ClearInstance(index: nat)
      requires Valid() && index < currentIndex
      modifies `instance
      ensures instance == old(instance)[index := Won(old(instance[index]), true).(currentState := old(instance[index]).currentState)]
    {
      var v := instance[index];
      v := v.(challenger := NOBODY, claimer := NOBODY, roundDuration := 0, machine := NOBODY);
      v := v.(initialHash := ZERO_HASH, claimerFinalHash := ZERO_HASH, finalTime := 0, timeOfLastMove := 0);
      v := v.(mmInstance := 0, divergenceTime := 0, hashBeforeDivergence := ZERO_HASH, hashAfterDivergence := ZERO_HASH);
      instance := instance[index := v];
    }

    method ChallengerWins(index: nat)
      requires Valid() && index < currentIndex
      modifies `instance
      ensures instance == old(instance)[index := Won(old(instance[index]), true)]
    {
      ClearInstance(index);
      instance := instance[index := instance[index].(currentState := FinishedChallengerWon)];
    }

    method ClaimerWins(index: nat)
      requires Valid() && index < currentIndex
      modifies `instance
      ensures instance == old(instance)[index := Won(old(instance[index]), false)]
    {
      ClearInstance(index);
      instance := instance[index := instance[index].(currentState := FinishedClaimerWon)];
    }

    method WinByPartitionTimeout(index: nat) returns (ok: bool)
      requires Valid()
      modifies `instance
      ensures Valid()
      ensures var w := Exec(Deployment(), old(System()), NOBODY, 0, Protocol.WinByPartitionTimeout(index));
        ok == w.Some? && System() == if ok then w.value else old(System())
    {
      if index >= currentIndex || instance[index].currentState != WaitPartition { return false; }
      var partitionIndex := instance[index].partitionInstance;
      if partitionIndex >= partition.currentIndex { return false; }
      if partition.instance[partitionIndex].currentState == P.ChallengerWon {
        Updated(instance, currentIndex, index, Won(instance[index], true));
        ChallengerWins(index);
        return true;
      }
      if partition.instance[partitionIndex].currentState == P.ClaimerWon {
        Updated(instance, currentIndex, index, Won(instance[index], false));
        ClaimerWins(index);
        return true;
      }
      ok := false;
    }

    method StartMachineRunChallenge(index: nat, now: uint256) returns (ok: bool)
      requires Valid()
      modifies `instance, mm
      ensures Valid()
      ensures var w := Exec(Deployment(), old(System()), NOBODY, now, Protocol.StartMachineRunChallenge(index));
        ok == w.Some? && System() == if ok then w.value else old(System())
    {
      if index >= currentIndex || instance[index].currentState != WaitPartition { return false; }
      var partitionIndex := instance[index].partitionInstance;
      if partitionIndex >= partition.currentIndex { return false; }
      var p := partition.instance[partitionIndex];
      if p.currentState != P.DivergenceFound { return false; }
      var v := instance[index].(divergenceTime := p.divergenceTime,
                                hashBeforeDivergence := p.HashAt(p.divergenceTime),
                                hashAfterDivergence := p.HashAt(p.divergenceTime + 1));
      var mmIndex := mm.Instantiate(address, v.challenger, v.hashBeforeDivergence);
      v := v.(mmInstance := mmIndex, partitionInstance := 0, timeOfLastMove := now, currentState := WaitMemoryProveValues);
      Updated(instance, currentIndex, index, v);
      instance := instance[index := v];
      ok := true;
    }

    /** settleVerificationGame, with the missing return: when the guard holds, challengerWins
        is followed by claimerWins. */
    method SettleVerificationGame(index: nat, caller: Address) returns (ok: bool)
      requires Valid()
      modifies `instance, mm
      ensures Valid()
      ensures var w := Exec(Deployment(), old(System()), caller, 0, Protocol.SettleVerificationGame(index));
        ok == w.Some? && System() == if ok then w.value else old(System())
    {
      if index >= currentIndex || caller != instance[index].challenger { return false; }
      if instance[index].currentState != WaitMemoryProveValues { return false; }
      var mmIndex := instance[index].mmInstance;
      if mmIndex >= mm.currentIndex || mm.instance[mmIndex].currentState != M.WaitingReplay { return false; }
      ghost var m := mm.instance[mmIndex];
      var positions, values, wasRead := mm.GetRWArrays(mmIndex);
      var machine := instance[index].machine;
      var outcome := step(machine, positions[..], values[..], wasRead[..]);
      if outcome.Reverts? { return false; }
      var replayed := mm.FinishReplayPhase(mmIndex, address);
      if !replayed { return false; }
      ghost var v := instance[index];
      if outcome.exitCode == 0 && outcome.accesses == positions.Length
         && mm.instance[mmIndex].newHash != instance[index].hashAfterDivergence
      {
        ChallengerWins(index);
      }
      ClaimerWins(index);
      VerdictWritten(Deployment(), v, m, old(instance), index, instance);
      Updated(old(instance), currentIndex, index, Verdict(Deployment(), v, Disproves(Deployment(), v, m)));
      ok := true;
    }

    method ClaimVictoryByTime(index: nat, caller: Address, now: uint256) returns (ok: bool)
      requires Valid()
      modifies `instance
      ensures Valid()
      ensures var w := Exec(Deployment(), old(System()), caller, now, GameClaimVictoryByTime(index));
        ok == w.Some? && System() == if ok then w.value else old(System())
    {
      if index >= currentIndex || caller != instance[index].claimer { return false; }
      if instance[index].partitionInstance >= partition.currentIndex { return false; }
      hide MemoryDeadline;
      if now <= MemoryDeadline(instance[index]) { return false; }
      if instance[index].currentState != WaitMemoryProveValues { return false; }
      Updated(instance, currentIndex, index, Won(instance[index], false));
      ClaimerWins(index);
      ok := true;
    }
  }

  /** The two contracts below do to their own instances what the system does to its partitions
      and memories. */
  lemma StoresAgree(env: Env, w: World, caller: Address, now: nat, i: nat, partitionMove: P.Move, memoryMove: M.Move)
    ensures var s := PartitionContract.After(w.partitions, i, caller, now, partitionMove);
      Exec(env, w, caller, now, PartitionCall(i, partitionMove)) == if s.None? then None else Some(w.(partitions := s.value))
    ensures var s := MMContract.After(env.depth, w.memories, i, caller, memoryMove);
      Exec(env, w, caller, now, MemoryCall(i, memoryMove)) == if s.None? then None else Some(w.(memories := s.value))
  {
    hide P.Apply, M.Apply;
  }

  // both orders of the last writes come to the verdict
  lemma VerdictWritten(env: Env, v: VGCtx, m: M.MMCtx, before: map<nat, VGCtx>, index: nat, after: map<nat, VGCtx>)
    requires !env.settleReturns && index in before && before[index] == v
    requires after == before[index := Won(v, false)] || after == before[index := Won(v, true)][index := Won(Won(v, true), false)]
    ensures after == before[index := Verdict(env, v, Disproves(env, v, m))]
  {
    VerdictExact(env, v, true);
    assert Won(Won(v, true), false) == Won(v, false);
    hide Won, Disproves;
  }
}
