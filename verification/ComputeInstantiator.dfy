/** ComputeInstantiator as a contract, on top of the verification game. */
module ComputeContract {
  import opened Arithmetic
  import opened Common
  import opened Storage
  import opened Protocol
  import opened VGContract

  class ComputeInstantiator {
    const vg: VGInstantiator
    var currentIndex: nat
    var instance: map<nat, ComputeCtx>

    ghost predicate Valid()
      reads this, vg, vg.partition, vg.mm
    {
      Stored(instance, currentIndex) && vg.Valid() && forall i :: i in instance ==> Words(instance[i])
    }

    // the fields that are passed on as words
    static predicate Words(c: ComputeCtx) { c.roundDuration < MOD && c.finalTime < MOD }

    // the four contracts as one system
    ghost function System(): World
      requires Valid()
      reads this, vg, vg.partition, vg.mm
    {
      vg.System().(computes := Listing(instance, currentIndex))
    }

    constructor (vg: VGInstantiator)
      requires vg.Valid()
      ensures Valid() && this.vg == vg && System() == vg.System()
    {
      this.vg := vg;
      currentIndex := 0;
      instance := map[];
    }

    // None is a revert; otherwise the new instance's index
    method Instantiate(challenger: Address, claimer: Address, roundDuration: uint256, machine: Address,
                       initialHash: Hash, finalTime: uint256, now: uint256) returns (index: Option<nat>)
      requires Valid()
      modifies this
      ensures Valid()
      ensures var w := Exec(vg.Deployment(), old(System()), NOBODY, now,
                            NewCompute(challenger, claimer, roundDuration, machine, initialHash, finalTime));
        && index == (if w.Some? then Some(old(currentIndex)) else None)
        && System() == if w.Some? then w.value else old(System())
    {
      if challenger == claimer { return None; }
      var c := ComputeCtx(challenger, claimer, roundDuration, now, machine, initialHash, finalTime, ZERO_HASH, 0, WaitingClaim);
      Pushed(instance, currentIndex, c);
      instance := instance[currentIndex := c];
      index := Some(currentIndex);
      currentIndex := currentIndex + 1;
    }

    method SubmitClaim(index: nat, claimedFinalHash: Hash, caller: Address) returns (ok: bool)
      requires Valid()
      modifies `instance
      ensures Valid()
      ensures var w := Exec(vg.Deployment(), old(System()), caller, 0, Protocol.SubmitClaim(index, claimedFinalHash));
        ok == w.Some? && System() == if ok then w.value else old(System())
    {
      if index >= currentIndex || caller != instance[index].claimer { return false; }
      if instance[index].currentState != WaitingClaim { return false; }
      var c := instance[index].(claimedFinalHash := claimedFinalHash);
      Updated(instance, currentIndex, index, c.(currentState := WaitingConfirmation));
      instance := instance[index := c.(currentState := WaitingConfirmation)];
      ok := true;
    }

    method ClearInstance(index: nat)
      requires Valid() && index < currentIndex
      modifies `instance
      ensures instance == old(instance)[index := Closed(old(instance[index]), old(instance[index]).currentState)]
    {
      var c := instance[index].(challenger := NOBODY, claimer := NOBODY, roundDuration := 0, timeOfLastMove := 0);
      instance := instance[index := c.(machine := NOBODY, initialHash := ZERO_HASH, finalTime := 0, vgInstance := 0)];
    }

    method Confirm(index: nat, caller: Address) returns (ok: bool)
      requires Valid()
      modifies `instance
      ensures Valid()
      ensures var w := Exec(vg.Deployment(), old(System()), caller, 0, Protocol.Confirm(index));
        ok == w.Some? && System() == if ok then w.value else old(System())
    {
      if index >= currentIndex || caller != instance[index].challenger { return false; }
      if instance[index].currentState != WaitingConfirmation { return false; }
      Updated(instance, currentIndex, index, Closed(instance[index], ConsensusResult));
      instance := instance[index := instance[index].(currentState := ConsensusResult)];
      assert Stored(instance, currentIndex);
      ClearInstance(index);
      assert instance == old(instance)[index := Closed(old(instance[index]), ConsensusResult)];
      ok := true;
    }

    method Challenge(index: nat, caller: Address, now: uint256) returns (ok: bool)
      requires Valid()
      modifies `instance, vg, vg.partition
      ensures Valid()
      ensures var w := Exec(vg.Deployment(), old(System()), caller, now, Protocol.Challenge(index));
        ok == w.Some? && System() == if ok then w.value else old(System())
    {
      if index >= currentIndex || caller != instance[index].challenger { return false; }
      var c := instance[index];
      if c.currentState != WaitingConfirmation { return false; }
      var vgIndex := vg.Instantiate(c.challenger, c.claimer, c.roundDuration, c.machine, c.initialHash,
                                    c.claimedFinalHash, c.finalTime, now);
      if vgIndex.None? { return false; }
      Updated(instance, currentIndex, index, c.(vgInstance := vgIndex.value, currentState := WaitingChallenge));
      instance := instance[index := c.(vgInstance := vgIndex.value, currentState := WaitingChallenge)];
      ok := true;
    }

    method WinByVG(index: nat) returns (ok: bool)
      requires Valid()
      modifies `instance
      ensures Valid()
      ensures var w := Exec(vg.Deployment(), old(System()), NOBODY, 0, Protocol.WinByVG(index));
        ok == w.Some? && System() == if ok then w.value else old(System())
    {
      if index >= currentIndex || instance[index].currentState != WaitingChallenge { return false; }
      var vgIndex := instance[index].vgInstance;
      if vgIndex >= vg.currentIndex { return false; }
      var verdict := vg.instance[vgIndex].currentState;
      if verdict == FinishedChallengerWon {
        Decide(index, ChallengerWon);
        return true;
      }
      if verdict == FinishedClaimerWon {
        Decide(index, ClaimerWon);
        return true;
      }
      ok := false;
    }

    // challengerWins and claimerWins: clear, then the final state
    method Decide(index: nat, verdict: ComputeState)
      requires Valid() && index < currentIndex
      modifies `instance
      ensures Valid()
      ensures System() == old(System()).(computes := old(System()).computes[index := Closed(old(System()).computes[index], verdict)])
    {
      Updated(instance, currentIndex, index, Closed(instance[index], verdict));
      ClearInstance(index);
      instance := instance[index := instance[index].(currentState := verdict)];
      assert instance == old(instance)[index := Closed(old(instance[index]), verdict)];
    }

    method ClaimVictoryByTime(index: nat, caller: Address, now: uint256) returns (ok: bool)
      requires Valid()
      modifies `instance
      ensures Valid()
      ensures var w := Exec(vg.Deployment(), old(System()), caller, now, ComputeClaimVictoryByTime(index));
        ok == w.Some? && System() == if ok then w.value else old(System())
    {
      if index >= currentIndex { return false; }
      hide ComputeDeadline;
      var c := instance[index];
      var afterDeadline := now > ComputeDeadline(c);
      if caller == c.challenger && c.currentState == WaitingClaim && afterDeadline {
        Updated(instance, currentIndex, index, c.(currentState := ClaimerMissedDeadline));
        instance := instance[index := c.(currentState := ClaimerMissedDeadline)];
        return true;
      }
      if caller == c.claimer && c.currentState == WaitingConfirmation && afterDeadline {
        Updated(instance, currentIndex, index, c.(currentState := ConsensusResult));
        instance := instance[index := c.(currentState := ConsensusResult)];
        return true;
      }
      ok := false;
    }
  }
}
