/** MMInstantiator as a contract: history pushed and newHash overwritten in place. */
module MMContract {
  import opened Arithmetic
  import opened Common
  import Merkle
  import opened MemoryManager
  import opened Machine
  import opened Storage

  // what one call does to the contract's instances
  function After(depth: nat, s: seq<MMCtx>, i: nat, caller: Address, move: Move): Option<seq<MMCtx>> {
    if i >= |s| then None
    else
      var c := Apply(depth, s[i], caller, move);
      if c.None? then None else Some(s[i := c.value])
  }

  class MMInstantiator {
    const depth: nat
    var currentIndex: nat
    var instance: map<nat, MMCtx>

    ghost predicate Valid()
      reads this
    {
      Stored(instance, currentIndex)
    }

    ghost function Model(): seq<MMCtx>
      requires Valid()
      reads this
    {
      Listing(instance, currentIndex)
    }

    constructor (depth: nat)
      ensures Valid() && Model() == [] && this.depth == depth
    {
      this.depth := depth;
      currentIndex := 0;
      instance := map[];
    }

    method Instantiate(owner: Address, provider: Address, initialHash: Hash) returns (index: nat)
      requires Valid()
      modifies this
      ensures Valid() && index == old(currentIndex)
      ensures Model() == old(Model()) + [Create(owner, provider, initialHash)]
    {
      Pushed(instance, currentIndex, Create(owner, provider, initialHash));
      instance := instance[currentIndex := MMCtx(owner, provider, initialHash, initialHash, [], WaitingProofs)];
      index := currentIndex;
      currentIndex := currentIndex + 1;
    }

    method ProveRead(index: nat, position: nat, value: Word, proof: seq<Hash>, caller: Address) returns (ok: bool)
      requires Valid()
      modifies `instance
      ensures Valid()
      ensures var s := After(depth, old(Model()), index, caller, Move.ProveRead(position, value, proof));
        ok == s.Some? && Model() == if ok then s.value else old(Model())
    {
      if index >= currentIndex || caller != instance[index].provider { return false; }
      var c := instance[index];
      if c.currentState != WaitingProofs { return false; }
      var root := Merkle.ComputeRoot(depth, position, value, proof);
      if root != Some(c.newHash) { return false; }
      instance := instance[index := c.(history := c.history + [ReadWrite(true, position, value)])];
      Updated(old(instance), currentIndex, index, instance[index]);
      ok := true;
    }

    method ProveWrite(index: nat, position: nat, oldValue: Word, newValue: Word, proof: seq<Hash>, caller: Address)
        returns (ok: bool)
      requires Valid()
      modifies `instance
      ensures Valid()
      ensures var s := After(depth, old(Model()), index, caller, Move.ProveWrite(position, oldValue, newValue, proof));
        ok == s.Some? && Model() == if ok then s.value else old(Model())
    {
      if index >= currentIndex || caller != instance[index].provider { return false; }
      if instance[index].currentState != WaitingProofs { return false; }
      var root := Merkle.ComputeRoot(depth, position, oldValue, proof);
      if root != Some(instance[index].newHash) { return false; }
      var updated := Merkle.ComputeRoot(depth, position, newValue, proof);
      if updated.None? { return false; }
      instance := instance[index := instance[index].(newHash := updated.value)];
      instance := instance[index := instance[index].(
        history := instance[index].history + [ReadWrite(false, position, newValue)])];
      assert instance == old(instance)[index := instance[index]];
      Updated(old(instance), currentIndex, index, instance[index]);
      ok := true;
    }

    method FinishProofPhase(index: nat, caller: Address) returns (ok: bool)
      requires Valid()
      modifies `instance
      ensures Valid()
      ensures var s := After(depth, old(Model()), index, caller, Move.FinishProofPhase);
        ok == s.Some? && Model() == if ok then s.value else old(Model())
    {
      if index >= currentIndex || caller != instance[index].provider { return false; }
      if instance[index].currentState != WaitingProofs { return false; }
      instance := instance[index := instance[index].(currentState := WaitingReplay)];
      Updated(old(instance), currentIndex, index, instance[index]);
      ok := true;
    }

    method FinishReplayPhase(index: nat, caller: Address) returns (ok: bool)
      requires Valid()
      modifies `instance
      ensures Valid()
      ensures var s := After(depth, old(Model()), index, caller, Move.FinishReplayPhase);
        ok == s.Some? && Model() == if ok then s.value else old(Model())
    {
      if index >= currentIndex || caller != instance[index].owner { return false; }
      if instance[index].currentState != WaitingReplay { return false; }
      instance := instance[index := instance[index].(history := [])];
      instance := instance[index := instance[index].(currentState := FinishedReplay)];
      assert instance == old(instance)[index := instance[index]];
      Updated(old(instance), currentIndex, index, instance[index]);
      ok := true;
    }

    // an instance that was never made reads as an empty log
    ghost function HistoryAt(index: nat): seq<ReadWrite>
      requires Valid()
      reads this
    {
      if index < currentIndex then Model()[index].history else []
    }

    /** The history as the three arrays a machine replays. */
    method GetRWArrays(index: nat) returns (positions: array<nat>, values: array<Word>, isRead: array<bool>)
      requires Valid()
      ensures fresh(positions) && fresh(values) && fresh(isRead)
      ensures var his := HistoryAt(index);
        && positions.Length == values.Length == isRead.Length == |his|
        && (forall i :: 0 <= i < |his| ==> his[i] == ReadWrite(isRead[i], positions[i], values[i]))
      ensures positions[..] == Positions(HistoryAt(index))
      ensures values[..] == Values(HistoryAt(index))
      ensures isRead[..] == Kinds(HistoryAt(index))
    {
      var his := if index < currentIndex then instance[index].history else [];
      var length := |his|;
      positions := new nat[length];
      values := new Word[length];
      isRead := new bool[length];
      for i := 0 to length
        invariant forall k :: 0 <= k < i ==>
          positions[k] == his[k].position && values[k] == his[k].value && isRead[k] == his[k].wasRead
      {
        positions[i] := his[i].position;
        values[i] := his[i].value;
        isRead[i] := his[i].wasRead;
      }
    }
  }
}
