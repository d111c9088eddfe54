/** PartitionInstantiator as a contract: storage updated in place, refining the game's calls. */
module PartitionContract {
  import opened Arithmetic
  import opened Common
  import opened Partition
  import opened Storage
  import PR = PartitionRuns

  // what one call does to the contract's instances
  function After(s: seq<PartitionCtx>, i: nat, caller: Address, now: nat, move: Move): Option<seq<PartitionCtx>> {
    if i >= |s| then None
    else
      var p := Apply(s[i], caller, now, move);
      if p.None? then None else Some(s[i := p.value])
  }

  // every stored instance is as the game keeps it
  ghost predicate Sound(m: map<nat, PartitionCtx>, n: nat) {
    Stored(m, n) && forall i :: i in m ==> PR.Core(m[i])
  }

  lemma SoundUpdate(m: map<nat, PartitionCtx>, n: nat, i: nat, p: PartitionCtx)
    requires Sound(m, n) && PR.Core(p) && i < n
    ensures Sound(m[i := p], n) && Listing(m[i := p], n) == Listing(m, n)[i := p]
  {
    hide PR.Core;
    Updated(m, n, i, p);
  }

  lemma SoundPush(m: map<nat, PartitionCtx>, n: nat, p: PartitionCtx)
    requires Sound(m, n) && PR.Core(p)
    ensures Sound(m[n := p], n + 1) && Listing(m[n := p], n + 1) == Listing(m, n) + [p]
  {
    hide PR.Core;
    Pushed(m, n, p);
  }

  class PartitionInstantiator {
    var currentIndex: nat
    var instance: map<nat, PartitionCtx>

    ghost predicate Valid()
      reads this
    {
      Sound(instance, currentIndex)
    }

    ghost function Model(): seq<PartitionCtx>
      requires Valid()
      reads this
    {
      Listing(instance, currentIndex)
    }

    constructor ()
      ensures Valid() && Model() == []
    {
      currentIndex := 0;
      instance := map[];
    }

    /** Puts the separators of an interval in queryArray, one storage write at a time. */
    method Slice(index: nat, leftPoint: uint256, rightPoint: uint256) returns (ok: bool)
      requires index in instance
      requires 2 < instance[index].querySize < MAX_QUERY_SIZE && |instance[index].queryArray| == instance[index].querySize
      modifies `instance
      ensures ok <==> leftPoint < rightPoint
      ensures !ok ==> instance == old(instance)
      ensures ok ==> instance == old(instance)[index :=
                old(instance[index]).(queryArray := Points(leftPoint, rightPoint, old(instance[index]).querySize))]
    {
      if rightPoint <= leftPoint { return false; }
      ghost var p := instance[index];
      ghost var points := Points(leftPoint, rightPoint, p.querySize);
      SubExact(rightPoint, leftPoint);
      SubExact(p.querySize, 1);
      var i := 0;
      var intervalLength := Sub(rightPoint, leftPoint);
      var queryLastIndex := Sub(instance[index].querySize, 1);
      if intervalLength < 2 * queryLastIndex {
        while i < queryLastIndex
          invariant 0 <= i <= queryLastIndex
          invariant index in instance && |instance[index].queryArray| == p.querySize
          invariant instance == old(instance)[index := p.(queryArray := instance[index].queryArray)]
          invariant instance[index].queryArray[..i] == points[..i]
        {
          WriteQuery(index, i, if Add(leftPoint, i) < rightPoint then Add(leftPoint, i) else rightPoint);
          i := i + 1;
        }
      } else {
        var divisionLength := intervalLength / queryLastIndex;
        while i < queryLastIndex
          invariant 0 <= i <= queryLastIndex
          invariant index in instance && |instance[index].queryArray| == p.querySize
          invariant instance == old(instance)[index := p.(queryArray := instance[index].queryArray)]
          invariant instance[index].queryArray[..i] == points[..i]
        {
          JumpFits(leftPoint, rightPoint, p.querySize, i);
          WriteQuery(index, i, Add(leftPoint, Mul(i, divisionLength)));
          i := i + 1;
        }
      }
      WriteQuery(index, queryLastIndex, rightPoint);
      assert instance[index].queryArray == points[..queryLastIndex] + [rightPoint] == points;
      ok := true;
    }

    method WriteQuery(index: nat, i: nat, point: nat)
      requires index in instance && i < |instance[index].queryArray|
      modifies `instance
      ensures instance == old(instance)[index :=
                old(instance[index]).(queryArray := old(instance[index]).queryArray[i := point])]
    {
      instance := instance[index := instance[index].(queryArray := instance[index].queryArray[i := point])];
    }

    // None is a revert; otherwise the new instance's index
    method Instantiate(challenger: Address, claimer: Address, initialHash: Hash, claimerFinalHash: Hash,
                       finalTime: uint256, querySize: uint256, roundDuration: uint256, now: uint256)
        returns (index: Option<nat>)
      requires Valid()
      modifies this
      ensures Valid()
      ensures var p := Create(challenger, claimer, initialHash, claimerFinalHash, finalTime, querySize, roundDuration, now);
        && index == (if p.Some? then Some(old(currentIndex)) else None)
        && Model() == old(Model()) + (if p.Some? then [p.value] else [])
    {
      if challenger == claimer || finalTime == 0 || querySize <= 2 || querySize >= MAX_QUERY_SIZE || roundDuration <= 50 {
        return None;
      }
      ghost var p := Create(challenger, claimer, initialHash, claimerFinalHash, finalTime, querySize, roundDuration, now).value;
      PR.CreateCore(challenger, claimer, initialHash, claimerFinalHash, finalTime, querySize, roundDuration, now);
      hide Points, PR.Core, Sound;
      var ctx := PartitionCtx(challenger, claimer, finalTime, {0}, map[0 := initialHash], querySize,
                              seq(querySize, i => 0), now, roundDuration, 0, WaitingHashes, 0);
      ctx := ctx.(timeSubmitted := ctx.timeSubmitted + {finalTime}, timeHash := ctx.timeHash[finalTime := claimerFinalHash]);
      assert ctx == p.(queryArray := ctx.queryArray) by { assert {0} + {finalTime} == {0, finalTime}; }
      instance := instance[currentIndex := ctx];
      hide Create;
      var sliced := Slice(currentIndex, 0, finalTime);
      assert instance == old(instance)[currentIndex := p];
      SoundPush(old(instance), currentIndex, p);
      index := Some(currentIndex);
      currentIndex := currentIndex + 1;
    }

    /** The loop of replyQuery: each time must be the query's, and only a time not answered
        before is written. A revert on the way undoes the writes already made. */
    method PostAnswers(index: nat, postedTimes: seq<nat>, postedHashes: seq<Hash>) returns (ok: bool)
      requires index in instance
      requires |postedTimes| == |postedHashes| == instance[index].querySize == |instance[index].queryArray|
      modifies `instance
      ensures ok <==> postedTimes == old(instance[index]).queryArray
      ensures instance == if ok then old(instance)[index := Posted(old(instance[index]), postedTimes, postedHashes)]
                          else old(instance)
    {
      var storage := instance;
      ghost var p := instance[index];
      var i := 0;
      while i < instance[index].querySize
        invariant index in instance && 0 <= i <= |postedTimes|
        invariant instance == storage[index := Posted(p, postedTimes[..i], postedHashes[..i])]
        invariant instance[index].querySize == p.querySize && instance[index].queryArray == p.queryArray
        invariant postedTimes[..i] == p.queryArray[..i]
        decreases |postedTimes| - i
      {
        if postedTimes[i] != instance[index].queryArray[i] {
          instance := storage;
          return false;
        }
        ghost var times, hashes := postedTimes[..i + 1], postedHashes[..i + 1];
        assert times[..i] == postedTimes[..i] && hashes[..i] == postedHashes[..i];
        if postedTimes[i] !in instance[index].timeSubmitted {
          var ctx := instance[index];
          instance := instance[index := ctx.(timeSubmitted := ctx.timeSubmitted + {postedTimes[i]},
                                             timeHash := ctx.timeHash[postedTimes[i] := postedHashes[i]])];
        }
        i := i + 1;
      }
      assert postedTimes[..i] == postedTimes && postedHashes[..i] == postedHashes && p.queryArray[..i] == p.queryArray;
      ok := true;
    }

    // what replyQuery checks before it reads the answers
    method MayReply(index: nat, postedTimes: seq<nat>, postedHashes: seq<Hash>, caller: Address) returns (ok: bool)
      requires Valid()
      ensures ok <==> index in instance && caller == instance[index].claimer && instance[index].currentState == WaitingHashes
                      && |postedTimes| == instance[index].querySize && |postedHashes| == instance[index].querySize
    {
      if index >= currentIndex { return false; }
      if caller != instance[index].claimer { return false; }
      if instance[index].currentState != WaitingHashes { return false; }
      if |postedTimes| != instance[index].querySize { return false; }
      if |postedHashes| != instance[index].querySize { return false; }
      ok := true;
    }

    method ReplyQuery(index: nat, postedTimes: seq<nat>, postedHashes: seq<Hash>, caller: Address, now: uint256)
        returns (ok: bool)
      requires Valid()
      modifies `instance
      ensures Valid()
      ensures var s := After(old(Model()), index, caller, now, Move.ReplyQuery(postedTimes, postedHashes));
        ok == s.Some? && Model() == if ok then s.value else old(Model())
    {
      var allowed := MayReply(index, postedTimes, postedHashes, caller);
      if index in instance {
        ReplyChecked(instance[index], caller, now, postedTimes, postedHashes);
        assert |instance[index].queryArray| == instance[index].querySize;
      }
      hide PR.Core, Apply, Posted;
      if !allowed { return false; }
      hide Sound;
      var posted := PostAnswers(index, postedTimes, postedHashes);
      if !posted { return false; }
      var ctx := instance[index];
      instance := instance[index := ctx.(currentState := WaitingQuery, timeOfLastMove := now,
                                         partitionGameIndex := ctx.partitionGameIndex + 1)];
      assert instance == old(instance)[index := instance[index]];
      SoundUpdate(old(instance), currentIndex, index, instance[index]);
      ok := true;
    }

    method MakeQuery(index: nat, queryPiece: nat, leftPoint: uint256, rightPoint: uint256, caller: Address, now: uint256)
        returns (ok: bool)
      requires Valid()
      modifies `instance
      ensures Valid()
      ensures var s := After(old(Model()), index, caller, now, Move.MakeQuery(queryPiece, leftPoint, rightPoint));
        ok == s.Some? && Model() == if ok then s.value else old(Model())
    {
      if index >= currentIndex || caller != instance[index].challenger { return false; }
      var p := instance[index];
      if p.currentState != WaitingQuery { return false; }
      if queryPiece >= p.querySize - 1 { return false; }
      if leftPoint != p.queryArray[queryPiece] { return false; }
      if rightPoint != p.queryArray[queryPiece + 1] { return false; }
      if rightPoint >= leftPoint { SubExact(rightPoint, leftPoint); }
      if Sub(rightPoint, leftPoint) <= 1 { return false; }
      var sliced := Slice(index, leftPoint, rightPoint);
      if !sliced { return false; }
      PR.QueryCore(p, caller, now, queryPiece, leftPoint, rightPoint);
      hide Points, PR.Core, Deadline;
      instance := instance[index := instance[index].(currentState := WaitingHashes, timeOfLastMove := now)];
      hide Sound, Apply;
      assert instance == old(instance)[index := instance[index]];
      SoundUpdate(old(instance), currentIndex, index, instance[index]);
      ok := true;
    }

    method ClaimVictoryByTime(index: nat, caller: Address, now: uint256) returns (ok: bool)
      requires Valid()
      modifies `instance
      ensures Valid()
      ensures var s := After(old(Model()), index, caller, now, Move.ClaimVictoryByTime);
        ok == s.Some? && Model() == if ok then s.value else old(Model())
    {
      if index >= currentIndex { return false; }
      var p := instance[index];
      hide MaxStateDuration;
      var deadline := Deadline(p);
      if deadline.None? { return false; }
      var afterDeadline := now > deadline.value;
      if caller == p.challenger && p.currentState == WaitingHashes && afterDeadline {
        PR.ApplyCore(p, caller, now, Move.ClaimVictoryByTime);
        instance := instance[index := p.(currentState := ChallengerWon)];
        hide Deadline, PR.Core, Sound;
        SoundUpdate(old(instance), currentIndex, index, instance[index]);
        return true;
      }
      if caller == p.claimer && p.currentState == WaitingQuery && afterDeadline {
        PR.ApplyCore(p, caller, now, Move.ClaimVictoryByTime);
        instance := instance[index := p.(currentState := ClaimerWon)];
        hide Deadline, PR.Core, Sound;
        SoundUpdate(old(instance), currentIndex, index, instance[index]);
        return true;
      }
      ok := false;
    }

    method PresentDivergence(index: nat, divergenceTime: uint256, caller: Address, now: uint256) returns (ok: bool)
      requires Valid()
      modifies `instance
      ensures Valid()
      ensures var s := After(old(Model()), index, caller, now, Move.PresentDivergence(divergenceTime));
        ok == s.Some? && Model() == if ok then s.value else old(Model())
    {
      if index >= currentIndex || caller != instance[index].challenger { return false; }
      var p := instance[index];
      hide Deadline;
      if divergenceTime >= p.finalTime { return false; }
      AddExact(divergenceTime, 1);
      if divergenceTime !in p.timeSubmitted { return false; }
      if Add(divergenceTime, 1) !in p.timeSubmitted { return false; }
      PR.ApplyCore(p, caller, now, Move.PresentDivergence(divergenceTime));
      hide PR.Core, Sound;
      instance := instance[index := p.(divergenceTime := divergenceTime)];
      instance := instance[index := instance[index].(currentState := DivergenceFound)];
      assert instance == old(instance)[index := instance[index]];
      SoundUpdate(old(instance), currentIndex, index, instance[index]);
      ok := true;
    }
  }

  // what the checks of replyQuery come to
  lemma ReplyChecked(p: PartitionCtx, caller: Address, now: nat, times: seq<nat>, hashes: seq<Hash>)
    requires PR.Core(p)
    ensures var r := Apply(p, caller, now, Move.ReplyQuery(times, hashes));
      if caller == p.claimer && p.currentState == WaitingHashes && |hashes| == p.querySize && times == p.queryArray then
        var q := Posted(p, times, hashes);
        r == Some(q.(currentState := WaitingQuery, timeOfLastMove := now, partitionGameIndex := q.partitionGameIndex + 1))
        && PR.Core(r.value)
      else r == None
  {
    if Apply(p, caller, now, Move.ReplyQuery(times, hashes)).Some? {
      PR.PostedIsWriteOnce(p, times, hashes);
      PR.ReplyCore(p, caller, now, times, hashes);
    }
  }

  // in the long case every leftPoint + i * divisionLength stays a word
  lemma JumpFits(left: nat, right: uint256, querySize: nat, i: nat)
    requires left < right && querySize > 2 && i < querySize - 1 && right - left >= 2 * (querySize - 1)
    ensures var d := (right - left) / (querySize - 1);
      Add(left, Mul(i, d)) == left + i * d == Points(left, right, querySize)[i]
  {
    CutPiece(left, right, querySize, i);
    var d := (right - left) / (querySize - 1);
    assert Cut(left, right, querySize)[i] == left + i * d;
    MulExact(i, d);
    AddExact(left, i * d);
  }
}
