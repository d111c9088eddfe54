/** What the instances that are opened and handed over answer to, told by the transactions the
    system then accepts and from whom. */
module Openings {
  import opened Arithmetic
  import opened Common
  import Merkle
  import P = Partition
  import PR = PartitionRuns
  import M = MemoryManager
  import opened Machine
  import opened Protocol
  import opened Linkage

  // ----- compute -----

  ghost predicate ClaimsFrom(env: Env, w: World, i: nat, who: Address) {
    forall s: Address, t: nat, hash: Hash :: Exec(env, w, s, t, SubmitClaim(i, hash)).Some? <==> s == who
  }

  ghost predicate ConfirmsFrom(env: Env, w: World, i: nat, who: Address) {
    forall s: Address, t: nat :: Exec(env, w, s, t, Confirm(i)).Some? <==> s == who
  }

  // a challenge is accepted from one party, on terms a game accepts
  ghost predicate ChallengedBy(env: Env, w: World, i: nat, who: Address, playable: bool) {
    forall s: Address, t: nat :: Exec(env, w, s, t, Challenge(i)).Some? <==> s == who && playable
  }

  ghost predicate ExpiresFor(env: Env, w: World, i: nat, who: Address, deadline: nat) {
    forall s: Address, t: nat :: Exec(env, w, s, t, ComputeClaimVictoryByTime(i)).Some? <==> s == who && t > deadline
  }

  // a machine start, a run and a round from a time on, as words add up
  function RunEnds(now: nat, finalTime: nat, roundDuration: nat): nat {
    (now + 40 + (finalTime * 500 % MOD) / 1_000_000_000_000 + roundDuration) % MOD
  }

  lemma ComputeDeadlineWraps(c: ComputeCtx)
    ensures ComputeDeadline(c) == RunEnds(c.timeOfLastMove, c.finalTime, c.roundDuration)
  {
    var work := (c.finalTime * P.PICO_PER_INSN % MOD) / P.PICO_PER_SECOND;
    AddMod(P.START_TIME, work);
    AddModLeft(P.START_TIME + work, c.roundDuration);
    AddMod(c.timeOfLastMove, P.START_TIME + work + c.roundDuration);
    WorkLost(c.finalTime * P.PICO_PER_INSN);
    ModExact(work);
    hide Add;
  }

  /** A new compute instance takes the claim of the named claimer and of nobody else, and only
      the named challenger can close it by time, past a machine start, a run and a round. */
  lemma ComputeOpens(env: Env, w: World, sender: Address, now: nat, challenger: Address, claimer: Address,
                     roundDuration: nat, machine: Address, initialHash: Hash, finalTime: uint256)
    ensures var i := |w.computes|;
      var opening := Exec(env, w, sender, now, NewCompute(challenger, claimer, roundDuration, machine, initialHash, finalTime));
      && (opening.Some? <==> challenger != claimer)
      && (opening.Some? ==>
            && ClaimsFrom(env, opening.value, i, claimer)
            && ExpiresFor(env, opening.value, i, challenger, RunEnds(now, finalTime, roundDuration)))
  {
    if challenger != claimer {
      var w' := Exec(env, w, sender, now, NewCompute(challenger, claimer, roundDuration, machine, initialHash, finalTime)).value;
      ComputeDeadlineWraps(w'.computes[|w.computes|]);
      hide ComputeDeadline, RunEnds;
    }
  }

  /** Once claimed, it is confirmed or disputed by the named challenger and by nobody else, and
      its claimer can close it by time past the deadline the claim itself had. */
  lemma ClaimOpens(env: Env, w: World, sender: Address, now: nat, challenger: Address, claimer: Address,
                   roundDuration: nat, machine: Address, initialHash: Hash, finalTime: uint256,
                   submitted: nat, hash: Hash)
    requires challenger != claimer
    ensures var i := |w.computes|;
      var opening := Exec(env, w, sender, now, NewCompute(challenger, claimer, roundDuration, machine, initialHash, finalTime));
      opening.Some? &&
      var claimed := Exec(env, opening.value, claimer, submitted, SubmitClaim(i, hash));
      && claimed.Some?
      && ConfirmsFrom(env, claimed.value, i, challenger)
      && ChallengedBy(env, claimed.value, i, challenger, finalTime > 0 && roundDuration > 50)
      && ExpiresFor(env, claimed.value, i, claimer, RunEnds(now, finalTime, roundDuration))
  {
    var i := |w.computes|;
    var w1 := Exec(env, w, sender, now, NewCompute(challenger, claimer, roundDuration, machine, initialHash, finalTime)).value;
    var w2 := Exec(env, w1, claimer, submitted, SubmitClaim(i, hash)).value;
    ComputeDeadlineWraps(w2.computes[i]);
    forall s: Address, t: nat
      ensures Exec(env, w2, s, t, Challenge(i)).Some? <==> s == challenger && finalTime > 0 && roundDuration > 50
    {
      ChallengeExact(w2, s, t, i);
      hide ExecChallenge;
    }
    hide ComputeDeadline, RunEnds, ExecChallenge;
  }

  /** A game stands between two parties over a claim, on a partition of its own. */
  ghost predicate FoughtOver(w: World, g: nat, challenger: Address, claimer: Address, machine: Address, initialHash: Hash,
                             claimedHash: Hash, finalTime: nat, roundDuration: nat)
  {
    g < |w.games| && w.games[g].currentState == WaitPartition && w.games[g].partitionInstance < |w.partitions|
    && var v, p := w.games[g], w.partitions[w.games[g].partitionInstance];
       && v.challenger == p.challenger == challenger && v.claimer == p.claimer == claimer
       && v.machine == machine && v.finalTime == p.finalTime == finalTime
       && v.initialHash == p.HashAt(0) == initialHash && v.claimerFinalHash == p.HashAt(finalTime) == claimedHash
       && p.roundDuration == roundDuration && p.querySize == 10 && p.timeSubmitted == {0, finalTime}
  }

  /** The game a challenge opens is over this claim, between these parties, on this machine. */
  lemma GameOpens(env: Env, w: World, sender: Address, now: nat, challenger: Address, claimer: Address,
                  roundDuration: nat, machine: Address, initialHash: Hash, finalTime: uint256,
                  submitted: nat, hash: Hash, disputed: nat)
    requires challenger != claimer && finalTime > 0 && roundDuration > 50
    ensures var i := |w.computes|;
      var opening := Exec(env, w, sender, now, NewCompute(challenger, claimer, roundDuration, machine, initialHash, finalTime));
      opening.Some? &&
      var claimed := Exec(env, opening.value, claimer, submitted, SubmitClaim(i, hash));
      claimed.Some? &&
      var fought := Exec(env, claimed.value, challenger, disputed, Challenge(i));
      && fought.Some? && i < |fought.value.computes| && fought.value.computes[i].vgInstance == |w.games|
      && FoughtOver(fought.value, |w.games|, challenger, claimer, machine, initialHash, hash, finalTime, roundDuration)
      && fought.value.games[|w.games|].timeOfLastMove == disputed
  {
    hide Log2OverTwo;
    PR.CreateCore(challenger, claimer, initialHash, hash, finalTime, VG_QUERY_SIZE, roundDuration, disputed);
    hide PR.Core, PR.First, PR.Last, P.Points;
  }

  /** A game opened on its own opens on the same terms, over the hash it is given. */
  lemma NewGameOpens(env: Env, w: World, sender: Address, now: nat, challenger: Address, claimer: Address,
                     roundDuration: nat, machine: Address, initialHash: Hash, finalHash: Hash, finalTime: uint256)
    ensures var opening := Exec(env, w, sender, now,
                                NewGame(challenger, claimer, roundDuration, machine, initialHash, finalHash, finalTime));
      && (opening.Some? <==> challenger != claimer && finalTime > 0 && roundDuration > 50)
      && (opening.Some? ==>
            && FoughtOver(opening.value, |w.games|, challenger, claimer, machine, initialHash, finalHash, finalTime, roundDuration)
            && opening.value.games[|w.games|].timeOfLastMove == now)
  {
    hide Log2OverTwo;
    if challenger != claimer && finalTime > 0 && roundDuration > 50 {
      PR.CreateCore(challenger, claimer, initialHash, finalHash, finalTime, VG_QUERY_SIZE, roundDuration, now);
    }
    hide PR.Core, PR.First, PR.Last, P.Points;
  }

  // ----- the partition -----

  /** A partition opens exactly on terms it accepts; then only the named claimer can answer, and
      only the query from 0 to finalTime, cut into the given number of points. */
  lemma PartitionOpens(env: Env, w: World, sender: Address, now: nat, challenger: Address, claimer: Address, initialHash: Hash,
                       finalHash: Hash, finalTime: uint256, querySize: nat, roundDuration: nat)
    ensures var j := |w.partitions|;
      var opening := Exec(env, w, sender, now,
                          NewPartition(challenger, claimer, initialHash, finalHash, finalTime, querySize, roundDuration));
      && (opening.Some? <==> challenger != claimer && finalTime > 0 && 3 <= querySize <= 19 && roundDuration > 50)
      && (opening.Some? ==> forall s: Address, t: nat, times: seq<nat>, hashes: seq<Hash> ::
            Exec(env, opening.value, s, t, PartitionCall(j, P.ReplyQuery(times, hashes))).Some?
            <==> s == claimer && times == P.Cut(0, finalTime, querySize) && |hashes| == querySize)
  {
    if challenger != claimer && finalTime > 0 && 3 <= querySize <= 19 && roundDuration > 50 {
      P.SliceExact(0, finalTime, querySize);
      hide P.Points, P.Cut, P.Posted;
    }
  }

  // ----- the memory manager -----

  /** A memory opens at a root for the named provider: it alone adds to the log, only what memory
      holds, and closes it; and only the named owner then finishes the replay. */
  lemma MemoryOpens(env: Env, w: World, sender: Address, now: nat, owner: Address, provider: Address, m: Merkle.Memory,
                    s: Address, t: nat, position: nat, value: Word, proof: seq<Hash>)
    requires Merkle.Shaped(m, env.depth)
    ensures var j := |w.memories|;
      var opening := Exec(env, w, sender, now, NewMemory(owner, provider, Merkle.Root(m, env.depth)));
      opening.Some?
      && (Exec(env, opening.value, s, t, MemoryCall(j, M.ProveRead(position, value, proof))).Some?
          <==> s == provider && Merkle.InSpace(env.depth, position) && position % 8 == 0
               && value == m[position / 8] && proof == Merkle.Path(m, env.depth, position / 8))
      && var closed := Exec(env, opening.value, s, t, MemoryCall(j, M.FinishProofPhase));
         && (closed.Some? <==> s == provider)
         && Exec(env, opening.value, s, t, MemoryCall(j, M.FinishReplayPhase)).None?
         && (closed.Some? ==> forall who: Address, at: nat ::
               Exec(env, closed.value, who, at, MemoryCall(j, M.FinishReplayPhase)).Some? <==> who == owner)
  {
    var c := M.Create(owner, provider, Merkle.Root(m, env.depth));
    M.ProveReadExact(env.depth, m, c, s, position, value, proof);
    hide Merkle.Root, Merkle.Path, Merkle.GetRoot, Merkle.Shaped;
  }

  /** A log is the provider's until it is closed, and nobody's after that: calls by others leave
      it open as it is, and a closed one is replayed as it was closed or, by its owner, emptied. */
  lemma {:induction false} LogIsFrozen(depth: nat, c: M.MMCtx, calls: seq<M.Call>)
    requires c.currentState == M.WaitingProofs ==> forall k :: 0 <= k < |calls| ==> calls[k].caller != c.provider
    ensures var d := M.Run(depth, c, calls);
      && d.newHash == c.newHash
      && (c.currentState == M.WaitingProofs ==> d == c)
      && (c.currentState == M.WaitingReplay ==> d == c || (d.currentState == M.FinishedReplay && d.history == []))
      && (c.currentState == M.FinishedReplay ==> d == c)
    decreases |calls|
  {
    if calls != [] {
      var next := M.Apply(depth, c, calls[0].caller, calls[0].move);
      LogIsFrozen(depth, if next.Some? then next.value else c, calls[1..]);
      hide Merkle.GetRoot;
    }
  }

  // ----- the hand-over to the memory -----

  /** A start is accepted from anybody, exactly when the game waits for its partition and that
      found a divergence; the game then stands on the two posted hashes around it, and has a
      memory at the first of them, for the challenger to fill and for the game to replay. */
  lemma StartHandsOver(env: Env, w: World, g: nat, sender: Address, now: nat)
    requires Linked(env, w) && g < |w.games| && w.games[g].currentState == WaitPartition
    ensures w.games[g].partitionInstance < |w.partitions|
    ensures var p := w.partitions[w.games[g].partitionInstance];
      var started := Exec(env, w, sender, now, StartMachineRunChallenge(g));
      && (started.Some? <==> p.currentState == P.DivergenceFound)
      && (started.Some? ==>
            && g < |started.value.games| && |started.value.memories| == |w.memories| + 1
            && var v, m := started.value.games[g], started.value.memories[|w.memories|];
               && v.currentState == WaitMemoryProveValues && v.mmInstance == |w.memories|
               && p.divergenceTime in p.timeHash && p.divergenceTime + 1 in p.timeHash
               && v.divergenceTime == p.divergenceTime
               && v.hashBeforeDivergence == p.timeHash[p.divergenceTime] == m.initialHash == m.newHash
               && v.hashAfterDivergence == p.timeHash[p.divergenceTime + 1]
               && m.provider == p.challenger && m.owner == env.vgAddress && m.history == []
               && v.partitionInstance == 0)
  {
    assert GameLinked(env, w, w.games[g]);
    assert Kept(w.partitions[w.games[g].partitionInstance]);
    hide PR.Wf, P.Safe, Backs;
  }

  /** A settlement goes through exactly for the challenger of a game whose log is closed, when
      the machine answers at all: finishing the replay never stands in its way. */
  lemma SettlementExact(env: Env, w: World, g: nat, sender: Address, now: nat)
    requires Linked(env, w) && g < |w.games| && w.games[g].currentState == WaitMemoryProveValues
    ensures w.games[g].mmInstance < |w.memories|
    ensures var v, m := w.games[g], w.memories[w.games[g].mmInstance];
      Exec(env, w, sender, now, SettleVerificationGame(g)).Some?
      <==> sender == v.challenger && m.currentState == M.WaitingReplay && !Replay(env.step, v.machine, m.history).Reverts?
  {
    assert GameLinked(env, w, w.games[g]);
    hide Replay, Disproves, PlaysFor, Kept;
  }

  // ----- what is cleared -----

  /** A finished game forgets all but its partition's index, and a closed compute instance all
      but the claimed hash: what they were before leaves no other trace, and no party is named. */
  lemma ClearedForgets(v: VGCtx, u: VGCtx, byChallenger: bool, c: ComputeCtx, e: ComputeCtx, state: ComputeState)
    ensures v.partitionInstance == u.partitionInstance ==> Won(v, byChallenger) == Won(u, byChallenger)
    ensures c.claimedFinalHash == e.claimedFinalHash ==> Closed(c, state) == Closed(e, state)
    ensures Won(v, byChallenger).challenger == Won(v, byChallenger).claimer == Closed(c, state).challenger == Closed(c, state).claimer == NOBODY
    ensures Won(v, byChallenger).partitionInstance == v.partitionInstance && Closed(c, state).claimedFinalHash == c.claimedFinalHash
  {
  }
}
