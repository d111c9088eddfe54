/** The dispute from both sides, over every run of the whole system: an honest claimer cannot
    be proved wrong, an honest challenger can always prove it, and the agents only send
    transactions that go through. */
module EndToEnd {
  import opened Arithmetic
  import opened Common
  import opened Merkle
  import P = Partition
  import PR = PartitionRuns
  import PA = PartitionAgent
  import M = MemoryManager
  import opened MMAgent
  import opened Machine
  import opened Protocol
  import opened Linkage
  import opened OneDispute
  import opened Agents

  // ----- a linked dispute -----

  ghost predicate ViewLinked(env: Env, d: View) {
    && (d.compute.Open() ==> d.compute.challenger != d.compute.claimer && d.compute.finalTime < MOD)
    && (d.game.Some? <==> d.compute.currentState == WaitingChallenge)
    && (d.game.Some? ==> Disputes(d.compute, d.game.value))
    && (d.partition.Some? <==> d.game.Some? && d.game.value.currentState == WaitPartition)
    && (d.partition.Some? ==> PlaysFor(d.game.value, d.partition.value) && Kept(d.partition.value))
    && (d.memory.Some? <==> d.game.Some? && d.game.value.currentState == WaitMemoryProveValues)
    && (d.memory.Some? ==> Backs(env, d.game.value, d.memory.value))
  }

  lemma LinkedView(env: Env, w: World, ci: nat)
    requires Linked(env, w) && ci < |w.computes|
    ensures ViewLinked(env, ViewOf(w, ci))
  {
    var c := w.computes[ci];
    assert ComputeLinked(w, c);
    if c.currentState == WaitingChallenge { assert GameLinked(env, w, w.games[c.vgInstance]); }
    hide Kept, PlaysFor, Backs, Disputes;
  }

  ghost function OracleOf(truth: Truth): PA.Oracle { (t: nat) => TrueHash(truth, t) }

  ghost function EmulatorOf(truth: Truth): Emulator
    requires TrueRun(truth)
  {
    Emulator(OracleOf(truth), (t: nat) => StepLog(truth, t))
  }

  /** What the two parties agree on: the initial state, and the machine that will judge. */
  ghost predicate Terms(truth: Truth, machine: Address, c: ComputeCtx) {
    c.Open() ==> c.initialHash == TrueHash(truth, 0) && c.machine == machine
  }

  // ----- the honest claimer -----

  /** Everything the claimer has put its name to is true. */
  ghost predicate ClaimerTrue(truth: Truth, machine: Address, d: View)
    requires TrueRun(truth)
  {
    && Terms(truth, machine, d.compute)
    && (d.compute.currentState == WaitingConfirmation || d.compute.currentState == WaitingChallenge ==>
          d.compute.claimedFinalHash == TrueHash(truth, d.compute.finalTime))
    && (d.partition.Some? ==> PA.Posts(d.partition.value, OracleOf(truth)))
    && (d.game.Some? && d.memory.Some? ==> ProofTrue(truth, d.game.value, d.memory.value))
  }

  ghost predicate ProofTrue(truth: Truth, v: VGCtx, m: M.MMCtx)
    requires TrueRun(truth)
  {
    && Shaped(truth.mem(v.divergenceTime), truth.depth)
    && v.hashBeforeDivergence == TrueHash(truth, v.divergenceTime)
    && v.hashAfterDivergence == TrueHash(truth, v.divergenceTime + 1)
    && M.Sound(truth.depth, truth.mem(v.divergenceTime), m)
  }

  // the claimer claims the true hash and answers queries with true hashes
  ghost predicate HonestClaimer(truth: Truth, d: View, caller: Address, move: Move) {
    caller == d.compute.claimer ==>
      match move
      case Submit(hash) => hash == TrueHash(truth, d.compute.finalTime)
      case OnPartition(ReplyQuery(times, hashes)) =>
        forall k :: 0 <= k < |times| && k < |hashes| ==> hashes[k] == TrueHash(truth, times[k])
      case _ => true
  }

  lemma PostsKept(truth: Truth, p: P.PartitionCtx, caller: Address, now: nat, move: P.Move)
    requires TrueRun(truth) && PA.Posts(p, OracleOf(truth)) && P.Apply(p, caller, now, move).Some?
    requires move.ReplyQuery? && caller == p.claimer ==>
      forall k :: 0 <= k < |move.postedTimes| && k < |move.postedHashes| ==>
        move.postedHashes[k] == TrueHash(truth, move.postedTimes[k])
    ensures PA.Posts(P.Apply(p, caller, now, move).value, OracleOf(truth))
  {
    hide P.Deadline;
    if move.ReplyQuery? { PA.PostedHonestly(p, move.postedTimes, move.postedHashes, OracleOf(truth)); }
  }

  lemma StartTrue(env: Env, truth: Truth, machine: Address, d: View, next: Upcoming, now: nat)
    requires TrueRun(truth) && env.depth == truth.depth && ViewLinked(env, d) && ClaimerTrue(truth, machine, d)
    requires d.partition.Some? && Started(d.game.value, d.partition.value, next.memory, now).Some?
    ensures var v := Started(d.game.value, d.partition.value, next.memory, now).value;
      ProofTrue(truth, v, OpenMemory(env, v))
  {
    var p := d.partition.value;
    var t := p.divergenceTime;
    assert PR.Answered(p);
    assert p.HashAt(t) == OracleOf(truth)(t) && p.HashAt(t + 1) == OracleOf(truth)(t + 1);
    assert Shaped(truth.mem(t), truth.depth);
  }

  lemma OpenTrue(truth: Truth, machine: Address, d: View, next: Upcoming, now: nat)
    requires TrueRun(truth) && ClaimerTrue(truth, machine, d) && d.compute.currentState == WaitingConfirmation
    requires d.compute.finalTime < MOD && GameFor(d.compute, now, next.partition).Some?
    ensures PA.Posts(GameFor(d.compute, now, next.partition).value.1, OracleOf(truth))
  {
    var c := d.compute;
    hide Log2OverTwo;
    PR.CreateCore(c.challenger, c.claimer, c.initialHash, c.claimedFinalHash, c.finalTime, VG_QUERY_SIZE, c.roundDuration, now);
  }

  lemma MemoryTrue(env: Env, truth: Truth, v: VGCtx, m: M.MMCtx, caller: Address, move: M.Move)
    requires TrueRun(truth) && env.depth == truth.depth && ProofTrue(truth, v, m) && Backs(env, v, m)
    requires caller != env.vgAddress && M.Apply(env.depth, m, caller, move).Some?
    ensures ProofTrue(truth, v, M.Apply(env.depth, m, caller, move).value)
  {
    M.SoundStep(env.depth, truth.mem(v.divergenceTime), m, caller, move);
  }

  /** One move, by anybody, keeps the honest claimer's record true. */
  lemma ClaimerTrueNext(env: Env, truth: Truth, machine: Address, d: View, next: Upcoming, caller: Address, now: nat,
                        move: Move)
    requires TrueRun(truth) && env.depth == truth.depth && caller != env.vgAddress
    requires ViewLinked(env, d) && ClaimerTrue(truth, machine, d) && HonestClaimer(truth, d, caller, move)
    ensures ClaimerTrue(truth, machine, Next(env, d, next, caller, now, move))
  {
    hide P.Apply, M.Apply, Kept, PlaysFor, Backs, PA.Posts, ProofTrue, TrueRun, Started, GameFor, Disproves, ComputeDeadline, MemoryDeadline;
    if Apply(env, d, next, caller, now, move).Some? {
      match move
      case OnPartition(m) =>
        assert d.partition.value.claimer == d.compute.claimer by { ClaimerSame(env, d); }
        PostsKept(truth, d.partition.value, caller, now, m);
      case OnMemory(m) => MemoryTrue(env, truth, d.game.value, d.memory.value, caller, m);
      case StartRun => StartTrue(env, truth, machine, d, next, now);
      case OpenDispute => OpenTrue(truth, machine, d, next, now);
      case _ =>
    }
  }

  lemma ClaimerSame(env: Env, d: View)
    requires ViewLinked(env, d) && d.partition.Some?
    ensures d.partition.value.claimer == d.compute.claimer && d.partition.value.challenger == d.compute.challenger
    ensures d.partition.value.finalTime == d.compute.finalTime
  {
  }

  /** With a true record on file no proof against the claimer can settle. */
  lemma CannotBeDisproved(env: Env, truth: Truth, machine: Address, d: View)
    requires TrueRun(truth) && env.depth == truth.depth && Runs(env.step, machine, truth.program)
    requires ViewLinked(env, d) && ClaimerTrue(truth, machine, d) && d.memory.Some?
    ensures !Disproves(env, d.game.value, d.memory.value)
  {
    var v, m := d.game.value, d.memory.value;
    if Accepts(env.step, v.machine, m.history) {
      AcceptedLogIsTrue(truth, v.divergenceTime, env.step, machine, m);
    }
  }

  // the run treats the claimer as an honest one: only its own claims and replies are constrained
  ghost predicate ClaimerHonestIn(env: Env, truth: Truth, w: World, ci: nat, events: seq<Event>) {
    forall k :: 0 <= k < |events| ==>
      var before := Run(env, w, events[..k]);
      ci < |before.computes|
      && HonestClaimer(truth, ViewOf(before, ci), events[k].caller, Label(before, ci, events[k].call))
  }

  lemma {:induction false} ClaimerTrueRun(env: Env, truth: Truth, machine: Address, w: World, ci: nat,
                                          events: seq<Event>, k: nat)
    requires TrueRun(truth) && env.depth == truth.depth && AllExternal(env, events)
    requires Linked(env, w) && ci < |w.computes| && ClaimerTrue(truth, machine, ViewOf(w, ci))
    requires ClaimerHonestIn(env, truth, w, ci, events) && k <= |events|
    ensures var w' := Run(env, w, events[..k]);
      Linked(env, w') && ci < |w'.computes| && ClaimerTrue(truth, machine, ViewOf(w', ci))
  {
    hide Linked, ClaimerTrue, HonestClaimer, Exec, Label, Apply, TrueRun, ViewOf;
    if k == 0 {
      assert events[..0] == [];
    } else {
      ClaimerTrueRun(env, truth, machine, w, ci, events, k - 1);
      assert events[..k][..k - 1] == events[..k - 1];
      var before, e := Run(env, w, events[..k - 1]), events[k - 1];
      LinkedStep(env, before, e);
      LinkedView(env, before, ci);
      StepSimulates(env, before, e, ci);
      ClaimerTrueNext(env, truth, machine, ViewOf(before, ci), NextIndices(before), e.caller, e.now, Label(before, ci, e.call));
      StepIsNext(env, before, e, ci);
    }
  }

  lemma StepIsNext(env: Env, w: World, e: Event, ci: nat)
    requires Linked(env, w) && External(env, e) && ci < |w.computes|
    ensures ci < |Step(env, w, e).computes|
    ensures ViewOf(Step(env, w, e), ci) == Next(env, ViewOf(w, ci), NextIndices(w), e.caller, e.now, Label(w, ci, e.call))
  {
    StepSimulates(env, w, e, ci);
    hide Linked, Exec, Label, Apply, ViewOf;
  }

  // ----- an honest, timely claimer never loses -----

  /** Nothing is decided against the claimer. */
  ghost predicate ClaimerStands(d: View) {
    && (d.partition.Some? ==> d.partition.value.currentState != P.ChallengerWon)
    && (d.game.Some? ==> d.game.value.currentState != FinishedChallengerWon)
    && d.compute.currentState != ChallengerWon && d.compute.currentState != ClaimerMissedDeadline
  }

  // no deadline of the claimer is past: for the claim, or for the hashes
  predicate ClaimerInTime(d: View, now: nat) {
    && (d.compute.currentState == WaitingClaim ==> now <= ComputeDeadline(d.compute))
    && (d.partition.Some? && d.partition.value.currentState == P.WaitingHashes ==> PR.InTime(d.partition.value, now))
  }

  /** The claim on record, from the claim to the end, is the true one for the final time the
      instance was opened with. */
  ghost predicate ClaimKept(truth: Truth, finalTime: nat, d: View) {
    && (d.compute.Open() ==> d.compute.finalTime == finalTime)
    && (d.compute.currentState != WaitingClaim && d.compute.currentState != ClaimerMissedDeadline ==>
          d.compute.claimedFinalHash == TrueHash(truth, finalTime))
  }

  lemma ClaimKeptNext(env: Env, truth: Truth, finalTime: nat, d: View, next: Upcoming, caller: Address, now: nat,
                      move: Move)
    requires ClaimKept(truth, finalTime, d) && HonestClaimer(truth, d, caller, move)
    ensures ClaimKept(truth, finalTime, Next(env, d, next, caller, now, move))
  {
    hide P.Apply, M.Apply, Started, Settled, TimedOut, ClaimedByTime, GameFor, ComputeDeadline, TrueHash;
  }

  lemma NotBeatenOnTime(p: P.PartitionCtx, caller: Address, now: nat, move: P.Move)
    requires P.Apply(p, caller, now, move).Some?
    ensures p.currentState != P.ChallengerWon && (p.currentState == P.WaitingHashes ==> PR.InTime(p, now))
      ==> P.Apply(p, caller, now, move).value.currentState != P.ChallengerWon
    ensures p.currentState != P.ClaimerWon && (p.currentState == P.WaitingQuery ==> PR.InTime(p, now))
      ==> P.Apply(p, caller, now, move).value.currentState != P.ClaimerWon
  {
  }

  lemma ClaimerStandsNext(env: Env, d: View, next: Upcoming, caller: Address, now: nat, move: Move)
    requires ClaimerStands(d) && ClaimerInTime(d, now)
    requires d.game.Some? && d.memory.Some? ==> !Disproves(env, d.game.value, d.memory.value)
    ensures ClaimerStands(Next(env, d, next, caller, now, move))
  {
    hide P.Apply, M.Apply, Disproves, P.Deadline, Log2OverTwo, ComputeDeadline, MemoryDeadline;
    if move.OnPartition? && d.partition.Some? && P.Apply(d.partition.value, caller, now, move.partitionMove).Some? {
      NotBeatenOnTime(d.partition.value, caller, now, move.partitionMove);
    }
  }

  ghost predicate Clocked(events: seq<Event>) {
    forall i, j :: 0 <= i <= j < |events| ==> events[i].now <= events[j].now
  }

  /** From point n, if the claimer owes its claim or hashes: an accepted transaction settles that
      by the deadline, or the run stops before the deadline has passed. */
  ghost predicate ActsFrom(env: Env, w: World, ci: nat, events: seq<Event>, n: nat)
    requires n <= |events|
  {
    var before := Run(env, w, events[..n]);
    ci < |before.computes| ==>
      var d := ViewOf(before, ci);
      || (exists j :: n <= j < |events| && ClaimerInTime(d, events[j].now) && ActedAt(env, w, ci, events, j))
      || (forall j :: n <= j < |events| ==> ClaimerInTime(d, events[j].now))
  }

  // a claim, a reply, or the challenger's divergence, which takes the reply's place
  ghost predicate ActedAt(env: Env, w: World, ci: nat, events: seq<Event>, j: nat)
    requires j < |events|
  {
    var before := Run(env, w, events[..j]);
    && ci < |before.computes|
    && Exec(env, before, events[j].caller, events[j].now, events[j].call).Some?
    && var move := Label(before, ci, events[j].call);
       move.Submit? || (move.OnPartition? && (move.partitionMove.ReplyQuery? || move.partitionMove.PresentDivergence?))
  }

  lemma EarlierForClaimer(d: View, earlier: nat, later: nat)
    requires earlier <= later && ClaimerInTime(d, later)
    ensures ClaimerInTime(d, earlier)
  {
    hide P.Deadline, ComputeDeadline;
  }

  lemma ActsInTime(env: Env, w: World, ci: nat, events: seq<Event>, n: nat)
    requires Clocked(events) && n < |events| && ActsFrom(env, w, ci, events, n)
    requires ci < |Run(env, w, events[..n]).computes|
    ensures ClaimerInTime(ViewOf(Run(env, w, events[..n]), ci), events[n].now)
  {
    hide ClaimerInTime, ActedAt, Run, ViewOf;
    var d := ViewOf(Run(env, w, events[..n]), ci);
    if j :| n <= j < |events| && ClaimerInTime(d, events[j].now) {
      EarlierForClaimer(d, events[n].now, events[j].now);
    }
  }

  lemma {:induction false} ClaimKeptRun(env: Env, truth: Truth, finalTime: nat, w: World, ci: nat,
                                        events: seq<Event>, k: nat)
    requires AllExternal(env, events) && Linked(env, w) && ci < |w.computes| && ClaimKept(truth, finalTime, ViewOf(w, ci))
    requires ClaimerHonestIn(env, truth, w, ci, events) && k <= |events|
    ensures var w' := Run(env, w, events[..k]);
      Linked(env, w') && ci < |w'.computes| && ClaimKept(truth, finalTime, ViewOf(w', ci))
  {
    hide Linked, ClaimKept, HonestClaimer, Exec, Label, Apply, ViewOf;
    if k == 0 {
      assert events[..0] == [];
    } else {
      ClaimKeptRun(env, truth, finalTime, w, ci, events, k - 1);
      assert events[..k][..k - 1] == events[..k - 1];
      var before, e := Run(env, w, events[..k - 1]), events[k - 1];
      LinkedStep(env, before, e);
      ClaimKeptNext(env, truth, finalTime, ViewOf(before, ci), NextIndices(before), e.caller, e.now, Label(before, ci, e.call));
      StepIsNext(env, before, e, ci);
    }
  }

  lemma {:induction false} ClaimerStandsRun(env: Env, truth: Truth, machine: Address, w: World, ci: nat,
                                            events: seq<Event>, k: nat)
    requires TrueRun(truth) && env.depth == truth.depth && Runs(env.step, machine, truth.program)
    requires AllExternal(env, events) && Clocked(events)
    requires Linked(env, w) && ci < |w.computes| && ClaimerTrue(truth, machine, ViewOf(w, ci)) && ClaimerStands(ViewOf(w, ci))
    requires ClaimerHonestIn(env, truth, w, ci, events)
    requires forall n :: 0 <= n <= |events| ==> ActsFrom(env, w, ci, events, n)
    requires k <= |events|
    ensures ci < |Run(env, w, events[..k]).computes|
    ensures ClaimerStands(ViewOf(Run(env, w, events[..k]), ci))
  {
    ClaimerTrueRun(env, truth, machine, w, ci, events, k);
    if k == 0 {
      assert events[..0] == [];
    } else {
      ClaimerStandsRun(env, truth, machine, w, ci, events, k - 1);
      ClaimerTrueRun(env, truth, machine, w, ci, events, k - 1);
      hide Linked, ClaimerTrue, ClaimerStands, HonestClaimer, ClaimerInTime, ActsFrom, Exec, Label, Apply, TrueRun, ViewOf, ViewLinked;
      assert events[..k][..k - 1] == events[..k - 1];
      var before, e := Run(env, w, events[..k - 1]), events[k - 1];
      var d := ViewOf(before, ci);
      LinkedView(env, before, ci);
      if d.game.Some? && d.memory.Some? { CannotBeDisproved(env, truth, machine, d); }
      ActsInTime(env, w, ci, events, k - 1);
      ClaimerStandsNext(env, d, NextIndices(before), e.caller, e.now, Label(before, ci, e.call));
      StepIsNext(env, before, e, ci);
    }
  }

  /** The honest claimer is safe end to end. The parties agree on the initial hash and the
      machine; the claimer claims the true hash and posts true hashes; everybody else, in this
      dispute and any other, sends whatever they like. Then in no reachable state does the
      settlement's guard hold, and the claim on record is the true one; and if the claimer also
      claims and answers every query by its deadline neither the game nor compute is ever
      decided against it, in the code as it stands and with the settlement that returns. */
  lemma HonestClaimerSafe(env: Env, truth: Truth, machine: Address, w: World, ci: nat, events: seq<Event>)
    requires TrueRun(truth) && env.depth == truth.depth && Runs(env.step, machine, truth.program)
    requires Linked(env, w) && AllExternal(env, events)
    requires ci < |w.computes| && w.computes[ci].currentState == WaitingClaim && Terms(truth, machine, w.computes[ci])
    requires ClaimerHonestIn(env, truth, w, ci, events)
    ensures ci < |Run(env, w, events).computes|
    ensures var d := ViewOf(Run(env, w, events), ci);
      && ClaimKept(truth, w.computes[ci].finalTime, d)
      && (d.game.Some? && d.memory.Some? ==> !Disproves(env, d.game.value, d.memory.value))
    ensures Clocked(events) && (forall n :: 0 <= n <= |events| ==> ActsFrom(env, w, ci, events, n)) ==>
      var d := ViewOf(Run(env, w, events), ci);
      && d.compute.currentState != ChallengerWon && d.compute.currentState != ClaimerMissedDeadline
      && (d.game.Some? ==> d.game.value.currentState != FinishedChallengerWon)
  {
    assert ClaimerTrue(truth, machine, ViewOf(w, ci)) && ClaimerStands(ViewOf(w, ci));
    assert ClaimKept(truth, w.computes[ci].finalTime, ViewOf(w, ci));
    assert events[..|events|] == events;
    hide Linked, HonestClaimer, ClaimerTrue, ClaimKept, Exec, Label, Apply, ViewOf, ViewLinked, Run, ActsFrom, TrueRun;
    ClaimerTrueRun(env, truth, machine, w, ci, events, |events|);
    ClaimKeptRun(env, truth, w.computes[ci].finalTime, w, ci, events, |events|);
    if Clocked(events) && (forall n :: 0 <= n <= |events| ==> ActsFrom(env, w, ci, events, n)) {
      ClaimerStandsRun(env, truth, machine, w, ci, events, |events|);
    }
    var w' := Run(env, w, events);
    LinkedView(env, w', ci);
    if ViewOf(w', ci).game.Some? && ViewOf(w', ci).memory.Some? { CannotBeDisproved(env, truth, machine, ViewOf(w', ci)); }
  }
}
