/** The time the code leaves each party to claim and to dispute, over runs of the system. */
module Windows {
  import opened Arithmetic
  import opened Common
  import P = Partition
  import M = MemoryManager
  import opened Machine
  import opened Protocol
  import opened Linkage
  import opened OneDispute
  import opened EndToEnd

  // whom an instance without a game waits for, and who gains if that party is late
  function Owing(c: ComputeCtx): Address { if c.currentState == WaitingClaim then c.claimer else c.challenger }

  function Gaining(c: ComputeCtx): Address { if c.currentState == WaitingClaim then c.challenger else c.claimer }

  predicate WaitsForParty(c: ComputeCtx) {
    (c.currentState == WaitingClaim || c.currentState == WaitingConfirmation) && c.challenger != c.claimer
  }

  // transactions up to a time, by anybody but one party
  ghost predicate Without(env: Env, party: Address, until: nat, events: seq<Event>) {
    forall k :: 0 <= k < |events| ==> External(env, events[k]) && events[k].caller != party && events[k].now <= until
  }

  ghost predicate StandsAt(w: World, ci: nat, c: ComputeCtx) { ci < |w.computes| && w.computes[ci] == c }

  /** Whatever everybody else sends up to a time, the instance is left waiting for its party. */
  ghost predicate WaitsUntil(env: Env, w: World, ci: nat, until: nat)
    requires ci < |w.computes|
  {
    var c := w.computes[ci];
    forall events :: Without(env, Owing(c), until, events) ==> StandsAt(Run(env, w, events), ci, c)
  }

  lemma OthersWait(env: Env, d: View, next: Upcoming, caller: Address, now: nat, move: Move)
    requires WaitsForParty(d.compute) && d.game.None? && d.partition.None? && d.memory.None?
    requires caller != Owing(d.compute) && now <= ComputeDeadline(d.compute)
    ensures Next(env, d, next, caller, now, move).compute == d.compute
  {
    hide P.Apply, M.Apply, Started, Settled, TimedOut, ClaimedByTime, GameFor, ComputeDeadline;
  }

  lemma {:induction false} OthersWaitRun(env: Env, w: World, ci: nat, until: nat, events: seq<Event>)
    requires Linked(env, w) && ci < |w.computes| && WaitsForParty(w.computes[ci])
    requires until <= ComputeDeadline(w.computes[ci]) && Without(env, Owing(w.computes[ci]), until, events)
    ensures Linked(env, Run(env, w, events)) && StandsAt(Run(env, w, events), ci, w.computes[ci])
    decreases |events|
  {
    if events != [] {
      var before, e := Run(env, w, events[..|events| - 1]), events[|events| - 1];
      OthersWaitRun(env, w, ci, until, events[..|events| - 1]);
      hide Linked, Exec, Label, Apply, ComputeDeadline;
      LinkedStep(env, before, e);
      StepIsNext(env, before, e, ci);
      OthersWait(env, ViewOf(before, ci), NextIndices(before), e.caller, e.now, Label(before, ci, e.call));
    }
  }

  /** Until its deadline, and no longer, an instance waits for the party that is to claim or to
      dispute. */
  lemma WindowExact(env: Env, w: World, ci: nat, until: nat)
    requires Linked(env, w) && ci < |w.computes| && WaitsForParty(w.computes[ci])
    requires Gaining(w.computes[ci]) != env.vgAddress
    ensures WaitsUntil(env, w, ci, until) <==> until <= ComputeDeadline(w.computes[ci])
  {
    var c := w.computes[ci];
    if until <= ComputeDeadline(c) {
      forall events | Without(env, Owing(c), until, events) ensures StandsAt(Run(env, w, events), ci, c) {
        OthersWaitRun(env, w, ci, until, events);
      }
    } else {
      var late := [Event(until, Gaining(c), ComputeClaimVictoryByTime(ci))];
      hide ComputeDeadline, Linked;
      assert late[..0] == [] && Run(env, w, []) == w;
      assert !StandsAt(Run(env, w, late), ci, c);
      assert Without(env, Owing(c), until, late);
    }
  }

  /** The claimer's window: up to its deadline its claim goes through whatever the others have
      sent, and past it they can have closed the instance before. */
  lemma ClaimWindow(env: Env, w: World, ci: nat, until: nat)
    requires Linked(env, w) && ci < |w.computes| && w.computes[ci].currentState == WaitingClaim
    requires w.computes[ci].challenger != env.vgAddress
    ensures WaitsUntil(env, w, ci, until) <==> until <= ComputeDeadline(w.computes[ci])
    ensures forall now, hash :: Exec(env, w, w.computes[ci].claimer, now, SubmitClaim(ci, hash)).Some?
  {
    assert WaitsForParty(w.computes[ci]) by { assert ComputeLinked(w, w.computes[ci]); }
    hide Linked, WaitsUntil, ComputeDeadline;
    WindowExact(env, w, ci, until);
  }

  lemma Claimed(env: Env, w: World, ci: nat, hash: Hash, submitted: nat) returns (w': World)
    requires Linked(env, w) && ci < |w.computes| && w.computes[ci].currentState == WaitingClaim
    requires w.computes[ci].claimer != env.vgAddress
    ensures Exec(env, w, w.computes[ci].claimer, submitted, SubmitClaim(ci, hash)) == Some(w')
    ensures Linked(env, w') && ci < |w'.computes| && WaitsForParty(w'.computes[ci])
    ensures w'.computes[ci].currentState == WaitingConfirmation && Gaining(w'.computes[ci]) == w.computes[ci].claimer
    ensures ComputeDeadline(w'.computes[ci]) == ComputeDeadline(w.computes[ci])
  {
    var c := w.computes[ci];
    assert c.challenger != c.claimer by { assert ComputeLinked(w, c); }
    w' := Exec(env, w, c.claimer, submitted, SubmitClaim(ci, hash)).value;
    LinkedStep(env, w, Event(submitted, c.claimer, SubmitClaim(ci, hash)));
    hide Linked;
  }

  /** What a claim leaves the challenger: the claim waits for it up to the deadline the claim
      itself had. From its submission on that is any time at all if and only if it was in by
      that deadline; a later claim can be closed by its claimer at once. */
  lemma ClaimLeavesWindow(env: Env, w: World, ci: nat, hash: Hash, submitted: nat, until: nat)
    requires Linked(env, w) && ci < |w.computes| && w.computes[ci].currentState == WaitingClaim
    requires w.computes[ci].claimer != env.vgAddress
    ensures var w' := Exec(env, w, w.computes[ci].claimer, submitted, SubmitClaim(ci, hash));
      && w'.Some? && ci < |w'.value.computes|
      && (WaitsUntil(env, w'.value, ci, until) <==> until <= ComputeDeadline(w.computes[ci]))
      && ((exists t: nat :: t >= submitted && WaitsUntil(env, w'.value, ci, t)) <==> submitted <= ComputeDeadline(w.computes[ci]))
  {
    var w' := Claimed(env, w, ci, hash, submitted);
    hide Linked, Exec, ComputeDeadline, Run, WaitsForParty, Owing, Gaining, WaitsUntil;
    WindowExact(env, w', ci, until);
    forall t: nat ensures WaitsUntil(env, w', ci, t) <==> t <= ComputeDeadline(w.computes[ci]) {
      WindowExact(env, w', ci, t);
    }
    if submitted <= ComputeDeadline(w.computes[ci]) { assert WaitsUntil(env, w', ci, submitted); }
  }
}
