/** When each party's time starts and when it is over, told by the claims that are accepted. */
module Clocks {
  import opened Arithmetic
  import opened Common
  import P = Partition
  import PR = PartitionRuns
  import PD = PartitionDeadline
  import M = MemoryManager
  import opened Machine
  import opened Protocol
  import opened Linkage

  // ----- the partition game -----

  /** Victory by time can be claimed by one party only, and only past a deadline. */
  ghost predicate LostAfter(p: P.PartitionCtx, who: Address, deadline: nat) {
    forall s: Address, t: nat :: P.Apply(p, s, t, P.ClaimVictoryByTime).Some? <==> s == who && t > deadline
  }

  // the deadline of a round that starts at a time
  function RoundEnds(p: P.PartitionCtx, gameIndex: nat, now: nat): nat {
    (now + PD.ExactDuration(p.roundDuration, p.querySize, gameIndex, p.finalTime)) % MOD
  }

  lemma ClockRuns(p: P.PartitionCtx)
    requires PR.Wf(p) && p.Waiting() && p.finalTime < U64
    ensures LostAfter(p, if p.currentState == P.WaitingHashes then p.challenger else p.claimer,
                      RoundEnds(p, p.partitionGameIndex, p.timeOfLastMove))
  {
    PD.DeadlineIsExact(p);
    assert p.challenger != p.claimer;
    hide P.Deadline, PD.ExactDuration, PR.Wf;
  }

  /** The clock of the first round starts at the opening, against the claimer. */
  lemma OpeningStartsClock(challenger: Address, claimer: Address, initialHash: Hash, finalHash: Hash,
                           finalTime: uint256, querySize: nat, roundDuration: nat, now: nat)
    requires P.Create(challenger, claimer, initialHash, finalHash, finalTime, querySize, roundDuration, now).Some?
    requires finalTime < U64
    ensures var p := P.Create(challenger, claimer, initialHash, finalHash, finalTime, querySize, roundDuration, now).value;
      LostAfter(p, challenger, (now + PD.ExactDuration(roundDuration, querySize, 0, finalTime)) % MOD)
  {
    PR.CreateWf(challenger, claimer, initialHash, finalHash, finalTime, querySize, roundDuration, now);
    P.SafeBelow(finalTime, querySize);
    var p := P.Create(challenger, claimer, initialHash, finalHash, finalTime, querySize, roundDuration, now).value;
    hide PR.Wf, P.Safe, LostAfter, PD.ExactDuration, P.Points;
    ClockRuns(p);
  }

  lemma Replied(p: P.PartitionCtx, caller: Address, now: nat, times: seq<nat>, hashes: seq<Hash>)
    requires P.Apply(p, caller, now, P.ReplyQuery(times, hashes)).Some?
    ensures var q := P.Apply(p, caller, now, P.ReplyQuery(times, hashes)).value;
      && q.currentState == P.WaitingQuery && q.timeOfLastMove == now && q.partitionGameIndex == p.partitionGameIndex + 1
      && q.claimer == p.claimer && q.finalTime == p.finalTime && q.querySize == p.querySize && q.roundDuration == p.roundDuration
  {
    PR.PostedIsWriteOnce(p, times, hashes);
    hide P.Posted;
  }

  /** An accepted reply restarts it, against the challenger and with the next index. */
  lemma ReplyRestartsClock(p: P.PartitionCtx, caller: Address, now: nat, times: seq<nat>, hashes: seq<Hash>)
    requires PR.Wf(p) && p.finalTime < U64 && P.Apply(p, caller, now, P.ReplyQuery(times, hashes)).Some?
    ensures LostAfter(P.Apply(p, caller, now, P.ReplyQuery(times, hashes)).value, p.claimer,
                      RoundEnds(p, p.partitionGameIndex + 1, now))
  {
    hide PR.Wf, LostAfter, PD.ExactDuration, P.Apply;
    PR.ReplyWf(p, caller, now, times, hashes);
    Replied(p, caller, now, times, hashes);
    ClockRuns(P.Apply(p, caller, now, P.ReplyQuery(times, hashes)).value);
  }

  /** An accepted query restarts it, against the claimer. */
  lemma QueryRestartsClock(p: P.PartitionCtx, caller: Address, now: nat, piece: nat, left: nat, right: nat)
    requires PR.Wf(p) && p.finalTime < U64 && P.Apply(p, caller, now, P.MakeQuery(piece, left, right)).Some?
    ensures LostAfter(P.Apply(p, caller, now, P.MakeQuery(piece, left, right)).value, p.challenger,
                      RoundEnds(p, p.partitionGameIndex, now))
  {
    PR.QueryWf(p, caller, now, piece, left, right);
    hide PR.Wf, LostAfter, PD.ExactDuration, P.Points, P.Deadline;
    ClockRuns(P.Apply(p, caller, now, P.MakeQuery(piece, left, right)).value);
  }

  // ----- the proof phase -----

  ghost predicate StartsAt(env: Env, w: World, e: Event, g: nat) {
    e.call == StartMachineRunChallenge(g) && Exec(env, w, e.caller, e.now, e.call).Some?
  }

  lemma SettlementIsFinal(env: Env, v: VGCtx, m: M.MMCtx, caller: Address)
    ensures Settled(env, v, m, caller).Some? ==> !Settled(env, v, m, caller).value.0.Live()
  {
    hide Disproves, M.Apply, Replay;
  }

  ghost predicate Stays(env: Env, w: World, e: Event, g: nat) {
    && g < |w.games| && g < |Step(env, w, e).games|
    && var v, v' := w.games[g], Step(env, w, e).games[g];
       && (v'.currentState == WaitPartition ==> v' == v)
       && (v'.currentState == WaitMemoryProveValues ==> v' == v || (v.currentState == WaitPartition && StartsAt(env, w, e, g)))
  }

  lemma SettledIsOver(env: Env, w: World, e: Event, g: nat)
    requires e.call.SettleVerificationGame? && g < |w.games|
    ensures Stays(env, w, e, g)
  {
    hide Settled, StartsAt;
    if Exec(env, w, e.caller, e.now, e.call).Some? {
      var v := w.games[e.call.index];
      SettlementIsFinal(env, v, w.memories[v.mmInstance], e.caller);
    }
  }

  lemma ClaimedIsOver(env: Env, w: World, e: Event, g: nat)
    requires (e.call.WinByPartitionTimeout? || e.call.GameClaimVictoryByTime?) && g < |w.games|
    ensures Stays(env, w, e, g)
  {
    hide MemoryDeadline, StartsAt;
  }

  lemma StartedIsOn(env: Env, w: World, e: Event, g: nat)
    requires e.call.StartMachineRunChallenge? && g < |w.games|
    ensures Stays(env, w, e, g)
  {
  }

  lemma GamesApart(env: Env, w: World, e: Event, g: nat)
    requires !(e.call.WinByPartitionTimeout? || e.call.StartMachineRunChallenge? || e.call.SettleVerificationGame?
               || e.call.GameClaimVictoryByTime?)
    requires g < |w.games|
    ensures Stays(env, w, e, g)
  {
    hide P.Create, P.Apply, M.Apply, Log2OverTwo, ComputeDeadline, StartsAt;
  }

  /** A live game is changed by its start alone; whatever else touches it ends it. */
  lemma LiveGameStays(env: Env, w: World, e: Event, g: nat)
    requires g < |w.games|
    ensures Stays(env, w, e, g)
  {
    hide Stays;
    match e.call
    case WinByPartitionTimeout(_) => ClaimedIsOver(env, w, e, g);
    case GameClaimVictoryByTime(_) => ClaimedIsOver(env, w, e, g);
    case SettleVerificationGame(_) => SettledIsOver(env, w, e, g);
    case StartMachineRunChallenge(_) => StartedIsOn(env, w, e, g);
    case _ => GamesApart(env, w, e, g);
  }

  /** A game that has stayed in one live state is the game it was. */
  lemma {:induction false} WaitingAsBefore(env: Env, w: World, events: seq<Event>, g: nat)
    requires g < |w.games| && w.games[g].Live()
    ensures g < |Run(env, w, events).games|
    ensures var v := Run(env, w, events).games[g];
      && (v.currentState == WaitPartition ==> v == w.games[g])
      && (v.currentState == WaitMemoryProveValues && w.games[g].currentState == WaitMemoryProveValues ==> v == w.games[g])
    decreases |events|
  {
    if events != [] {
      hide Step, StartsAt;
      WaitingAsBefore(env, w, events[..|events| - 1], g);
      LiveGameStays(env, Run(env, w, events[..|events| - 1]), events[|events| - 1], g);
    }
  }

  ghost predicate InProof(w: World, g: nat) { g < |w.games| && w.games[g].currentState == WaitMemoryProveValues }

  lemma ChallengeOpens(env: Env, w: World, ci: nat, opening: nat)
    requires ci < |w.computes|
    requires Exec(env, w, w.computes[ci].challenger, opening, Challenge(ci)).Some?
    ensures var c, w' := w.computes[ci], Exec(env, w, w.computes[ci].challenger, opening, Challenge(ci)).value;
      && GameFor(c, opening, |w.partitions|).Some?
      && |w'.games| == |w.games| + 1 && w'.games[|w.games|] == GameFor(c, opening, |w.partitions|).value.0
      && w'.games[|w.games|].claimer == c.claimer && w'.games[|w.games|].Live()
  {
    hide P.Create, Log2OverTwo;
  }

  lemma StartMoves(env: Env, w: World, g: nat, starter: Address, now: nat)
    requires Exec(env, w, starter, now, StartMachineRunChallenge(g)).Some?
    ensures g < |w.games| && w.games[g].currentState == WaitPartition
    ensures var w' := Exec(env, w, starter, now, StartMachineRunChallenge(g)).value;
      && g < |w'.games| && w'.games[g].currentState == WaitMemoryProveValues
      && w'.games[g].claimer == w.games[g].claimer && MemoryDeadline(w'.games[g]) == MemoryDeadline(w.games[g].(timeOfLastMove := now))
  {
    hide M.MaxInstanceDuration;
  }

  lemma ProofClaims(env: Env, w: World, g: nat, s: Address, t: nat)
    requires Linked(env, w) && InProof(w, g)
    ensures Exec(env, w, s, t, GameClaimVictoryByTime(g)).Some? <==> s == w.games[g].claimer && t > MemoryDeadline(w.games[g])
  {
    assert GameLinked(env, w, w.games[g]);
    hide MemoryDeadline, PlaysFor, Backs, Kept;
  }

  /** The proof phase. A claim is disputed; the game is started at a time, at some point of
      whatever run follows; and as long as it then stays in its proof phase, its claimer, and
      nobody else, can claim it by time if and only if two machine starts and five rounds, each
      stretched by the log base 4 of the final time, have passed since that start. */
  lemma ProofClock(env: Env, w: World, ci: nat, opening: nat, before: seq<Event>, starter: Address, now: nat,
                   after: seq<Event>, s: Address, t: nat) returns (rounds: nat)
    requires Linked(env, w) && ci < |w.computes| && w.computes[ci].challenger != env.vgAddress && starter != env.vgAddress
    requires AllExternal(env, before) && AllExternal(env, after)
    requires Exec(env, w, w.computes[ci].challenger, opening, Challenge(ci)).Some?
    requires var disputed := Run(env, Exec(env, w, w.computes[ci].challenger, opening, Challenge(ci)).value, before);
      var started := Exec(env, disputed, starter, now, StartMachineRunChallenge(|w.games|));
      started.Some? && InProof(Run(env, started.value, after), |w.games|)
    ensures var c := w.computes[ci];
      Pow(4, rounds) <= c.finalTime < Pow(4, rounds + 1) &&
      var disputed := Run(env, Exec(env, w, c.challenger, opening, Challenge(ci)).value, before);
      var started := Exec(env, disputed, starter, now, StartMachineRunChallenge(|w.games|)).value;
      Exec(env, Run(env, started, after), s, t, GameClaimVictoryByTime(|w.games|)).Some?
      <==> s == c.claimer && t > (now + 80 + 5 * (c.roundDuration * rounds + 4)) % MOD
  {
    hide Linked, Exec, GameFor, Run, MemoryDeadline, Pow;
    var c, g := w.computes[ci], |w.games|;
    ChallengeOpens(env, w, ci, opening);
    rounds := MemoryDeadlineExact(c, opening, |w.partitions|, now);
    var w1 := Exec(env, w, c.challenger, opening, Challenge(ci)).value;
    Accepted(env, w, Event(opening, c.challenger, Challenge(ci)));
    LinkedRun(env, w1, before);
    var w2 := Run(env, w1, before);
    StartMoves(env, w2, g, starter, now);
    WaitingAsBefore(env, w1, before, g);
    var w3 := Exec(env, w2, starter, now, StartMachineRunChallenge(g)).value;
    Accepted(env, w2, Event(now, starter, StartMachineRunChallenge(g)));
    LinkedRun(env, w3, after);
    WaitingAsBefore(env, w3, after, g);
    ProofClaims(env, Run(env, w3, after), g, s, t);
  }

  lemma Accepted(env: Env, w: World, e: Event)
    requires Linked(env, w) && External(env, e) && Exec(env, w, e.caller, e.now, e.call).Some?
    ensures Linked(env, Exec(env, w, e.caller, e.now, e.call).value)
  {
    hide Linked, Exec;
    LinkedStep(env, w, e);
  }
}
