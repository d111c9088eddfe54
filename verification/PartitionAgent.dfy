/** The off-chain agent of the partition game, and what it wins against any opponent. */
module PartitionAgent {
  import opened Arithmetic
  import opened Common
  import opened Partition
  import opened PartitionRuns
  import opened PartitionDeadline

  datatype Failure = NotAParty | NoDisagreement | BadContext | Overflow | NoState

  datatype Reaction<C> = Idle | Send(call: C) | Fail(why: Failure)

  // the machine run offline: the hash at a time
  type Oracle = nat -> Hash

  /** What getState reports and the agent parses. */
  datatype PartitionView = PartitionView(
    challenger: Address,
    claimer: Address,
    queryArray: seq<nat>,
    submittedArray: seq<bool>,
    hashArray: seq<Hash>,
    currentState: PartitionState,
    finalTime: nat,
    querySize: nat,
    deadline: nat,
    divergenceTime: nat)

  /** getState; None when it reverts. */
  function GetState(p: PartitionCtx): Option<PartitionView> {
    var deadline := Deadline(p);
    if deadline.None? || p.querySize > |p.queryArray| then None
    else Some(PartitionView(p.challenger, p.claimer, p.queryArray,
                            seq(MAX_QUERY_SIZE, j requires 0 <= j => j < p.querySize && p.queryArray[j] in p.timeSubmitted),
                            seq(MAX_QUERY_SIZE, j requires 0 <= j => if j < p.querySize then p.HashAt(p.queryArray[j]) else ZERO_HASH),
                            p.currentState, p.finalTime, p.querySize, deadline.value, p.divergenceTime))
  }

  // ----- react -----

  /** win_by_deadline_or_idle, with the clock as an input. */
  function WinByDeadlineOrIdle<C>(now: nat, deadline: nat, claim: C): Reaction<C> {
    if deadline >= U64 then Fail(Overflow)
    else if now > deadline then Send(claim)
    else Idle
  }

  predicate FitU64(times: seq<nat>) { forall i :: 0 <= i < |times| ==> times[i] < U64 }

  function Sampled(times: seq<nat>, h: Oracle): seq<Hash> {
    seq(|times|, i requires 0 <= i < |times| => h(times[i]))
  }

  function Reply(v: PartitionView, h: Oracle): Reaction<Move> {
    if !FitU64(v.queryArray) then Fail(Overflow)
    else if v.querySize > |v.queryArray| then Fail(BadContext)
    else Send(ReplyQuery(v.queryArray, Sampled(v.queryArray, h)[..v.querySize]))
  }

  /** The first posted hash from piece i on that the oracle disputes. */
  function Search(v: PartitionView, sampled: seq<Hash>, i: nat): Reaction<Move>
    requires |sampled| == |v.queryArray|
    decreases v.querySize - i
  {
    if i + 1 >= v.querySize then Fail(NoDisagreement)
    else if i + 1 >= |v.queryArray| || i + 1 >= |v.hashArray| then Fail(BadContext)
    else if sampled[i + 1] == v.hashArray[i + 1] then Search(v, sampled, i + 1)
    else if v.queryArray[i + 1] < v.queryArray[i] then Fail(Overflow)
    else if v.queryArray[i + 1] - v.queryArray[i] > 1 then Send(MakeQuery(i, v.queryArray[i], v.queryArray[i + 1]))
    else Send(PresentDivergence(v.queryArray[i]))
  }

  function React(v: PartitionView, user: Address, now: nat, h: Oracle): Reaction<Move> {
    if v.currentState.ChallengerWon? || v.currentState.ClaimerWon? || v.currentState.DivergenceFound? then Idle
    else if user == v.claimer then
      if v.currentState == WaitingQuery then WinByDeadlineOrIdle(now, v.deadline, ClaimVictoryByTime)
      else Reply(v, h)
    else if user == v.challenger then
      if v.currentState == WaitingHashes then WinByDeadlineOrIdle(now, v.deadline, ClaimVictoryByTime)
      else if !FitU64(v.queryArray) then Fail(Overflow)
      else Search(v, Sampled(v.queryArray, h), 0)
    else Fail(NotAParty)
  }

  /** The agent on the instance as it stands. */
  function Observe(p: PartitionCtx, user: Address, now: nat, h: Oracle): Reaction<Move> {
    var v := GetState(p);
    if v.None? then Fail(NoState) else React(v.value, user, now, h)
  }

  /** The claimer's loop that collects the hashes to post. */
  method CollectHashes(v: PartitionView, sampled: seq<Hash>) returns (hashes: Option<seq<Hash>>)
    requires |sampled| == |v.queryArray|
    ensures hashes == if v.querySize > |v.queryArray| then None else Some(sampled[..v.querySize])
  {
    var collected := [];
    for i := 0 to v.querySize
      invariant i <= |sampled| && collected == sampled[..i]
    {
      if i >= |v.queryArray| { return None; }
      collected := collected + [sampled[i]];
    }
    hashes := Some(collected);
  }

  /** The challenger's early-return search over the pieces. */
  method FindDisagreement(v: PartitionView, sampled: seq<Hash>) returns (r: Reaction<Move>)
    requires |sampled| == |v.queryArray|
    ensures r == Search(v, sampled, 0)
  {
    var i := 0;
    while i + 1 < v.querySize
      invariant Search(v, sampled, 0) == Search(v, sampled, i)
      decreases v.querySize - i
    {
      if i + 1 >= |v.queryArray| || i + 1 >= |v.hashArray| { return Fail(BadContext); }
      var time, nextTime := v.queryArray[i], v.queryArray[i + 1];
      if sampled[i + 1] != v.hashArray[i + 1] {
        if nextTime < time { return Fail(Overflow); }
        if nextTime - time > 1 { return Send(MakeQuery(i, time, nextTime)); }
        return Send(PresentDivergence(time));
      }
      i := i + 1;
    }
    return Fail(NoDisagreement);
  }

  method ReactNow(v: PartitionView, user: Address, now: nat, h: Oracle) returns (r: Reaction<Move>)
    ensures r == React(v, user, now, h)
  {
    if v.currentState.ChallengerWon? || v.currentState.ClaimerWon? || v.currentState.DivergenceFound? { return Idle; }
    if user != v.claimer && user != v.challenger { return Fail(NotAParty); }
    if (user == v.claimer) == (v.currentState == WaitingQuery) {
      return WinByDeadlineOrIdle(now, v.deadline, ClaimVictoryByTime);
    }
    if !FitU64(v.queryArray) { return Fail(Overflow); }
    var sampled := Sampled(v.queryArray, h);
    if user == v.claimer {
      var hashes := CollectHashes(v, sampled);
      if hashes.None? { return Fail(BadContext); }
      r := Send(ReplyQuery(v.queryArray, hashes.value));
    } else {
      r := FindDisagreement(v, sampled);
    }
  }

  // ----- bisection against an arbitrary claimer -----

  ghost predicate Divergent(p: PartitionCtx, h: Oracle) {
    && p.HashAt(p.divergenceTime) == h(p.divergenceTime)
    && p.HashAt(p.divergenceTime + 1) != h(p.divergenceTime + 1)
  }

  /** While the game waits, the two sides agree where the interval starts and not where it ends. */
  ghost predicate Bisected(p: PartitionCtx, h: Oracle) {
    && (p.Waiting() ==> p.HashAt(First(p)) == h(First(p)) && p.HashAt(Last(p)) != h(Last(p)))
    && (p.currentState == DivergenceFound ==> Divergent(p, h))
  }

  // the view shows the instance's query points and the hashes posted for them
  ghost predicate Shows(p: PartitionCtx, v: PartitionView) {
    && v.queryArray == p.queryArray && v.querySize == p.querySize == |p.queryArray|
    && |v.hashArray| >= p.querySize
    && forall j :: 0 <= j < p.querySize ==> v.hashArray[j] == p.HashAt(p.queryArray[j])
  }

  // a call that narrows to, or presents, a piece where agreement turns into disagreement
  ghost predicate Crossing(p: PartitionCtx, h: Oracle, call: Move) {
    match call
    case MakeQuery(piece, left, right) =>
      && piece + 1 < |p.queryArray|
      && left == p.queryArray[piece] && right == p.queryArray[piece + 1] && right > left + 1
      && p.HashAt(left) == h(left) && p.HashAt(right) != h(right)
    case PresentDivergence(time) =>
      && time in p.queryArray && time + 1 in p.queryArray
      && p.HashAt(time) == h(time) && p.HashAt(time + 1) != h(time + 1)
    case _ => false
  }

  /** A game the challenger's agent keeps in hand: clear of 2^256, or with a query point that
      no u64 holds, on which the agent makes no query at all. */
  ghost predicate InHand(p: PartitionCtx) { Core(p) && (Wf(p) || !FitU64(p.queryArray)) }

  /** What the search returns. */
  lemma {:induction false} SearchFinds(p: PartitionCtx, h: Oracle, v: PartitionView, i: nat)
    requires Sliced(p) && Shows(p, v)
    requires p.HashAt(Last(p)) != h(Last(p))
    requires i + 1 < p.querySize && p.HashAt(p.queryArray[i]) == h(p.queryArray[i])
    ensures var r := Search(v, Sampled(v.queryArray, h), i); r.Send? && Crossing(p, h, r.call)
    decreases p.querySize - i
  {
    var sampled := Sampled(v.queryArray, h);
    assert sampled[i + 1] == h(p.queryArray[i + 1]) && v.hashArray[i + 1] == p.HashAt(p.queryArray[i + 1]);
    CutPiece(First(p), Last(p), p.querySize, i);
    if sampled[i + 1] == v.hashArray[i + 1] {
      SearchFinds(p, h, v, i + 1);
    } else if v.queryArray[i + 1] - v.queryArray[i] <= 1 {
      assert p.queryArray[i] + 1 == p.queryArray[i + 1];
    }
  }

  lemma StateShows(p: PartitionCtx)
    requires Listed(p) && p.querySize < MAX_QUERY_SIZE && GetState(p).Some?
    ensures Shows(p, GetState(p).value)
  {
  }

  /** What the view tells: the deadline past which the game can be claimed by time, and which of
      the query points are posted - all of them once the query is answered. */
  lemma StateTells(p: PartitionCtx, s: Address, t: nat, j: nat)
    requires Core(p) && p.Waiting() && GetState(p).Some? && j < MAX_QUERY_SIZE
    ensures var v := GetState(p).value;
      && (Apply(p, s, t, ClaimVictoryByTime).Some?
          <==> s == (if p.currentState == WaitingHashes then p.challenger else p.claimer) && t > v.deadline)
      && |v.submittedArray| == |v.hashArray| == MAX_QUERY_SIZE
      && (v.submittedArray[j] <==> j < |p.queryArray| && p.queryArray[j] in p.timeHash)
      && (p.currentState == WaitingQuery ==> (v.submittedArray[j] <==> j < p.querySize))
  {
    hide Deadline;
  }

  lemma CrossingAccepted(p: PartitionCtx, h: Oracle, now: nat, call: Move)
    requires Wf(p) && p.currentState == WaitingQuery && Crossing(p, h, call)
    ensures Apply(p, p.challenger, now, call).Some?
    ensures Bisected(Apply(p, p.challenger, now, call).value, h)
  {
    hide Deadline, Halved;
    match call
    case MakeQuery(piece, left, right) => QuerySlices(p, p.challenger, now, piece, left, right);
    case PresentDivergence(time) => PointsBetween(p, time + 1);
  }

  lemma ClaimAccepted(p: PartitionCtx, user: Address, now: nat)
    requires Deadline(p).Some? && now > Deadline(p).value
    requires (user == p.challenger && p.currentState == WaitingHashes) || (user == p.claimer && p.currentState == WaitingQuery)
    ensures Apply(p, user, now, ClaimVictoryByTime).Some?
    ensures !Apply(p, user, now, ClaimVictoryByTime).value.Waiting()
    ensures Apply(p, user, now, ClaimVictoryByTime).value.currentState != DivergenceFound
  {
  }

  // the agent found nothing in the context to choke on
  predicate Sane<C>(r: Reaction<C>) { r.Fail? ==> r.why == Overflow || r.why == NoState }

  lemma ChallengerQueries(p: PartitionCtx, h: Oracle, now: nat)
    requires Wf(p) && Bisected(p, h) && p.currentState == WaitingQuery && GetState(p).Some?
    ensures var r := React(GetState(p).value, p.challenger, now, h);
      && Sane(r)
      && (r.Send? ==>
            && Crossing(p, h, r.call)
            && Apply(p, p.challenger, now, r.call).Some?
            && Bisected(Apply(p, p.challenger, now, r.call).value, h))
  {
    StateShows(p);
    var v := GetState(p).value;
    var r := Search(v, Sampled(v.queryArray, h), 0);
    SearchFinds(p, h, v, 0);
    CrossingAccepted(p, h, now, r.call);
  }

  lemma ChallengerWaits(p: PartitionCtx, h: Oracle, now: nat)
    requires Core(p) && p.currentState != WaitingQuery && GetState(p).Some?
    ensures var r := React(GetState(p).value, p.challenger, now, h);
      && Sane(r)
      && (r.Send? ==>
            && p.currentState == WaitingHashes && r.call == ClaimVictoryByTime
            && Apply(p, p.challenger, now, r.call).Some?
            && Bisected(Apply(p, p.challenger, now, r.call).value, h))
  {
    if p.currentState == WaitingHashes && now > Deadline(p).value { ClaimAccepted(p, p.challenger, now); }
  }

  /** The challenger's reaction in a bisected state: accepted, and never the error that no
      disagreement was found. */
  lemma ChallengerReacts(p: PartitionCtx, h: Oracle, now: nat)
    requires InHand(p) && Bisected(p, h)
    ensures var r := Observe(p, p.challenger, now, h);
      && Sane(r)
      && (r.Send? && p.currentState == WaitingQuery ==> Crossing(p, h, r.call))
      && (r.Send? ==>
            && Apply(p, p.challenger, now, r.call).Some?
            && Bisected(Apply(p, p.challenger, now, r.call).value, h))
  {
    hide Deadline, Halved, Apply, Answered, Commitments, Bisected, Crossing;
    if GetState(p).Some? {
      if p.currentState != WaitingQuery {
        ChallengerWaits(p, h, now);
      } else if Wf(p) {
        ChallengerQueries(p, h, now);
      }
    }
  }

  // the challenger's calls are the agent's own, sent on its own clock
  ghost predicate ByAgent(p: PartitionCtx, h: Oracle, e: Event) {
    e.caller == p.challenger ==> Observe(p, p.challenger, e.now, h) == Send(e.move)
  }

  lemma InHandStep(p: PartitionCtx, h: Oracle, e: Event)
    requires InHand(p) && Core(p) && ByAgent(p, h, e)
    ensures InHand(Step(p, e))
  {
    StepCore(p, e);
    hide Core, Wf, Deadline;
    if Accepted(p, e) && !Wf(p) && e.move.ReplyQuery? { PostedIsWriteOnce(p, e.move.postedTimes, e.move.postedHashes); }
  }

  lemma BisectedStep(p: PartitionCtx, h: Oracle, e: Event)
    requires InHand(p) && Bisected(p, h) && ByAgent(p, h, e)
    ensures InHand(Step(p, e)) && Bisected(Step(p, e), h)
  {
    InHandStep(p, h, e);
    hide Wf, Deadline, InHand;
    if Accepted(p, e) {
      if e.caller == p.challenger {
        ChallengerReacts(p, h, e.now);
      } else if e.move.ReplyQuery? {
        PostedIsWriteOnce(p, e.move.postedTimes, e.move.postedHashes);
      }
    }
  }

  ghost predicate AllByAgent(p: PartitionCtx, h: Oracle, events: seq<Event>) {
    forall k :: 0 <= k < |events| ==> ByAgent(Run(p, events[..k]), h, events[k])
  }

  lemma {:induction false} BisectedRun(p: PartitionCtx, h: Oracle, events: seq<Event>, k: nat)
    requires InHand(p) && Bisected(p, h) && AllByAgent(p, h, events) && k <= |events|
    ensures InHand(Run(p, events[..k])) && Bisected(Run(p, events[..k]), h)
  {
    if k > 0 {
      BisectedRun(p, h, events, k - 1);
      assert events[..k][..k - 1] == events[..k - 1];
      BisectedStep(Run(p, events[..k - 1]), h, events[k - 1]);
    }
  }

  lemma OpeningInHand(challenger: Address, claimer: Address, initialHash: Hash, finalHash: Hash,
                      finalTime: uint256, querySize: nat, roundDuration: nat, start: nat)
    requires Create(challenger, claimer, initialHash, finalHash, finalTime, querySize, roundDuration, start).Some?
    ensures InHand(Create(challenger, claimer, initialHash, finalHash, finalTime, querySize, roundDuration, start).value)
  {
    CreateCore(challenger, claimer, initialHash, finalHash, finalTime, querySize, roundDuration, start);
    CreateWf(challenger, claimer, initialHash, finalHash, finalTime, querySize, roundDuration, start);
    var p := Create(challenger, claimer, initialHash, finalHash, finalTime, querySize, roundDuration, start).value;
    hide Create, Core, Wf;
    if !Safe(finalTime, querySize) { assert Last(p) >= U64; }
  }

  /** Bisection against an arbitrary claimer. The initial hash is true and the claimed one is
      not; everyone but the challenger may call anything; the challenger follows its agent.
      Then at every point the game is bisected, the agent never fails for want of a
      disagreement, its next call is accepted, and a divergence that was found is a real one. */
  lemma BisectionInvariant(challenger: Address, claimer: Address, h: Oracle, claimed: Hash, finalTime: uint256,
                           querySize: nat, roundDuration: nat, start: nat, events: seq<Event>, now: nat)
    requires Create(challenger, claimer, h(0), claimed, finalTime, querySize, roundDuration, start).Some?
    requires claimed != h(finalTime)
    requires var p := Create(challenger, claimer, h(0), claimed, finalTime, querySize, roundDuration, start).value;
      AllByAgent(p, h, events)
    ensures var p := Create(challenger, claimer, h(0), claimed, finalTime, querySize, roundDuration, start).value;
      var q := Run(p, events);
      && Bisected(q, h)
      && Sane(Observe(q, challenger, now, h))
      && (Observe(q, challenger, now, h).Send? ==> Apply(q, challenger, now, Observe(q, challenger, now, h).call).Some?)
      && (q.currentState == DivergenceFound ==> q.divergenceTime < finalTime && Divergent(q, h))
  {
    CreateCore(challenger, claimer, h(0), claimed, finalTime, querySize, roundDuration, start);
    var p := Create(challenger, claimer, h(0), claimed, finalTime, querySize, roundDuration, start).value;
    OpeningInHand(challenger, claimer, h(0), claimed, finalTime, querySize, roundDuration, start);
    BisectedRun(p, h, events, |events|);
    assert events[..|events|] == events;
    RunKeeps(p, events);
    ChallengerReacts(Run(p, events), h, now);
  }

  // ----- the honest claimer's posts -----

  ghost predicate Posts(p: PartitionCtx, g: Oracle) {
    forall t :: t in p.timeSubmitted ==> p.HashAt(t) == g(t)
  }

  lemma {:induction false} PostedHonestly(p: PartitionCtx, times: seq<nat>, hashes: seq<Hash>, g: Oracle)
    requires |times| == |hashes| && Posts(p, g)
    requires forall k :: 0 <= k < |times| ==> hashes[k] == g(times[k])
    ensures Posts(Posted(p, times, hashes), g)
    decreases |times|
  {
    if times != [] { PostedHonestly(p, times[..|times| - 1], hashes[..|times| - 1], g); }
  }

  /** The claimer's reply is accepted and posts only the oracle's hashes. */
  lemma ClaimerReplies(p: PartitionCtx, g: Oracle, now: nat)
    requires Wf(p) && p.currentState == WaitingHashes && p.finalTime < U64 && Deadline(p).Some?
    ensures var r := Observe(p, p.claimer, now, g);
      && r.Send? && r.call.ReplyQuery?
      && Apply(p, p.claimer, now, r.call).Some?
      && (Posts(p, g) ==> Posts(Apply(p, p.claimer, now, r.call).value, g))
  {
    forall i | 0 <= i < |p.queryArray| ensures p.queryArray[i] < U64 { PointsBetween(p, p.queryArray[i]); }
    var times, hashes := p.queryArray, Sampled(p.queryArray, g);
    assert hashes[..p.querySize] == hashes;
    if Posts(p, g) { PostedHonestly(p, times, hashes, g); }
  }

  /** Whatever the claimer's agent sends is accepted. */
  lemma ClaimerCallAccepted(p: PartitionCtx, g: Oracle, now: nat)
    requires Core(p)
    ensures var r := Observe(p, p.claimer, now, g); Sane(r) && (r.Send? ==> Apply(p, p.claimer, now, r.call).Some?)
  {
    var r := Observe(p, p.claimer, now, g);
    if r.Send? && p.currentState == WaitingHashes {
      assert Sampled(p.queryArray, g)[..p.querySize] == Sampled(p.queryArray, g);
    } else if r.Send? {
      ClaimAccepted(p, p.claimer, now);
    }
  }

  /** When the agents send: for the party to move, exactly when its query points fit a u64; for
      the other, exactly when a deadline that fits has passed. */
  lemma AgentsSendExactly(p: PartitionCtx, h: Oracle, now: nat)
    requires Wf(p) && p.Waiting() && GetState(p).Some? && (p.currentState == WaitingQuery ==> Bisected(p, h))
    ensures var deadline := GetState(p).value.deadline;
      var moves, waits := if p.currentState == WaitingHashes then p.claimer else p.challenger,
                          if p.currentState == WaitingHashes then p.challenger else p.claimer;
      && (Observe(p, moves, now, h).Send? <==> Last(p) < U64)
      && (Observe(p, waits, now, h).Send? <==> deadline < now && deadline < U64)
  {
    hide Deadline, Halved, Shrunk, Near, Cut;
    StateShows(p);
    if p.currentState == WaitingQuery { SearchFinds(p, h, GetState(p).value, 0); }
    if Last(p) < U64 {
      forall i | 0 <= i < |p.queryArray| ensures p.queryArray[i] < U64 { PointsBetween(p, p.queryArray[i]); }
    } else {
      assert p.queryArray[|p.queryArray| - 1] >= U64;
    }
  }

  // ----- two agents terminate -----

  function OnTurn(p: PartitionCtx): Address {
    if p.currentState == WaitingHashes then p.claimer else p.challenger
  }

  /** Turn by turn, the party the game waits for reacts and its transaction is executed; the
      play stops at a finished state, an error, an idle agent or a revert. */
  function Play(p: PartitionCtx, g: Oracle, h: Oracle, clock: nat -> nat, turns: nat): PartitionCtx
    decreases turns
  {
    if turns == 0 || !p.Waiting() then p
    else
      var now := clock(turns);
      var r := Observe(p, OnTurn(p), now, if p.currentState == WaitingHashes then g else h);
      if !r.Send? then p
      else
        var next := Apply(p, OnTurn(p), now, r.call);
        if next.None? then p else Play(next.value, g, h, clock, turns - 1)
  }

  // a game between the two oracles that has not ended
  ghost predicate Contest(p: PartitionCtx, g: Oracle, h: Oracle) {
    && Wf(p) && p.Waiting() && Bisected(p, h) && Posts(p, g)
    && p.finalTime < U64
  }

  // how a play ends
  ghost predicate Ended(q: PartitionCtx, g: Oracle, h: Oracle) {
    && Wf(q) && q.currentState == DivergenceFound && Divergent(q, h) && Posts(q, g)
  }

  lemma FewerRounds(p: PartitionCtx, q: PartitionCtx)
    requires First(q) + 1 < Last(q) || First(p) + 1 < Last(p)
    requires First(p) < Last(p) && First(q) < Last(q)
    requires 2 * (Last(q) - First(q)) <= Last(p) - First(p) + 1
    ensures Rounds(q) < Rounds(p)
  {
    BitLengthMono(Last(q) - First(q) - 1, (Last(p) - First(p) - 1) / 2);
  }

  /** The claimer's half of a round. */
  lemma ClaimerTurn(p: PartitionCtx, g: Oracle, h: Oracle, now: nat) returns (asked: Move, q: PartitionCtx)
    requires Contest(p, g, h) && p.currentState == WaitingHashes
    ensures Observe(p, p.claimer, now, g) == Send(asked) && Apply(p, p.claimer, now, asked) == Some(q)
    ensures Contest(q, g, h) && q.currentState == WaitingQuery && Keeps(p, q)
    ensures q.queryArray == p.queryArray && q.partitionGameIndex == p.partitionGameIndex + 1
  {
    DeadlineDefined(p);
    ClaimerReplies(p, g, now);
    asked := Observe(p, p.claimer, now, g).call;
    q := Apply(p, p.claimer, now, asked).value;
    PostedIsWriteOnce(p, asked.postedTimes, asked.postedHashes);
    ApplyWf(p, p.claimer, now, asked);
  }

  /** The challenger's half of a round. */
  lemma ChallengerTurn(q: PartitionCtx, g: Oracle, h: Oracle, now: nat) returns (made: Move, next: PartitionCtx)
    requires Contest(q, g, h) && q.currentState == WaitingQuery
    ensures Observe(q, q.challenger, now, h) == Send(made) && Apply(q, q.challenger, now, made) == Some(next)
    ensures Keeps(q, next)
    ensures Ended(next, g, h)
      || (Contest(next, g, h) && next.currentState == WaitingHashes && Rounds(next) < Rounds(q))
  {
    hide Deadline, Halved, Cut, BitLength, Rounds;
    DeadlineDefined(q);
    StateShows(q);
    SearchFinds(q, h, GetState(q).value, 0);
    forall i | 0 <= i < |q.queryArray| ensures q.queryArray[i] < U64 { PointsBetween(q, q.queryArray[i]); }
    ChallengerReacts(q, h, now);
    made := Observe(q, q.challenger, now, h).call;
    next := Apply(q, q.challenger, now, made).value;
    ApplyWf(q, q.challenger, now, made);
    if made.MakeQuery? {
      QueryHalves(q, q.challenger, now, made.queryPiece, made.leftPoint, made.rightPoint, Queries(q));
      FewerRounds(q, next);
    }
  }

  lemma PlayTurn(p: PartitionCtx, g: Oracle, h: Oracle, clock: nat -> nat, turns: nat, call: Move, next: PartitionCtx)
    requires turns > 0 && p.Waiting()
    requires Observe(p, OnTurn(p), clock(turns), if p.currentState == WaitingHashes then g else h) == Send(call)
    requires Apply(p, OnTurn(p), clock(turns), call) == Some(next)
    ensures Play(p, g, h, clock, turns) == Play(next, g, h, clock, turns - 1)
  {
  }

  lemma PlayStops(p: PartitionCtx, g: Oracle, h: Oracle, clock: nat -> nat, turns: nat)
    requires !p.Waiting()
    ensures Play(p, g, h, clock, turns) == p
  {
  }

  lemma {:induction false} PlayEnds(p: PartitionCtx, g: Oracle, h: Oracle, clock: nat -> nat, turns: nat)
    requires Contest(p, g, h) && p.currentState == WaitingHashes
    requires turns >= 2 * Rounds(p) + 2
    ensures Ended(Play(p, g, h, clock, turns), g, h) && Keeps(p, Play(p, g, h, clock, turns))
    decreases Rounds(p)
  {
    hide Play, Apply, Observe, Bisected, Posts, Wf, BitLength;
    var asked, q := ClaimerTurn(p, g, h, clock(turns));
    PlayTurn(p, g, h, clock, turns, asked, q);
    var made, next := ChallengerTurn(q, g, h, clock(turns - 1));
    PlayTurn(q, g, h, clock, turns - 1, made, next);
    if next.currentState == WaitingHashes {
      PlayEnds(next, g, h, clock, turns - 2);
    } else {
      PlayStops(next, g, h, clock, turns - 2);
    }
  }

  lemma OpeningIsContest(challenger: Address, claimer: Address, g: Oracle, h: Oracle, finalTime: uint256,
                         querySize: nat, roundDuration: nat, start: nat)
    requires Create(challenger, claimer, h(0), g(finalTime), finalTime, querySize, roundDuration, start).Some?
    requires g(0) == h(0) && g(finalTime) != h(finalTime)
    requires finalTime < U64
    ensures var p := Create(challenger, claimer, h(0), g(finalTime), finalTime, querySize, roundDuration, start).value;
      && Contest(p, g, h) && p.currentState == WaitingHashes
      && First(p) == 0 && Last(p) == finalTime == p.finalTime
  {
    CreateCore(challenger, claimer, h(0), g(finalTime), finalTime, querySize, roundDuration, start);
    CreateWf(challenger, claimer, h(0), g(finalTime), finalTime, querySize, roundDuration, start);
  }

  /** Two agents terminate: with oracles that agree at 0 and differ at finalTime, the play
      never errs, idles or reverts; within 2 ceil(log2 finalTime) + 2 transactions it ends in
      DivergenceFound at a step the two oracles really dispute, after r replies with r <= 1
      or 2^(r-1) < finalTime. */
  lemma TwoAgentsTerminate(challenger: Address, claimer: Address, g: Oracle, h: Oracle, finalTime: uint256,
                           querySize: nat, roundDuration: nat, start: nat, clock: nat -> nat, turns: nat)
    requires Create(challenger, claimer, h(0), g(finalTime), finalTime, querySize, roundDuration, start).Some?
    requires g(0) == h(0) && g(finalTime) != h(finalTime)
    requires finalTime < U64 && turns >= 2 * BitLength(finalTime - 1) + 2
    ensures var p := Create(challenger, claimer, h(0), g(finalTime), finalTime, querySize, roundDuration, start).value;
      var q := Play(p, g, h, clock, turns);
      && q.currentState == DivergenceFound
      && q.divergenceTime < finalTime
      && g(q.divergenceTime) == h(q.divergenceTime)
      && g(q.divergenceTime + 1) != h(q.divergenceTime + 1)
      && (q.partitionGameIndex <= 1 || Pow2(q.partitionGameIndex - 1) < finalTime)
  {
    hide Create, Apply, Deadline, Observe, Bisected, Commitments, Shape;
    OpeningIsContest(challenger, claimer, g, h, finalTime, querySize, roundDuration, start);
    var p := Create(challenger, claimer, h(0), g(finalTime), finalTime, querySize, roundDuration, start).value;
    PlayEnds(p, g, h, clock, turns);
    var q := Play(p, g, h, clock, turns);
    assert Answered(q) && Halved(q, Queries(q));
  }
}
