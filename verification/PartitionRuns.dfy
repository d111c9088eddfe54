/** What every run of the partition game keeps, whoever makes the calls. */
module PartitionRuns {
  import opened Arithmetic
  import opened Common
  import opened Partition

  // ----- the invariant -----

  ghost predicate Shape(p: PartitionCtx) {
    && p.challenger != p.claimer
    && 0 < p.finalTime < MOD
    && 2 < p.querySize < MAX_QUERY_SIZE
    && p.roundDuration > 50
  }

  ghost predicate Commitments(p: PartitionCtx) {
    && p.timeSubmitted == p.timeHash.Keys
    && 0 in p.timeSubmitted && p.finalTime in p.timeSubmitted
    && forall t :: t in p.timeSubmitted ==> t <= p.finalTime
  }

  // the ends of the interval last sliced
  ghost function First(p: PartitionCtx): nat { if p.queryArray == [] then 0 else p.queryArray[0] }

  ghost function Last(p: PartitionCtx): nat { if p.queryArray == [] then 0 else p.queryArray[|p.queryArray| - 1] }

  ghost predicate Listed(p: PartitionCtx) {
    && |p.queryArray| == p.querySize > 2
    && First(p) < Last(p) <= p.finalTime
    && forall t :: t in p.queryArray ==> t <= p.finalTime
  }

  ghost predicate Answered(p: PartitionCtx) {
    && (p.currentState == WaitingHashes ==> First(p) in p.timeSubmitted && Last(p) in p.timeSubmitted)
    && (p.currentState == WaitingQuery ==> p.partitionGameIndex > 0 && forall t :: t in p.queryArray ==> t in p.timeSubmitted)
    && (p.currentState == DivergenceFound ==>
          p.divergenceTime < p.finalTime && p.divergenceTime in p.timeSubmitted && p.divergenceTime + 1 in p.timeSubmitted)
  }

  /** What holds of every game there is. */
  ghost predicate Core(p: PartitionCtx) {
    Shape(p) && Commitments(p) && Listed(p) && Answered(p)
  }

  ghost predicate Sliced(p: PartitionCtx) {
    && Listed(p)
    && p.queryArray == Cut(First(p), Last(p), p.querySize)
  }

  // m halvings fit
  ghost predicate Halved(p: PartitionCtx, m: nat) {
    && (Last(p) - First(p) - 1) * Pow2(m) < p.finalTime
    && (m >= 1 ==> Pow2(m) < p.finalTime)
  }

  // accepted makeQuery calls, read off the count of replies
  ghost function Queries(p: PartitionCtx): nat {
    if p.currentState == WaitingHashes || p.partitionGameIndex == 0 then p.partitionGameIndex
    else p.partitionGameIndex - 1
  }

  // rounds that may still follow: the ceiling of log base 2 of the interval's length
  ghost function Rounds(p: PartitionCtx): nat {
    if First(p) < Last(p) then BitLength(Last(p) - First(p) - 1) else 0
  }

  /** With five points or more an interval shrinks to about a quarter, which leaves few rounds:
      m have been played with `length` to go. */
  predicate Quartered(length: nat, m: nat, finalTime: nat) {
    if length > 18 then (length - 18) * Pow2(2 * m) < finalTime
    else length > 0 ==> m + BitLength(length - 1) <= 37
  }

  ghost predicate Shrunk(p: PartitionCtx, m: nat) {
    p.querySize >= 5 && p.finalTime < U64 && First(p) < Last(p) ==> Quartered(Last(p) - First(p), m, p.finalTime)
  }

  /** Where the interval ends: at finalTime, with the tail finalTime has, or that tail away. */
  ghost predicate Near(p: PartitionCtx) {
    p.querySize > 2 && First(p) < Last(p) <= p.finalTime ==>
      var n := p.querySize - 1;
      && (Last(p) == p.finalTime ==> Tail(Last(p) - First(p), n) == Tail(p.finalTime, n))
      && (Last(p) < p.finalTime ==> Last(p) + Tail(p.finalTime, n) <= p.finalTime)
  }

  /** What holds besides when no slice can wrap. */
  ghost predicate Wf(p: PartitionCtx) {
    && Core(p) && Safe(p.finalTime, p.querySize) && Sliced(p) && Near(p)
    && Halved(p, Queries(p)) && Shrunk(p, Queries(p))
  }

  lemma PointsBetween(p: PartitionCtx, t: nat)
    requires Sliced(p) && t in p.queryArray
    ensures First(p) <= t <= Last(p)
  {
    CutCorrect(First(p), Last(p), p.querySize);
  }

  /** Posted answers are write-once: an answered time keeps its hash, and a new time gets
      the hash that came with its first occurrence. */
  lemma {:induction false} PostedIsWriteOnce(p: PartitionCtx, times: seq<nat>, hashes: seq<Hash>)
    requires |times| == |hashes|
    ensures var q := Posted(p, times, hashes);
      && q == p.(timeSubmitted := q.timeSubmitted, timeHash := q.timeHash)
      && (forall t :: t in q.timeSubmitted <==> t in p.timeSubmitted || t in times)
      && (p.timeSubmitted == p.timeHash.Keys ==> q.timeSubmitted == q.timeHash.Keys)
      && (forall t :: t in p.timeSubmitted ==> q.HashAt(t) == p.HashAt(t))
      && (forall k :: 0 <= k < |times| && times[k] !in p.timeSubmitted && times[k] !in times[..k]
            ==> q.HashAt(times[k]) == hashes[k])
    decreases |times|
  {
    if times != [] {
      var last := |times| - 1;
      var front := times[..last];
      PostedIsWriteOnce(p, front, hashes[..last]);
      assert times == front + [times[last]];
      assert forall k :: 0 <= k < last ==> front[..k] == times[..k] && front[k] == times[k];
    }
  }

  lemma CreateCore(challenger: Address, claimer: Address, initialHash: Hash, finalHash: Hash,
                   finalTime: uint256, querySize: nat, roundDuration: nat, now: nat)
    requires Create(challenger, claimer, initialHash, finalHash, finalTime, querySize, roundDuration, now).Some?
    ensures var p := Create(challenger, claimer, initialHash, finalHash, finalTime, querySize, roundDuration, now).value;
      && Core(p) && First(p) == 0 && Last(p) == finalTime
      && p.HashAt(0) == initialHash && p.HashAt(finalTime) == finalHash && p.timeSubmitted == {0, finalTime}
  {
    PointsEnds(0, finalTime, querySize);
  }

  lemma CreateWf(challenger: Address, claimer: Address, initialHash: Hash, finalHash: Hash,
                 finalTime: uint256, querySize: nat, roundDuration: nat, now: nat)
    requires Create(challenger, claimer, initialHash, finalHash, finalTime, querySize, roundDuration, now).Some?
    ensures var p := Create(challenger, claimer, initialHash, finalHash, finalTime, querySize, roundDuration, now).value;
      && Core(p) && Sliced(p) && Near(p) && (Safe(finalTime, querySize) ==> Wf(p))
  {
    CreateCore(challenger, claimer, initialHash, finalHash, finalTime, querySize, roundDuration, now);
    SliceExact(0, finalTime, querySize);
    QuarteredAtStart(finalTime);
    hide Tail, BitLength, Points, Cut, Quartered, Commitments, Answered, Shape, Safe;
  }

  lemma QuarteredAtStart(finalTime: nat)
    requires finalTime > 0
    ensures Quartered(finalTime, 0, finalTime)
    ensures (finalTime - 1) * Pow2(0) < finalTime
  {
    if finalTime <= 18 { BitLengthMono(finalTime - 1, 17); }
    assert BitLength(17) == 5 && Pow2(0) == 1;
    hide BitLength, Pow2;
  }

  lemma HalvedLess(p: PartitionCtx, m: nat, k: nat)
    requires Sliced(p) && Halved(p, m) && k <= m
    ensures Halved(p, k)
  {
    Pow2Mono(k, m);
    MulMono(Pow2(k), Pow2(m), Last(p) - First(p) - 1);
  }

  lemma ShrunkLess(p: PartitionCtx, m: nat, k: nat)
    requires Shrunk(p, m) && k <= m
    ensures Shrunk(p, k)
  {
    Pow2Mono(2 * k, 2 * m);
    if First(p) + 18 < Last(p) { MulMono(Pow2(2 * k), Pow2(2 * m), Last(p) - First(p) - 18); }
    hide Pow2, BitLength;
  }

  lemma HalvingStep(length: nat, half: nat, power: nat, bound: nat)
    requires half >= 2 && 2 * half <= length + 1
    requires (length - 1) * power < bound
    ensures (half - 1) * (2 * power) < bound
    ensures 2 * power < bound || power == 0
  {
    MulMono(2 * (half - 1), length - 1, power);
    assert (half - 1) * (2 * power) == 2 * (half - 1) * power;
    MulMono(1, half - 1, 2 * power);
  }

  lemma FewRounds(length: nat, m: nat, finalTime: nat)
    requires length > 18 && Quartered(length, m, finalTime) && finalTime < U64
    ensures m <= 31
  {
    if m > 31 {
      Pow2Mono(64, 2 * m);
      Pow2Word(64, 256);
      MulMono(1, length - 18, Pow2(2 * m));
    }
  }

  lemma FourTimes(length: nat, piece: nat, power: nat)
    requires piece > 18 && 4 * piece <= length + 54
    ensures (piece - 18) * (4 * power) <= (length - 18) * power
  {
    MulMono(4 * (piece - 18), length - 18, power);
    assert (piece - 18) * (4 * power) == 4 * (piece - 18) * power;
  }

  lemma QuarterStep(length: nat, piece: nat, m: nat, finalTime: nat)
    requires piece >= 2 && 2 * piece <= length + 1 && 4 * piece <= length + 54
    requires Quartered(length, m, finalTime) && finalTime < U64
    ensures Quartered(piece, m + 1, finalTime)
  {
    if piece > 18 {
      FourTimes(length, piece, Pow2(2 * m));
      assert Pow2(2 * (m + 1)) == 2 * Pow2(2 * m + 1) == 4 * Pow2(2 * m);
    } else if length > 18 {
      FewRounds(length, m, finalTime);
      BitLengthMono(piece - 1, 17);
      assert BitLength(17) == 5;
    } else {
      BitLengthMono(piece - 1, (length - 1) / 2);
    }
    hide Pow2;
  }

  lemma QueryCore(p: PartitionCtx, caller: Address, now: nat, piece: nat, left: nat, right: nat)
    requires Core(p) && Apply(p, caller, now, MakeQuery(piece, left, right)).Some?
    ensures Core(Apply(p, caller, now, MakeQuery(piece, left, right)).value)
  {
    hide Deadline;
    assert right in p.queryArray;
    PointsEnds(left, right, p.querySize);
    hide Points;
  }

  /** Where finalTime is safe no interval the game can reach wraps when it is sliced. */
  lemma NearIsSafe(left: nat, right: nat, querySize: nat, finalTime: nat)
    requires left < right <= finalTime < MOD && 2 < querySize < MAX_QUERY_SIZE && Safe(finalTime, querySize)
    requires right == finalTime ==> Tail(right - left, querySize - 1) == Tail(finalTime, querySize - 1)
    requires right < finalTime ==> right + Tail(finalTime, querySize - 1) <= finalTime
    ensures Points(left, right, querySize) == Cut(left, right, querySize)
  {
    TailBounds(right - left, querySize - 1);
    SliceExact(left, right, querySize);
    hide Points, Cut, Tail;
  }

  // the near condition passes to a piece that may be queried
  lemma NearPiece(p: PartitionCtx, piece: nat)
    requires Sliced(p) && Near(p) && piece + 1 < p.querySize && p.queryArray[piece + 1] > p.queryArray[piece] + 1
    ensures var left, right, n := p.queryArray[piece], p.queryArray[piece + 1], p.querySize - 1;
      && (right == p.finalTime ==> Tail(right - left, n) == Tail(p.finalTime, n))
      && (right < p.finalTime ==> right + Tail(p.finalTime, n) <= p.finalTime)
  {
    TailOfPiece(First(p), Last(p), p.querySize, piece);
    hide Tail, Cut;
  }

  /** A query re-slices exactly the piece it names. */
  lemma QuerySlices(p: PartitionCtx, caller: Address, now: nat, piece: nat, left: nat, right: nat)
    requires Core(p) && Sliced(p) && Near(p) && Safe(p.finalTime, p.querySize)
    requires Apply(p, caller, now, MakeQuery(piece, left, right)).Some?
    ensures var q := Apply(p, caller, now, MakeQuery(piece, left, right)).value;
      q.queryArray == Cut(left, right, p.querySize) && First(q) == left && Last(q) == right && Near(q)
  {
    hide Deadline, Commitments, Answered, Tail;
    NearPiece(p, piece);
    assert right in p.queryArray;
    hide Sliced, Near;
    NearIsSafe(left, right, p.querySize, p.finalTime);
    PointsEnds(left, right, p.querySize);
    hide Points, Cut, Safe;
    var q := Apply(p, caller, now, MakeQuery(piece, left, right)).value;
    NearAt(q);
  }

  // unfolded in one place
  lemma NearAt(p: PartitionCtx)
    ensures var n := p.querySize - 1;
      p.querySize > 2
      && (Last(p) == p.finalTime && First(p) < Last(p) ==> Tail(Last(p) - First(p), n) == Tail(p.finalTime, n))
      && (Last(p) < p.finalTime ==> Last(p) + Tail(p.finalTime, n) <= p.finalTime)
      ==> Near(p)
  {
    hide Tail, First, Last;
  }

  /** Each interval makeQuery accepts is at most the ceiling of half the one before. */
  lemma QueryHalves(p: PartitionCtx, caller: Address, now: nat, piece: nat, left: nat, right: nat, m: nat)
    requires Core(p) && Sliced(p) && Near(p) && Halved(p, m) && Safe(p.finalTime, p.querySize)
    requires Apply(p, caller, now, MakeQuery(piece, left, right)).Some?
    ensures var q := Apply(p, caller, now, MakeQuery(piece, left, right)).value;
      && Sliced(q) && Near(q) && First(q) == left && Last(q) == right
      && 2 * (Last(q) - First(q)) <= Last(p) - First(p) + 1
      && Halved(q, m + 1)
  {
    QueryCore(p, caller, now, piece, left, right);
    QuerySlices(p, caller, now, piece, left, right);
    CutPiece(First(p), Last(p), p.querySize, piece);
    assert Pow2(m + 1) == 2 * Pow2(m);
    hide Deadline, Points, Cut, Pow2, Commitments, Answered, Near, Tail;
    HalvingStep(Last(p) - First(p), right - left, Pow2(m), p.finalTime);
  }

  lemma QueryQuarters(p: PartitionCtx, caller: Address, now: nat, piece: nat, left: nat, right: nat, m: nat)
    requires Core(p) && Sliced(p) && Near(p) && Shrunk(p, m) && Safe(p.finalTime, p.querySize)
    requires Apply(p, caller, now, MakeQuery(piece, left, right)).Some?
    ensures Shrunk(Apply(p, caller, now, MakeQuery(piece, left, right)).value, m + 1)
  {
    QuerySlices(p, caller, now, piece, left, right);
    CutPiece(First(p), Last(p), p.querySize, piece);
    if p.querySize >= 5 && p.finalTime < U64 {
      CutQuarter(First(p), Last(p), p.querySize, piece);
      hide Deadline, Points, Cut, Commitments, Answered, Near, Tail, Quartered;
      QuarterStep(Last(p) - First(p), right - left, m, p.finalTime);
    }
    hide Deadline, Points, Cut, Commitments, Answered, Near, Tail, Quartered;
  }

  lemma ReplyCore(p: PartitionCtx, caller: Address, now: nat, times: seq<nat>, hashes: seq<Hash>)
    requires Core(p) && Apply(p, caller, now, ReplyQuery(times, hashes)).Some?
    ensures Core(Apply(p, caller, now, ReplyQuery(times, hashes)).value)
  {
    hide Deadline, Posted;
    PostedIsWriteOnce(p, times, hashes);
  }

  lemma ApplyCore(p: PartitionCtx, caller: Address, now: nat, move: Move)
    requires Core(p) && Apply(p, caller, now, move).Some?
    ensures Core(Apply(p, caller, now, move).value)
  {
    hide Deadline;
    match move
    case ReplyQuery(times, hashes) => ReplyCore(p, caller, now, times, hashes);
    case MakeQuery(piece, left, right) => QueryCore(p, caller, now, piece, left, right);
    case _ =>
  }

  lemma SameInterval(p: PartitionCtx, q: PartitionCtx)
    requires q.queryArray == p.queryArray && q.querySize == p.querySize && q.finalTime == p.finalTime
    ensures First(q) == First(p) && Last(q) == Last(p)
    ensures Sliced(p) ==> Sliced(q)
  {
  }

  // a call that leaves the interval alone
  lemma SameWf(p: PartitionCtx, q: PartitionCtx)
    requires Wf(p) && Core(q) && Queries(q) <= Queries(p)
    requires q.queryArray == p.queryArray && q.querySize == p.querySize && q.finalTime == p.finalTime
    ensures Wf(q)
  {
    SameInterval(p, q);
    HalvedLess(p, Queries(p), Queries(q));
    ShrunkLess(p, Queries(p), Queries(q));
    hide Core, Sliced, First, Last, Pow2, Queries, Tail, Quartered, Safe;
  }

  lemma ReplyWf(p: PartitionCtx, caller: Address, now: nat, times: seq<nat>, hashes: seq<Hash>)
    requires Wf(p) && Apply(p, caller, now, ReplyQuery(times, hashes)).Some?
    ensures Wf(Apply(p, caller, now, ReplyQuery(times, hashes)).value)
  {
    ReplyCore(p, caller, now, times, hashes);
    PostedIsWriteOnce(p, times, hashes);
    hide Posted, Core, Deadline, Halved, Sliced, Shrunk, Near, Safe;
    SameWf(p, Apply(p, caller, now, ReplyQuery(times, hashes)).value);
  }

  lemma QueryWf(p: PartitionCtx, caller: Address, now: nat, piece: nat, left: nat, right: nat)
    requires Wf(p) && Apply(p, caller, now, MakeQuery(piece, left, right)).Some?
    ensures Wf(Apply(p, caller, now, MakeQuery(piece, left, right)).value)
  {
    QueryCore(p, caller, now, piece, left, right);
    QueryHalves(p, caller, now, piece, left, right, Queries(p));
    QueryQuarters(p, caller, now, piece, left, right, Queries(p));
    hide Deadline, Points, Core, Sliced, Halved, Shrunk, Near, Safe;
  }

  lemma EndWf(p: PartitionCtx, caller: Address, now: nat, move: Move)
    requires Wf(p) && Apply(p, caller, now, move).Some?
    requires move.ClaimVictoryByTime? || move.PresentDivergence?
    ensures Wf(Apply(p, caller, now, move).value)
  {
    ApplyCore(p, caller, now, move);
    hide Core, Deadline, Halved, Sliced, Shrunk, Near, Safe;
    SameWf(p, Apply(p, caller, now, move).value);
  }

  lemma ApplyWf(p: PartitionCtx, caller: Address, now: nat, move: Move)
    requires Wf(p) && Apply(p, caller, now, move).Some?
    ensures Wf(Apply(p, caller, now, move).value)
  {
    hide Wf;
    match move
    case ReplyQuery(times, hashes) => ReplyWf(p, caller, now, times, hashes);
    case MakeQuery(piece, left, right) => QueryWf(p, caller, now, piece, left, right);
    case _ => EndWf(p, caller, now, move);
  }

  // ----- posted hashes are commitments -----

  /** What no call changes: the terms of the game and every hash once posted. */
  ghost predicate Keeps(p: PartitionCtx, q: PartitionCtx) {
    && q.challenger == p.challenger && q.claimer == p.claimer
    && q.finalTime == p.finalTime && q.querySize == p.querySize && q.roundDuration == p.roundDuration
    && p.timeSubmitted <= q.timeSubmitted
    && forall t :: t in p.timeSubmitted ==> q.HashAt(t) == p.HashAt(t)
  }

  lemma ApplyKeeps(p: PartitionCtx, caller: Address, now: nat, move: Move)
    requires Apply(p, caller, now, move).Some?
    ensures Keeps(p, Apply(p, caller, now, move).value)
  {
    if move.ReplyQuery? { PostedIsWriteOnce(p, move.postedTimes, move.postedHashes); }
  }

  // ----- runs -----

  datatype Event = Event(now: nat, caller: Address, move: Move)

  predicate Accepted(p: PartitionCtx, e: Event) { Apply(p, e.caller, e.now, e.move).Some? }

  // a reverted call leaves the instance as it was
  function Step(p: PartitionCtx, e: Event): PartitionCtx {
    if Accepted(p, e) then Apply(p, e.caller, e.now, e.move).value else p
  }

  function Run(p: PartitionCtx, events: seq<Event>): PartitionCtx {
    if events == [] then p else Step(Run(p, events[..|events| - 1]), events[|events| - 1])
  }

  // accepted makeQuery calls along a run
  function CountQueries(p: PartitionCtx, events: seq<Event>): nat {
    if events == [] then 0
    else
      var last := |events| - 1;
      var e := events[last];
      CountQueries(p, events[..last])
      + if e.move.MakeQuery? && Accepted(Run(p, events[..last]), e) then 1 else 0
  }

  lemma StepCore(p: PartitionCtx, e: Event)
    requires Core(p)
    ensures Core(Step(p, e)) && Keeps(p, Step(p, e)) && (Wf(p) ==> Wf(Step(p, e)))
  {
    if Accepted(p, e) {
      ApplyCore(p, e.caller, e.now, e.move);
      ApplyKeeps(p, e.caller, e.now, e.move);
      if Wf(p) { ApplyWf(p, e.caller, e.now, e.move); }
    }
  }

  /** Posted hashes are commitments: across every run, for every final time, the terms and
      every submitted hash stay, submitted times are at most finalTime, the points of a waiting
      query are submitted, and so are the ends of an interval whose hashes are awaited. */
  lemma {:induction false} RunKeeps(p: PartitionCtx, events: seq<Event>)
    requires Core(p)
    ensures Core(Run(p, events)) && Keeps(p, Run(p, events)) && (Wf(p) ==> Wf(Run(p, events)))
    decreases |events|
  {
    if events != [] {
      hide Step, Core, Wf;
      RunKeeps(p, events[..|events| - 1]);
      StepCore(Run(p, events[..|events| - 1]), events[|events| - 1]);
    }
  }

  /** A state of the game after m accepted makeQuery calls. */
  ghost predicate AfterQueries(p: PartitionCtx, m: nat) {
    && Wf(p) && Halved(p, m)
    && (p.Waiting() ==> m == Queries(p))
    && p.partitionGameIndex <= m + 1
  }

  lemma StepHalves(p: PartitionCtx, e: Event, m: nat)
    requires AfterQueries(p, m)
    ensures AfterQueries(Step(p, e), if e.move.MakeQuery? && Accepted(p, e) then m + 1 else m)
  {
    hide Deadline, Pow2;
    if Accepted(p, e) {
      ApplyWf(p, e.caller, e.now, e.move);
      match e.move
      case ReplyQuery(times, hashes) => PostedIsWriteOnce(p, times, hashes);
      case MakeQuery(piece, left, right) => QueryHalves(p, e.caller, e.now, piece, left, right, m);
      case _ =>
    }
  }

  lemma {:induction false} RunHalves(p: PartitionCtx, events: seq<Event>)
    requires Wf(p) && p.currentState == WaitingHashes && p.partitionGameIndex == 0
    ensures AfterQueries(Run(p, events), CountQueries(p, events))
    decreases |events|
  {
    if events != [] {
      var last := |events| - 1;
      RunHalves(p, events[..last]);
      StepHalves(Run(p, events[..last]), events[last], CountQueries(p, events[..last]));
    }
  }

  /** The game is logarithmic: after m >= 1 accepted makeQuery calls 2^m < finalTime, and r
      replies need r <= 1 or 2^(r-1) < finalTime, for every query size and all behaviours. */
  lemma LogarithmicGame(p: PartitionCtx, events: seq<Event>)
    requires Wf(p) && p.currentState == WaitingHashes && p.partitionGameIndex == 0
    ensures var m := CountQueries(p, events); m >= 1 ==> Pow2(m) < p.finalTime
    ensures var r := Run(p, events).partitionGameIndex; r <= 1 || Pow2(r - 1) < p.finalTime
  {
    RunHalves(p, events);
    RunKeeps(p, events);
    var m, r := CountQueries(p, events), Run(p, events).partitionGameIndex;
    if r > 1 { Pow2Mono(r - 1, m); }
  }

  /** The finished states are never left; from one of them only presentDivergence is accepted. */
  lemma {:induction false} FinishedIsFinal(p: PartitionCtx, events: seq<Event>)
    requires !p.Waiting()
    ensures !Run(p, events).Waiting()
    ensures Run(p, events).currentState == p.currentState || Run(p, events).currentState == DivergenceFound
    decreases |events|
  {
    if events != [] { FinishedIsFinal(p, events[..|events| - 1]); }
  }

  /** A divergence is taken from the challenger in whatever state the game is, finished or not:
      only the two posted times matter. */
  lemma DivergenceIgnoresState(p: PartitionCtx, state: PartitionState, caller: Address, now: nat, time: nat)
    requires Core(p)
    ensures var present := PresentDivergence(time);
      && (Apply(p.(currentState := state), caller, now, present).Some? <==> Apply(p, caller, now, present).Some?)
      && (Apply(p, caller, now, present).Some? <==>
            caller == p.challenger && time in p.timeHash && time + 1 in p.timeHash && time != p.finalTime)
  {
    hide Deadline;
  }

  // ----- a timely party never loses on time -----

  ghost predicate Clocked(events: seq<Event>) {
    forall i, j :: 0 <= i <= j < |events| ==> events[i].now <= events[j].now
  }

  // the deadline of a state is still ahead of (or at) a time
  predicate InTime(p: PartitionCtx, now: nat) {
    Deadline(p).Some? ==> now <= Deadline(p).value
  }

  // the move that settles what the party owes in a state; a divergence takes the debt away
  predicate Settles(state: PartitionState, move: Move) {
    match state
    case WaitingHashes => move.ReplyQuery? || move.PresentDivergence?
    case WaitingQuery => move.MakeQuery? || move.PresentDivergence?
    case _ => false
  }

  /** From point n of the run, where a party owes a move: an accepted move that settles it
      comes by the deadline, or the run stops before the deadline has passed. */
  ghost predicate PaysFrom(p: PartitionCtx, events: seq<Event>, n: nat)
    requires n <= |events|
  {
    var owing := Run(p, events[..n]);
    || (exists j :: n <= j < |events| && Settles(owing.currentState, events[j].move)
                    && Accepted(Run(p, events[..j]), events[j]) && InTime(owing, events[j].now))
    || (forall j :: n <= j < |events| ==> InTime(owing, events[j].now))
  }

  ghost predicate Timely(p: PartitionCtx, events: seq<Event>, owed: PartitionState) {
    forall n :: 0 <= n <= |events| && Run(p, events[..n]).currentState == owed ==> PaysFrom(p, events, n)
  }

  // the state in which each verdict by time is claimed
  predicate LosesBy(owed: PartitionState, lost: PartitionState) {
    (owed == WaitingHashes && lost == ChallengerWon) || (owed == WaitingQuery && lost == ClaimerWon)
  }

  lemma LostOnTime(p: PartitionCtx, e: Event, owed: PartitionState, lost: PartitionState)
    requires LosesBy(owed, lost) && p.currentState != lost && Step(p, e).currentState == lost
    ensures p.currentState == owed && !InTime(p, e.now)
  {
  }

  lemma {:induction false} TimelyUpTo(p: PartitionCtx, events: seq<Event>, owed: PartitionState,
                                      lost: PartitionState, n: nat)
    requires p.Waiting() && Clocked(events) && Timely(p, events, owed) && n <= |events|
    requires LosesBy(owed, lost)
    ensures Run(p, events[..n]).currentState != lost
  {
    hide Step, InTime, Accepted, Settles;
    if n == 0 {
    } else {
      TimelyUpTo(p, events, owed, lost, n - 1);
      assert events[..n][..n - 1] == events[..n - 1];
      var before, e := Run(p, events[..n - 1]), events[n - 1];
      if Step(before, e).currentState == lost {
        LostOnTime(before, e, owed, lost);
        assert PaysFrom(p, events, n - 1);
        LateIsNotPaid(before, events, n - 1);
      }
    }
  }

  // a deadline passed at one event has passed at all later ones
  lemma LateIsNotPaid(owing: PartitionCtx, events: seq<Event>, n: nat)
    requires Clocked(events) && n < |events| && !InTime(owing, events[n].now)
    ensures forall j :: n <= j < |events| ==> !InTime(owing, events[j].now)
  {
    hide Deadline;
  }

  /** A claimer that answers every query by its deadline is never beaten on time, and neither
      is a challenger that queries or presents a divergence by its own. */
  lemma TimelyNeverLoses(p: PartitionCtx, events: seq<Event>)
    requires p.Waiting() && Clocked(events)
    ensures Timely(p, events, WaitingHashes) ==> Run(p, events).currentState != ChallengerWon
    ensures Timely(p, events, WaitingQuery) ==> Run(p, events).currentState != ClaimerWon
  {
    hide Step, PaysFrom;
    assert events[..|events|] == events;
    if Timely(p, events, WaitingHashes) { TimelyUpTo(p, events, WaitingHashes, ChallengerWon, |events|); }
    if Timely(p, events, WaitingQuery) { TimelyUpTo(p, events, WaitingQuery, ClaimerWon, |events|); }
  }
}
