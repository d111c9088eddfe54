/** Where the slice's wrap-around can be reached in a game, and what it does to the game. */
module PartitionWraps {
  import opened Arithmetic
  import opened Common
  import opened Partition
  import opened PartitionRuns

  function Counted(p: PartitionCtx, e: Event): nat { if e.move.MakeQuery? && Accepted(p, e) then 1 else 0 }

  lemma RunOne(p: PartitionCtx, events: seq<Event>, e: Event)
    ensures Run(p, events + [e]) == Step(Run(p, events), e)
    ensures CountQueries(p, events + [e]) == CountQueries(p, events) + Counted(Run(p, events), e)
  {
    assert (events + [e])[..|events + [e]| - 1] == events;
    hide Step, Accepted;
  }

  lemma {:induction false} RunConcat(p: PartitionCtx, first: seq<Event>, second: seq<Event>)
    ensures Run(p, first + second) == Run(Run(p, first), second)
    ensures CountQueries(p, first + second) == CountQueries(p, first) + CountQueries(Run(p, first), second)
    decreases |second|
  {
    if second == [] {
      assert first + second == first;
    } else {
      hide Run, CountQueries, Counted;
      var front, e := second[..|second| - 1], second[|second| - 1];
      assert second == front + [e];
      assert first + (front + [e]) == (first + front) + [e];
      RunConcat(p, first, front);
      RunOne(p, first + front, e);
      RunOne(Run(p, first), front, e);
    }
  }

  // the claimer answers the query as it stands
  function Answer(p: PartitionCtx): Event {
    Event(0, p.claimer, ReplyQuery(p.queryArray, seq(|p.queryArray|, i => ZERO_HASH)))
  }

  // the challenger queries a piece
  function Ask(p: PartitionCtx, piece: nat): Event
    requires piece + 1 < |p.queryArray|
  {
    Event(0, p.challenger, MakeQuery(piece, p.queryArray[piece], p.queryArray[piece + 1]))
  }

  lemma Answering(p: PartitionCtx)
    requires Core(p) && p.currentState == WaitingHashes
    ensures var q := Step(p, Answer(p));
      && Accepted(p, Answer(p)) && Core(q) && Keeps(p, q)
      && q.currentState == WaitingQuery && q.queryArray == p.queryArray
  {
    var e := Answer(p);
    PostedIsWriteOnce(p, e.move.postedTimes, e.move.postedHashes);
    ApplyCore(p, e.caller, e.now, e.move);
    ApplyKeeps(p, e.caller, e.now, e.move);
    hide Core, Keeps, Posted;
  }

  lemma Asking(p: PartitionCtx, piece: nat)
    requires Core(p) && p.currentState == WaitingQuery && piece + 1 < p.querySize
    requires p.queryArray[piece + 1] > p.queryArray[piece] + 1
    ensures var q := Step(p, Ask(p, piece));
      && Accepted(p, Ask(p, piece)) && Core(q) && Keeps(p, q) && q.currentState == WaitingHashes
      && q.queryArray == Points(p.queryArray[piece], p.queryArray[piece + 1], p.querySize)
      && First(q) == p.queryArray[piece] && Last(q) == p.queryArray[piece + 1]
  {
    var e := Ask(p, piece);
    hide Points;
    ApplyCore(p, e.caller, e.now, e.move);
    ApplyKeeps(p, e.caller, e.now, e.move);
    assert p.queryArray[piece + 1] in p.queryArray;
    PointsEnds(p.queryArray[piece], p.queryArray[piece + 1], p.querySize);
    hide Commitments, Answered, Keeps;
  }

  /** A round: the answer, and a query of a piece long enough. */
  lemma Round(p: PartitionCtx, piece: nat) returns (events: seq<Event>, q: PartitionCtx)
    requires Core(p) && p.currentState == WaitingHashes && piece + 1 < p.querySize
    requires p.queryArray[piece + 1] > p.queryArray[piece] + 1
    ensures q == Run(p, events) && CountQueries(p, events) == 1
    ensures Core(q) && Keeps(p, q) && q.currentState == WaitingHashes
    ensures q.queryArray == Points(p.queryArray[piece], p.queryArray[piece + 1], p.querySize)
    ensures First(q) == p.queryArray[piece] && Last(q) == p.queryArray[piece + 1]
  {
    Answering(p);
    var answered := Step(p, Answer(p));
    Asking(answered, piece);
    var ask := Ask(answered, piece);
    events := [Answer(p), ask];
    q := Step(answered, ask);
    assert events[..1] == [Answer(p)] && [Answer(p)][..0] == [];
    assert Run(p, []) == p && Run(p, [Answer(p)]) == answered;
    assert CountQueries(p, [Answer(p)]) == 0;
    hide Core, Keeps, Step, Accepted, Points;
  }

  // the interval ends at finalTime and is the meant cut
  ghost predicate AtTheEnd(p: PartitionCtx) {
    Core(p) && p.currentState == WaitingHashes && Sliced(p) && Last(p) == p.finalTime
  }

  // the last piece of an interval longer than the number of its pieces
  lemma LastPiece(p: PartitionCtx) returns (rest: nat)
    requires AtTheEnd(p) && Last(p) - First(p) >= p.querySize
    ensures var n := p.querySize - 1;
      && p.queryArray[n] == p.finalTime && p.queryArray[n - 1] == p.finalTime - rest
      && 2 <= rest < Last(p) - First(p)
      && Tail(rest, n) == Tail(p.finalTime - First(p), n)
  {
    var left, right, n := First(p), Last(p), p.querySize - 1;
    hide Tail, Commitments, Answered;
    rest := right - p.queryArray[n - 1];
    if right - left >= 2 * n {
      var d, j := JumpPiece(left, right, p.querySize, n - 1);
      TailOfJump(left, right, p.querySize, n - 1);
      TimesMono(1, n - 1, d);
      assert Times(1, d) == d;
      hide Times, Cut;
    } else {
      StepPiece(left, right, p.querySize, n - 1);
      TailOfStep(left, right, p.querySize, n - 1);
      hide Cut;
    }
  }

  // what an interval that ends at finalTime comes down to
  ghost function Rest(p: PartitionCtx): nat {
    if p.querySize > 2 && First(p) <= p.finalTime then Tail(p.finalTime - First(p), p.querySize - 1) else 0
  }

  // the slice, wrapping or not, of the last `rest` steps
  ghost predicate Bottomed(q: PartitionCtx, rest: nat) {
    && Core(q) && q.currentState == WaitingHashes && Last(q) == q.finalTime && First(q) + rest == q.finalTime
    && q.queryArray == (if First(q) < q.finalTime && q.querySize > 2 then Points(First(q), q.finalTime, q.querySize) else [])
  }

  ghost predicate Long(p: PartitionCtx) { Last(p) - First(p) >= p.querySize }

  lemma LastSlice(p: PartitionCtx, q: PartitionCtx, rest: nat)
    requires AtTheEnd(p) && Core(q) && q.currentState == WaitingHashes
    requires q.finalTime == p.finalTime && q.querySize == p.querySize
    requires 2 <= rest <= p.finalTime && Tail(rest, p.querySize - 1) == Rest(p)
    requires First(q) == p.finalTime - rest && Last(q) == p.finalTime && q.queryArray == Points(First(q), p.finalTime, p.querySize)
    ensures Rest(q) == Rest(p)
    ensures if Long(q) then AtTheEnd(q) else Bottomed(q, Rest(p))
  {
    TailBounds(rest, p.querySize - 1);
    SliceExact(First(q), p.finalTime, p.querySize);
    hide Tail, Commitments, Answered, Points, Cut;
  }

  lemma LastRound(p: PartitionCtx) returns (events: seq<Event>, q: PartitionCtx)
    requires AtTheEnd(p) && Long(p)
    ensures q == Run(p, events) && CountQueries(p, events) == 1 && Keeps(p, q)
    ensures First(p) < First(q) < Last(q) == Last(p) && Rest(q) == Rest(p)
    ensures if Long(q) then AtTheEnd(q) else Bottomed(q, Rest(p))
  {
    hide Run, CountQueries, Tail, Commitments, Answered, Points, Keeps, Cut;
    var rest := LastPiece(p);
    events, q := Round(p, p.querySize - 2);
    KeptTerms(p, q);
    hide Long, Bottomed, Sliced;
    LastSlice(p, q, rest);
  }

  lemma KeptTerms(p: PartitionCtx, q: PartitionCtx)
    requires Keeps(p, q)
    ensures q.finalTime == p.finalTime && q.querySize == p.querySize
  {
  }

  lemma KeepsOn(p: PartitionCtx, q: PartitionCtx, r: PartitionCtx)
    requires Keeps(p, q) && Keeps(q, r)
    ensures Keeps(p, r)
  {
  }

  /** Querying the last piece again and again brings the interval down to its tail. */
  lemma {:induction false} ToTheTail(p: PartitionCtx) returns (events: seq<Event>, q: PartitionCtx)
    requires AtTheEnd(p) && Long(p)
    ensures q == Run(p, events) && CountQueries(p, events) >= 1 && Keeps(p, q)
    ensures Bottomed(q, Rest(p))
    decreases Last(p) - First(p)
  {
    hide AtTheEnd, Long, Bottomed, Rest, Run, CountQueries, Keeps;
    events, q := LastRound(p);
    if Long(q) {
      var more, end := ToTheTail(q);
      RunConcat(p, events, more);
      KeepsOn(p, q, end);
      events, q := events + more, end;
    }
  }

  // the interval an accepted query opens is at most the ceiling of half the one before
  ghost predicate Halves(p: PartitionCtx, e: Event) {
    e.move.MakeQuery? && Accepted(p, e) ==> 2 * (Last(Step(p, e)) - First(Step(p, e))) <= Last(p) - First(p) + 1
  }

  ghost predicate AlwaysHalves(p: PartitionCtx) { forall events, e :: Halves(Run(p, events), e) }

  // the slice, wrapping or not, of an interval from v to finalTime
  ghost predicate Reopened(q: PartitionCtx, v: int) {
    && Core(q) && q.currentState == WaitingHashes
    && First(q) == v && 0 <= v < Last(q) == q.finalTime
    && q.queryArray == (if First(q) < q.finalTime && q.querySize > 2 then Points(First(q), q.finalTime, q.querySize) else [])
  }

  // where the wrapped piece starts
  ghost function Landing(p: PartitionCtx): int { p.finalTime - Rest(p) + p.querySize - 2 - MOD }

  lemma OpenedLong(p: PartitionCtx)
    requires AtTheEnd(p) && First(p) == 0 && !Safe(p.finalTime, p.querySize)
    ensures Long(p) && 0 <= Landing(p) && 2 <= Rest(p) < p.querySize
  {
    TailBounds(p.finalTime, p.querySize - 1);
    hide Tail;
  }

  /** Sliced at its tail, an interval that is not safe has its last piece start past 2^256; the
      query of that piece takes the game back to (nearly) the whole interval. */
  lemma WrappedQuery(q: PartitionCtx, rest: nat, v: int)
    requires Bottomed(q, rest) && 2 <= rest < q.querySize && v == q.finalTime - rest + q.querySize - 2 - MOD && v >= 0
    ensures var answered := Step(q, Answer(q));
      && |answered.queryArray| == q.querySize > 2
      && var e := Ask(answered, q.querySize - 2);
         Accepted(answered, e) && e.move.MakeQuery? && !Halves(answered, e)
         && Reopened(Step(answered, e), v) && Keeps(q, Step(answered, e))
  {
    var n := q.querySize - 1;
    hide Commitments, Answered, Apply;
    AddWraps(First(q), n - 1);
    assert q.queryArray[n - 1] == v && q.queryArray[n] == q.finalTime;
    Answering(q);
    var answered := Step(q, Answer(q));
    hide Points, Step, Accepted;
    Asking(answered, n - 1);
    SameInterval(q, answered);
    KeepsOn(q, answered, Step(answered, Ask(answered, n - 1)));
    hide Keeps;
    assert Reopened(Step(answered, Ask(answered, n - 1)), v) by { KeptTerms(q, Step(answered, Ask(answered, n - 1))); }
  }

  /** In a game that is not safe a slice wraps, and the query after it does not halve. */
  lemma Unhalved(p: PartitionCtx) returns (events: seq<Event>, e: Event)
    requires AtTheEnd(p) && First(p) == 0 && !Safe(p.finalTime, p.querySize)
    ensures var q := Run(p, events);
      && Accepted(q, e) && e.move.MakeQuery? && !Halves(q, e)
      && Reopened(Step(q, e), Landing(p)) && Keeps(p, Step(q, e))
  {
    OpenedLong(p);
    hide AtTheEnd, Long, Bottomed, Rest, Run, CountQueries, Reopened, Halves, Accepted, Step;
    var toTail, q := ToTheTail(p);
    KeptTerms(p, q);
    WrappedQuery(q, Rest(p), Landing(p));
    var answered := Step(q, Answer(q));
    RunOne(p, toTail, Answer(q));
    events, e := toTail + [Answer(q)], Ask(answered, q.querySize - 2);
    KeepsOn(p, q, Step(answered, e));
  }

  /** Every query of every run halves the interval if and only if the game is safe. */
  lemma HalvingExact(challenger: Address, claimer: Address, initialHash: Hash, finalHash: Hash,
                     finalTime: uint256, querySize: nat, roundDuration: nat, now: nat)
    requires Create(challenger, claimer, initialHash, finalHash, finalTime, querySize, roundDuration, now).Some?
    ensures var p := Create(challenger, claimer, initialHash, finalHash, finalTime, querySize, roundDuration, now).value;
      AlwaysHalves(p) <==> Safe(finalTime, querySize)
  {
    var p := Create(challenger, claimer, initialHash, finalHash, finalTime, querySize, roundDuration, now).value;
    CreateCore(challenger, claimer, initialHash, finalHash, finalTime, querySize, roundDuration, now);
    CreateWf(challenger, claimer, initialHash, finalHash, finalTime, querySize, roundDuration, now);
    if Safe(finalTime, querySize) {
      forall events, e ensures Halves(Run(p, events), e) {
        RunKeeps(p, events);
        WfHalves(Run(p, events), e);
      }
    } else {
      var events, e := Unhalved(p);
    }
  }

  lemma WfHalves(p: PartitionCtx, e: Event)
    requires Wf(p)
    ensures Halves(p, e)
  {
    hide Apply;
    if e.move.MakeQuery? && Accepted(p, e) {
      QueryHalves(p, e.caller, e.now, e.move.queryPiece, e.move.leftPoint, e.move.rightPoint, Queries(p));
    }
  }

  lemma BackAtTheStart(p: PartitionCtx)
    requires Reopened(p, 0)
    ensures AtTheEnd(p) && First(p) == 0
  {
    SliceExact(0, p.finalTime, p.querySize);
    hide Points, Cut, Commitments, Answered;
  }

  /** When the wrap lands exactly on 0 the game is back where it opened, and need never end:
      it has runs with any number of queries, so no bound on them holds. */
  lemma {:induction false} EndlessGame(p: PartitionCtx, k: nat) returns (events: seq<Event>)
    requires AtTheEnd(p) && First(p) == 0
    requires p.finalTime - Tail(p.finalTime, p.querySize - 1) + p.querySize - 2 == MOD
    ensures CountQueries(p, events) >= k
    decreases k
  {
    events := [];
    if k > 0 {
      assert Rest(p) == Tail(p.finalTime, p.querySize - 1);
      hide AtTheEnd, Tail, Run, CountQueries, Step, Accepted, Reopened, Halves, Keeps;
      var before, e := Unhalved(p);
      var q := Run(p, before);
      var again := Step(q, e);
      RunOne(p, before, e);
      BackAtTheStart(again);
      KeptTerms(p, again);
      var more := EndlessGame(again, k - 1);
      RunConcat(p, before + [e], more);
      events := before + [e] + more;
    }
  }

  // the query size the verification game uses, and a final time it accepts
  const TEN: nat := 10
  const LATE: nat := MOD - 6

  /** A wrap that can be reached: a game of ten points whose final time is 2^256 - 6 gets to an
      interval of two, the last one there is, and lists 0 among its points. */
  lemma SliceWraps(claimedHash: Hash) returns (p: PartitionCtx, events: seq<Event>)
    ensures Create(1, 2, ZERO_HASH, claimedHash, LATE, TEN, 51, 0) == Some(p)
    ensures var q := Run(p, events);
      && First(q) == LATE - 2 && Last(q) == LATE && |q.queryArray| == TEN
      && q.queryArray[TEN - 2] == 0 && q.queryArray[TEN - 3] == LATE
      && q.queryArray != Cut(First(q), Last(q), TEN)
  {
    CreateWf(1, 2, ZERO_HASH, claimedHash, LATE, TEN, 51, 0);
    CreateCore(1, 2, ZERO_HASH, claimedHash, LATE, TEN, 51, 0);
    p := Create(1, 2, ZERO_HASH, claimedHash, LATE, TEN, 51, 0).value;
    assert Rest(p) == 2;
    var q;
    hide Run;
    events, q := ToTheTail(p);
    KeptTerms(p, q);
    AddWraps(LATE - 2, TEN - 2);
    AddExact(LATE - 2, TEN - 3);
  }

  /** And that game never has to end. */
  lemma TenPointsWithoutEnd(claimedHash: Hash, k: nat) returns (p: PartitionCtx, events: seq<Event>)
    ensures Create(1, 2, ZERO_HASH, claimedHash, LATE, TEN, 51, 0) == Some(p)
    ensures CountQueries(p, events) >= k
  {
    CreateWf(1, 2, ZERO_HASH, claimedHash, LATE, TEN, 51, 0);
    CreateCore(1, 2, ZERO_HASH, claimedHash, LATE, TEN, 51, 0);
    p := Create(1, 2, ZERO_HASH, claimedHash, LATE, TEN, 51, 0).value;
    hide Run, CountQueries, Points;
    events := EndlessGame(p, k);
  }
}
