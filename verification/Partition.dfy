/** The partition game: one instance, its public calls, and the cut it makes. */
module Partition {
  import opened Arithmetic
  import opened Common

  const MAX_QUERY_SIZE: nat := 20
  // seconds to build the machine, picoseconds per instruction
  const START_TIME: nat := 40
  const PICO_PER_INSN: nat := 500
  const PICO_PER_SECOND: nat := 1_000_000_000_000

  datatype PartitionState = WaitingQuery | WaitingHashes | ChallengerWon | ClaimerWon | DivergenceFound

  datatype PartitionCtx = PartitionCtx(
    challenger: Address,
    claimer: Address,
    finalTime: nat,
    timeSubmitted: set<nat>,
    timeHash: map<nat, Hash>,
    querySize: nat,
    queryArray: seq<nat>,
    timeOfLastMove: nat,
    roundDuration: nat,
    partitionGameIndex: nat,
    currentState: PartitionState,
    divergenceTime: nat)
  {
    // an unset slot of the mapping reads as zero
    function HashAt(t: nat): Hash { if t in timeHash then timeHash[t] else ZERO_HASH }

    predicate Waiting() { currentState.WaitingQuery? || currentState.WaitingHashes? }
  }

  datatype Move =
    | ReplyQuery(postedTimes: seq<nat>, postedHashes: seq<Hash>)
    | MakeQuery(queryPiece: nat, leftPoint: nat, rightPoint: nat)
    | ClaimVictoryByTime
    | PresentDivergence(time: nat)

  // ----- slice -----

  /** slice as the code computes it: leftPoint + i wraps. */
  function Points(left: nat, right: nat, querySize: nat): (points: seq<nat>)
    requires left < right && querySize > 2
    ensures |points| == querySize
  {
    var last := querySize - 1;
    var length := right - left;
    if length < 2 * last then
      seq(querySize, i requires 0 <= i < querySize => if i < last && Add(left, i) < right then Add(left, i) else right)
    else
      seq(querySize, i requires 0 <= i < querySize => if i < last then left + Times(i, length / last) else right)
  }

  /** The query points slice is meant to list. */
  function Cut(left: nat, right: nat, querySize: nat): (points: seq<nat>)
    requires left < right && querySize > 2
    ensures |points| == querySize
  {
    var last := querySize - 1;
    var length := right - left;
    if length < 2 * last then
      seq(querySize, i requires 0 <= i < querySize => if i < last && left + i < right then left + i else right)
    else
      seq(querySize, i requires 0 <= i < querySize => if i < last then left + Times(i, length / last) else right)
  }

  // each piece is at most the ceiling of half the interval
  predicate HalvesAt(left: nat, right: nat, points: seq<nat>, i: nat)
    requires i + 1 < |points|
  {
    points[i] <= points[i + 1] && 2 * (points[i + 1] - points[i]) <= right - left + 1
  }

  lemma DivParts(length: nat, n: nat) returns (d: nat, j: nat)
    requires n > 0
    ensures d == length / n && length == Times(n, d) + j && j < n
    ensures length >= 2 * n ==> d >= 2
  {
    d, j := length / n, length % n;
    if length >= 2 * n && d < 2 { MulMono(d, 1, n); }
  }

  lemma TimesNext(i: nat, d: nat)
    ensures Times(i + 1, d) == Times(i, d) + d
  {
  }

  lemma TimesMono(a: nat, b: nat, d: nat)
    requires a <= b
    ensures Times(a, d) <= Times(b, d)
  {
    MulMono(a, b, d);
  }

  /** In an interval long enough to jump, every piece but the last has length d, and the last
      takes the remainder too. */
  lemma JumpPiece(left: nat, right: nat, querySize: nat, i: nat) returns (d: nat, j: nat)
    requires left < right && querySize > 2 && i < querySize - 1 && right - left >= 2 * (querySize - 1)
    ensures d == (right - left) / (querySize - 1) && d >= 2 && j < querySize - 1
    ensures right - left == Times(querySize - 1, d) + j
    ensures var points := Cut(left, right, querySize);
      && points[i] == left + Times(i, d) <= right
      && points[i + 1] == points[i] + (if i + 1 < querySize - 1 then d else d + j)
  {
    var n := querySize - 1;
    d, j := DivParts(right - left, n);
    assert Cut(left, right, querySize)[i] == left + Times(i, d);
    if i + 1 < n { assert Cut(left, right, querySize)[i + 1] == left + Times(i + 1, d); }
    TimesNext(i, d);
    TimesMono(i + 1, n, d);
    hide Times;
  }

  /** In a short interval every piece but the last is at most one step. */
  lemma StepPiece(left: nat, right: nat, querySize: nat, i: nat)
    requires left < right && querySize > 2 && i < querySize - 1 && right - left < 2 * (querySize - 1)
    ensures var points, n := Cut(left, right, querySize), querySize - 1;
      && points[i] == (if left + i < right then left + i else right)
      && points[i + 1] == (if i + 1 < n && left + i + 1 < right then left + i + 1 else right)
  {
  }

  lemma JumpHalves(length: nat, n: nat, d: nat, j: nat)
    requires n >= 2 && d >= 2 && j < n && length == Times(n, d) + j
    ensures 2 * d <= 2 * (d + j) <= length + 1
  {
    TimesMono(2, n, d);
    if n > 2 {
      TimesNext(n - 1, d);
      TimesNext(n - 2, d);
      MulMono(2, d, n - 2);
      assert Times(n - 2, d) == d * (n - 2);
    }
    hide Times;
  }

  lemma CutPiece(left: nat, right: nat, querySize: nat, i: nat)
    requires left < right && querySize > 2 && i < querySize - 1
    ensures HalvesAt(left, right, Cut(left, right, querySize), i)
    ensures left <= Cut(left, right, querySize)[i] <= right
  {
    if right - left >= 2 * (querySize - 1) {
      var d, j := JumpPiece(left, right, querySize, i);
      JumpHalves(right - left, querySize - 1, d, j);
    } else {
      StepPiece(left, right, querySize, i);
    }
    hide Cut, Times;
  }

  /** With five points or more a piece is at most about a quarter of the interval. */
  lemma CutQuarter(left: nat, right: nat, querySize: nat, i: nat)
    requires left < right && 5 <= querySize < MAX_QUERY_SIZE && i < querySize - 1
    ensures var points := Cut(left, right, querySize); 4 * (points[i + 1] - points[i]) <= right - left + 54
  {
    if right - left >= 2 * (querySize - 1) {
      var d, j := JumpPiece(left, right, querySize, i);
      TimesMono(4, querySize - 1, d);
    } else {
      StepPiece(left, right, querySize, i);
    }
    hide Cut;
  }

  /** slice is a correct cut: it starts at left, ends at right, never decreases, every piece
      is at most the ceiling of half the interval, and an interval no longer than the number
      of pieces is listed point by point. */
  lemma CutCorrect(left: nat, right: nat, querySize: nat)
    requires left < right && querySize > 2
    ensures var points := Cut(left, right, querySize);
      && points[0] == left
      && points[querySize - 1] == right
      && (forall i :: 0 <= i < querySize - 1 ==> HalvesAt(left, right, points, i))
      && (forall i :: 0 <= i < querySize ==> left <= points[i] <= right)
      && (right - left <= querySize - 1 ==> forall t :: left <= t <= right ==> t in points)
  {
    var points := Cut(left, right, querySize);
    assert points[0] == left;
    forall i | 0 <= i < querySize - 1
      ensures HalvesAt(left, right, points, i) && left <= points[i] <= right
    {
      CutPiece(left, right, querySize, i);
    }
    if right - left <= querySize - 1 {
      forall t | left <= t <= right ensures t in points {
        assert points[t - left] == t;
      }
    }
  }

  /** The code's slice is the meant one exactly when no leftPoint + i reaches 2^256: an
      interval long enough to jump, or one that starts far enough below. */
  lemma SliceExact(left: nat, right: nat, querySize: nat)
    requires left < right < MOD && 2 < querySize < MAX_QUERY_SIZE
    ensures Points(left, right, querySize) == Cut(left, right, querySize)
      <==> right - left >= 2 * (querySize - 1) || left + querySize - 2 < MOD
  {
    var points, cut, last := Points(left, right, querySize), Cut(left, right, querySize), querySize - 1;
    if right - left < 2 * last {
      if left + last - 1 < MOD {
        forall i | 0 <= i < last ensures points[i] == cut[i] { AddExact(left, i); }
        assert points == cut;
      } else {
        AddWraps(left, last - 1);
        assert points[last - 1] < left <= cut[last - 1];
      }
    }
  }

  /** Both versions start at left, end at right and list nothing beyond. */
  lemma PointsEnds(left: nat, right: nat, querySize: nat)
    requires left < right < MOD && querySize > 2
    ensures var points := Points(left, right, querySize);
      points[0] == left && points[querySize - 1] == right && forall t :: t in points ==> t <= right
  {
    AddExact(left, 0);
    if right - left >= 2 * (querySize - 1) {
      forall i | 0 <= i < querySize ensures Points(left, right, querySize)[i] <= right {
        if i < querySize - 1 { CutPiece(left, right, querySize, i); }
        assert Points(left, right, querySize)[i] == Cut(left, right, querySize)[i];
      }
    }
  }

  // ----- how close to 2^256 a game can slice -----

  /** The length an interval comes down to when the last of its n pieces is taken again and
      again, as long as a piece of two or more is left: it keeps its remainder by n - 1. */
  function Tail(length: nat, n: nat): nat {
    if n < 2 || length < 2 then length else 2 + (length - 2) % (n - 1)
  }

  lemma TailBounds(length: nat, n: nat)
    requires n >= 2
    ensures Tail(length, n) <= length && Tail(length, n) <= n
    ensures length >= 2 ==> Tail(length, n) >= 2
    ensures 2 <= length <= n ==> Tail(length, n) == length
  {
    if length >= 2 { ModBelow(length - 2, n - 1); }
  }

  lemma ModBelow(a: nat, m: nat)
    requires m > 0
    ensures a % m <= a && a % m < m && (a < m ==> a % m == a)
  {
  }

  lemma ModSame(a: nat, m: nat, k: nat)
    requires m > 0
    ensures (a + Times(k, m)) % m == a % m
  {
    var q, r := a / m, a % m;
    assert a == q * m + r;
    assert a + Times(k, m) == (q + k) * m + r;
    DivUnique(a + Times(k, m), m, q + k, r);
  }

  lemma TailSame(length: nat, rest: nat, n: nat, k: nat)
    requires n >= 2 && rest >= 2 && length == rest + Times(k, n - 1)
    ensures Tail(length, n) == Tail(rest, n)
  {
    ModSame(rest - 2, n - 1, k);
    hide Times;
  }

  lemma TailOfJump(left: nat, right: nat, querySize: nat, i: nat)
    requires left < right && querySize > 2 && i < querySize - 1 && right - left >= 2 * (querySize - 1)
    ensures var points, n := Cut(left, right, querySize), querySize - 1;
      && left <= points[i] && points[i + 1] <= right
      && (i + 1 == n ==> points[i + 1] == right && Tail(right - points[i], n) == Tail(right - left, n))
      && (i + 1 < n ==> points[i + 1] + Tail(right - left, n) <= right && points[i + 1] < right)
  {
    var n := querySize - 1;
    var d, j := JumpPiece(left, right, querySize, i);
    TimesNext(n - 1, d);
    assert Times(n - 1, d) == Times(d, n - 1);
    TailSame(right - left, d + j, n, d);
    TailBounds(d + j, n);
    TimesNext(i, d);
    if i + 1 < n { TimesMono(i + 1, n - 1, d); }
    hide Times, Cut, Tail;
  }

  lemma TailOfStep(left: nat, right: nat, querySize: nat, i: nat)
    requires left < right && querySize > 2 && i < querySize - 1 && right - left < 2 * (querySize - 1)
    requires Cut(left, right, querySize)[i + 1] > Cut(left, right, querySize)[i] + 1
    ensures var points, n := Cut(left, right, querySize), querySize - 1;
      && left <= points[i] && points[i + 1] == right
      && Tail(right - points[i], n) == Tail(right - left, n)
  {
    StepPiece(left, right, querySize, i);
    assert Times(1, querySize - 2) == querySize - 2;
    TailSame(right - left, right - left - (querySize - 2), querySize - 1, 1);
    hide Cut, Tail;
  }

  /** A piece long enough to be queried either ends where its interval does, and has the same
      tail, or keeps at least that tail away from there. */
  lemma TailOfPiece(left: nat, right: nat, querySize: nat, i: nat)
    requires left < right && querySize > 2 && i < querySize - 1
    requires Cut(left, right, querySize)[i + 1] > Cut(left, right, querySize)[i] + 1
    ensures var points, n := Cut(left, right, querySize), querySize - 1;
      && left <= points[i] && points[i + 1] <= right
      && (points[i + 1] == right ==> Tail(right - points[i], n) == Tail(right - left, n))
      && (points[i + 1] < right ==> points[i + 1] + Tail(right - left, n) <= right)
  {
    if right - left >= 2 * (querySize - 1) {
      TailOfJump(left, right, querySize, i);
    } else {
      TailOfStep(left, right, querySize, i);
    }
    hide Cut, Tail;
  }

  /** The final times on which no slice of a game can wrap, for the size of its queries. */
  predicate Safe(finalTime: nat, querySize: nat) {
    querySize <= 2 || finalTime - Tail(finalTime, querySize - 1) + querySize - 2 < MOD
  }

  /** All of them, except for some within querySize - 4 of 2^256. */
  lemma SafeBelow(finalTime: nat, querySize: nat)
    requires finalTime > 0 && finalTime + querySize <= MOD + 3 && querySize < MAX_QUERY_SIZE
    ensures Safe(finalTime, querySize)
  {
    if querySize > 2 { TailBounds(finalTime, querySize - 1); }
  }

  // ----- the deadline -----

  /** getMaxStateDuration on wrapping words. The division reverts when the power wraps to 0. */
  function MaxStateDuration(state: PartitionState, roundDuration: nat, timeToStart: nat, partitionSize: nat,
                            gameIndex: nat, maxCycle: nat, picoPerInsn: nat): Option<nat>
  {
    var divisor := Pow(partitionSize, gameIndex) % MOD;
    if divisor == 0 then None
    else
      var share := maxCycle / divisor;
      var work := if gameIndex != 0 then Mul(share, Sub(partitionSize, 1)) else share;
      if state.WaitingQuery? || state.WaitingHashes? then
        Some(Add(Add(timeToStart, Mul(work, picoPerInsn) / PICO_PER_SECOND), roundDuration))
      else Some(0)
  }

  /** What the state a game is in allows its party. */
  function Allowance(p: PartitionCtx): Option<nat> {
    MaxStateDuration(p.currentState, p.roundDuration, START_TIME, p.querySize, p.partitionGameIndex, p.finalTime, PICO_PER_INSN)
  }

  /** getCurrentStateDeadline. */
  function Deadline(p: PartitionCtx): Option<nat> {
    var duration := Allowance(p);
    if duration.None? then None else Some(Add(p.timeOfLastMove, duration.value))
  }

  // ----- the calls -----

  function Create(challenger: Address, claimer: Address, initialHash: Hash, claimerFinalHash: Hash,
                  finalTime: nat, querySize: nat, roundDuration: nat, now: nat): Option<PartitionCtx>
  {
    if challenger == claimer || finalTime == 0 || querySize <= 2 || querySize >= MAX_QUERY_SIZE || roundDuration <= 50
    then None
    else Some(PartitionCtx(challenger, claimer, finalTime, {0, finalTime},
                           map[0 := initialHash][finalTime := claimerFinalHash],
                           querySize, Points(0, finalTime, querySize), now, roundDuration, 0, WaitingHashes, 0))
  }

  /** Posting answer after answer; a time that was answered before keeps its hash. */
  function Posted(p: PartitionCtx, times: seq<nat>, hashes: seq<Hash>): PartitionCtx
    requires |times| == |hashes|
  {
    if times == [] then p
    else
      var last := |times| - 1;
      var q := Posted(p, times[..last], hashes[..last]);
      if times[last] in q.timeSubmitted then q
      else q.(timeSubmitted := q.timeSubmitted + {times[last]}, timeHash := q.timeHash[times[last] := hashes[last]])
  }

  /** One public call on one instance; None is a revert. */
  function Apply(p: PartitionCtx, caller: Address, now: nat, move: Move): Option<PartitionCtx> {
    match move
    case ReplyQuery(times, hashes) =>
      if caller != p.claimer || p.currentState != WaitingHashes then None
      else if |times| != p.querySize || |hashes| != p.querySize || times != p.queryArray then None
      else Some(Posted(p, times, hashes).(currentState := WaitingQuery, timeOfLastMove := now,
                                          partitionGameIndex := p.partitionGameIndex + 1))
    case MakeQuery(piece, left, right) =>
      if caller != p.challenger || p.currentState != WaitingQuery then None
      else if piece + 1 >= p.querySize || piece + 1 >= |p.queryArray| then None
      else if left != p.queryArray[piece] || right != p.queryArray[piece + 1] || right <= left + 1 then None
      else if p.querySize <= 2 then None
      else Some(p.(queryArray := Points(left, right, p.querySize), currentState := WaitingHashes, timeOfLastMove := now))
    case ClaimVictoryByTime =>
      var deadline := Deadline(p);
      if deadline.None? || now <= deadline.value then None
      else if caller == p.challenger && p.currentState == WaitingHashes then Some(p.(currentState := ChallengerWon))
      else if caller == p.claimer && p.currentState == WaitingQuery then Some(p.(currentState := ClaimerWon))
      else None
    case PresentDivergence(time) =>
      if caller != p.challenger || time >= p.finalTime then None
      else if time !in p.timeSubmitted || time + 1 !in p.timeSubmitted then None
      else Some(p.(divergenceTime := time, currentState := DivergenceFound))
  }
}
