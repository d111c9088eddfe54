/** One dispute on its own: a compute instance with the game, partition and memory below it.
    Every transaction of the whole system acts on it as one of its moves, or not at all. */
module OneDispute {
  import opened Arithmetic
  import opened Common
  import P = Partition
  import M = MemoryManager
  import opened Machine
  import opened Protocol
  import opened Linkage

  // the sub-instances are those getSubInstances would list
  datatype View = View(
    compute: ComputeCtx,
    game: Option<VGCtx>,
    partition: Option<P.PartitionCtx>,
    memory: Option<M.MMCtx>)

  datatype Move =
    | Elsewhere
    | OnPartition(partitionMove: P.Move)
    | OnMemory(memoryMove: M.Move)
    | TakeTimeout
    | StartRun
    | Settle
    | ClaimGame
    | Submit(hash: Hash)
    | Agree
    | OpenDispute
    | TakeVerdict
    | ExpireCompute

  // the indices the contracts would hand out next
  datatype Upcoming = Upcoming(partition: nat, memory: nat, game: nat)

  function NextIndices(w: World): Upcoming { Upcoming(|w.partitions|, |w.memories|, |w.games|) }

  function ViewOf(w: World, ci: nat): View
    requires ci < |w.computes|
  {
    var c := w.computes[ci];
    if c.currentState != WaitingChallenge || c.vgInstance >= |w.games| then View(c, None, None, None)
    else
      var v := w.games[c.vgInstance];
      View(c, Some(v),
           if v.currentState == WaitPartition && v.partitionInstance < |w.partitions|
           then Some(w.partitions[v.partitionInstance]) else None,
           if v.currentState == WaitMemoryProveValues && v.mmInstance < |w.memories|
           then Some(w.memories[v.mmInstance]) else None)
  }

  /** What a transaction on the system is to one dispute. */
  function Label(w: World, ci: nat, call: Call): Move
    requires ci < |w.computes|
  {
    var d, c := ViewOf(w, ci), w.computes[ci];
    match call
    case PartitionCall(i, move) => if d.partition.Some? && i == d.game.value.partitionInstance then OnPartition(move) else Elsewhere
    case MemoryCall(i, move) => if d.memory.Some? && i == d.game.value.mmInstance then OnMemory(move) else Elsewhere
    case WinByPartitionTimeout(i) => if d.game.Some? && i == c.vgInstance then TakeTimeout else Elsewhere
    case StartMachineRunChallenge(i) => if d.game.Some? && i == c.vgInstance then StartRun else Elsewhere
    case SettleVerificationGame(i) => if d.game.Some? && i == c.vgInstance then Settle else Elsewhere
    case GameClaimVictoryByTime(i) => if d.game.Some? && i == c.vgInstance then ClaimGame else Elsewhere
    case SubmitClaim(i, hash) => if i == ci then Submit(hash) else Elsewhere
    case Confirm(i) => if i == ci then Agree else Elsewhere
    case Challenge(i) => if i == ci then OpenDispute else Elsewhere
    case WinByVG(i) => if i == ci then TakeVerdict else Elsewhere
    case ComputeClaimVictoryByTime(i) => if i == ci then ExpireCompute else Elsewhere
    case _ => Elsewhere
  }

  // the dispute once its game is over
  function Over(d: View, v: Option<VGCtx>): Option<View> {
    if v.None? then None else Some(View(d.compute, v, None, None))
  }

  // the dispute with no game below it
  function Bare(c: Option<ComputeCtx>): Option<View> {
    if c.None? then None else Some(View(c.value, None, None, None))
  }

  /** One move on one dispute; None is a revert. */
  function Apply(env: Env, d: View, next: Upcoming, caller: Address, now: nat, move: Move): Option<View> {
    match move
    case Elsewhere => Some(d)
    case OnPartition(m) =>
      if d.partition.None? then None
      else
        var p := P.Apply(d.partition.value, caller, now, m);
        if p.None? then None else Some(d.(partition := p))
    case OnMemory(m) =>
      if d.memory.None? then None
      else
        var c := M.Apply(env.depth, d.memory.value, caller, m);
        if c.None? then None else Some(d.(memory := c))
    case TakeTimeout =>
      if d.game.None? || d.partition.None? then None else Over(d, TimedOut(d.game.value, d.partition.value))
    case StartRun =>
      if d.game.None? || d.partition.None? then None
      else
        var v := Started(d.game.value, d.partition.value, next.memory, now);
        if v.None? then None else Some(View(d.compute, v, None, Some(OpenMemory(env, v.value))))
    case Settle =>
      if d.game.None? || d.memory.None? then None
      else
        var vm := Settled(env, d.game.value, d.memory.value, caller);
        Over(d, if vm.None? then None else Some(vm.value.0))
    case ClaimGame => if d.game.None? then None else Over(d, ClaimedByTime(d.game.value, caller, now))
    case Submit(hash) => Bare(Submitted(d.compute, caller, hash))
    case Agree => Bare(Confirmed(d.compute, caller))
    case OpenDispute =>
      if !CanChallenge(d.compute, caller) then None
      else
        var vp := GameFor(d.compute, now, next.partition);
        if vp.None? then None
        else Some(View(d.compute.(vgInstance := next.game, currentState := WaitingChallenge),
                       Some(vp.value.0), Some(vp.value.1), None))
    case TakeVerdict => if d.game.None? then None else Bare(Decided(d.compute, d.game.value))
    case ExpireCompute => Bare(Expired(d.compute, caller, now))
  }

  // a reverted move leaves the dispute as it was
  function Next(env: Env, d: View, next: Upcoming, caller: Address, now: nat, move: Move): View {
    var d' := Apply(env, d, next, caller, now, move);
    if d'.Some? then d'.value else d
  }

  // ----- refinement -----

  /** A transaction is accepted by the system exactly when its move is accepted by the dispute
      (if it has one there), and leaves the dispute as the move does. */
  ghost predicate Simulates(env: Env, w: World, e: Event, ci: nat)
    requires ci < |w.computes|
  {
    var move := Label(w, ci, e.call);
    var d' := Apply(env, ViewOf(w, ci), NextIndices(w), e.caller, e.now, move);
    match Exec(env, w, e.caller, e.now, e.call)
    case Some(w') => ci < |w'.computes| && d' == Some(ViewOf(w', ci))
    case None => move == Elsewhere || d' == None
  }

  lemma SimulatesStores(env: Env, w: World, e: Event, ci: nat)
    requires Linked(env, w) && External(env, e) && ci < |w.computes|
    requires e.call.NewPartition? || e.call.PartitionCall? || e.call.NewMemory? || e.call.MemoryCall?
      || e.call.NewGame? || e.call.NewCompute?
    ensures Simulates(env, w, e, ci)
  {
    hide P.Apply, M.Apply, P.Create, Log2OverTwo, AllKept, AllApart, PlaysFor, Backs;
    var c := w.computes[ci];
    assert ComputeLinked(w, c);
    if c.currentState == WaitingChallenge { assert GameLinked(env, w, w.games[c.vgInstance]); }
  }

  lemma SimulatesGame(env: Env, w: World, e: Event, ci: nat)
    requires Linked(env, w) && External(env, e) && ci < |w.computes|
    requires e.call.WinByPartitionTimeout? || e.call.StartMachineRunChallenge? || e.call.GameClaimVictoryByTime?
    ensures Simulates(env, w, e, ci)
  {
    hide MemoryDeadline, AllKept, AllApart, PlaysFor, Backs;
    var c, i := w.computes[ci], e.call.index;
    assert ComputeLinked(w, c);
    if c.currentState == WaitingChallenge { assert GameLinked(env, w, w.games[c.vgInstance]); }
    if i < |w.games| { assert GameLinked(env, w, w.games[i]); }
  }

  lemma SimulatesSettle(env: Env, w: World, e: Event, ci: nat)
    requires Linked(env, w) && External(env, e) && ci < |w.computes| && e.call.SettleVerificationGame?
    ensures Simulates(env, w, e, ci)
  {
    hide Disproves, Replay, AllKept, PlaysFor, Backs;
    var c, i := w.computes[ci], e.call.index;
    assert ComputeLinked(w, c);
    if c.currentState == WaitingChallenge {
      var v := w.games[c.vgInstance];
      assert GameLinked(env, w, v);
      if i < |w.games| && i != c.vgInstance { assert Apart(w.games[i], v); }
    }
    if i < |w.games| { assert GameLinked(env, w, w.games[i]); }
  }

  lemma SimulatesOwn(env: Env, w: World, e: Event, ci: nat)
    requires Linked(env, w) && External(env, e) && ci < |w.computes|
    requires e.call.SubmitClaim? || e.call.Confirm? || e.call.ComputeClaimVictoryByTime?
    ensures Simulates(env, w, e, ci)
  {
    hide ComputeDeadline, Linked;
    var i := e.call.index;
    if i == ci {
      assert Label(w, ci, e.call) != Elsewhere;
    } else {
      assert Label(w, ci, e.call) == Elsewhere;
    }
  }

  lemma SimulatesVerdict(env: Env, w: World, e: Event, ci: nat)
    requires Linked(env, w) && External(env, e) && ci < |w.computes| && e.call.WinByVG?
    ensures Simulates(env, w, e, ci)
  {
    hide AllKept, AllGames, AllApart, Disputes;
    assert ComputeLinked(w, w.computes[ci]);
  }

  lemma SimulatesChallenge(env: Env, w: World, e: Event, ci: nat)
    requires Linked(env, w) && External(env, e) && ci < |w.computes| && e.call.Challenge?
    ensures Simulates(env, w, e, ci)
  {
    hide P.Create, Log2OverTwo, AllKept, AllApart, PlaysFor, Backs;
    var c := w.computes[ci];
    assert ComputeLinked(w, c);
    if c.currentState == WaitingChallenge { assert GameLinked(env, w, w.games[c.vgInstance]); }
  }

  /** The whole system refines one dispute: other instances do not touch it, and its own
      transactions are its moves. */
  lemma StepSimulates(env: Env, w: World, e: Event, ci: nat)
    requires Linked(env, w) && External(env, e) && ci < |w.computes|
    ensures Simulates(env, w, e, ci)
  {
    hide Simulates, Linked;
    match e.call
    case WinByPartitionTimeout(_) => SimulatesGame(env, w, e, ci);
    case StartMachineRunChallenge(_) => SimulatesGame(env, w, e, ci);
    case GameClaimVictoryByTime(_) => SimulatesGame(env, w, e, ci);
    case SettleVerificationGame(_) => SimulatesSettle(env, w, e, ci);
    case SubmitClaim(_, _) => SimulatesOwn(env, w, e, ci);
    case Confirm(_) => SimulatesOwn(env, w, e, ci);
    case ComputeClaimVictoryByTime(_) => SimulatesOwn(env, w, e, ci);
    case WinByVG(_) => SimulatesVerdict(env, w, e, ci);
    case Challenge(_) => SimulatesChallenge(env, w, e, ci);
    case _ => SimulatesStores(env, w, e, ci);
  }
}
