/** Chain change events and the sequencer that publishes them in mutation order. */
module ChainEvents {
  import opened Blocks
  import opened ChainModel

  datatype Event =
    | BlockAdded(block: Block)
    | RolledBack(point: Point, removed: seq<Block>)      // newest first
    | ForkDetected(forkPoint: Point, depth: nat, alternateHead: Point, canonicalHead: Point)

  /** What a rollback of c to its first n blocks announces. */
  function RollbackEvents(c: seq<Block>, n: nat, p: Point, oldTip: Point): seq<Event>
    requires n <= |c|
  {
    if n == |c| then []
    else [RolledBack(p, Reversed(c[n..])), ForkDetected(p, |c| - n, oldTip, p)]
  }

  // ----- a subscriber's replay -----

  /** Take blocks off the top one by one; fails as soon as one is not the block on top. */
  function Undo(c: seq<Block>, removed: seq<Block>): Option<seq<Block>> {
    if removed == [] then Some(c)
    else if c != [] && c[|c|-1] == removed[0] then Undo(c[..|c|-1], removed[1..])
    else None
  }

  /** The chain a subscriber has built, and what the rollback it has just followed removed. */
  datatype Subscriber = Subscriber(chain: seq<Block>, undone: seq<Block>)

  /** A chain ends at a point: at its last block's, or at slot zero when nothing is left. */
  predicate StandsAt(c: seq<Block>, p: Point) {
    if c == [] then p.slot == 0 else c[|c|-1].AsPoint() == p
  }

  /** Follow one event, refusing what does not fit: a rollback that removes other blocks than the
      newest or does not end where it says, and a fork notice that does not describe the rollback
      it comes after. */
  function ReplayOne(s: Subscriber, e: Event): Option<Subscriber> {
    match e
    case BlockAdded(b) => Some(Subscriber(s.chain + [b], []))
    case RolledBack(p, removed) =>
      (match Undo(s.chain, removed)
       case Some(c) => if StandsAt(c, p) then Some(Subscriber(c, removed)) else None
       case None => None)
    case ForkDetected(forkPoint, depth, alternateHead, canonicalHead) =>
      if && s.undone != [] && depth == |s.undone| && alternateHead == s.undone[0].AsPoint()
         && forkPoint == canonicalHead && StandsAt(s.chain, canonicalHead)
      then Some(s.(undone := [])) else None
  }

  function Replay(s: Subscriber, es: seq<Event>): Option<Subscriber> {
    if es == [] then Some(s)
    else match Replay(s, es[..|es|-1])
      case Some(t) => ReplayOne(t, es[|es|-1])
      case None => None
  }

  lemma {:induction false} UndoSuffix(c: seq<Block>, n: nat)
    requires n <= |c|
    ensures Undo(c, Reversed(c[n..])) == Some(c[..n])
    decreases |c|
  {
    if n == |c| {
      assert c[..n] == c;
    } else {
      var d := c[..|c|-1];
      UndoSuffix(d, n);
      assert Reversed(c[n..])[0] == c[|c|-1];
      assert Reversed(c[n..])[1..] == Reversed(d[n..]);
      assert d[..n] == c[..n];
    }
  }

  lemma {:induction false} ReplayAppend(c: Subscriber, es: seq<Event>, more: seq<Event>)
    ensures Replay(c, es + more) ==
            match Replay(c, es) case Some(d) => Replay(d, more) case None => None
  {
    if more == [] {
      assert es + more == es;
    } else {
      var init := more[..|more|-1];
      assert (es + more)[..|es + more| - 1] == es + init;
      ReplayAppend(c, es, init);
    }
  }

  // ----- the sequencer -----

  /** A draining goroutine: outside, holding the publish lock, or about to publish an event. */
  datatype Drainer = Idle | Draining | Carrying(event: Event)

  datatype Sys = Sys(
    view: View,
    announcing: seq<Event>,        // of the mutation that still holds the chain lock
    pending: seq<Event>,           // queued under the chain lock, with the mutation
    owner: Option<nat>,            // holder of the publish lock
    drainers: map<nat, Drainer>,
    published: seq<Event>,
    log: seq<Event>)               // history of everything that was queued

  datatype Action =
    | Mutate(op: Op) | Enqueue | Acquire(t: nat) | Pop(t: nat) | Publish(t: nat) | Release(t: nat)

  function Pc(s: Sys, t: nat): Drainer {
    if t in s.drainers then s.drainers[t] else Idle
  }

  /** Events of a deferred add or rollback, queued one by one while the chain lock is held;
      nothing else announces anything. */
  function Announced(v: View, k: int, op: Op, oldTip: Point): seq<Event> {
    match op
    case AddFetched(h) =>
      if AddVerdict(v, h, true).None? then [BlockAdded(Block(|v.blocks| + 1, h))] else []
    case RollBack(p) =>
      (match Decide(v, k, p)
       case Truncate(n) => RollbackEvents(v.blocks, n, p, oldTip)
       case Refuse(_) => []
       case DropHeaders(_) => [])
    case _ => []
  }

  function TipPoint(v: View): Point {
    if v.blocks == [] then Origin else v.blocks[|v.blocks|-1].AsPoint()
  }

  predicate Deferred(op: Op) {
    op.AddFetched? || op.RollBack? || op.QueueHeader? || op.ClearQueue?
  }

  predicate Enabled(s: Sys, a: Action) {
    match a
    case Mutate(op) => Deferred(op) && s.announcing == []
    case Enqueue => s.announcing != []
    case Acquire(t) => s.owner.None?
    case Pop(t) => Pc(s, t) == Draining && s.pending != []
    case Publish(t) => Pc(s, t).Carrying?
    case Release(t) => Pc(s, t) == Draining && s.pending == []
  }

  function Step(s: Sys, k: int, a: Action): Sys
    requires Enabled(s, a)
  {
    match a
    case Mutate(op) =>
      var es := Announced(s.view, k, op, TipPoint(s.view));
      s.(view := ChainModel.Step(s.view, k, op), announcing := es, log := s.log + es)
    case Enqueue => s.(pending := s.pending + [s.announcing[0]], announcing := s.announcing[1..])
    case Acquire(t) => s.(owner := Some(t), drainers := s.drainers[t := Draining])
    case Pop(t) => s.(drainers := s.drainers[t := Carrying(s.pending[0])], pending := s.pending[1..])
    case Publish(t) =>
      s.(drainers := s.drainers[t := Draining], published := s.published + [Pc(s, t).event])
    case Release(t) => s.(owner := None, drainers := s.drainers[t := Idle])
  }

  /** The event popped but not yet published, if any. */
  function InFlight(s: Sys): seq<Event> {
    match s.owner
    case None => []
    case Some(t) => if Pc(s, t).Carrying? then [Pc(s, t).event] else []
  }

  /** Only the lock's owner drains, nothing is lost, duplicated or reordered, and the log
      replays to the chain. */
  ghost predicate Inv(start: seq<Block>, s: Sys) {
    && (forall t :: t in s.drainers && s.drainers[t] != Idle ==> s.owner == Some(t))
    && (s.owner.Some? ==> Pc(s, s.owner.value) != Idle)
    && s.published + InFlight(s) + s.pending + s.announcing == s.log
    && Replay(Subscriber(start, []), s.log) == Some(Subscriber(s.view.blocks, []))
  }

  lemma ReplayNone(c: Subscriber)
    ensures Replay(c, []) == Some(c)
  {
  }

  lemma ReplaySingle(c: Subscriber, e: Event)
    ensures Replay(c, [e]) == ReplayOne(c, e)
  {
    assert [e][..0] == [];
  }

  /** The events of a rollback say what it did: the blocks removed, newest first, the point it
      ends at, how many were removed, and the tips before and after. */
  lemma RollbackReplays(c: seq<Block>, n: nat, p: Point, oldTip: Point)
    requires n < |c| && StandsAt(c[..n], p) && StandsAt(c, oldTip)
    ensures Replay(Subscriber(c, []), RollbackEvents(c, n, p, oldTip)) == Some(Subscriber(c[..n], []))
  {
    hide Replay, Undo;
    var es := RollbackEvents(c, n, p, oldTip);
    UndoSuffix(c, n);
    ReplaySingle(Subscriber(c, []), es[0]);
    ReplaySingle(Subscriber(c[..n], Reversed(c[n..])), es[1]);
    ReplayAppend(Subscriber(c, []), [es[0]], [es[1]]);
    assert es == [es[0]] + [es[1]];
  }

  lemma AnyRollbackReplays(c: seq<Block>, n: nat, p: Point, oldTip: Point)
    requires n <= |c| && StandsAt(c[..n], p) && StandsAt(c, oldTip)
    ensures Replay(Subscriber(c, []), RollbackEvents(c, n, p, oldTip)) == Some(Subscriber(c[..n], []))
  {
    hide Replay, StandsAt;
    if n < |c| {
      RollbackReplays(c, n, p, oldTip);
    } else {
      ReplayNone(Subscriber(c, []));
      assert c[..n] == c;
    }
  }

  lemma MutationReplays(v: View, k: int, op: Op)
    requires Deferred(op)
    ensures Replay(Subscriber(v.blocks, []), Announced(v, k, op, TipPoint(v))) == Some(Subscriber(ChainModel.Step(v, k, op).blocks, []))
  {
    hide Replay, Undo;
    var c := Subscriber(v.blocks, []);
    ReplayNone(c);
    var es := Announced(v, k, op, TipPoint(v));
    if op.AddFetched? && es != [] {
      ReplaySingle(c, es[0]);
      assert es == [es[0]];
    } else if op.RollBack? && Decide(v, k, op.point).Truncate? {
      var n := Decide(v, k, op.point).n;
      if n < |v.blocks| {
        RollbackReplays(v.blocks, n, op.point, TipPoint(v));
      } else {
        assert v.blocks[..n] == v.blocks;
      }
    }
  }

  lemma StepKeepsInv(start: seq<Block>, s: Sys, k: int, a: Action)
    requires Inv(start, s) && Enabled(s, a)
    ensures Inv(start, Step(s, k, a))
  {
    hide ChainModel.Step, Announced, Replay;
    var t := Step(s, k, a);
    match a
    case Mutate(op) =>
      var es := Announced(s.view, k, op, TipPoint(s.view));
      ReplayAppend(Subscriber(start, []), s.log, es);
      MutationReplays(s.view, k, op);
      assert t.published + InFlight(t) + t.pending + t.announcing == (s.published + InFlight(s) + s.pending + s.announcing) + es;
    case Enqueue => assert t.pending + t.announcing == s.pending + s.announcing;
    case Acquire(_) =>
    case Pop(_) => assert InFlight(t) + t.pending == s.pending;
    case Publish(_) =>
    case Release(_) =>
  }

  function Run(s: Sys, k: int, acts: seq<Action>): Option<Sys> {
    if acts == [] then Some(s)
    else match Run(s, k, acts[..|acts|-1])
      case Some(t) => if Enabled(t, acts[|acts|-1]) then Some(Step(t, k, acts[|acts|-1])) else None
      case None => None
  }

  function Initial(v: View): Sys { Sys(v, [], [], None, map[], [], []) }

  lemma {:induction false} RunKeepsInv(v: View, k: int, acts: seq<Action>)
    requires Run(Initial(v), k, acts).Some?
    ensures Inv(v.blocks, Run(Initial(v), k, acts).value)
  {
    if acts != [] {
      RunKeepsInv(v, k, acts[..|acts|-1]);
      StepKeepsInv(v.blocks, Run(Initial(v), k, acts[..|acts|-1]).value, k, acts[|acts|-1]);
    }
  }

  /** Publication order is mutation order: in every reachable state the published events,
      the one in flight, the pending ones and those a mutation is still queueing are the
      mutation log, cut into four. */
  lemma PublishedInMutationOrder(v: View, k: int, acts: seq<Action>)
    requires Run(Initial(v), k, acts).Some?
    ensures var s := Run(Initial(v), k, acts).value;
            s.published + InFlight(s) + s.pending + s.announcing == s.log && |InFlight(s)| <= 1
  {
    RunKeepsInv(v, k, acts);
  }

  /** A subscriber that applies and undoes published blocks holds the primary chain as soon
      as nothing is queued or in flight, and before that never meets an event that does not
      fit: an undo of another block, a rollback that ends elsewhere than announced, or a fork
      notice with the wrong depth or heads. */
  lemma SubscriberConverges(v: View, k: int, acts: seq<Action>)
    requires Run(Initial(v), k, acts).Some?
    ensures var s := Run(Initial(v), k, acts).value;
            var held := Replay(Subscriber(v.blocks, []), s.published);
            && held.Some?
            && (s.pending == [] && InFlight(s) == [] && s.announcing == [] ==> held.value.chain == s.view.blocks)
  {
    hide Announced, Replay, ChainModel.Step;
    RunKeepsInv(v, k, acts);
    var s := Run(Initial(v), k, acts).value;
    var rest := InFlight(s) + s.pending + s.announcing;
    assert s.log == s.published + rest;
    ReplayAppend(Subscriber(v.blocks, []), s.published, rest);
    assert s.published + [] + [] + [] == s.published;
  }
}
