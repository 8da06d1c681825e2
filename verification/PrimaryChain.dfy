/** The persistent primary chain (chain/chain.go): every operation, over a row store, a
    retained-block cache that still answers for abandoned blocks, and live iterators, proved
    to do what the chain model says. */
module PrimaryChain {
  import opened Blocks
  import opened ChainModel
  import opened ChainEvents
  import opened ChainManager
  import BlockCache
  import Iterators

  class ChainIterator {
    const startPoint: Point
    const reverse: bool
    var lastPoint: Point
    var rollbackPoint: Point
    var nextBlockIndex: nat
    var needsRollback: bool

    constructor (startPoint: Point, next: nat, reverse: bool)
      ensures State() == Iterators.Iter(startPoint, Origin, Origin, next, false, reverse)
    {
      this.startPoint := startPoint;
      this.reverse := reverse;
      lastPoint := Origin;
      rollbackPoint := Origin;
      nextBlockIndex := next;
      needsRollback := false;
    }

    function State(): Iterators.Iter
      reads this
    {
      Iterators.Iter(startPoint, lastPoint, rollbackPoint, nextBlockIndex, needsRollback, reverse)
    }

    /** Re-aim this iterator after chain c rolled back to point, leaving n blocks: a pending
        marker names a point that is still held and lies before what was handed out, a marker
        is pending exactly when something handed out was rolled back, and a reverse iterator
        never aims past the end. */
    method Rewind(point: Point, n: nat, ghost w: World, ghost c: seq<Block>)
      requires Chained(w, c) && n <= |c| && (point.slot == 0 <==> n == 0) && (n > 0 ==> c[n-1].AsPoint() == point)
      requires Iterators.PendingOk(State(), c)
      modifies this
      ensures State() == Iterators.AfterRewind(old(State()), point, n)
      ensures Iterators.PendingOk(State(), c[..n])
      ensures !reverse ==> (needsRollback <==> old(needsRollback) || Iterators.RefSlot(old(State())) > point.slot)
      ensures needsRollback && old(needsRollback) ==> rollbackPoint.slot <= old(rollbackPoint).slot
      ensures reverse ==> nextBlockIndex <= n && nextBlockIndex <= old(nextBlockIndex)
    {
      Iterators.PendingOkAfterRewind(w, State(), c, point, n);
      hide Iterators.PendingOk;
      if reverse {
        if nextBlockIndex > n {
          nextBlockIndex := n;
        }
        return;
      }
      var refSlot := lastPoint.slot;
      if refSlot == 0 && |lastPoint.hash| == 0 {
        refSlot := startPoint.slot;
      }
      if refSlot > point.slot {
        if needsRollback && point.slot > rollbackPoint.slot {
          return;
        }
        rollbackPoint := point;
        needsRollback := true;
      }
    }
  }

  ghost predicate TipNames(tip: Tip, c: seq<Block>) {
    if c == [] then tip.point.slot == 0
    else tip.point == c[|c|-1].AsPoint() && tip.number == c[|c|-1].header.number
  }

  class Chain {
    const manager: Manager
    var headers: seq<Header>
    var currentTip: Tip
    var tipBlockIndex: nat
    var mutationGeneration: nat
    var iterators: seq<ChainIterator>
    var pendingUpdates: seq<Event>
    var published: seq<Event>                // what the event bus was given

    ghost function V(): View
      reads this, manager
    {
      View(manager.rows, headers)
    }

    ghost predicate Valid()
      reads this, manager, manager.cache, iterators
    {
      && manager.Valid()
      && tipBlockIndex == |manager.rows|
      && TipNames(currentTip, manager.rows)
      && WellFormed(manager.world, V())
      && IteratorsValid()
    }

    ghost predicate IteratorsValid()
      reads this`iterators, manager`rows, iterators
    {
      && (forall i, j :: 0 <= i < j < |iterators| ==> iterators[i] != iterators[j])
      && (forall it :: it in iterators ==> Iterators.PendingOk(it.State(), manager.rows))
    }

    /** Load the primary chain the manager's store holds: its tip is the highest row. */
    constructor (manager: Manager)
      requires manager.Valid()
      ensures Valid() && this.manager == manager && V() == View(manager.rows, [])
      ensures iterators == [] && pendingUpdates == [] && published == []
    {
      hide BlockCache.Cache.Valid, AllSound, Chained, Extended;
      this.manager := manager;
      headers := [];
      iterators := [];
      pendingUpdates := [];
      published := [];
      mutationGeneration := 0;
      ExtendedWithoutQueue(manager.rows);
      assert manager.rows != [] ==> 1 in manager.db;
      if manager.db == map[] {
        tipBlockIndex := 0;
        currentTip := Tip(Origin, 0);
      } else {
        assert |manager.rows| in manager.db;
        var i :| i in manager.db && forall j :: j in manager.db ==> j <= i;
        tipBlockIndex := i;
        currentTip := Tip(manager.db[i].AsPoint(), manager.db[i].header.number);
      }
    }

    // ----- headers -----

    method AddBlockHeader(h: Header) returns (r: Result<()>)
      requires Valid() && MayOffer(manager.world, h, HeaderTip(V()))
      modifies this`headers
      ensures Valid()
      ensures V() == ChainModel.Step(old(V()), manager.securityParam, QueueHeader(h))
      ensures r == match QueueVerdict(old(V()), manager.securityParam, h) case None => Ok(()) case Some(e) => Err(e)
    {
      hide Manager.Valid, Chained, IteratorsValid;
      if |headers| >= MaxQueuedHeaders(manager.securityParam) {
        return Err(QueueFull);
      }
      if tipBlockIndex >= 1 || |headers| > 0 {
        var tip := if headers == [] then currentTip
                   else Tip(headers[|headers|-1].AsPoint(), headers[|headers|-1].number);
        if h.prevHash != tip.point.hash {
          return Err(NotFitTip);
        }
        if !Contiguous(h.era, h.number, tip.number) {
          return Err(NumberNotContiguous);
        }
      }
      HeaderKeepsWellFormed(manager.world, V(), h);
      headers := headers + [h];
      return Ok(());
    }

    method ClearHeaders()
      requires Valid()
      modifies this`headers
      ensures Valid() && V() == old(V()).(headers := [])
    {
      hide Manager.Valid, Chained, IteratorsValid;
      StepKeepsWellFormed(manager.world, V(), manager.securityParam, ClearQueue);
      headers := [];
    }

    // ----- adding a block -----

    /** Every pending rollback marker still names a held point once a block is added. */
    lemma IteratorsAfterGrow(b: Block)
      requires IteratorsValid() && Chained(manager.world, manager.rows)
      requires Chained(manager.world, manager.rows + [b])
      ensures forall it :: it in iterators ==> Iterators.PendingOk(it.State(), manager.rows + [b])
    {
      hide Chained, Iterators.PendingOk;
      forall it | it in iterators ensures Iterators.PendingOk(it.State(), manager.rows + [b]) {
        Iterators.PendingOkAfterGrow(manager.world, it.State(), manager.rows, b);
      }
    }

    /** The record a block would be stored as, or why it does not fit. */
    method CheckBlock(block: Header, matchPending: bool) returns (r: Result<Block>)
      requires Valid()
      requires Legit(manager.world, block)
      ensures r == match AddVerdict(V(), block, matchPending)
                   case Some(e) => Err(e)
                   case None => Ok(Block(|manager.rows| + 1, block))
    {
      hide Manager.Valid, Chained, IteratorsValid;
      var prevHash, number := [], block.number;
      if matchPending && headers != [] {
        if block.hash != headers[0].hash {
          return Err(NotMatchHeader);
        }
        HeaderLegit(manager.world, V(), 0);
        prevHash, number := headers[0].prevHash, headers[0].number;
      }
      if prevHash == [] {
        prevHash := block.prevHash;
      }
      if tipBlockIndex >= 1 {
        if prevHash != currentTip.point.hash {
          return Err(NotFitTip);
        }
        if !Contiguous(block.era, number, currentTip.number) {
          return Err(NumberNotContiguous);
        }
      }
      return Ok(Block(tipBlockIndex + 1, Header(block.hash, prevHash, block.slot, number, block.era)));
    }

    /** Store a checked block and move the tip onto it. */
    method Append(b: Block, rest: seq<Header>)
      requires Valid() && WellFormed(manager.world, View(manager.rows + [b], rest))
      modifies this`headers, this`currentTip, this`tipBlockIndex, this`mutationGeneration
      modifies manager`db, manager`rows
      ensures Valid() && V() == View(old(manager.rows) + [b], rest)
      ensures mutationGeneration == old(mutationGeneration) + 1
    {
      hide BlockCache.Cache.Valid, AllSound, Holds, Chained, Extended, Iterators.PendingOk;
      AddedIsChained(manager.world, View(manager.rows + [b], rest), manager.rows, b);
      IteratorsAfterGrow(b);
      manager.AddRow(b);
      headers := rest;
      currentTip := Tip(b.AsPoint(), b.header.number);
      tipBlockIndex := tipBlockIndex + 1;
      mutationGeneration := mutationGeneration + 1;
    }

    /** Add a block: fetched ones (matchPending) must be the oldest queued header, locally
        forged ones clear the queue; a deferred add queues its event with the mutation. */
    method AddBlock(block: Header, matchPending: bool, deferred: bool) returns (r: Result<Event>)
      requires Valid()
      requires MayOffer(manager.world, block, if matchPending then HeaderTip(V()) else BlockTip(V()))
      modifies this`headers, this`currentTip, this`tipBlockIndex, this`mutationGeneration
      modifies this`pendingUpdates, manager`db, manager`rows
      ensures Valid()
      ensures match AddVerdict(old(V()), block, matchPending)
              case Some(e) =>
                && r == Err(e) && V() == old(V()) && pendingUpdates == old(pendingUpdates)
                && mutationGeneration == old(mutationGeneration)
              case None =>
                && V() == AfterAdd(old(V()), block, matchPending)
                && r == Ok(BlockAdded(Block(|manager.rows|, block)))
                && pendingUpdates == old(pendingUpdates) + (if deferred then [r.value] else [])
                && mutationGeneration == old(mutationGeneration) + 1
    {
      hide Manager.Valid, Chained, Extended, IteratorsValid;
      var b := CheckBlock(block, matchPending);
      if b.Err? {
        return Err(b.error);
      }
      BlockKeepsWellFormed(manager.world, V(), block, matchPending);
      Append(b.value, if matchPending && headers != [] then headers[1..] else []);
      r := Ok(BlockAdded(b.value));
      if deferred {
        pendingUpdates := pendingUpdates + [r.value];
      }
    }

    // ----- rolling back -----

    /** Scan the queued headers, newest first, for a rollback point. */
    method FindQueuedHeader(point: Point) returns (r: Queued)
      ensures r == Locate(headers, point)
    {
      var i := |headers|;
      assert headers[..i] == headers;
      while i > 0
        invariant 0 <= i <= |headers|
        invariant Locate(headers, point) == Locate(headers[..i], point)
      {
        assert headers[..i][..i-1] == headers[..i-1];
        i := i - 1;
        if headers[i].slot > point.slot {
          continue;
        }
        if headers[i].slot == point.slot && headers[i].hash == point.hash {
          return AtHeader(i);
        }
        if headers[i].slot < point.slot {
          return Misplaced;
        }
      }
      return Below;
    }

    /** Whether this chain has the block with this hash at this index now. */
    method HoldsBlockAtIndex(index: nat, hash: Hash) returns (r: bool)
      requires Valid()
      ensures r <==> 1 <= index <= |manager.rows| && manager.rows[index-1].Hash() == hash
    {
      hide BlockCache.Cache.Valid, AllSound, Chained, Extended, IteratorsValid;
      if index < 1 || index > tipBlockIndex {
        return false;
      }
      return index in manager.db && manager.db[index].Hash() == hash;
    }

    /** Resolve a rollback target. The lookup may answer from the cache with a block this
        chain abandoned, at an index another fork took over; such a target is refused. */
    method RollbackPointBlock(point: Point) returns (r: Result<Block>)
      requires Valid()
      modifies manager.cache`order
      ensures Valid()
      ensures manager.cache.order == BlockCache.Touched(old(manager.cache.order), point.hash)
      ensures r.Ok? <==> IndexOf(manager.rows, point) > 0
      ensures r.Ok? ==> r.value == manager.rows[IndexOf(manager.rows, point) - 1] && r.value.id == IndexOf(manager.rows, point)
      ensures r.Err? ==>
                r.error == if Resolvable(old(manager.cache.order), manager.rows, point) then NotOnChain else NotFound
    {
      hide Manager.Valid, IndexOf, BlockCache.Find, Extended, IteratorsValid;
      BlocksChained(manager.world, V());
      var b := manager.BlockByPoint(point);
      if b.None? {
        return Err(NotFound);
      }
      ResolvedIsHeld(manager.world, manager.rows, point, b.value);
      var held := HoldsBlockAtIndex(b.value.id, b.value.Hash());
      if held {
        return Ok(b.value);
      }
      return Err(NotOnChain);
    }

    /** The index and number of the block to cut back to, once point is no queued header. */
    method ResolveTarget(point: Point) returns (r: Result<(nat, nat)>)
      requires Valid() && manager.securityParam > 0
      modifies manager.cache`order
      ensures Valid() && manager.cache.order == Recency(old(manager.cache.order), point)
      ensures match DecideBlocks(manager.rows, manager.securityParam, point)
              case Refuse(e) => r.Err? && SameRefusal(r.error, e)
              case Truncate(n) =>
                && r.Ok? && r.value.0 == n
                && (n > 0 ==> manager.rows[n-1].AsPoint() == point && r.value.1 == manager.rows[n-1].header.number)
                && (point.slot == 0 <==> n == 0)
    {
      hide Manager.Valid, IndexOf, Chained, Extended, IteratorsValid, Resolvable;
      var index, number := 0, 0;
      if point.slot > 0 {
        var b := RollbackPointBlock(point);
        if b.Err? {
          return Err(b.error);
        }
        index, number := b.value.id, b.value.header.number;
      }
      var forkDepth := if index <= tipBlockIndex then tipBlockIndex - index else 0;
      if tipBlockIndex >= manager.securityParam && forkDepth > manager.securityParam {
        return Err(ExceedsSecurityParam);
      }
      return Ok((index, number));
    }

    /** Would Rollback(point) be accepted? Changes nothing but lookup recency. */
    method ValidateRollback(point: Point) returns (r: Result<()>)
      requires Valid()
      modifies manager.cache`order
      ensures Valid()
      ensures r.Ok? <==> !Decide(V(), manager.securityParam, point).Refuse?
      ensures r.Err? ==> SameRefusal(r.error, Decide(V(), manager.securityParam, point).error)
    {
      hide Manager.Valid, DecideBlocks, Locate, WellFormed, IteratorsValid;
      if manager.securityParam <= 0 {
        return Err(NotConfigured);
      }
      var q := FindQueuedHeader(point);
      if q.Misplaced? {
        return Err(NotFound);
      }
      if q.AtHeader? {
        return Ok(());
      }
      var target := ResolveTarget(point);
      if target.Err? {
        return Err(target.error);
      }
      return Ok(());
    }

    /** Delete rows from the tip down to index n, newest first. */
    method RemoveDownTo(n: nat) returns (removed: seq<Block>)
      requires manager.Valid() && tipBlockIndex == |manager.rows| && n <= tipBlockIndex
      modifies manager`db, manager`rows, manager`chainRollbackEvents, manager.cache
      ensures manager.Valid() && manager.rows == old(manager.rows)[..n]
      ensures removed == Reversed(old(manager.rows)[n..])
      ensures manager.cache.order ==
                BlockCache.StoredAll(old(manager.cache.order), manager.cache.capacity, removed)
      ensures manager.chainRollbackEvents ==
                Noticed(old(manager.chainRollbackEvents), manager.forks, RemovedIndices(old(|manager.rows|), n))
    {
      hide Manager.Valid, Notice, BlockCache.Stored;
      removed := [];
      var i := tipBlockIndex;
      ghost var c := manager.rows;
      assert c[..i] == c;
      assert c[i..] == [];
      assert RemovedIndices(|c|, |c|) == [];
      while i > n
        invariant n <= i <= |c|
        invariant manager.Valid() && manager.rows == c[..i]
        invariant removed == Reversed(c[i..])
        invariant manager.cache.order ==
                    BlockCache.StoredAll(old(manager.cache.order), manager.cache.capacity, removed)
        invariant manager.chainRollbackEvents ==
                    Noticed(old(manager.chainRollbackEvents), manager.forks, RemovedIndices(|c|, i))
      {
        NoticedSnoc(old(manager.chainRollbackEvents), manager.forks, RemovedIndices(|c|, i), i);
        assert RemovedIndices(|c|, i) + [i] == RemovedIndices(|c|, i - 1);
        var block := manager.RemoveBlockByIndex(i);
        assert c[..i][..i-1] == c[..i-1];
        assert Reversed(c[i-1..]) == Reversed(c[i..]) + [c[i-1]];
        assert (removed + [c[i-1]])[..|removed|] == removed;
        removed := removed + [block.value];
        i := i - 1;
      }
    }

    /** Re-aim every live iterator after a rollback to point, n blocks being left. */
    method RewindIterators(point: Point, n: nat, ghost w: World, ghost c: seq<Block>)
      requires forall i, j :: 0 <= i < j < |iterators| ==> iterators[i] != iterators[j]
      requires Chained(w, c) && n <= |c| && (point.slot == 0 <==> n == 0) && (n > 0 ==> c[n-1].AsPoint() == point)
      requires forall it :: it in iterators ==> Iterators.PendingOk(it.State(), c)
      modifies iterators
      ensures forall it :: it in iterators ==> it.State() == Iterators.AfterRewind(old(it.State()), point, n)
      ensures forall it :: it in iterators ==> Iterators.PendingOk(it.State(), c[..n])
    {
      hide Chained, Iterators.PendingOk, Iterators.AfterRewind, ChainIterator.State;
      for k := 0 to |iterators|
        invariant forall i :: 0 <= i < k ==>
                    iterators[i].State() == Iterators.AfterRewind(old(iterators[i].State()), point, n)
        invariant forall i :: 0 <= i < k ==> Iterators.PendingOk(iterators[i].State(), c[..n])
        invariant forall i :: k <= i < |iterators| ==> iterators[i].State() == old(iterators[i].State())
      {
        iterators[k].Rewind(point, n, w, c);
      }
    }

    /** Roll back to a point; a deferred rollback queues its events with the mutation. */
    method Rollback(point: Point, deferred: bool) returns (r: Result<seq<Event>>)
      requires Valid()
      modifies this`headers, this`currentTip, this`tipBlockIndex, this`mutationGeneration, this`pendingUpdates
      modifies this`published, manager`db, manager`rows, manager`chainRollbackEvents, manager.cache, iterators
      ensures Valid()
      ensures V() == AfterRollback(old(V()), manager.securityParam, point)
      ensures match Decide(old(V()), manager.securityParam, point)
              case Refuse(e) =>
                && r.Err? && SameRefusal(r.error, e)
                && mutationGeneration == old(mutationGeneration)
                && (forall it :: it in iterators ==> it.State() == old(it.State()))
              case DropHeaders(_) =>
                && r == Ok([]) && mutationGeneration == old(mutationGeneration)
                && (forall it :: it in iterators ==> it.State() == old(it.State()))
              case Truncate(n) =>
                && r == Ok(RollbackEvents(old(manager.rows), n, point, old(currentTip.point)))
                && mutationGeneration == old(mutationGeneration) + 1
                && currentTip.point == point
                && (forall it :: it in iterators ==> it.State() == Iterators.AfterRewind(old(it.State()), point, n))
                && manager.chainRollbackEvents ==
                     Noticed(old(manager.chainRollbackEvents), manager.forks, RemovedIndices(|old(manager.rows)|, n))
                && manager.cache.order ==
                     BlockCache.StoredAll(Recency(old(manager.cache.order), point), manager.cache.capacity,
                                          Reversed(old(manager.rows)[n..]))
      ensures Decide(old(V()), manager.securityParam, point).Truncate? ||
                manager.chainRollbackEvents == old(manager.chainRollbackEvents)
      ensures r.Ok? ==> Replay(Subscriber(old(manager.rows), []), r.value) == Some(Subscriber(manager.rows, []))
      ensures pendingUpdates == old(pendingUpdates) + (if deferred && r.Ok? then r.value else [])
      ensures published == old(published) + (if !deferred && r.Ok? then r.value else [])
    {
      hide Replay, TipNames, Reversed;
      hide Manager.Valid, DecideBlocks, Locate, WellFormed, IteratorsValid;
      hide Noticed, RollbackEvents, RemovedIndices, Iterators.AfterRewind, ChainIterator.State, Recency, BlockCache.StoredAll;
      if manager.securityParam <= 0 {
        return Err(NotConfigured);
      }
      RollbackKeepsWellFormed(manager.world, V(), manager.securityParam, point);
      var q := FindQueuedHeader(point);
      if q.Misplaced? {
        return Err(NotFound);
      }
      if q.AtHeader? {
        headers := headers[..q.i + 1];
        ReplayNone(Subscriber(manager.rows, []));
        return Ok([]);
      }
      var target := ResolveTarget(point);
      if target.Err? {
        return Err(target.error);
      }
      var events := Truncate(point, target.value.0, target.value.1);
      if deferred {
        pendingUpdates := pendingUpdates + events;
      } else {
        published := published + events;
      }
      return Ok(events);
    }

    /** The accepted part of a rollback: cut the chain to index blocks, the last at point. */
    method Truncate(point: Point, index: nat, number: nat) returns (events: seq<Event>)
      requires Valid() && index <= |manager.rows|
      requires point.slot == 0 <==> index == 0
      requires index > 0 ==> point == manager.rows[index-1].AsPoint() && number == manager.rows[index-1].header.number
      modifies this`headers, this`currentTip, this`tipBlockIndex, this`mutationGeneration
      modifies manager`db, manager`rows, manager`chainRollbackEvents, manager.cache, iterators
      ensures Valid() && V() == View(old(manager.rows)[..index], [])
      ensures events == RollbackEvents(old(manager.rows), index, point, old(currentTip.point))
      ensures Replay(Subscriber(old(manager.rows), []), events) == Some(Subscriber(manager.rows, []))
      ensures mutationGeneration == old(mutationGeneration) + 1 && currentTip.point == point
      ensures forall it :: it in iterators ==> it.State() == Iterators.AfterRewind(old(it.State()), point, index)
      ensures manager.chainRollbackEvents ==
                Noticed(old(manager.chainRollbackEvents), manager.forks, RemovedIndices(|old(manager.rows)|, index))
      ensures manager.cache.order ==
                BlockCache.StoredAll(old(manager.cache.order), manager.cache.capacity, Reversed(old(manager.rows)[index..]))
    {
      hide Manager.Valid, Chained, Extended, Iterators.PendingOk, Iterators.AfterRewind, Noticed;
      hide ChainIterator.State, RemovedIndices, BlockCache.StoredAll, Replay;
      ghost var c := manager.rows;
      BlocksChained(manager.world, V());
      ChainedPrefix(manager.world, c, index);
      ExtendedWithoutQueue(c[..index]);
      AnyRollbackReplays(c, index, point, currentTip.point);
      var oldTip, forkDepth := currentTip, tipBlockIndex - index;
      var removed := RemoveDownTo(index);
      headers := [];
      currentTip := Tip(point, number);
      tipBlockIndex := index;
      mutationGeneration := mutationGeneration + 1;
      RewindIterators(point, index, manager.world, c);
      events := [];
      if |removed| > 0 {
        events := [RolledBack(point, removed)];
        if forkDepth > 0 {
          events := events + [ForkDetected(point, forkDepth, oldTip.point, point)];
        }
      }
    }

    // ----- the event sequencer -----

    /** Publish everything queued, oldest first. */
    method PublishPendingChainUpdates()
      modifies this`pendingUpdates, this`published
      ensures pendingUpdates == [] && published == old(published) + old(pendingUpdates)
    {
      while pendingUpdates != []
        invariant published + pendingUpdates == old(published) + old(pendingUpdates)
        decreases |pendingUpdates|
      {
        var event := pendingUpdates[0];
        pendingUpdates := pendingUpdates[1..];
        published := published + [event];
      }
    }

    // ----- reading -----

    method BlockByIndex(i: nat) returns (r: Option<Block>)
      requires Valid()
      ensures r == if 1 <= i <= |manager.rows| then Some(manager.rows[i-1]) else None
    {
      hide BlockCache.Cache.Valid, AllSound, Chained, Extended, IteratorsValid;
      return if i in manager.db then Some(manager.db[i]) else None;
    }

    /** The highest block before a slot, by binary search over the index. */
    method BlockBeforeSlot(slot: nat) returns (r: Option<Block>)
      requires Valid()
      ensures r == LastBefore(manager.rows, slot)
      ensures r.None? ==> forall b :: b in manager.rows ==> b.Slot() >= slot
      ensures r.Some? ==> r.value in manager.rows && r.value.Slot() < slot
      ensures r.Some? ==> forall b :: b in manager.rows && b.Slot() < slot ==> b.Slot() <= r.value.Slot()
    {
      hide Manager.Valid, Chained, Extended, IteratorsValid;
      BlocksChained(manager.world, V());
      ghost var c := manager.rows;
      r := None;
      if tipBlockIndex < 1 {
        return;
      }
      var lo, hi := 1, tipBlockIndex;
      while lo <= hi
        invariant 1 <= lo <= |c| + 1 && hi <= |c| && lo <= hi + 1
        invariant lo > 1 ==> c[lo-2].Slot() < slot
        invariant forall j :: hi <= j < |c| ==> c[j].Slot() >= slot
        invariant r == if lo > 1 then Some(c[lo-2]) else None
        decreases hi - lo
      {
        var mid := lo + (hi - lo) / 2;
        var block := BlockByIndex(mid);
        if block.value.Slot() < slot {
          r := block;
          lo := mid + 1;
        } else {
          forall j | mid - 1 <= j < |c| ensures c[j].Slot() >= slot {
            if mid - 1 < j { SlotsIncrease(manager.world, c, mid - 1, j); }
          }
          if mid == 1 {
            break;
          }
          hi := mid - 1;
        }
      }
      LastBeforeAt(c, slot, lo - 1);
      HighestBefore(manager.world, c, slot, lo - 1);
    }

    // ----- iterators -----

    /** Where an iterator starting at a point begins, or nothing when the chain does not hold
        the point now, even if the cache still answers for it. */
    method StartIndex(start: Point, inclusive: bool, reverse: bool) returns (r: Option<nat>)
      requires Valid()
      modifies manager.cache`order
      ensures Valid()
      ensures r == match Iterators.NewIter(manager.rows, start, inclusive, reverse)
                   case None => None
                   case Some(it) => Some(it.next)
    {
      hide Manager.Valid, IndexOf, WellFormed, TipNames, IteratorsValid, BlockCache.Find, BlockCache.Touched;
      if start.slot == 0 && |start.hash| == 0 {
        return Some(if reverse then 0 else 1);
      }
      BlocksChained(manager.world, V());
      var b := manager.BlockByPoint(start);
      if b.None? {
        return None;
      }
      ResolvedIsHeld(manager.world, manager.rows, start, b.value);
      var held := HoldsBlockAtIndex(b.value.id, start.hash);
      if !held {
        return None;
      }
      if inclusive {
        return Some(b.value.id);
      }
      if reverse {
        return Some(if b.value.id <= 1 then 0 else b.value.id - 1);
      }
      return Some(b.value.id + 1);
    }

    /** Open an iterator. */
    method FromPoint(start: Point, inclusive: bool, reverse: bool) returns (r: Option<ChainIterator>)
      requires Valid()
      modifies this`iterators, manager.cache`order
      ensures Valid()
      ensures r.Some? <==> Iterators.NewIter(manager.rows, start, inclusive, reverse).Some?
      ensures r.Some? ==> fresh(r.value) && iterators == old(iterators) + [r.value]
                          && r.value.State() == Iterators.NewIter(manager.rows, start, inclusive, reverse).value
                          && Iterators.FirstIs(manager.rows, start, inclusive, reverse, Iterators.Pull(r.value.State(), manager.rows).1)
      ensures r.None? ==> iterators == old(iterators)
    {
      hide Manager.Valid, IndexOf, WellFormed, TipNames, Iterators.FirstIs;
      Iterators.FirstNext(manager.rows, start, inclusive, reverse);
      var next := StartIndex(start, inclusive, reverse);
      if next.None? {
        return None;
      }
      var it := new ChainIterator(start, next.value, reverse);
      iterators := iterators + [it];
      return Some(it);
    }

    /** A non-blocking Next. */
    method IterNext(it: ChainIterator) returns (out: Iterators.Outcome)
      requires Valid() && it in iterators
      modifies it, manager.cache`order
      ensures Valid()
      ensures (it.State(), out) == Iterators.Pull(old(it.State()), manager.rows)
    {
      hide Manager.Valid, IndexOf, WellFormed, TipNames, BlockCache.Find, BlockCache.Touched;
      if it.needsRollback {
        out := Iterators.RolledBack(it.rollbackPoint);
        if it.rollbackPoint.slot > 0 {
          BlocksChained(manager.world, V());
          var b := manager.BlockByPoint(it.rollbackPoint);
          ResolvedIsHeld(manager.world, manager.rows, it.rollbackPoint, b.value);
          it.nextBlockIndex := b.value.id + 1;
        } else {
          it.nextBlockIndex := 1;
        }
        it.lastPoint := it.rollbackPoint;
        it.needsRollback := false;
        return;
      }
      if it.reverse && it.nextBlockIndex < 1 {
        return Iterators.AtOrigin;
      }
      var b := BlockByIndex(it.nextBlockIndex);
      if b.Some? {
        if it.reverse {
          it.nextBlockIndex := it.nextBlockIndex - 1;
        } else {
          it.nextBlockIndex := it.nextBlockIndex + 1;
        }
        it.lastPoint := b.value.AsPoint();
        return Iterators.Delivered(b.value);
      }
      return if it.reverse then Iterators.AtOrigin else Iterators.AtTip;
    }
  }

  /** The linear reading of BlockBeforeSlot: walk down from the tip to the first earlier block. */
  function LastBefore(c: seq<Block>, slot: nat): Option<Block> {
    if c == [] then None
    else if c[|c|-1].Slot() < slot then Some(c[|c|-1])
    else LastBefore(c[..|c|-1], slot)
  }

  lemma {:induction false} LastBeforeAt(c: seq<Block>, slot: nat, n: nat)
    requires n <= |c|
    requires n > 0 ==> c[n-1].Slot() < slot
    requires forall j :: n <= j < |c| ==> c[j].Slot() >= slot
    ensures LastBefore(c, slot) == if n > 0 then Some(c[n-1]) else None
  {
    if n < |c| {
      LastBeforeAt(c[..|c|-1], slot, n);
    }
  }

  lemma HighestBefore(w: World, c: seq<Block>, slot: nat, n: nat)
    requires Chained(w, c) && n <= |c| && (n > 0 ==> c[n-1].Slot() < slot)
    requires forall j :: n <= j < |c| ==> c[j].Slot() >= slot
    ensures n == 0 ==> forall b :: b in c ==> b.Slot() >= slot
    ensures n > 0 ==> forall b :: b in c && b.Slot() < slot ==> b.Slot() <= c[n-1].Slot()
  {
    hide Chained;
    forall b | b in c && b.Slot() < slot && n > 0 ensures b.Slot() <= c[n-1].Slot() {
      var j :| 0 <= j < |c| && c[j] == b;
      if j < n - 1 { SlotsIncrease(w, c, j, n - 1); }
    }
  }

  function RemovedIndices(tip: nat, n: nat): seq<nat>
    requires n <= tip
  {
    seq(tip - n, i requires 0 <= i < tip - n => tip - i)
  }

  /** Cache recency after resolving a rollback point; origin is not looked up. */
  function Recency(retained: seq<Block>, point: Point): seq<Block> {
    if point.slot > 0 then BlockCache.Touched(retained, point.hash) else retained
  }

  /** A lookup that found nothing and one that found an abandoned block refuse alike. */
  predicate SameRefusal(e: Error, verdict: Error) {
    e == verdict || (e == NotOnChain && verdict == NotFound)
  }

  /** What a lookup by point resolves to is held exactly when the point is on the chain. */
  lemma ResolvedIsHeld(w: World, c: seq<Block>, p: Point, b: Block)
    requires Chained(w, c) && Sound(w, b) && b.AsPoint() == p
    ensures (1 <= b.id <= |c| && c[b.id-1].Hash() == b.Hash()) <==> IndexOf(c, p) > 0
    ensures IndexOf(c, p) > 0 ==> b == c[IndexOf(c, p) - 1] && b.id == IndexOf(c, p)
  {
    hide IndexOf;
    var n := IndexOf(c, p);
    if n > 0 {
      assert Sound(w, c[n-1]);
    }
    if 1 <= b.id <= |c| && c[b.id-1].Hash() == b.Hash() {
      assert Sound(w, c[b.id-1]);
      IndexOfAt(w, c, b.id - 1);
    }
  }

  lemma AddedIsChained(w: World, after: View, c: seq<Block>, b: Block)
    requires WellFormed(w, after) && after.blocks == c + [b]
    ensures Chained(w, c) && Chained(w, c + [b])
  {
    BlocksChained(w, after);
    ChainedPrefix(w, c + [b], |c|);
    assert (c + [b])[..|c|] == c;
  }
}
