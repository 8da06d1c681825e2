/** In-memory fork chains (the non-persistent side of chain/chain.go): a buffer of points above
    a prefix shared with the primary chain, and how it is re-anchored after the primary moved. */
module ForkChain {
  import opened Blocks
  import opened ChainManager
  import opened ChainModel
  import BlockCache
  import PrimaryChain

  function PointsOf(bs: seq<Block>): (r: seq<Point>)
    ensures |r| == |bs|
    ensures forall i :: 0 <= i < |bs| ==> r[i] == bs[i].AsPoint()
  {
    seq(|bs|, i requires 0 <= i < |bs| => bs[i].AsPoint())
  }

  /** The primary chain holds the fork's block at index n. */
  predicate Common(content: seq<Block>, rows: seq<Block>, n: nat) {
    1 <= n <= |content| && n <= |rows| && rows[n-1] == content[n-1]
  }

  /** A block both chains hold is one below which they are the same. */
  lemma CommonPrefix(w: World, content: seq<Block>, rows: seq<Block>, n: nat)
    requires Chained(w, content) && Chained(w, rows) && Common(content, rows, n)
    ensures rows[..n] == content[..n]
  {
    hide Chained;
    SameHashSamePrefix(w, rows, n - 1, content, n - 1);
  }

  lemma CommonBelow(w: World, content: seq<Block>, rows: seq<Block>, n: nat, m: nat)
    requires Chained(w, content) && Chained(w, rows) && Common(content, rows, n) && 1 <= m <= n
    ensures Common(content, rows, m)
  {
    hide Chained;
    CommonPrefix(w, content, rows, n);
    assert rows[..n][m-1] == content[..n][m-1];
  }

  /** The primary chain holds the fork's block at n and none of its blocks above, up to top. */
  ghost predicate HighestCommon(content: seq<Block>, rows: seq<Block>, n: nat, top: int) {
    Common(content, rows, n) && n <= top <= |content| && forall j :: n < j <= top ==> !Common(content, rows, j)
  }

  /** Where a reconcile that succeeds puts the anchor: at the last block the primary shares, unless
      nothing is buffered and the tip itself is shared, which is then left one above. */
  ghost predicate Reanchored(content: seq<Block>, rows: seq<Block>, base: nat, n: nat) {
    && HighestCommon(content, rows, n, LookedAt(content, base))
    && (HighestCommon(content, rows, n, |content|) <==> !(base == |content| && Common(content, rows, |content|)))
    && (base == |content| && Common(content, rows, |content|) ==> n == |content| - 1)
  }

  /** How far up a reconcile looks for a shared block: with nothing buffered the tip itself is
      taken for granted not to be one. */
  function LookedAt(content: seq<Block>, base: nat): int {
    if base < |content| then |content| else |content| - 1
  }

  /** What reading through the primary and the buffer gives is the fork's own content. */
  ghost predicate Agrees(content: seq<Block>, rows: seq<Block>, lastCommon: nat) {
    lastCommon <= |content| && lastCommon <= |rows| && rows[..lastCommon] == content[..lastCommon]
  }

  /** The first ancestor index a re-anchoring walk looks at: below the buffer, or below the
      tip when nothing is buffered. */
  function WalkStart(content: seq<Block>, lastCommon: nat): int {
    if lastCommon < |content| then lastCommon else lastCommon - 1
  }

  function KnownBlock(content: seq<Block>, lastCommon: nat): Block
    requires content != [] && lastCommon <= |content|
  {
    if lastCommon < |content| then content[lastCommon] else content[|content|-1]
  }

  /** Some buffered block is on the primary chain now. */
  ghost predicate BufferMeets(content: seq<Block>, rows: seq<Block>, lastCommon: nat) {
    exists n :: lastCommon < n <= |content| && Common(content, rows, n)
  }

  /** Index m is reached by walking back from s within k lookups, all of which resolve. */
  ghost predicate WalkReaches(content: seq<Block>, rows: seq<Block>, retained: seq<Block>, k: int, s: int, m: int) {
    && 1 <= m <= s <= |content| && Common(content, rows, m) && s - m < k
    && forall j :: m - 1 <= j < s ==> HashResolvable(retained, rows, content[j].Hash())
  }

  ghost predicate Anchorable(content: seq<Block>, rows: seq<Block>, retained: seq<Block>, k: int, s: int) {
    exists n :: WalkReaches(content, rows, retained, k, s, n)
  }

  /** Exactly when a fork the primary rolled back under can be re-anchored. */
  ghost predicate Reconcilable(content: seq<Block>, rows: seq<Block>, retained: seq<Block>, k: int, lastCommon: nat)
    requires lastCommon <= |content|
  {
    && k > 0
    && (|| BufferMeets(content, rows, lastCommon)
        || (&& content != [] && Resolvable(retained, rows, KnownBlock(content, lastCommon).AsPoint())
            && Anchorable(content, rows, retained, k, WalkStart(content, lastCommon))))
  }

  /** How many ancestors below index s are found one after the other, within k lookups. */
  ghost function Depth(content: seq<Block>, rows: seq<Block>, retained: seq<Block>, k: int, s: int): (r: nat)
    requires s <= |content|
    ensures r == 0 || (r <= k && r <= s)
    decreases if s > 0 then s else 0
  {
    if s <= 0 || k <= 0 || !HashResolvable(retained, rows, content[s-1].Hash()) then 0
    else 1 + Depth(content, rows, retained, k - 1, s - 1)
  }

  /** How many ancestors a reconcile that fails has looked up in vain. */
  ghost function Vain(content: seq<Block>, rows: seq<Block>, retained: seq<Block>, k: int, lastCommon: nat): (r: nat)
    requires lastCommon <= |content|
    ensures r == 0 || (r <= k && r <= WalkStart(content, lastCommon))
  {
    if content != [] && Resolvable(retained, rows, KnownBlock(content, lastCommon).AsPoint())
    then Depth(content, rows, retained, k, WalkStart(content, lastCommon)) else 0
  }

  /** A 64-bit index decremented n times, wrapping below zero. */
  function LoweredBy(a: nat, n: nat): nat {
    if n <= a then a - n else (a - n) % TWO_64
  }

  function Decremented(a: nat): nat {
    if a > 0 then a - 1 else TWO_64 - 1
  }

  lemma LowerOnce(a: nat, n: nat)
    ensures Decremented(LoweredBy(a, n)) == LoweredBy(a, n + 1)
    ensures 0 < n < TWO_64 ==> LoweredBy(a, n) != a
    ensures LoweredBy(a, 0) == a
  {
  }

  /** A lowered index wraps past where it was exactly when it is lowered below zero. */
  lemma WrapsIff(a: nat, n: nat)
    requires a < TWO_64 && n < TWO_64
    ensures LoweredBy(a, n) > a <==> n > a
    ensures LoweredBy(a, n) < TWO_64
  {
  }

  class Fork {
    const manager: Manager
    const id: nat
    var blocks: seq<Point>             // points above the common prefix
    var lastCommonBlockIndex: nat
    var tipBlockIndex: nat
    var currentTip: Tip
    ghost var content: seq<Block>      // the chain this fork stands for

    /** Buffer, anchor and tip describe the content, one hash-linked buffer entry per block
        above the anchor. */
    ghost predicate Shape()
      reads this
    {
      && Chained(manager.world, content)
      && tipBlockIndex == |content|
      && PrimaryChain.TipNames(currentTip, content)
      && lastCommonBlockIndex <= |content|
      && blocks == PointsOf(content[lastCommonBlockIndex..])
    }

    /** Content and tip belong together, whatever is buffered. */
    ghost predicate Standing()
      reads this
    {
      && Chained(manager.world, content)
      && tipBlockIndex == |content|
      && PrimaryChain.TipNames(currentTip, content)
    }

    /** The shape without the anchor: the buffer is the top of the content. It is all that is left
        of the shape when a reconcile has failed with the anchor lowered. */
    ghost predicate Buffered()
      reads this
    {
      && Standing()
      && |blocks| <= |content|
      && blocks == PointsOf(content[Base()..])
    }

    /** Where the buffer begins, and the anchor should be. */
    ghost function Base(): nat
      reads this
    {
      if |blocks| <= |content| then |content| - |blocks| else 0
    }

    lemma ShapeIff()
      ensures Shape() <==> Buffered() && lastCommonBlockIndex == Base()
    {
    }

    /** Reads are right, or a rollback notice says they may not be. */
    ghost predicate Watched()
      reads this, manager
    {
      || Agrees(content, manager.rows, lastCommonBlockIndex)
      || Flagged(manager.chainRollbackEvents, id, lastCommonBlockIndex)
    }

    /** A reconcile now would succeed. */
    ghost predicate CanReconcile()
      reads this, manager, manager.cache
    {
      Flagged(manager.chainRollbackEvents, id, lastCommonBlockIndex) ==>
        Reconcilable(content, manager.rows, manager.cache.order, manager.securityParam, Base())
    }

    /** How far a reconcile that fails now lowers the anchor. */
    ghost function VainNow(): nat
      reads this, manager, manager.cache
    {
      Vain(content, manager.rows, manager.cache.order, manager.securityParam, Base())
    }

    /** The index a rollback to this point cuts to when no notice is out, or that it is refused. */
    ghost function CutIndex(point: Point): Option<nat>
      reads this, manager, manager.cache
    {
      if lastCommonBlockIndex < Base() then None
      else if point.slot == 0 then Some(0)
      else Target(content, manager.rows, manager.cache.order, Base(), lastCommonBlockIndex, point)
    }

    /** A fork at a block, standing for the chain that ends there. */
    constructor (manager: Manager, id: nat, b: Block, ghost lineage: seq<Block>)
      requires manager.Valid() && Chained(manager.world, lineage) && lineage != [] && lineage[|lineage|-1] == b
      modifies manager`forks
      ensures manager.Valid() && Shape() && this.manager == manager && this.id == id
      ensures content == lineage && blocks == [] && lastCommonBlockIndex == |lineage|
      ensures manager.forks == old(manager.forks) + {id}
    {
      hide Manager.Valid, Chained;
      IdAt(manager.world, lineage, |lineage|);
      this.manager := manager;
      this.id := id;
      lastCommonBlockIndex := b.id;
      tipBlockIndex := b.id;
      currentTip := Tip(b.AsPoint(), b.header.number);
      blocks := [];
      content := lineage;
      new;
      manager.forks := manager.forks + {id};
      assert content[|lineage|..] == [];
    }

    // ----- reconciling with the primary chain -----

    /** Re-anchor at the highest buffered block the primary chain holds now, if any. */
    method MatchBuffer() returns (found: bool)
      requires manager.Valid() && Buffered()
      modifies this`blocks, this`lastCommonBlockIndex
      ensures found <==> BufferMeets(content, manager.rows, old(Base()))
      ensures found ==> Shape() && Agrees(content, manager.rows, lastCommonBlockIndex)
      ensures found ==> Reanchored(content, manager.rows, old(Base()), lastCommonBlockIndex)
      ensures !found ==> blocks == old(blocks) && lastCommonBlockIndex == old(lastCommonBlockIndex)
    {
      hide Manager.Valid, Chained, Common, PointsOf, PrimaryChain.TipNames;
      manager.RowsChained();
      ghost var base := Base();
      var i, blockIndex := |blocks|, tipBlockIndex;
      while i > 0
        invariant 0 <= i <= |blocks| && blockIndex == base + i
        invariant blocks == old(blocks) && lastCommonBlockIndex == old(lastCommonBlockIndex)
        invariant forall n :: blockIndex < n <= |content| ==> !Common(content, manager.rows, n)
      {
        i := i - 1;
        var v := blocks[i];
        BufferTail(content, base, i);
        CommonByPoint(manager.world, content, manager.rows, blockIndex);
        manager.RowAt(blockIndex);
        if blockIndex in manager.db && manager.db[blockIndex].AsPoint() == v {
          CommonPrefix(manager.world, content, manager.rows, blockIndex);
          blocks := blocks[i+1..];
          lastCommonBlockIndex := blockIndex;
          CommonBounds(content, manager.rows, blockIndex);
          return true;
        }
        blockIndex := blockIndex - 1;
      }
      return false;
    }

    /** Look up the block below content index m and whether the primary holds it there. */
    method LookUpParent(ghost content: seq<Block>, ghost m: nat, h: Hash) returns (r: Option<(Block, bool)>)
      requires manager.Valid() && Chained(manager.world, content)
      requires 1 <= m <= |content| && h == content[m-1].header.prevHash
      modifies manager.cache`order
      ensures manager.Valid()
      ensures r.Some? <==> HashResolvable(old(manager.cache.order), manager.rows, h)
      ensures r.Some? ==> && 2 <= m && r.value.0 == content[m-2] && r.value.0.id == m - 1
                          && (r.value.1 <==> Common(content, manager.rows, m - 1))
      ensures 2 <= m ==> h == content[m-2].Hash()
      ensures Reordered(old(manager.cache.order), manager.cache.order)
    {
      hide Manager.Valid, Chained, Common, HashResolvable, BlockCache.Touched;
      manager.RowsChained();
      TouchedReorders(manager.cache.order, h);
      if 2 <= m { LinkAt(manager.world, content, m); }
      var tmp := manager.BlockByHash(h);
      if tmp.None? {
        return None;
      }
      ParentIs(manager.world, content, m, tmp.value);
      CommonByPoint(manager.world, content, manager.rows, m - 1);
      manager.RowAt(m - 1);
      return Some((tmp.value, tmp.value.id in manager.db && manager.db[tmp.value.id].AsPoint() == tmp.value.AsPoint()));
    }

    /** Follow previous hashes down from content index s + 1 until the primary holds the
        block, collecting the points passed over; at most k lookups. */
    method Climb(ghost content: seq<Block>, ghost s: nat, ghost end: nat, firstPrev: Hash, seed: seq<Point>)
      returns (r: Result<()>, steps: nat, collected: seq<Point>)
      requires manager.Valid() && Chained(manager.world, content) && manager.securityParam > 0
      requires s < |content| && s <= end <= |content|
      requires firstPrev == content[s].header.prevHash && seed == Reversed(PointsOf(content[s..end]))
      modifies this`lastCommonBlockIndex, manager.cache`order
      ensures manager.Valid() && steps <= manager.securityParam
      ensures r.Ok? <==> Anchorable(content, manager.rows, old(manager.cache.order), manager.securityParam, s)
      ensures r.Ok? ==> Climbed(content, manager.rows, s, end, lastCommonBlockIndex, collected)
      ensures r.Err? ==>
                var missed := Depth(content, manager.rows, old(manager.cache.order), manager.securityParam, s);
                r.error == NotFound && lastCommonBlockIndex == LoweredBy(old(lastCommonBlockIndex), missed)
      ensures Reordered(old(manager.cache.order), manager.cache.order)
    {
      hide Manager.Valid, Chained, Common, HashResolvable, PointsOf, Reversed, Anchorable, ClimbState, Reordered, Depth, LoweredBy, Decremented;
      hide Climbed;
      ghost var retained, k := manager.cache.order, manager.securityParam;
      ghost var m: nat := s + 1;                               // index of the oldest known block
      var lastPrevHash := firstPrev;
      ghost var missed: nat := 0;
      steps, collected := 0, seed;
      LowerOnce(lastCommonBlockIndex, 0);
      ClimbBegins(content, manager.rows, retained, s, end, firstPrev, seed);
      while true
        invariant manager.Valid() && steps <= manager.securityParam && m + steps == s + 1 && missed == steps
        invariant lastCommonBlockIndex == LoweredBy(old(lastCommonBlockIndex), missed)
        invariant ClimbState(content, manager.rows, retained, manager.cache.order, s, end, m, lastPrevHash, collected)
        decreases m
      {
        ghost var before := manager.cache.order;
        ClimbBounds(content, manager.rows, retained, before, s, end, m, lastPrevHash, collected);
        if steps >= manager.securityParam {
          ClimbTooLong(content, manager.rows, retained, before, s, end, m, lastPrevHash, collected, k);
          ClimbSpent(content, manager.rows, retained, before, s, end, m, lastPrevHash, collected, k);
          return Err(NotFound), steps, collected;
        }
        var parent := LookUpParent(content, m, lastPrevHash);
        LookupsCompose(retained, before, manager.cache.order);
        steps := steps + 1;
        if parent.None? {
          ClimbBroken(content, manager.rows, retained, before, s, end, m, lastPrevHash, collected, k);
          ClimbStopped(content, manager.rows, retained, before, s, end, m, lastPrevHash, collected, k);
          return Err(NotFound), steps, collected;
        }
        var (tmp, onPrimary) := parent.value;
        if onPrimary {
          ClimbEnds(content, manager.rows, retained, before, s, end, m, lastPrevHash, collected, k);
          lastCommonBlockIndex := tmp.id;
          return Ok(()), steps, collected;
        }
        ClimbMisses(content, manager.rows, retained, before, manager.cache.order, s, end, m, lastPrevHash, collected);
        lastPrevHash := tmp.header.prevHash;
        collected := collected + [tmp.AsPoint()];
        LowerOnce(old(lastCommonBlockIndex), missed);
        lastCommonBlockIndex := Decremented(lastCommonBlockIndex);
        missed := missed + 1;
        m := m - 1;
      }
    }

    /** Re-anchor below the buffer, or below the tip when nothing is buffered. */
    method WalkBack() returns (r: Result<()>, steps: nat)
      requires manager.Valid() && Buffered() && manager.securityParam > 0
      requires !BufferMeets(content, manager.rows, Base())
      modifies this`blocks, this`lastCommonBlockIndex, manager.cache`order
      ensures manager.Valid()
      ensures steps <= manager.securityParam
      ensures r.Ok? <==> Reconcilable(content, manager.rows, old(manager.cache.order), manager.securityParam, old(Base()))
      ensures r.Ok? ==> Shape() && Agrees(content, manager.rows, lastCommonBlockIndex)
      ensures r.Ok? ==> Reanchored(content, manager.rows, old(Base()), lastCommonBlockIndex)
      ensures r.Err? ==> blocks == old(blocks) && lastCommonBlockIndex == LoweredBy(old(lastCommonBlockIndex), old(VainNow()))
      ensures r.Err? ==> r.error == NotFound
      ensures Reordered(old(manager.cache.order), manager.cache.order)
    {
      hide Manager.Valid, Chained, Common, BlockCache.Touched, Resolvable, Anchorable, BufferMeets, PointsOf, Reversed, Reordered, Depth, LoweredBy, Reanchored, HighestCommon, Climbed;
      ghost var retained, anchor := manager.cache.order, Base();
      LowerOnce(lastCommonBlockIndex, 0);
      var knownPoint, seed := currentTip.point, [];
      if |blocks| > 0 {
        knownPoint := blocks[0];
      } else {
        seed := [knownPoint];
      }
      TouchedReorders(retained, knownPoint.hash);
      if content != [] { SeedOf(content, anchor); }
      var known := manager.BlockByPoint(knownPoint);
      if known.None? {
        return Err(NotFound), 0;
      }
      ghost var now := manager.cache.order;
      ghost var s: nat, end: nat := WalkStart(content, anchor), BufferStart(content, anchor);
      MemberIs(manager.world, content, s + 1, known.value);
      WalkLookups(content, manager.rows, retained, now, manager.securityParam, s, knownPoint.hash);
      DepthSame(content, manager.rows, retained, now, manager.securityParam, s);
      var collected;
      r, steps, collected := Climb(content, s, end, known.value.header.prevHash, seed);
      LookupsCompose(retained, now, manager.cache.order);
      if r.Ok? {
        manager.RowsChained();
        ClimbedHighest(content, manager.rows, anchor, s, end, lastCommonBlockIndex, collected);
        Rejoined(manager.world, content, manager.rows, anchor, lastCommonBlockIndex);
        TipLookedAt(manager.world, content, manager.rows, anchor, lastCommonBlockIndex);
        blocks := Reversed(collected) + blocks;
      }
    }

    /** Reconcile with the primary chain if it rolled back at or below the shared prefix, even
        when an earlier failure left the anchor lowered. Success leaves the content and tip alone
        and anchors the buffer to the last block the primary shares, except that a fork with
        nothing buffered never looks at its own tip and keeps it buffered if the primary has it
        again; it comes exactly when nothing was flagged or the walk can reach a shared block. A failure leaves buffer and content alone
        and the anchor lowered by the ancestors looked up in vain, which is known before the call:
        a fork in shape loses its shape exactly when there is one, and the anchor wraps exactly
        when there are more than it has left. */
    method Reconcile() returns (r: Result<()>, steps: nat)
      requires manager.Valid() && Standing()
      requires Flagged(manager.chainRollbackEvents, id, lastCommonBlockIndex) ==> Buffered()
      modifies this`blocks, this`lastCommonBlockIndex, manager`chainRollbackEvents, manager.cache`order
      ensures manager.Valid() && Standing() && manager.chainRollbackEvents == old(manager.chainRollbackEvents) - {id}
      ensures old(Buffered()) ==> Buffered()
      ensures Reordered(old(manager.cache.order), manager.cache.order)
      ensures steps <= if manager.securityParam > 0 then manager.securityParam else 0
      ensures !old(Flagged(manager.chainRollbackEvents, id, lastCommonBlockIndex)) ==>
                && r == Ok(()) && blocks == old(blocks) && lastCommonBlockIndex == old(lastCommonBlockIndex)
                && manager.cache.order == old(manager.cache.order)
      ensures old(Flagged(manager.chainRollbackEvents, id, lastCommonBlockIndex)) ==>
                && (r.Ok? <==> Reconcilable(content, manager.rows, old(manager.cache.order), manager.securityParam, old(Base())))
                && (r.Ok? ==> Shape() && Agrees(content, manager.rows, lastCommonBlockIndex))
                && (r.Ok? ==> Reanchored(content, manager.rows, old(Base()), lastCommonBlockIndex))
      ensures old(Shape() && Watched()) && r.Ok? ==> Shape() && Agrees(content, manager.rows, lastCommonBlockIndex)
      ensures r.Err? ==> blocks == old(blocks) && lastCommonBlockIndex == LoweredBy(old(lastCommonBlockIndex), old(VainNow()))
      ensures r.Err? ==> r.error == if manager.securityParam <= 0 then NotConfigured else NotFound
      ensures r.Err? && old(Shape()) && |content| < TWO_64 ==> (Shape() <==> old(VainNow()) == 0)
      ensures r.Err? && |content| < TWO_64 && old(lastCommonBlockIndex) < TWO_64 ==>
                (lastCommonBlockIndex > old(lastCommonBlockIndex) <==> old(VainNow()) > old(lastCommonBlockIndex))
    {
      hide Manager.Valid, Chained, BlockCache.Touched, Resolvable, Anchorable, BufferMeets, Flagged, Depth, LoweredBy, PointsOf, PrimaryChain.TipNames, Reanchored;
      steps := 0;
      LowerOnce(lastCommonBlockIndex, 0);
      ghost var anchor, vain := lastCommonBlockIndex, VainNow();
      ShapeIff();
      var needed := manager.ChainNeedsReconcile(id, lastCommonBlockIndex);
      LookupsRefl(manager.cache.order);
      if !needed {
        return Ok(()), steps;
      }
      if manager.securityParam <= 0 {
        return Err(NotConfigured), steps;
      }
      var found := MatchBuffer();
      if found {
        ShapeIff();
        return Ok(()), steps;
      }
      r, steps := WalkBack();
      LowerOnce(anchor, vain);
      if anchor < TWO_64 && |content| < TWO_64 { WrapsIff(anchor, vain); }
      ShapeIff();
    }

    /** A failed reconcile is forgotten: its notices are gone, so asking again reports success
        whatever is left, and a fork that was in shape still is exactly when no ancestor was
        looked up in vain. */
    method ReconcileTwice() returns (first: Result<()>, second: Result<()>)
      requires manager.Valid() && Shape() && Flagged(manager.chainRollbackEvents, id, lastCommonBlockIndex)
      requires !Reconcilable(content, manager.rows, manager.cache.order, manager.securityParam, lastCommonBlockIndex)
      modifies this`blocks, this`lastCommonBlockIndex, manager`chainRollbackEvents, manager.cache`order
      ensures first.Err? && second.Ok?
      ensures Buffered() && blocks == old(blocks) && lastCommonBlockIndex == LoweredBy(old(lastCommonBlockIndex), old(VainNow()))
      ensures |content| < TWO_64 ==> (Shape() <==> old(VainNow()) == 0)
    {
      hide Manager.Valid, Chained, BlockCache.Touched, Reconcilable, Reordered, Vain, PointsOf;
      ShapeIff();
      var steps;
      first, steps := Reconcile();
      second, steps := Reconcile();
    }

    // ----- the fork's own operations -----

    /** Read a block by index: the primary's row up to the anchor, the buffered point above. When
        the anchor is not where the buffer begins, every read above it is off by the difference,
        so it is right exactly when the fork is in shape. */
    method BlockByIndex(i: nat) returns (r: Option<Block>)
      requires manager.Valid()
      modifies manager.cache`order
      ensures manager.Valid() && Reordered(old(manager.cache.order), manager.cache.order)
      ensures i <= lastCommonBlockIndex ==> r == if 1 <= i <= |manager.rows| then Some(manager.rows[i-1]) else None
      ensures i > lastCommonBlockIndex ==>
                (r.Some? <==> && i - lastCommonBlockIndex <= |blocks|
                              && Resolvable(old(manager.cache.order), manager.rows, blocks[i-lastCommonBlockIndex-1]))
      ensures i > lastCommonBlockIndex && r.Some? ==> Sound(manager.world, r.value) && r.value.AsPoint() == blocks[i-lastCommonBlockIndex-1]
      ensures i > lastCommonBlockIndex && r.Some? && Buffered() ==>
                && r.value == content[Base()+i-lastCommonBlockIndex-1]
                && (i <= |content| ==> (r.value == content[i-1] <==> lastCommonBlockIndex == Base()))
      ensures Agrees(content, manager.rows, lastCommonBlockIndex) && 1 <= i <= lastCommonBlockIndex ==> r == Some(content[i-1])
    {
      hide Manager.Valid, Chained, BlockCache.Touched, Resolvable, PointsOf, PrimaryChain.TipNames, Reordered, Sound;
      if i <= lastCommonBlockIndex {
        manager.RowAt(i);
        LookupsRefl(manager.cache.order);
        AgreesAt(content, manager.rows, lastCommonBlockIndex, i);
        return if i in manager.db then Some(manager.db[i]) else None;
      }
      var mem := i - lastCommonBlockIndex - 1;
      if |blocks| < mem + 1 {
        LookupsRefl(manager.cache.order);
        return None;
      }
      TouchedReorders(manager.cache.order, blocks[mem].hash);
      r := manager.BlockByPoint(blocks[mem]);
      if r.Some? && Buffered() {
        BufferTail(content, Base(), mem);
        MemberIs(manager.world, content, Base() + mem + 1, r.value);
        IdAt(manager.world, content, Base() + mem + 1);
        if i <= |content| { IdAt(manager.world, content, i); }
      }
    }

    /** Add a block on top of the fork; its record lives in the retained-block cache. A fork in
        shape stays in shape; one whose anchor an earlier failure lowered grows all the same. */
    method AddBlock(h: Header) returns (r: Result<()>)
      requires manager.Valid() && Standing() && Legit(manager.world, h)
      requires Flagged(manager.chainRollbackEvents, id, lastCommonBlockIndex) ==> Buffered()
      requires content == [] ==> manager.world.index(h.hash) == 1
      modifies this, manager`chainRollbackEvents, manager.cache
      ensures manager.Valid() && Standing() && manager.chainRollbackEvents == old(manager.chainRollbackEvents) - {id}
      ensures old(Buffered()) ==> Buffered()
      ensures r.Ok? <==> old(CanReconcile()) && Follows(h, Top(old(content)))
      ensures r.Ok? && old(Shape() && Watched()) ==> Shape() && Agrees(content, manager.rows, lastCommonBlockIndex)
      ensures r.Ok? ==> && content == old(content) + [Block(|old(content)| + 1, h)]
                        && BlockCache.Find(manager.cache.order, h.hash) ==
                             (if |h.hash| == BlockCache.KEY_LENGTH then Some(Block(|content|, h)) else None)
      ensures r.Ok? && !old(Flagged(manager.chainRollbackEvents, id, lastCommonBlockIndex)) ==>
                && lastCommonBlockIndex == old(lastCommonBlockIndex) && blocks == old(blocks) + [h.AsPoint()]
                && manager.cache.order == BlockCache.Stored(old(manager.cache.order), manager.cache.capacity, Block(|content|, h))
      ensures r.Err? ==> content == old(content)
    {
      hide Manager.Valid, Shape, Standing, Buffered, Reconcilable, Reordered, BlockCache.Find, Flagged, Vain, LoweredBy;
      var steps;
      r, steps := Reconcile();
      if r.Err? {
        return;
      }
      r := CheckFits(h);
      if r.Ok? {
        Push(h);
      }
    }

    method CheckFits(h: Header) returns (r: Result<()>)
      requires Standing()
      ensures r.Ok? <==> Follows(h, Top(content))
      ensures r.Err? ==> r.error == FollowError(h, Top(content))
    {
      hide Chained, PointsOf;
      if tipBlockIndex >= 1 {
        if h.prevHash != currentTip.point.hash {
          return Err(NotFitTip);
        }
        if !Contiguous(h.era, h.number, currentTip.number) {
          return Err(NumberNotContiguous);
        }
      }
      return Ok(());
    }

    method Push(h: Header)
      requires manager.Valid() && Standing()
      requires Legit(manager.world, h) && Follows(h, Top(content)) && (content == [] ==> manager.world.index(h.hash) == 1)
      modifies this`content, this`blocks, this`currentTip, this`tipBlockIndex, manager.cache
      ensures manager.Valid() && Standing() && blocks == old(blocks) + [h.AsPoint()]
      ensures old(Buffered()) ==> Buffered()
      ensures old(Shape()) ==> Shape()
      ensures old(Agrees(content, manager.rows, lastCommonBlockIndex)) ==> Agrees(content, manager.rows, lastCommonBlockIndex)
      ensures content == old(content) + [Block(|old(content)| + 1, h)]
      ensures manager.cache.order == BlockCache.Stored(old(manager.cache.order), manager.cache.capacity, Block(|content|, h))
      ensures BlockCache.Find(manager.cache.order, h.hash) ==
                if |h.hash| == BlockCache.KEY_LENGTH then Some(Block(|content|, h)) else None
    {
      hide Manager.Valid, Chained, PointsOf, BlockCache.Stored, BlockCache.Find, Agrees, Shape;
      ShapeIff();
      var b := Block(tipBlockIndex + 1, h);
      ChainedAppend(manager.world, content, b);
      if Buffered() { BufferGrows(content, Base(), b); }
      AgreesGrows(content, manager.rows, lastCommonBlockIndex, b);
      StoredIsFound(manager.cache.order, manager.cache.capacity, b);
      manager.Retain(b, content + [b]);
      content := content + [b];
      blocks := blocks + [h.AsPoint()];
      currentTip := Tip(h.AsPoint(), h.number);
      tipBlockIndex := b.id;
      ShapeIff();
    }

    /** Whether this fork has the block with this hash at this index now: up to the anchor what
        the primary has there, above it what a read gives. */
    method HoldsBlockAtIndex(index: nat, hash: Hash) returns (r: bool)
      requires manager.Valid() && Buffered()
      modifies manager.cache`order
      ensures manager.Valid() && Reordered(old(manager.cache.order), manager.cache.order)
      ensures index <= lastCommonBlockIndex ==>
                (r <==> 1 <= index <= |content| && index <= |manager.rows| && manager.rows[index-1].Hash() == hash)
      ensures index > lastCommonBlockIndex ==>
                (r <==> && index <= |content| && index - lastCommonBlockIndex <= |blocks|
                        && content[Base()+index-lastCommonBlockIndex-1].Hash() == hash
                        && Resolvable(old(manager.cache.order), manager.rows, blocks[index-lastCommonBlockIndex-1]))
    {
      hide Manager.Valid, Chained, BlockCache.Touched, Resolvable, PointsOf, Reordered, Agrees, Sound;
      if index < 1 || index > tipBlockIndex {
        LookupsRefl(manager.cache.order);
        return false;
      }
      var b := BlockByIndex(index);
      return b.Some? && b.value.Hash() == hash;
    }

    /** Roll the fork back. When the primary had rolled back under it and it could reconcile, or
        it is in shape over a prefix it shares, to origin or to a point of its own content, however
        far. Otherwise the anchor decides: below the buffer nothing is accepted; at or above it
        every point the primary holds up to the anchor is, whether the fork ever held it or not,
        and what the buffer then keeps is not the fork's. */
    method Rollback(point: Point) returns (r: Result<()>)
      requires manager.Valid() && Buffered()
      modifies this, manager`chainRollbackEvents, manager.cache`order
      ensures manager.Valid() && Standing() && manager.chainRollbackEvents == old(manager.chainRollbackEvents) - {id}
      ensures old(Flagged(manager.chainRollbackEvents, id, lastCommonBlockIndex) || (Shape() && Agrees(content, manager.rows, lastCommonBlockIndex))) ==>
                && (r.Ok? <==> && old(CanReconcile())
                               && (point.slot == 0 || OwnTarget(old(content), manager.rows, old(manager.cache.order), point)))
                && (r.Ok? ==> && Shape() && Agrees(content, manager.rows, lastCommonBlockIndex)
                              && content == old(content)[..if point.slot == 0 then 0 else IndexOf(old(content), point)])
      ensures !old(Flagged(manager.chainRollbackEvents, id, lastCommonBlockIndex)) ==>
                && (r.Ok? <==> old(CutIndex(point)).Some?)
                && (r.Ok? ==> CutTaken(old(content), old(blocks), old(lastCommonBlockIndex), old(CutIndex(point)).value))
                && (r.Ok? ==> (Shape() <==> old(lastCommonBlockIndex) == old(Base()) || old(blocks) == []))
                && (r.Err? ==> blocks == old(blocks) && lastCommonBlockIndex == old(lastCommonBlockIndex))
      ensures r.Err? ==> content == old(content) && Buffered()
      ensures Reordered(old(manager.cache.order), manager.cache.order)
    {
      hide Manager.Valid, Chained, Reconcilable, Reordered, PointsOf, HashResolvable, IndexOf, Target, OwnTarget;
      hide Vain, LoweredBy, Agrees, Flagged, PrimaryChain.TipNames, CutTaken;
      ghost var retained, was := manager.cache.order, lastCommonBlockIndex;
      var steps;
      ShapeIff();
      r, steps := Reconcile();
      if r.Err? {
        return;
      }
      ShapeIff();
      assert Shape() && Agrees(content, manager.rows, lastCommonBlockIndex) ==>
          CutIndex(point) == (if point.slot == 0 then Some(0)
                              else if OwnTarget(content, manager.rows, retained, point) then Some(IndexOf(content, point)) else None)
      by {
        if Shape() && Agrees(content, manager.rows, lastCommonBlockIndex) {
          LookupsAgree(retained, manager.cache.order, manager.rows, point.hash);
          manager.RowsChained();
          TargetIsOwn(manager.world, content, manager.rows, retained, manager.cache.order, lastCommonBlockIndex, point);
        }
      }
      ghost var now := manager.cache.order;
      r := CutBack(point);
      LookupsCompose(retained, now, manager.cache.order);
    }

    /** What a rollback does once reconciled. */
    method CutBack(point: Point) returns (r: Result<()>)
      requires manager.Valid() && Buffered()
      modifies this, manager.cache`order
      ensures manager.Valid() && Standing() && Reordered(old(manager.cache.order), manager.cache.order)
      ensures r.Ok? <==> old(CutIndex(point)).Some?
      ensures r.Err? ==> r.error == (if point.slot == 0 || old(Target(content, manager.rows, manager.cache.order, Base(), lastCommonBlockIndex, point)).Some?
                                     then BeyondForkBuffer else NotFound)
      ensures r.Ok? ==> CutTaken(old(content), old(blocks), old(lastCommonBlockIndex), old(CutIndex(point)).value)
      ensures r.Ok? ==> (Shape() <==> old(lastCommonBlockIndex) == old(Base()) || old(blocks) == [])
      ensures r.Ok? && old(Shape() && Agrees(content, manager.rows, lastCommonBlockIndex)) ==>
                Agrees(content, manager.rows, lastCommonBlockIndex) && content == old(content)[..old(CutIndex(point)).value]
      ensures r.Err? ==> content == old(content) && blocks == old(blocks) && lastCommonBlockIndex == old(lastCommonBlockIndex) && Buffered()
    {
      hide Manager.Valid, Chained, Reordered, PointsOf, Target, Agrees, PrimaryChain.TipNames, CutTaken;
      ShapeIff();
      LookupsRefl(manager.cache.order);
      var index, number := 0, 0;
      if point.slot > 0 {
        var b := RollbackPointBlock(point);
        if b.None? {
          return Err(NotFound);
        }
        index, number := b.value.id, b.value.header.number;
      }
      if lastCommonBlockIndex < tipBlockIndex && tipBlockIndex - lastCommonBlockIndex > |blocks| {
        return Err(BeyondForkBuffer);
      }
      CutTo(point, index, number);
      return Ok(());
    }

    method RollbackPointBlock(point: Point) returns (r: Option<Block>)
      requires manager.Valid() && Buffered() && point.slot > 0
      modifies manager.cache`order
      ensures manager.Valid() && Reordered(old(manager.cache.order), manager.cache.order)
      ensures var t := Target(content, manager.rows, old(manager.cache.order), Base(), lastCommonBlockIndex, point);
              && (r.Some? <==> t.Some?)
              && (r.Some? ==> && r.value.id == t.value && r.value.AsPoint() == point
                              && r.value == if t.value <= lastCommonBlockIndex then manager.rows[t.value-1] else content[t.value-1])
    {
      hide Manager.Valid, Chained, BlockCache.Touched, PointsOf, HashResolvable, Resolvable, IndexOf, Target, PrimaryChain.TipNames, Reordered;
      ghost var retained, onFork := manager.cache.order, IndexOf(content, point) > 0;
      manager.RowsChained();
      TouchedReorders(retained, point.hash);
      LookupsAgree(retained, BlockCache.Touched(retained, point.hash), manager.rows, point.hash);
      if onFork { manager.ResolvableByHash(content, point); }
      r := manager.BlockByPoint(point);
      if r.None? {
        UnresolvedTarget(content, manager.rows, retained, Base(), lastCommonBlockIndex, point);
        return;
      }
      if onFork { manager.ResolvableByHash(content, point); }
      TargetOf(manager.world, content, manager.rows, retained, Base(), lastCommonBlockIndex, r.value);
      if lastCommonBlockIndex < r.value.id <= lastCommonBlockIndex + |blocks| {
        BufferTail(content, Base(), r.value.id - lastCommonBlockIndex - 1);
      }
      ghost var now := manager.cache.order;
      var held := HoldsBlockAtIndex(r.value.id, r.value.Hash());
      LookupsCompose(retained, now, manager.cache.order);
      if !held {
        return None;
      }
    }

    /** Drop buffered points above index, newest first. */
    method DropAbove(index: nat)
      requires index <= tipBlockIndex <= lastCommonBlockIndex + |blocks|
      modifies this`blocks
      ensures blocks == Dropped(old(blocks), tipBlockIndex, lastCommonBlockIndex, index)
    {
      var i := tipBlockIndex;
      while i > index
        invariant index <= i <= tipBlockIndex
        invariant blocks == Dropped(old(blocks), tipBlockIndex, lastCommonBlockIndex, i)
      {
        if i > lastCommonBlockIndex {
          var mem := i - lastCommonBlockIndex - 1;
          blocks := blocks[..mem] + blocks[mem+1..];
        }
        i := i - 1;
      }
    }

    /** Cut the fork to index blocks, the last at point; below the anchor the anchor follows. */
    method CutTo(point: Point, index: nat, number: nat)
      requires manager.Valid() && Buffered() && Base() <= lastCommonBlockIndex && index <= |content|
      requires if index <= lastCommonBlockIndex then index <= |manager.rows| else lastCommonBlockIndex == Base()
      requires index == 0 ==> point.slot == 0
      requires index > 0 ==> var b := if index <= lastCommonBlockIndex then manager.rows[index-1] else content[index-1];
                             b.AsPoint() == point && b.header.number == number
      modifies this
      ensures Standing() && CutTaken(old(content), old(blocks), old(lastCommonBlockIndex), index)
      ensures Shape() <==> old(lastCommonBlockIndex) == old(Base()) || old(blocks) == []
      ensures old(Shape() && Agrees(content, manager.rows, lastCommonBlockIndex)) ==>
                Agrees(content, manager.rows, lastCommonBlockIndex) && content == old(content)[..index]
    {
      hide Manager.Valid, Chained, PointsOf, Agrees, PrimaryChain.TipNames, Kept, Dropped;
      ghost var kept := Kept(content, manager.rows, lastCommonBlockIndex, index);
      manager.RowsChained();
      KeptChained(manager.world, content, manager.rows, lastCommonBlockIndex, index);
      KeptTip(content, manager.rows, lastCommonBlockIndex, index, point, number);
      KeptBuffer(content, manager.rows, Base(), lastCommonBlockIndex, index);
      DropAbove(index);
      if index < lastCommonBlockIndex {
        lastCommonBlockIndex := index;
      }
      content := kept;
      currentTip := Tip(point, number);
      tipBlockIndex := index;
    }

    /** The fork as a cut to index n leaves it. */
    ghost predicate CutTaken(content: seq<Block>, blocks: seq<Point>, anchor: nat, n: nat)
      reads this, manager
    {
      && n <= |content| <= anchor + |blocks| && (n <= anchor ==> n <= |manager.rows|)
      && this.content == Kept(content, manager.rows, anchor, n)
      && lastCommonBlockIndex == (if n < anchor then n else anchor)
      && this.blocks == Dropped(blocks, |content|, anchor, n)
    }
  }

  /** What a fork stands for after a cut: up to the anchor it is what the primary holds. */
  function Kept(content: seq<Block>, rows: seq<Block>, anchor: nat, n: nat): seq<Block>
    requires n <= |content| && (n <= anchor ==> n <= |rows|)
  {
    if n <= anchor then rows[..n] else content[..n]
  }

  /** What is left in the buffer: an anchor above the tip makes everything stay. */
  function Dropped(blocks: seq<Point>, tip: nat, anchor: nat, n: nat): seq<Point>
    requires n <= tip <= anchor + |blocks|
  {
    if tip <= anchor then blocks else blocks[..Max(n, anchor) - anchor] + blocks[tip-anchor..]
  }

  /** Points of its own content that a fork in shape over a shared prefix can roll back to. */
  ghost predicate OwnTarget(content: seq<Block>, rows: seq<Block>, retained: seq<Block>, p: Point) {
    IndexOf(content, p) > 0 && HashResolvable(retained, rows, p.hash)
  }

  /** Where a fork believes to hold a point: up to its anchor wherever the primary holds it, above
      only if the buffer begins at the anchor. */
  ghost function Target(content: seq<Block>, rows: seq<Block>, retained: seq<Block>, base: nat, anchor: nat, p: Point): (r: Option<nat>)
    ensures r.Some? ==> 0 < r.value <= |content|
    ensures r.Some? ==> if r.value <= anchor then r.value <= |rows| else anchor == base
  {
    if 0 < IndexOf(rows, p) <= anchor && IndexOf(rows, p) <= |content| then Some(IndexOf(rows, p))
    else if anchor == base && IndexOf(content, p) > anchor && HashResolvable(retained, rows, p.hash) then Some(IndexOf(content, p))
    else None
  }

  lemma UnresolvedTarget(content: seq<Block>, rows: seq<Block>, retained: seq<Block>, base: nat, anchor: nat, p: Point)
    requires !Resolvable(retained, rows, p)
    requires IndexOf(content, p) > 0 ==> !HashResolvable(retained, rows, p.hash)
    ensures Target(content, rows, retained, base, anchor, p).None?
  {
    hide IndexOf, HashResolvable;
  }

  /** A resolved block is a target exactly where index and hash say the fork holds it. */
  lemma TargetOf(w: World, content: seq<Block>, rows: seq<Block>, retained: seq<Block>, base: nat, anchor: nat, b: Block)
    requires Chained(w, content) && Chained(w, rows) && Sound(w, b) && base <= |content|
    requires IndexOf(content, b.AsPoint()) > 0 ==> HashResolvable(retained, rows, b.Hash())
    ensures var t := Target(content, rows, retained, base, anchor, b.AsPoint());
            && (t.Some? <==>
                  && 1 <= b.id <= |content|
                  && if b.id <= anchor then b.id <= |rows| && rows[b.id-1].Hash() == b.Hash()
                     else b.id - anchor <= |content| - base && content[base+b.id-anchor-1].Hash() == b.Hash())
            && (t.Some? ==> t.value == b.id && b == if b.id <= anchor then rows[b.id-1] else content[b.id-1])
            && (t.Some? && b.id > anchor ==> IndexOf(content, b.AsPoint()) > 0)
  {
    hide IndexOf, HashResolvable, Chained;
    var p := b.AsPoint();
    PrimaryChain.ResolvedIsHeld(w, content, p, b);
    PrimaryChain.ResolvedIsHeld(w, rows, p, b);
    if anchor < b.id <= |content| && b.id - anchor <= |content| - base {
      IdAt(w, content, base + b.id - anchor);
    }
  }

  lemma IdAt(w: World, content: seq<Block>, n: nat)
    requires Chained(w, content) && 1 <= n <= |content|
    ensures content[n-1].id == n == w.index(content[n-1].Hash())
  {
    assert Sound(w, content[n-1]);
  }

  lemma TargetIsOwn(w: World, content: seq<Block>, rows: seq<Block>, retained: seq<Block>, now: seq<Block>, anchor: nat, p: Point)
    requires Chained(w, content) && Chained(w, rows) && Agrees(content, rows, anchor)
    requires HashResolvable(now, rows, p.hash) <==> HashResolvable(retained, rows, p.hash)
    ensures Target(content, rows, now, anchor, anchor, p) ==
            if OwnTarget(content, rows, retained, p) then Some(IndexOf(content, p)) else None
  {
    hide IndexOf, Chained;
    var i, j := IndexOf(content, p), IndexOf(rows, p);
    if i > 0 && j > 0 { IndexOfSame(w, content, rows, p); }
    if j > 0 { assert rows[j-1].Hash() == p.hash; }
    if 0 < i <= anchor {
      assert rows[..anchor][i-1] == content[..anchor][i-1];
      IndexOfAt(w, rows, i - 1);
    }
    if 0 < j <= anchor {
      assert rows[..anchor][j-1] == content[..anchor][j-1];
      IndexOfAt(w, content, j - 1);
    }
  }

  /** Some row the primary holds, up to the anchor and the fork's tip, is not the fork's. */
  ghost predicate Foreign(content: seq<Block>, rows: seq<Block>, anchor: nat) {
    exists i :: 0 <= i < anchor && i < |rows| && i < |content| && rows[i] != content[i]
  }

  /** With no notice out, every rollback a fork accepts leaves a prefix of its own content if and
      only if its anchor is below its buffer or no foreign row lies below anchor and tip. */
  lemma OwnRollbacksIff(fork: Fork)
    requires fork.manager.Valid() && fork.Buffered()
    ensures (forall p :: fork.CutIndex(p).Some? ==>
               Kept(fork.content, fork.manager.rows, fork.lastCommonBlockIndex, fork.CutIndex(p).value) <= fork.content)
            <==> fork.lastCommonBlockIndex < fork.Base() || !Foreign(fork.content, fork.manager.rows, fork.lastCommonBlockIndex)
  {
    hide Manager.Valid, Chained, IndexOf, PointsOf, PrimaryChain.TipNames, HashResolvable;
    var content, rows, anchor := fork.content, fork.manager.rows, fork.lastCommonBlockIndex;
    fork.manager.RowsChained();
    if fork.Base() <= anchor {
      if Foreign(content, rows, anchor) {
        var i :| 0 <= i < anchor && i < |rows| && i < |content| && rows[i] != content[i];
        RowIsTarget(fork, i);
        assert rows[..i+1][i] != content[i];
      } else {
        assert forall n: nat :: n <= anchor && n <= |rows| && n <= |content| ==> rows[..n] == content[..n];
      }
    }
  }

  /** A row up to anchor and tip is a point the fork takes for its own. */
  lemma RowIsTarget(fork: Fork, i: nat)
    requires fork.manager.Valid() && fork.Buffered() && fork.Base() <= fork.lastCommonBlockIndex
    requires i < fork.lastCommonBlockIndex && i < |fork.manager.rows| && i < |fork.content|
    ensures fork.CutIndex(fork.manager.rows[i].AsPoint()) == Some(i + 1)
  {
    hide Manager.Valid, IndexOf, PointsOf, PrimaryChain.TipNames, HashResolvable;
    fork.manager.RowsChained();
    IndexOfAt(fork.manager.world, fork.manager.rows, i);
    SlotPositive(fork.manager.world, fork.manager.rows, i);
  }

  /** For a fork in shape, a foreign row is what tells its reads from its content. */
  lemma ForeignInShape(content: seq<Block>, rows: seq<Block>, anchor: nat)
    requires anchor <= |content|
    ensures Agrees(content, rows, anchor) <==> anchor <= |rows| && !Foreign(content, rows, anchor)
  {
    if Agrees(content, rows, anchor) {
      forall i | 0 <= i < anchor ensures rows[i] == content[i] { assert rows[..anchor][i] == content[..anchor][i]; }
    } else if anchor <= |rows| {
      assert exists i :: 0 <= i < anchor && rows[..anchor][i] != content[..anchor][i];
    }
  }

  lemma AgreesAt(content: seq<Block>, rows: seq<Block>, anchor: nat, i: nat)
    ensures Agrees(content, rows, anchor) && 1 <= i <= anchor ==> i <= |rows| && i <= |content| && rows[i-1] == content[i-1]
  {
    if Agrees(content, rows, anchor) && 1 <= i <= anchor {
      assert rows[..anchor][i-1] == content[..anchor][i-1];
    }
  }

  /** Fork at a point the manager can look up, the last block of some chain; none when it cannot.
      The fork stands for that chain, but nothing asks whether the primary holds the point: reads
      are right exactly when it does. */
  method NewChain(manager: Manager, id: nat, point: Point, ghost lineage: seq<Block>) returns (r: Option<Fork>)
    requires manager.Valid() && id !in manager.forks && id !in manager.chainRollbackEvents
    requires Resolvable(manager.cache.order, manager.rows, point) ==> Chained(manager.world, lineage) && EndsAt(lineage, point)
    modifies manager`forks, manager.cache`order
    ensures manager.Valid() && Reordered(old(manager.cache.order), manager.cache.order)
    ensures r.Some? <==> Resolvable(old(manager.cache.order), manager.rows, point)
    ensures r.None? ==> manager.forks == old(manager.forks)
    ensures r.Some? ==>
              && fresh(r.value) && r.value.manager == manager && r.value.id == id && manager.forks == old(manager.forks) + {id}
              && r.value.Shape() && r.value.content == lineage && r.value.blocks == []
              && (r.value.Watched() <==> IndexOf(manager.rows, point) > 0)
  {
    hide Manager.Valid, Chained, IndexOf, Resolvable, Reordered, BlockCache.Touched, Agrees, PointsOf, PrimaryChain.TipNames;
    manager.RowsChained();
    TouchedReorders(manager.cache.order, point.hash);
    var b := manager.BlockByPoint(point);
    if b.None? {
      return None;
    }
    MemberIs(manager.world, lineage, |lineage|, b.value);
    LineageShared(manager.world, manager.rows, lineage, point);
    var fork := new Fork(manager, id, b.value, lineage);
    return Some(fork);
  }

  ghost predicate EndsAt(c: seq<Block>, p: Point) {
    c != [] && c[|c|-1].AsPoint() == p
  }

  lemma LineageShared(w: World, rows: seq<Block>, lineage: seq<Block>, p: Point)
    requires Chained(w, rows) && Chained(w, lineage) && EndsAt(lineage, p)
    ensures Agrees(lineage, rows, |lineage|) <==> IndexOf(rows, p) > 0
  {
    hide Chained, IndexOf;
    var n := |lineage|;
    IndexOfAt(w, lineage, n - 1);
    AgreesAt(lineage, rows, n, n);
    if IndexOf(rows, p) > 0 {
      IndexOfSame(w, rows, lineage, p);
      assert lineage[..n] == lineage;
    }
  }

  function Max(a: nat, b: nat): nat { if a > b then a else b }

  function Top(c: seq<Block>): Option<Header> {
    if c == [] then None else Some(c[|c|-1].header)
  }

  lemma StoredIsFound(es: seq<Block>, cap: nat, b: Block)
    ensures BlockCache.Find(BlockCache.Stored(es, cap, b), b.Hash()) ==
              if |b.Hash()| == BlockCache.KEY_LENGTH then Some(b) else None
  {
    if |b.Hash()| == BlockCache.KEY_LENGTH {
      BlockCache.SamePosition(BlockCache.Stored(es, cap, b), b.Hash(), 0);
    }
  }

  lemma KeptChained(w: World, c: seq<Block>, rows: seq<Block>, anchor: nat, index: nat)
    requires Chained(w, c) && Chained(w, rows) && index <= |c| && (index <= anchor ==> index <= |rows|)
    ensures Chained(w, Kept(c, rows, anchor, index))
  {
    hide Chained;
    if index <= anchor { ChainedPrefix(w, rows, index); } else { ChainedPrefix(w, c, index); }
  }

  lemma KeptTip(c: seq<Block>, rows: seq<Block>, anchor: nat, index: nat, point: Point, number: nat)
    requires index <= |c| && (index <= anchor ==> index <= |rows|)
    requires index == 0 ==> point.slot == 0
    requires index > 0 ==> var b := if index <= anchor then rows[index-1] else c[index-1];
                           b.AsPoint() == point && b.header.number == number
    ensures PrimaryChain.TipNames(Tip(point, number), Kept(c, rows, anchor, index))
  {
  }

  /** The buffer after a cut is the top of what is kept exactly when it began at the anchor or
      was empty; and a cut of what was shared stays shared. */
  lemma KeptBuffer(c: seq<Block>, rows: seq<Block>, base: nat, anchor: nat, index: nat)
    requires base <= |c| && base <= anchor && index <= |c|
    requires if index <= anchor then index <= |rows| else anchor == base
    ensures var kept, blocks, n := Kept(c, rows, anchor, index), PointsOf(c[base..]), if index < anchor then index else anchor;
            && n <= |kept| == index && (Dropped(blocks, |c|, anchor, index) == PointsOf(kept[n..]) <==> anchor == base || blocks == [])
            && (Agrees(c, rows, anchor) ==> Agrees(kept, rows, n) && kept == c[..index])
  {
    var kept, n := Kept(c, rows, anchor, index), if index < anchor then index else anchor;
    if Agrees(c, rows, anchor) {
      assert rows[..n] == rows[..anchor][..n];
      assert c[..n] == c[..anchor][..n];
      if index <= anchor { assert rows[..index] == rows[..anchor][..index] == c[..anchor][..index]; }
    }
    if index > anchor {
      assert kept[n..] == c[anchor..index];
    }
  }

  /** First content index (zero-based) whose point the walk does not have to collect. */
  function BufferStart(content: seq<Block>, lastCommon: nat): nat {
    if lastCommon < |content| then lastCommon else |content|
  }

  lemma SeedOf(content: seq<Block>, anchor: nat)
    requires content != [] && anchor <= |content|
    ensures var s, end, buffer := WalkStart(content, anchor), BufferStart(content, anchor), PointsOf(content[anchor..]);
            && 0 <= s < |content| && s <= end <= |content| && s <= anchor && content[s] == KnownBlock(content, anchor)
            && (if |buffer| > 0 then buffer[0] == content[s].AsPoint() && [] == Reversed(PointsOf(content[s..end]))
                else s == |content| - 1 && [content[s].AsPoint()] == Reversed(PointsOf(content[s..end])))
  {
  }

  lemma Rejoined(w: World, content: seq<Block>, rows: seq<Block>, anchor: nat, n: nat)
    requires Chained(w, content) && Chained(w, rows) && Common(content, rows, n)
    requires anchor <= |content| && n <= WalkStart(content, anchor)
    ensures Agrees(content, rows, n)
    ensures Reversed(Reversed(PointsOf(content[n..BufferStart(content, anchor)]))) + PointsOf(content[anchor..])
            == PointsOf(content[n..])
  {
    hide Chained;
    CommonPrefix(w, content, rows, n);
    JoinBuffer(content, n, BufferStart(content, anchor));
    assert content[BufferStart(content, anchor)..] == content[anchor..];
  }

  /** Half-way through a walk: the oldest known block is at m, everything from there up to s
      was looked up in vain and collected, and lookups answer as when the walk began. */
  ghost predicate ClimbState(content: seq<Block>, rows: seq<Block>, retained: seq<Block>, now: seq<Block>,
                             s: nat, end: nat, m: nat, prev: Hash, collected: seq<Point>) {
    && s < |content| && s <= end <= |content| && 1 <= m <= s + 1
    && prev == content[m-1].header.prevHash
    && collected == Reversed(PointsOf(content[m-1..end]))
    && WalkMissed(content, rows, retained, m, s)
    && Reordered(retained, now)
  }

  /** The end of a walk: the primary holds the block at n, and all above it was collected. */
  ghost predicate Climbed(content: seq<Block>, rows: seq<Block>, s: nat, end: nat, n: nat, collected: seq<Point>) {
    HighestCommon(content, rows, n, s) && s <= end <= |content| && collected == Reversed(PointsOf(content[n..end]))
  }

  lemma ClimbedHighest(content: seq<Block>, rows: seq<Block>, base: nat, s: nat, end: nat, n: nat, collected: seq<Point>)
    requires Climbed(content, rows, s, end, n, collected) && base <= |content| && s == WalkStart(content, base)
    requires !BufferMeets(content, rows, base)
    ensures HighestCommon(content, rows, n, LookedAt(content, base))
    ensures Common(content, rows, n) && n <= s && collected == Reversed(PointsOf(content[n..end]))
  {
    hide Common;
  }

  /** What was looked at is everything, or all but a tip that is then one above the anchor. */
  lemma TipLookedAt(w: World, content: seq<Block>, rows: seq<Block>, base: nat, n: nat)
    requires Chained(w, content) && Chained(w, rows) && base <= |content| && HighestCommon(content, rows, n, LookedAt(content, base))
    ensures Reanchored(content, rows, base, n)
  {
    hide Chained, Common;
    if base == |content| && Common(content, rows, |content|) {
      assert 1 <= n <= |content| - 1 by { CommonBounds(content, rows, n); }
      CommonBelow(w, content, rows, |content|, |content| - 1);
    }
  }

  lemma ClimbBegins(content: seq<Block>, rows: seq<Block>, retained: seq<Block>, s: nat, end: nat, prev: Hash, seed: seq<Point>)
    requires s < |content| && s <= end <= |content|
    requires prev == content[s].header.prevHash && seed == Reversed(PointsOf(content[s..end]))
    ensures ClimbState(content, rows, retained, retained, s, end, s + 1, prev, seed)
  {
  }

  lemma ClimbBounds(content: seq<Block>, rows: seq<Block>, retained: seq<Block>, now: seq<Block>,
                    s: nat, end: nat, m: nat, prev: Hash, collected: seq<Point>)
    requires ClimbState(content, rows, retained, now, s, end, m, prev, collected)
    ensures 1 <= m <= s + 1 <= |content| && prev == content[m-1].header.prevHash && Reordered(retained, now)
  {
  }

  lemma ClimbTooLong(content: seq<Block>, rows: seq<Block>, retained: seq<Block>, now: seq<Block>,
                     s: nat, end: nat, m: nat, prev: Hash, collected: seq<Point>, k: int)
    requires ClimbState(content, rows, retained, now, s, end, m, prev, collected) && s + 1 - m >= k
    ensures !Anchorable(content, rows, retained, k, s)
  {
    hide WalkMissed, Anchorable;
    WalkTooLong(content, rows, retained, k, m, s);
  }

  lemma ClimbBroken(content: seq<Block>, rows: seq<Block>, retained: seq<Block>, now: seq<Block>,
                    s: nat, end: nat, m: nat, prev: Hash, collected: seq<Point>, k: int)
    requires ClimbState(content, rows, retained, now, s, end, m, prev, collected)
    requires !HashResolvable(now, rows, prev) && (2 <= m ==> prev == content[m-2].Hash())
    ensures !Anchorable(content, rows, retained, k, s)
  {
    hide WalkMissed, Anchorable, HashResolvable;
    LookupsAgree(retained, now, rows, prev);
    WalkBroken(content, rows, retained, k, m, s, prev);
  }

  /** Finding n ancestors and then no more makes n the depth. */
  lemma {:induction false} DepthIs(content: seq<Block>, rows: seq<Block>, retained: seq<Block>, k: int, s: nat, n: nat)
    requires n <= s <= |content| && n <= k
    requires forall j :: s - n <= j < s ==> HashResolvable(retained, rows, content[j].Hash())
    requires n == k || n == s || !HashResolvable(retained, rows, content[s-n-1].Hash())
    ensures Depth(content, rows, retained, k, s) == n
    decreases n
  {
    hide HashResolvable;
    if n > 0 { DepthIs(content, rows, retained, k - 1, s - 1, n - 1); }
  }

  lemma ClimbSpent(content: seq<Block>, rows: seq<Block>, retained: seq<Block>, now: seq<Block>,
                   s: nat, end: nat, m: nat, prev: Hash, collected: seq<Point>, k: int)
    requires ClimbState(content, rows, retained, now, s, end, m, prev, collected) && s + 1 - m == k
    ensures Depth(content, rows, retained, k, s) == s + 1 - m
  {
    hide HashResolvable, Common;
    DepthIs(content, rows, retained, k, s, s + 1 - m);
  }

  lemma ClimbStopped(content: seq<Block>, rows: seq<Block>, retained: seq<Block>, now: seq<Block>,
                     s: nat, end: nat, m: nat, prev: Hash, collected: seq<Point>, k: int)
    requires ClimbState(content, rows, retained, now, s, end, m, prev, collected) && s + 1 - m <= k
    requires !HashResolvable(now, rows, prev) && (2 <= m ==> prev == content[m-2].Hash())
    ensures Depth(content, rows, retained, k, s) == s + 1 - m
  {
    hide HashResolvable, Common;
    LookupsAgree(retained, now, rows, prev);
    DepthIs(content, rows, retained, k, s, s + 1 - m);
  }

  lemma {:induction false} DepthSame(content: seq<Block>, rows: seq<Block>, a: seq<Block>, b: seq<Block>, k: int, s: int)
    requires Reordered(a, b) && s <= |content|
    ensures Depth(content, rows, a, k, s) == Depth(content, rows, b, k, s)
    decreases if s > 0 then s else 0
  {
    hide HashResolvable, Reordered;
    if s > 0 {
      LookupsAgree(a, b, rows, content[s-1].Hash());
      DepthSame(content, rows, a, b, k - 1, s - 1);
    }
  }

  lemma ClimbEnds(content: seq<Block>, rows: seq<Block>, retained: seq<Block>, now: seq<Block>,
                  s: nat, end: nat, m: nat, prev: Hash, collected: seq<Point>, k: int)
    requires ClimbState(content, rows, retained, now, s, end, m, prev, collected)
    requires 2 <= m && Common(content, rows, m - 1) && s + 1 - m < k
    requires HashResolvable(now, rows, prev) && prev == content[m-2].Hash()
    ensures Anchorable(content, rows, retained, k, s) && Climbed(content, rows, s, end, m - 1, collected)
  {
    hide Anchorable, HashResolvable, Common;
    LookupsAgree(retained, now, rows, prev);
    WalkFound(content, rows, retained, k, m, s);
  }

  lemma ClimbMisses(content: seq<Block>, rows: seq<Block>, retained: seq<Block>, now: seq<Block>, later: seq<Block>,
                    s: nat, end: nat, m: nat, prev: Hash, collected: seq<Point>)
    requires ClimbState(content, rows, retained, now, s, end, m, prev, collected)
    requires 2 <= m && !Common(content, rows, m - 1)
    requires HashResolvable(now, rows, prev) && prev == content[m-2].Hash() && Reordered(now, later)
    ensures ClimbState(content, rows, retained, later, s, end, m - 1, content[m-2].header.prevHash,
                       collected + [content[m-2].AsPoint()])
  {
    hide WalkMissed, HashResolvable, Common;
    LookupsAgree(retained, now, rows, prev);
    LookupsCompose(retained, now, later);
    WalkMiss(content, rows, retained, m, s, prev);
    OneMore(content, m, end);
  }

  lemma WalkLookups(content: seq<Block>, rows: seq<Block>, a: seq<Block>, b: seq<Block>, k: int, s: int, touched: Hash)
    requires b == BlockCache.Touched(a, touched)
    ensures Anchorable(content, rows, a, k, s) <==> Anchorable(content, rows, b, k, s)
  {
    hide HashResolvable, Common, BlockCache.Touched;
    TouchedReorders(a, touched);
    forall h ensures HashResolvable(a, rows, h) <==> HashResolvable(b, rows, h) {
      LookupsAgree(a, b, rows, h);
    }
    assert forall n :: WalkReaches(content, rows, a, k, s, n) <==> WalkReaches(content, rows, b, k, s, n);
  }

  lemma CommonBounds(content: seq<Block>, rows: seq<Block>, n: nat)
    requires Common(content, rows, n)
    ensures 1 <= n <= |content| && n <= |rows|
  {
  }

  /** Two rows at the same index with the same point are the same block. */
  lemma CommonByPoint(w: World, content: seq<Block>, rows: seq<Block>, n: nat)
    requires Chained(w, content) && Chained(w, rows) && 1 <= n <= |content|
    ensures Common(content, rows, n) <==> n <= |rows| && rows[n-1].AsPoint() == content[n-1].AsPoint()
  {
    assert Sound(w, content[n-1]);
    if n <= |rows| { assert Sound(w, rows[n-1]); }
  }

  lemma MemberIs(w: World, content: seq<Block>, n: nat, b: Block)
    requires Chained(w, content) && 1 <= n <= |content| && Sound(w, b) && b.AsPoint() == content[n-1].AsPoint()
    ensures b == content[n-1]
  {
    assert Sound(w, content[n-1]);
  }

  /** A known block named as parent is the block below; the first block has none. */
  lemma ParentIs(w: World, content: seq<Block>, m: nat, b: Block)
    requires Chained(w, content) && 1 <= m <= |content|
    requires Sound(w, b) && b.Hash() == content[m-1].header.prevHash
    ensures 2 <= m && b == content[m-2] && b.id == m - 1
  {
    assert Sound(w, content[m-1]);
    assert w.index(b.Hash()) + 1 == m;
    assert Sound(w, content[m-2]);
  }

  lemma LinkAt(w: World, content: seq<Block>, m: nat)
    requires Chained(w, content) && 2 <= m <= |content|
    ensures content[m-1].header.prevHash == content[m-2].Hash()
  {
  }

  /** The same cache entries in another order of recency. */
  ghost predicate Reordered(a: seq<Block>, b: seq<Block>) {
    |a| == |b| && forall e :: e in b <==> e in a
  }

  lemma LookupsRefl(a: seq<Block>)
    ensures Reordered(a, a)
  {
  }

  /** Lookups by hash do not depend on recency. */
  lemma LookupsAgree(a: seq<Block>, b: seq<Block>, rows: seq<Block>, h: Hash)
    requires Reordered(a, b)
    ensures HashResolvable(b, rows, h) <==> HashResolvable(a, rows, h)
  {
    hide BlockCache.Position;
    if BlockCache.Find(a, h).Some? { assert BlockCache.Find(a, h).value in b; }
    if BlockCache.Find(b, h).Some? { assert BlockCache.Find(b, h).value in a; }
  }

  lemma LookupsCompose(a: seq<Block>, b: seq<Block>, c: seq<Block>)
    requires Reordered(a, b) && Reordered(b, c)
    ensures Reordered(a, c)
  {
  }

  lemma TouchedReorders(retained: seq<Block>, touched: Hash)
    ensures Reordered(retained, BlockCache.Touched(retained, touched))
  {
    BlockCache.TouchedMembers(retained, touched);
  }

  /** Every ancestor from m up to s was looked up, resolved, and is not on the primary. */
  ghost predicate WalkMissed(content: seq<Block>, rows: seq<Block>, retained: seq<Block>, m: nat, s: int) {
    && 1 <= m <= s + 1 && s <= |content|
    && (forall j :: m <= j <= s ==> !Common(content, rows, j))
    && (forall j :: m - 1 <= j < s ==> HashResolvable(retained, rows, content[j].Hash()))
  }

  lemma WalkTooLong(content: seq<Block>, rows: seq<Block>, retained: seq<Block>, k: int, m: nat, s: int)
    requires WalkMissed(content, rows, retained, m, s) && s + 1 - m >= k
    ensures !Anchorable(content, rows, retained, k, s)
  {
    hide Common;
  }

  lemma WalkBroken(content: seq<Block>, rows: seq<Block>, retained: seq<Block>, k: int, m: nat, s: int, h: Hash)
    requires WalkMissed(content, rows, retained, m, s) && !HashResolvable(retained, rows, h)
    requires 2 <= m ==> h == content[m-2].Hash()
    ensures !Anchorable(content, rows, retained, k, s)
  {
    hide Common, HashResolvable;
    assert 2 <= m ==> !HashResolvable(retained, rows, content[m-2].Hash());
  }

  lemma WalkFound(content: seq<Block>, rows: seq<Block>, retained: seq<Block>, k: int, m: nat, s: int)
    requires WalkMissed(content, rows, retained, m, s) && 2 <= m && Common(content, rows, m - 1) && s - (m - 1) < k
    requires HashResolvable(retained, rows, content[m-2].Hash())
    ensures Anchorable(content, rows, retained, k, s)
  {
    hide Common, HashResolvable;
    assert WalkReaches(content, rows, retained, k, s, m - 1);
  }

  lemma WalkMiss(content: seq<Block>, rows: seq<Block>, retained: seq<Block>, m: nat, s: int, h: Hash)
    requires WalkMissed(content, rows, retained, m, s) && 2 <= m && !Common(content, rows, m - 1)
    requires h == content[m-2].Hash() && HashResolvable(retained, rows, h)
    ensures WalkMissed(content, rows, retained, m - 1, s)
  {
    hide Common, HashResolvable;
  }

  lemma BufferTail(content: seq<Block>, n: nat, i: nat)
    requires n + i < |content|
    ensures PointsOf(content[n..])[i] == content[n+i].AsPoint()
    ensures PointsOf(content[n..])[i+1..] == PointsOf(content[n+i+1..])
  {
  }

  lemma BufferGrows(content: seq<Block>, n: nat, b: Block)
    requires n <= |content|
    ensures PointsOf((content + [b])[n..]) == PointsOf(content[n..]) + [b.AsPoint()]
    ensures (content + [b])[..n] == content[..n]
  {
  }

  lemma AgreesGrows(content: seq<Block>, rows: seq<Block>, n: nat, b: Block)
    ensures Agrees(content, rows, n) ==> Agrees(content + [b], rows, n)
  {
    if Agrees(content, rows, n) { assert (content + [b])[..n] == content[..n]; }
  }

  lemma OneMore(content: seq<Block>, m: nat, end: nat)
    requires 2 <= m && m - 1 <= end <= |content|
    ensures Reversed(PointsOf(content[m-2..end])) == Reversed(PointsOf(content[m-1..end])) + [content[m-2].AsPoint()]
  {
  }

  lemma JoinBuffer(content: seq<Block>, n: nat, end: nat)
    requires n <= end <= |content|
    ensures PointsOf(content[n..end]) + PointsOf(content[end..]) == PointsOf(content[n..])
    ensures Reversed(Reversed(PointsOf(content[n..end]))) == PointsOf(content[n..end])
  {
  }

  // ----- when a fork can be re-anchored -----

  /** The blocks a walk from the buffer down to n needs from the cache: what the primary dropped
      below the anchor and the lowest buffered block. */
  function NeededAbove(content: seq<Block>, lastCommon: nat): nat {
    if lastCommon < |content| then lastCommon + 1 else lastCommon
  }

  /** A run of cache operations has stored the fork's block at every needed index above n. */
  ghost predicate AllKept(content: seq<Block>, lastCommon: nat, n: nat, ops: seq<BlockCache.Op>) {
    forall j :: n <= j < NeededAbove(content, lastCommon) && j < |content| ==>
      |content[j].Hash()| == BlockCache.KEY_LENGTH && exists i :: BlockCache.Keeps(ops, i, content[j])
  }

  /** What the recency cache and the security parameter are for: if the primary dropped some but
      fewer than k of the fork's blocks below the anchor, and since the blocks went into the
      cache no more distinct keys were used than it has room for, the fork can be re-anchored. */
  lemma RecentForkReconciles(content: seq<Block>, rows: seq<Block>, k: int, lastCommon: nat, n: nat,
                             es: seq<Block>, cap: nat, ops: seq<BlockCache.Op>)
    requires Common(content, rows, n) && n < lastCommon <= |content| && lastCommon - n < k
    requires BlockCache.Cacheable(es, cap) && 0 < cap && |BlockCache.KeysOf(ops)| <= cap
    requires AllKept(content, lastCommon, n, ops)
    ensures Reconcilable(content, rows, BlockCache.Run(es, cap, ops), k, lastCommon)
  {
    hide BlockCache.Cacheable, BlockCache.Keeps, BlockCache.Find, BlockCache.Run, BufferMeets, IndexOf;
    var retained, s := BlockCache.Run(es, cap, ops), WalkStart(content, lastCommon);
    forall j | n <= j < NeededAbove(content, lastCommon) && j < |content|
      ensures BlockCache.Find(retained, content[j].Hash()) == Some(content[j])
    {
      var i :| BlockCache.Keeps(ops, i, content[j]);
      BlockCache.ServedAmongFew(es, cap, content[j], ops, i);
    }
    assert rows[n-1].Hash() == content[n-1].Hash();
    assert WalkReaches(content, rows, retained, k, s, n);
  }

  // ----- what primary activity leaves a fork with -----

  datatype Move = Grow(block: Block) | Cut(n: nat)

  function RowsAfter(rows: seq<Block>, mv: Move): seq<Block> {
    match mv
    case Grow(b) => rows + [b]
    case Cut(n) => if n <= |rows| then rows[..n] else rows
  }

  function NoticesAfter(rows: seq<Block>, events: map<nat, seq<nat>>, forks: set<nat>, mv: Move): map<nat, seq<nat>> {
    match mv
    case Grow(_) => events
    case Cut(n) => if n <= |rows| then Noticed(events, forks, PrimaryChain.RemovedIndices(|rows|, n)) else events
  }

  /** Every removed index reaches every fork's notices, and no notice is lost. */
  lemma {:induction false} NoticesArrive(events: map<nat, seq<nat>>, forks: set<nat>, removed: seq<nat>, id: nat, lastCommon: nat)
    requires id in forks
    requires Flagged(events, id, lastCommon) || exists i :: 0 <= i < |removed| && removed[i] <= lastCommon
    ensures Flagged(Noticed(events, forks, removed), id, lastCommon)
  {
    if removed != [] {
      var init, last := removed[..|removed|-1], removed[|removed|-1];
      var before := Noticed(events, forks, init);
      var after := Notice(before, forks, last);
      var seen := if id in before then before[id] else [];
      assert after[id] == seen + [last];
      if last <= lastCommon {
        assert after[id][|seen|] == last;
      } else {
        if i :| 0 <= i < |removed| && removed[i] <= lastCommon {
          assert init[i] == removed[i];
        }
        NoticesArrive(events, forks, init, id, lastCommon);
        var j :| 0 <= j < |before[id]| && before[id][j] <= lastCommon;
        assert after[id][j] == before[id][j];
      }
    }
  }

  /** And nothing else flags a fork: a notice at or below its anchor was there or has come. */
  lemma {:induction false} FlaggedIff(events: map<nat, seq<nat>>, forks: set<nat>, removed: seq<nat>, id: nat, lastCommon: nat)
    requires id in forks
    ensures Flagged(Noticed(events, forks, removed), id, lastCommon) <==>
            Flagged(events, id, lastCommon) || exists i :: 0 <= i < |removed| && removed[i] <= lastCommon
  {
    if Flagged(events, id, lastCommon) || exists i :: 0 <= i < |removed| && removed[i] <= lastCommon {
      NoticesArrive(events, forks, removed, id, lastCommon);
    } else if removed != [] {
      var init, last := removed[..|removed|-1], removed[|removed|-1];
      assert forall i :: 0 <= i < |init| ==> init[i] == removed[i];
      FlaggedIff(events, forks, init, id, lastCommon);
      var before := Noticed(events, forks, init);
      var seen := if id in before then before[id] else [];
      assert Notice(before, forks, last)[id] == seen + [last];
    }
  }

  /** After any run of primary adds and rollbacks, a fork whose reads no longer match its
      content has been told so: the next reconcile will not take the shortcut. */
  lemma {:induction false} PrimaryMovesAreNoticed(content: seq<Block>, rows: seq<Block>, events: map<nat, seq<nat>>,
                                                  forks: set<nat>, id: nat, lastCommon: nat, moves: seq<Move>)
    requires id in forks && lastCommon <= |content|
    requires Agrees(content, rows, lastCommon) || Flagged(events, id, lastCommon)
    ensures var (rows', events') := AfterMoves(rows, events, forks, moves);
            Agrees(content, rows', lastCommon) || Flagged(events', id, lastCommon)
  {
    if moves != [] {
      hide Flagged, Noticed;
      var init := moves[..|moves|-1];
      PrimaryMovesAreNoticed(content, rows, events, forks, id, lastCommon, init);
      var (r, e) := AfterMoves(rows, events, forks, init);
      MoveIsNoticed(content, r, e, forks, id, lastCommon, moves[|moves|-1]);
    }
  }

  function AfterMoves(rows: seq<Block>, events: map<nat, seq<nat>>, forks: set<nat>, moves: seq<Move>)
    : (seq<Block>, map<nat, seq<nat>>)
  {
    if moves == [] then (rows, events)
    else
      var (r, e) := AfterMoves(rows, events, forks, moves[..|moves|-1]);
      (RowsAfter(r, moves[|moves|-1]), NoticesAfter(r, e, forks, moves[|moves|-1]))
  }

  lemma MoveIsNoticed(content: seq<Block>, rows: seq<Block>, events: map<nat, seq<nat>>, forks: set<nat>,
                      id: nat, lastCommon: nat, mv: Move)
    requires id in forks && lastCommon <= |content|
    requires Agrees(content, rows, lastCommon) || Flagged(events, id, lastCommon)
    ensures Agrees(content, RowsAfter(rows, mv), lastCommon) || Flagged(NoticesAfter(rows, events, forks, mv), id, lastCommon)
  {
    hide Flagged, Noticed;
    match mv
    case Grow(b) =>
      if Agrees(content, rows, lastCommon) { assert (rows + [b])[..lastCommon] == rows[..lastCommon]; }
    case Cut(n) =>
      if n < |rows| {
        var removed := PrimaryChain.RemovedIndices(|rows|, n);
        if n < lastCommon && Agrees(content, rows, lastCommon) {
          assert removed[|removed|-1] == n + 1;
          NoticesArrive(events, forks, removed, id, lastCommon);
        } else if Flagged(events, id, lastCommon) {
          NoticesArrive(events, forks, removed, id, lastCommon);
        } else {
          assert rows[..n][..lastCommon] == rows[..lastCommon];
        }
      } else if n == |rows| {
        assert rows[..n] == rows;
        assert Noticed(events, forks, []) == events by { NoticedNothing(events, forks); }
        assert PrimaryChain.RemovedIndices(n, n) == [];
      }
  }

  lemma NoticedNothing(events: map<nat, seq<nat>>, forks: set<nat>)
    ensures Noticed(events, forks, []) == events
  {
  }
}
