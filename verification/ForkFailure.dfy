/** A run of the chain package, with a security parameter of two, in which reconciling fails and
    leaves a fork out of shape, fails again and takes its anchor below zero, and the fork then
    follows the primary onto another branch: a fork of one block above a primary that gives up
    two blocks and regrows, and later starts over from origin. */
module ForkFailure {
  import opened Blocks
  import opened ChainModel
  import opened ChainManager
  import opened ForkChain
  import opened PrimaryChain
  import BlockCache
  import Iterators

  /** The headers of the run: g, a, b on the primary, c on the fork, x and y on the other branch. */
  ghost predicate Branches(w: World, g: Header, a: Header, b: Header, c: Header, x: Header, y: Header) {
    && Legit(w, g) && Legit(w, a) && Legit(w, b) && Legit(w, c) && Legit(w, x) && Legit(w, y)
    && w.index(g.hash) == 1
    && Follows(a, Some(g)) && Follows(b, Some(a)) && Follows(c, Some(b))
    && Follows(x, Some(g)) && Follows(y, Some(x)) && x.hash != a.hash
    && |a.hash| == BlockCache.KEY_LENGTH && |b.hash| == BlockCache.KEY_LENGTH && |c.hash| == BlockCache.KEY_LENGTH
  }

  function Named(n: bv8): (h: Hash)
    ensures |h| == BlockCache.KEY_LENGTH && h[0] == n
  {
    seq(BlockCache.KEY_LENGTH, _ => n)
  }

  /** There are such headers. */
  lemma SuchBranches() returns (w: World, g: Header, a: Header, b: Header, c: Header, x: Header, y: Header)
    ensures Branches(w, g, a, b, c, x, y)
  {
    hide Named;
    var (hg, ha, hb, hc, hx, hy) := (Named(1), Named(2), Named(3), Named(4), Named(5), Named(6));
    g, a, b, c := Header(hg, [], 1, 1, 5), Header(ha, hg, 2, 2, 5), Header(hb, ha, 3, 3, 5), Header(hc, hb, 4, 4, 5);
    x, y := Header(hx, hg, 2, 2, 5), Header(hy, hx, 3, 3, 5);
    w := World(h => if h == hg then g else if h == ha then a else if h == hb then b
                    else if h == hc then c else if h == hx then x else y,
               h => if h == hg then 1 else if h == ha || h == hx then 2 else if h == hb || h == hy then 3
                    else if h == hc then 4 else 0);
  }

  /** The blocks a list of headers is stored as. */
  function Stack(hs: seq<Header>): (r: seq<Block>)
    ensures |r| == |hs| && forall i :: 0 <= i < |hs| ==> r[i] == Block(i + 1, hs[i])
  {
    seq(|hs|, i requires 0 <= i < |hs| => Block(i + 1, hs[i]))
  }

  lemma StackChained(w: World, hs: seq<Header>)
    requires forall i :: 0 <= i < |hs| ==> Legit(w, hs[i])
    requires hs != [] ==> w.index(hs[0].hash) == 1
    requires forall i, j :: 0 <= i < |hs| && 0 <= j < |hs| && j == i + 1 ==> hs[j].prevHash == hs[i].hash
    ensures Chained(w, Stack(hs))
  {
    StackIndexed(w, hs, |hs|);
  }

  lemma {:induction false} StackIndexed(w: World, hs: seq<Header>, n: nat)
    requires n <= |hs| && forall i :: 0 <= i < |hs| ==> Legit(w, hs[i])
    requires hs != [] ==> w.index(hs[0].hash) == 1
    requires forall i, j :: 0 <= i < |hs| && 0 <= j < |hs| && j == i + 1 ==> hs[j].prevHash == hs[i].hash
    ensures forall i :: 0 <= i < n ==> w.index(hs[i].hash) == i + 1
  {
    if n > 1 {
      StackIndexed(w, hs, n - 1);
      assert hs[n-1].prevHash == hs[n-2].hash;
    }
  }

  lemma StackSnoc(hs: seq<Header>, h: Header)
    ensures Stack(hs) + [Block(|hs| + 1, h)] == Stack(hs + [h])
  {
  }

  lemma StackPrefix(hs: seq<Header>, n: nat)
    requires n <= |hs|
    ensures Stack(hs)[..n] == Stack(hs[..n])
  {
  }

  // ----- what the cache holds while it has room -----

  /** A list of at most n blocks holds the three the fork may look up. */
  ghost predicate Retains(order: seq<Block>, n: nat, a: Header, b: Header, c: Header) {
    |order| <= n && Block(2, a) in order && Block(3, b) in order && Block(4, c) in order
  }

  lemma StoredKeeps(w: World, es: seq<Block>, cap: nat, b: Block)
    requires AllSound(w, es) && Sound(w, b) && |es| < cap
    ensures var t := BlockCache.Stored(es, cap, b);
            && AllSound(w, t) && |t| <= |es| + 1 && (forall e :: e in es ==> e in t)
            && (|b.Hash()| == BlockCache.KEY_LENGTH ==> b in t)
  {
    hide Legit;
    BlockCache.StoredMembers(es, cap, b);
    var p, t := BlockCache.Position(es, b.Hash()), BlockCache.Stored(es, cap, b);
    if |b.Hash()| == BlockCache.KEY_LENGTH {
      assert t[0] == b;
      forall e | e in es ensures e in t {
        var i :| 0 <= i < |es| && es[i] == e;
        if p < |es| {
          assert es[p] == b by { assert es[p] in es; }
          if i < p { assert t[i+1] == e; } else if i > p { assert t[i] == e; }
        } else {
          assert t[i+1] == e;
        }
      }
    }
  }

  lemma {:induction false} StoredAllKeeps(w: World, es: seq<Block>, cap: nat, bs: seq<Block>)
    requires AllSound(w, es) && AllSound(w, bs) && |es| + |bs| <= cap
    ensures var t := BlockCache.StoredAll(es, cap, bs);
            && AllSound(w, t) && |t| <= |es| + |bs| && (forall e :: e in es ==> e in t)
            && (forall b :: b in bs && |b.Hash()| == BlockCache.KEY_LENGTH ==> b in t)
  {
    hide Sound, BlockCache.Stored;
    if bs != [] {
      var init := bs[..|bs|-1];
      assert forall b :: b in init ==> b in bs;
      StoredAllKeeps(w, es, cap, init);
      StoredKeeps(w, BlockCache.StoredAll(es, cap, init), cap, bs[|bs|-1]);
    }
  }

  /** A retained block is found under its hash. */
  lemma MemberFound(w: World, es: seq<Block>, b: Block)
    requires AllSound(w, es) && b in es && |b.Hash()| == BlockCache.KEY_LENGTH
    ensures BlockCache.Find(es, b.Hash()) == Some(b)
  {
    hide Legit;
    var p := BlockCache.Position(es, b.Hash());
    assert p < |es| && es[p] in es;
  }

  // ----- the primary at b, and a fork one block above it -----

  method Load(ghost w: World, g: Header, a: Header, b: Header) returns (chain: Chain)
    requires Chained(w, Stack([g, a, b]))
    ensures fresh(chain) && fresh(chain.manager) && fresh(chain.manager.cache) && chain.Valid()
    ensures chain.headers == [] && chain.iterators == []
    ensures chain.manager.world == w && chain.manager.rows == Stack([g, a, b]) && chain.manager.securityParam == 2
    ensures chain.manager.forks == {} && chain.manager.chainRollbackEvents == map[]
    ensures chain.manager.cache.order == [] && chain.manager.cache.capacity == 10000
  {
    hide Chained, WellFormed, BlockCache.Cache.Valid, AllSound;
    var db := map[1 := Block(1, g), 2 := Block(2, a), 3 := Block(3, b)];
    var manager := new Manager(w, db, Stack([g, a, b]));
    manager.securityParam := 2;
    chain := new Chain(manager);
  }

  method OpenFork(manager: Manager, ghost hs: seq<Header>, b: Header) returns (fork: Fork)
    requires manager.Valid() && hs != [] && hs[|hs|-1] == b && manager.rows == Stack(hs)
    requires manager.forks == {} && manager.chainRollbackEvents == map[]
    modifies manager`forks, manager.cache`order
    ensures fresh(fork) && fork.manager == manager && fork.id == 1 && manager.Valid() && manager.forks == {1}
    ensures fork.Shape() && fork.content == Stack(hs) && fork.blocks == []
    ensures |manager.cache.order| == |old(manager.cache.order)|
  {
    hide Manager.Valid, Chained, IndexOf, Agrees, Fork.Shape, BlockCache.Find;
    manager.RowsChained();
    IndexOfAt(manager.world, manager.rows, |hs| - 1);
    var made := NewChain(manager, 1, b.AsPoint(), manager.rows);
    fork := made.value;
  }

  method GrowFork(fork: Fork, ghost hs: seq<Header>, c: Header)
    requires fork.manager.Valid() && fork.Shape() && fork.content == Stack(hs) && hs != [] && fork.blocks == []
    requires fork.manager.chainRollbackEvents == map[] && |fork.manager.cache.order| < fork.manager.cache.capacity
    requires Legit(fork.manager.world, c) && Follows(c, Some(hs[|hs|-1])) && |c.hash| == BlockCache.KEY_LENGTH
    modifies fork, fork.manager`chainRollbackEvents, fork.manager.cache
    ensures fork.manager.Valid() && fork.Buffered() && fork.content == Stack(hs + [c])
    ensures fork.lastCommonBlockIndex == |hs| && fork.blocks == [c.AsPoint()]
    ensures fork.manager.chainRollbackEvents == map[]
    ensures |fork.manager.cache.order| <= |old(fork.manager.cache.order)| + 1 && Block(|hs| + 1, c) in fork.manager.cache.order
  {
    hide Chained, Manager.Valid, BlockCache.Stored, BlockCache.Find, AllSound, Reconcilable, Agrees, Legit, PointsOf;
    ghost var order := fork.manager.cache.order;
    fork.ShapeIff();
    GrownCache(fork.manager, Block(|hs| + 1, c), fork.content);
    var added := fork.AddBlock(c);
    StackSnoc(hs, c);
  }

  lemma GrownCache(manager: Manager, b: Block, content: seq<Block>)
    requires manager.Valid() && Chained(manager.world, content) && Legit(manager.world, b.header)
    requires b.id == |content| + 1 && content != [] && b.header.prevHash == content[|content|-1].Hash()
    requires |manager.cache.order| < manager.cache.capacity && |b.Hash()| == BlockCache.KEY_LENGTH
    ensures var t := BlockCache.Stored(manager.cache.order, manager.cache.capacity, b);
            |t| <= |manager.cache.order| + 1 && b in t
  {
    hide BlockCache.Stored, BlockCache.Cache.Valid;
    ChainedAppend(manager.world, content, b);
    assert (content + [b])[|content|] == b;
    StoredKeeps(manager.world, manager.cache.order, manager.cache.capacity, b);
  }

  // ----- the primary gives up blocks and takes others -----

  /** The chain as it stands at the top of a stack of headers, with nothing queued. */
  ghost predicate At(chain: Chain, hs: seq<Header>)
    reads chain, chain.manager, chain.manager.cache
  {
    && chain.manager.Valid() && chain.manager.rows == Stack(hs) && chain.headers == [] && chain.iterators == []
    && chain.tipBlockIndex == |hs| && TipNames(chain.currentTip, Stack(hs))
    && chain.manager.securityParam == 2 && chain.manager.cache.capacity == 10000
  }

  lemma ValidAt(chain: Chain, hs: seq<Header>)
    requires chain.manager.rows == Stack(hs) && chain.headers == [] && chain.iterators == []
    requires chain.manager.securityParam == 2 && chain.manager.cache.capacity == 10000
    ensures chain.Valid() <==> At(chain, hs)
  {
    hide Chained, BlockCache.Cache.Valid, AllSound, Holds;
    ExtendedWithoutQueue(Stack(hs));
    assert chain.V() == View(Stack(hs), []);
  }

  /** Roll back to the first n headers, within the security parameter. */
  method GiveUp(chain: Chain, ghost hs: seq<Header>, n: nat, point: Point)
    requires At(chain, hs) && n < |hs| <= n + 2 && |chain.manager.cache.order| + 2 <= 10000
    requires if n == 0 then point.slot == 0 else point == hs[n-1].AsPoint()
    modifies chain, chain.manager`db, chain.manager`rows, chain.manager`chainRollbackEvents, chain.manager.cache
    ensures At(chain, hs[..n])
    ensures chain.manager.chainRollbackEvents == Noticed(old(chain.manager.chainRollbackEvents), chain.manager.forks, RemovedIndices(|hs|, n))
    ensures |chain.manager.cache.order| <= |old(chain.manager.cache.order)| + 2
    ensures forall e :: e in old(chain.manager.cache.order) ==> e in chain.manager.cache.order
    ensures forall i :: n <= i < |hs| && |hs[i].hash| == BlockCache.KEY_LENGTH ==> Block(i + 1, hs[i]) in chain.manager.cache.order
  {
    hide Chain.Valid, Decide, AfterRollback, Noticed, RemovedIndices, Recency, Reversed, BlockCache.StoredAll;
    hide Manager.Valid, TipNames;
    ValidAt(chain, hs);
    Decides(chain, hs, n, point);
    CacheAfter(chain, hs, n, point);
    var r := chain.Rollback(point, false);
    ValidAt(chain, hs[..n]);
  }

  lemma Decides(chain: Chain, hs: seq<Header>, n: nat, point: Point)
    requires At(chain, hs) && n < |hs| <= n + 2
    requires if n == 0 then point.slot == 0 else point == hs[n-1].AsPoint()
    ensures Decide(chain.V(), 2, point) == Truncate(n)
    ensures AfterRollback(chain.V(), 2, point) == View(Stack(hs[..n]), [])
  {
    hide Manager.Valid, Extended, IndexOf, Iterators.PendingOk;
    var w := chain.manager.world;
    chain.manager.RowsChained();
    if n > 0 {
      IndexOfAt(w, Stack(hs), n - 1);
      SlotPositive(w, Stack(hs), n - 1);
    }
    StackPrefix(hs, n);
  }

  lemma CacheAfter(chain: Chain, hs: seq<Header>, n: nat, point: Point)
    requires At(chain, hs) && n < |hs| <= n + 2 && |chain.manager.cache.order| + 2 <= 10000
    ensures var t := BlockCache.StoredAll(Recency(chain.manager.cache.order, point), 10000, Reversed(Stack(hs)[n..]));
            && |t| <= |chain.manager.cache.order| + 2
            && (forall e :: e in chain.manager.cache.order ==> e in t)
            && (forall i :: n <= i < |hs| && |hs[i].hash| == BlockCache.KEY_LENGTH ==> Block(i + 1, hs[i]) in t)
  {
    hide Sound, BlockCache.StoredAll, BlockCache.Touched, BlockCache.Cache.Valid, Holds;
    var w, order, bs := chain.manager.world, chain.manager.cache.order, Reversed(Stack(hs)[n..]);
    TouchedReorders(order, point.hash);
    BlockCache.TouchedMembers(order, point.hash);
    assert forall b :: b in bs ==> Sound(w, b);
    StoredAllKeeps(w, Recency(order, point), 10000, bs);
    forall i | n <= i < |hs| ensures Block(i + 1, hs[i]) in bs {
      assert bs[|hs| - 1 - i] == Block(i + 1, hs[i]);
    }
  }

  method TakeBlock(chain: Chain, ghost hs: seq<Header>, x: Header)
    requires At(chain, hs) && MayOffer(chain.manager.world, x, Above(hs)) && Follows(x, Above(hs))
    modifies chain, chain.manager`db, chain.manager`rows
    ensures At(chain, hs + [x])
  {
    hide Manager.Valid, Chained, Extended, Legit, Chain.Valid;
    StackSnoc(hs, x);
    ValidAt(chain, hs);
    var r := chain.AddBlock(x, true, false);
    ValidAt(chain, hs + [x]);
  }

  function Above(hs: seq<Header>): Option<Header> {
    if hs == [] then None else Some(hs[|hs|-1])
  }

  // ----- what a walk makes of it -----

  /** Two lookups are all the walk gets; it finds b and a, which the primary does not hold. */
  lemma WalkFails(w: World, g: Header, a: Header, b: Header, c: Header, x: Header, y: Header, rows: seq<Block>, retained: seq<Block>)
    requires Branches(w, g, a, b, c, x, y) && AllSound(w, retained) && Retains(retained, 10000, a, b, c)
    requires rows == Stack([g, x, y]) || rows == Stack([g])
    ensures !Reconcilable(Stack([g, a, b, c]), rows, retained, 2, 3) && Vain(Stack([g, a, b, c]), rows, retained, 2, 3) == 2
  {
    hide BlockCache.Find, IndexOf, AllSound, Depth;
    MemberFound(w, retained, Block(2, a));
    MemberFound(w, retained, Block(3, b));
    MemberFound(w, retained, Block(4, c));
    DifferentHashes(w, g, a, b, c, x, y);
    hide Branches;
    var content := Stack([g, a, b, c]);
    DepthIs(content, rows, retained, 2, 3, 2);
    assert !Common(content, rows, 4) && !Common(content, rows, 3) && !Common(content, rows, 2);
  }

  lemma DifferentHashes(w: World, g: Header, a: Header, b: Header, c: Header, x: Header, y: Header)
    requires Branches(w, g, a, b, c, x, y)
    ensures x.hash != g.hash && x.hash != a.hash && x.hash != b.hash && x.hash != c.hash && y.hash != b.hash
  {
  }

  // ----- the run -----

  /** The primary at a stack of headers, and the fork with c buffered and its anchor somewhere. */
  ghost predicate Pair(w: World, chain: Chain, fork: Fork, hs: seq<Header>, g: Header, a: Header, b: Header, c: Header, anchor: nat)
    reads chain, chain.manager, chain.manager.cache, fork, fork.manager, fork.manager.cache
  {
    && At(chain, hs) && chain.manager.world == w && chain.manager.forks == {1}
    && fork.manager == chain.manager && fork.id == 1 && fork.Buffered()
    && fork.content == Stack([g, a, b, c]) && fork.blocks == [c.AsPoint()] && fork.lastCommonBlockIndex == anchor
  }

  method Begin(ghost w: World, g: Header, a: Header, b: Header, c: Header, ghost x: Header, ghost y: Header)
    returns (chain: Chain, fork: Fork)
    requires Branches(w, g, a, b, c, x, y)
    ensures fresh(chain) && fresh(chain.manager) && fresh(chain.manager.cache) && fresh(fork)
    ensures Pair(w, chain, fork, [g, a, b], g, a, b, c, 3)
    ensures |chain.manager.cache.order| <= 1 && Block(4, c) in chain.manager.cache.order
  {
    hide Chain.Valid, Manager.Valid, Fork.Shape, Fork.Buffered, TipNames;
    StackChained(w, [g, a, b]);
    chain := Load(w, g, a, b);
    ValidAt(chain, [g, a, b]);
    fork := OpenFork(chain.manager, [g, a, b], b);
    GrowFork(fork, [g, a, b], c);
    assert [g, a, b] + [c] == [g, a, b, c];
  }

  /** The primary gives up b and a and takes x and y; the fork is told. */
  method Reroute(ghost w: World, chain: Chain, fork: Fork, g: Header, ghost a: Header, ghost b: Header, ghost c: Header, x: Header, y: Header)
    requires Branches(w, g, a, b, c, x, y) && Pair(w, chain, fork, [g, a, b], g, a, b, c, 3)
    requires |chain.manager.cache.order| <= 1 && Block(4, c) in chain.manager.cache.order
    modifies chain, chain.manager`db, chain.manager`rows, chain.manager`chainRollbackEvents, chain.manager.cache
    ensures Pair(w, chain, fork, [g, x, y], g, a, b, c, 3) && Retains(chain.manager.cache.order, 3, a, b, c)
    ensures Flagged(chain.manager.chainRollbackEvents, 1, 3)
  {
    hide At, Fork.Buffered, Noticed, Flagged, Legit;
    AtFields(chain, [g, a, b]);
    ghost var events := chain.manager.chainRollbackEvents;
    assert RemovedIndices(3, 1)[0] <= 3;
    NoticesArrive(events, {1}, RemovedIndices(3, 1), 1, 3);
    GiveUp(chain, [g, a, b], 1, g.AsPoint());
    assert [g, a, b][1] == a && [g, a, b][2] == b && [g, a, b][..1] == [g];
    TakeBlock(chain, [g], x);
    assert [g] + [x] == [g, x];
    TakeBlock(chain, [g, x], y);
    assert [g, x] + [y] == [g, x, y];
  }

  lemma AtFields(chain: Chain, hs: seq<Header>)
    requires At(chain, hs)
    ensures chain.manager.Valid() && AllSound(chain.manager.world, chain.manager.cache.order)
    ensures chain.manager.rows == Stack(hs) && chain.manager.securityParam == 2 && chain.iterators == []
  {
  }

  /** The fork is asked to reconcile and fails, two ancestors looked up in vain. */
  method FailOnce(ghost w: World, chain: Chain, fork: Fork, ghost hs: seq<Header>, ghost g: Header, ghost a: Header, ghost b: Header,
                  ghost c: Header, ghost x: Header, ghost y: Header, ghost n: nat) returns (r: Result<()>)
    requires Branches(w, g, a, b, c, x, y) && Pair(w, chain, fork, hs, g, a, b, c, fork.lastCommonBlockIndex)
    requires hs == [g, x, y] || hs == [g]
    requires Retains(chain.manager.cache.order, n, a, b, c) && n <= 10000 && Flagged(chain.manager.chainRollbackEvents, 1, fork.lastCommonBlockIndex)
    modifies fork`blocks, fork`lastCommonBlockIndex, fork.manager`chainRollbackEvents, fork.manager.cache`order
    ensures r.Err? && Pair(w, chain, fork, hs, g, a, b, c, LoweredBy(old(fork.lastCommonBlockIndex), 2))
    ensures Retains(chain.manager.cache.order, n, a, b, c) && 1 !in chain.manager.chainRollbackEvents
  {
    hide Branches, Stack, Fork.Shape, Reconcilable, Vain, LoweredBy, Reordered, TipNames, Manager.Valid, Flagged, Agrees, PointsOf, Chained, Retains;
    AtFields(chain, hs);
    assert Retains(chain.manager.cache.order, 10000, a, b, c) by { MoreRoom(chain.manager.cache.order, n, a, b, c); }
    WalkFails(w, g, a, b, c, x, y, chain.manager.rows, chain.manager.cache.order);
    ghost var order := chain.manager.cache.order;
    var steps;
    r, steps := fork.Reconcile();
    StillRetains(order, chain.manager.cache.order, n, a, b, c);
  }

  /** Out of shape and with no notice out, a fork says all is well when asked to reconcile. It
      refuses every rollback if its anchor is below its buffer; otherwise it accepts origin and
      every point of the primary up to its tip and anchor, its own or not. */
  method BrokenForkAnswers(fork: Fork, point: Point) returns (reconciled: Result<()>, rolledBack: Result<()>)
    requires fork.manager.Valid() && fork.Buffered() && !fork.Shape() && fork.id !in fork.manager.chainRollbackEvents
    modifies fork, fork.manager`chainRollbackEvents, fork.manager.cache`order
    ensures reconciled.Ok? && fork.manager.Valid() && fork.manager.chainRollbackEvents == old(fork.manager.chainRollbackEvents) - {fork.id}
    ensures rolledBack.Ok? <==>
              && old(fork.lastCommonBlockIndex > fork.Base())
              && (|| point.slot == 0
                  || (&& 0 < IndexOf(fork.manager.rows, point) <= old(fork.lastCommonBlockIndex)
                      && IndexOf(fork.manager.rows, point) <= |old(fork.content)|))
    ensures rolledBack.Ok? ==>
              && fork.Standing() && (fork.Shape() <==> old(fork.blocks) == [])
              && fork.content == fork.manager.rows[..if point.slot == 0 then 0 else IndexOf(fork.manager.rows, point)]
              && fork.lastCommonBlockIndex == |fork.content|
              && (|old(fork.content)| <= old(fork.lastCommonBlockIndex) ==> fork.blocks == old(fork.blocks))
    ensures rolledBack.Err? ==>
              && fork.Buffered() && !fork.Shape() && fork.content == old(fork.content)
              && fork.blocks == old(fork.blocks) && fork.lastCommonBlockIndex == old(fork.lastCommonBlockIndex)
    ensures Reordered(old(fork.manager.cache.order), fork.manager.cache.order)
  {
    hide Manager.Valid, Reconcilable, Vain, LoweredBy, Reordered, Fork.Standing, Fork.Shape, Agrees, IndexOf, Fork.CutIndex, Fork.CutTaken, OwnTarget;
    var steps;
    fork.ShapeIff();
    BrokenCut(fork, point);
    ghost var content, blocks, anchor, cut := fork.content, fork.blocks, fork.lastCommonBlockIndex, fork.CutIndex(point);
    reconciled, steps := fork.Reconcile();
    assert fork.CutIndex(point) == cut by { BrokenCut(fork, point); }
    rolledBack := fork.Rollback(point);
    if rolledBack.Ok? { CutMeans(fork, content, blocks, anchor, cut.value); }
    fork.ShapeIff();
  }

  lemma BrokenCut(fork: Fork, point: Point)
    requires fork.Buffered() && fork.lastCommonBlockIndex != fork.Base()
    ensures fork.CutIndex(point) ==
            if fork.lastCommonBlockIndex < fork.Base() then None
            else if point.slot == 0 then Some(0)
            else if 0 < IndexOf(fork.manager.rows, point) <= fork.lastCommonBlockIndex && IndexOf(fork.manager.rows, point) <= |fork.content|
            then Some(IndexOf(fork.manager.rows, point)) else None
  {
    hide Fork.Standing, PointsOf, IndexOf;
  }

  lemma CutMeans(fork: Fork, content: seq<Block>, blocks: seq<Point>, anchor: nat, n: nat)
    requires n <= anchor && fork.CutTaken(content, blocks, anchor, n)
    ensures n <= |fork.manager.rows| && fork.content == fork.manager.rows[..n] && fork.lastCommonBlockIndex == n
    ensures |content| <= anchor ==> fork.blocks == blocks
  {
  }

  lemma LowerTwice()
    ensures LoweredBy(3, 2) == 1 && LoweredBy(1, 2) == TWO_64 - 1
  {
  }

  lemma MoreRoom(order: seq<Block>, n: nat, a: Header, b: Header, c: Header)
    requires Retains(order, n, a, b, c) && n <= 10000
    ensures Retains(order, 10000, a, b, c)
  {
  }

  lemma StillRetains(before: seq<Block>, after: seq<Block>, n: nat, a: Header, b: Header, c: Header)
    requires Retains(before, n, a, b, c) && Reordered(before, after)
    ensures Retains(after, n, a, b, c)
  {
  }

  /** The first part of the run ends in a failure that leaves the fork with its anchor two below
      its buffer; asked again, it reports success, and a rollback to its own tip is refused. */
  method FailedReconcileBreaksFork(ghost w: World, g: Header, a: Header, b: Header, c: Header, x: Header, y: Header)
    returns (chain: Chain, fork: Fork, first: Result<()>, second: Result<()>, rollback: Result<()>)
    requires Branches(w, g, a, b, c, x, y)
    ensures fresh(chain) && fresh(chain.manager) && fresh(chain.manager.cache) && fresh(fork)
    ensures Pair(w, chain, fork, [g, x, y], g, a, b, c, 1) && !fork.Shape()
    ensures first.Err? && second.Ok? && rollback.Err?
    ensures Retains(chain.manager.cache.order, 3, a, b, c) && 1 !in chain.manager.chainRollbackEvents
  {
    hide Fork.Buffered, Flagged, Branches, TipNames, Fork.Shape, IndexOf, Fork.Standing, LoweredBy, Retains, Reordered, Manager.Valid;
    chain, fork := Begin(w, g, a, b, c, x, y);
    Reroute(w, chain, fork, g, a, b, c, x, y);
    first := FailOnce(w, chain, fork, [g, x, y], g, a, b, c, x, y, 3);
    ghost var order := chain.manager.cache.order;
    AtFields(chain, [g, x, y]);
    LowerTwice();
    fork.ShapeIff();
    second, rollback := BrokenForkAnswers(fork, c.AsPoint());
    StillRetains(order, chain.manager.cache.order, 3, a, b, c);
  }

  /** The primary goes back to x and to origin and starts over; the fork, its anchor at one, is told. */
  method StartOver(ghost w: World, chain: Chain, fork: Fork, g: Header, ghost a: Header, ghost b: Header, ghost c: Header, x: Header, ghost y: Header)
    requires Branches(w, g, a, b, c, x, y) && Pair(w, chain, fork, [g, x, y], g, a, b, c, 1)
    requires Retains(chain.manager.cache.order, 3, a, b, c)
    modifies chain, chain.manager`db, chain.manager`rows, chain.manager`chainRollbackEvents, chain.manager.cache
    ensures Pair(w, chain, fork, [g], g, a, b, c, 1) && Retains(chain.manager.cache.order, 7, a, b, c)
    ensures Flagged(chain.manager.chainRollbackEvents, 1, 1)
  {
    hide At, Fork.Buffered, Noticed, Flagged, Legit, RemovedIndices;
    Removed();
    AtFields(chain, [g, x, y]);
    GiveUp(chain, [g, x, y], 2, x.AsPoint());
    assert [g, x, y][..2] == [g, x];
    AtFields(chain, [g, x]);
    ghost var events := chain.manager.chainRollbackEvents;
    NoticesArrive(events, {1}, RemovedIndices(2, 0), 1, 1);
    GiveUp(chain, [g, x], 0, Point(0, []));
    assert [g, x][..0] == [];
    TakeBlock(chain, [], g);
    assert [] + [g] == [g];
  }

  lemma Removed()
    ensures exists i :: 0 <= i < |RemovedIndices(2, 0)| && RemovedIndices(2, 0)[i] <= 1
  {
    assert RemovedIndices(2, 0)[1] <= 1;
  }

  /** With the anchor past its tip the fork takes a block of the other branch for its own. */
  method Splice(ghost w: World, chain: Chain, fork: Fork, g: Header, ghost a: Header, ghost b: Header, ghost c: Header, x: Header, ghost y: Header)
    returns (rollback: Result<()>)
    requires Branches(w, g, a, b, c, x, y) && Pair(w, chain, fork, [g], g, a, b, c, TWO_64 - 1)
    requires Retains(chain.manager.cache.order, 7, a, b, c) && 1 !in chain.manager.chainRollbackEvents
    modifies chain, chain.manager`db, chain.manager`rows, fork, fork.manager`chainRollbackEvents, fork.manager.cache`order
    ensures rollback.Ok? && fork.manager.Valid() && fork.manager.world == w && fork.manager.cache.capacity == 10000
    ensures fork.Standing() && fork.content == Stack([g, x]) && fork.blocks == [c.AsPoint()] && fork.lastCommonBlockIndex == 2
    ensures Retains(fork.manager.cache.order, 7, a, b, c) && 1 !in fork.manager.chainRollbackEvents
  {
    hide Fork.Buffered, Flagged, TipNames, Fork.Shape, IndexOf, Fork.Standing, Retains, Reordered, Manager.Valid, Legit;
    TakeBlock(chain, [g], x);
    assert [g] + [x] == [g, x];
    XIsSecond(chain, g, x);
    fork.ShapeIff();
    ghost var order := chain.manager.cache.order;
    var _, accepted := BrokenForkAnswers(fork, x.AsPoint());
    rollback := accepted;
    assert Stack([g, x])[..2] == Stack([g, x]);
    StillRetains(order, chain.manager.cache.order, 7, a, b, c);
  }

  lemma XIsSecond(chain: Chain, g: Header, x: Header)
    requires At(chain, [g, x])
    ensures IndexOf(chain.manager.rows, x.AsPoint()) == 2 && x.slot > 0
  {
    hide IndexOf, TipNames;
    chain.manager.RowsChained();
    IndexOfAt(chain.manager.world, chain.manager.rows, 1);
    SlotPositive(chain.manager.world, chain.manager.rows, 1);
  }

  /** A block added to such a fork is not what it reads at the new index. */
  method GrowSpliced(ghost w: World, fork: Fork, ghost g: Header, ghost a: Header, ghost b: Header, ghost c: Header, ghost x: Header, y: Header)
    returns (added: Result<()>, read: Option<Block>)
    requires Branches(w, g, a, b, c, x, y) && fork.manager.Valid() && fork.manager.world == w && fork.manager.cache.capacity == 10000
    requires fork.Standing() && fork.content == Stack([g, x]) && fork.blocks == [c.AsPoint()] && fork.lastCommonBlockIndex == 2 && fork.id == 1
    requires Retains(fork.manager.cache.order, 7, a, b, c) && 1 !in fork.manager.chainRollbackEvents
    modifies fork, fork.manager`chainRollbackEvents, fork.manager.cache
    ensures added.Ok? && fork.content == Stack([g, x, y]) && fork.blocks == [c.AsPoint(), y.AsPoint()] && fork.lastCommonBlockIndex == 2
    ensures read == Some(Block(4, c))
  {
    hide Manager.Valid, Fork.Buffered, Fork.Standing, Fork.Shape, Legit, Reconcilable, Agrees, BlockCache.Find, BlockCache.Stored, Sound, Reordered;
    StackSnoc([g, x], y);
    assert [g, x] + [y] == [g, x, y];
    CStaysCached(fork.manager, g, a, b, c, x, y);
    added := fork.AddBlock(y);
    CIsCached(fork.manager, c);
    assert fork.blocks[0] == c.AsPoint();
    read := fork.BlockByIndex(3);
    SoundIs(w, read.value, c);
  }

  lemma CStaysCached(manager: Manager, g: Header, a: Header, b: Header, c: Header, x: Header, y: Header)
    requires Branches(manager.world, g, a, b, c, x, y) && manager.Valid() && Retains(manager.cache.order, 7, a, b, c)
    ensures Block(4, c) in BlockCache.Stored(manager.cache.order, 10000, Block(3, y))
    ensures Sound(manager.world, Block(4, c)) && Legit(manager.world, y) && Follows(y, Some(x)) && |c.hash| == BlockCache.KEY_LENGTH
  {
    hide BlockCache.Stored, BlockCache.Cache.Valid;
    StoredKeeps(manager.world, manager.cache.order, 10000, Block(3, y));
  }

  lemma CIsCached(manager: Manager, c: Header)
    requires manager.Valid() && Block(4, c) in manager.cache.order && |c.hash| == BlockCache.KEY_LENGTH
    ensures Resolvable(manager.cache.order, manager.rows, c.AsPoint())
  {
    hide BlockCache.Find, BlockCache.Cache.Valid, Chained;
    MemberFound(manager.world, manager.cache.order, Block(4, c));
  }

  lemma SoundIs(w: World, r: Block, c: Header)
    requires Sound(w, r) && Sound(w, Block(4, c)) && r.AsPoint() == c.AsPoint()
    ensures r == Block(4, c)
  {
  }

  /** The whole run: the second failure takes the anchor below zero, where it wraps past the tip;
      the fork then accepts a rollback to x, which it never held, keeps c in its buffer, and after
      y is added on top reads c at the index of y. */
  method WrappedAnchorSplices(ghost w: World, g: Header, a: Header, b: Header, c: Header, x: Header, y: Header)
    returns (fork: Fork, again: Result<()>, rollback: Result<()>, added: Result<()>, read: Option<Block>)
    requires Branches(w, g, a, b, c, x, y)
    ensures IndexOf(Stack([g, a, b, c]), x.AsPoint()) == 0
    ensures again.Err? && rollback.Ok? && added.Ok?
    ensures fork.content == Stack([g, x, y]) && fork.blocks == [c.AsPoint(), y.AsPoint()] && fork.lastCommonBlockIndex == 2
    ensures read == Some(Block(4, c)) && read != Some(fork.content[2])
  {
    hide Fork.Buffered, Flagged, Branches, At, IndexOf, Fork.Shape, Fork.Standing, LoweredBy, Retains, Manager.Valid;
    NeverHeld(w, g, a, b, c, x, y);
    LowerTwice();
    var chain, first, second, refused;
    chain, fork, first, second, refused := FailedReconcileBreaksFork(w, g, a, b, c, x, y);
    StartOver(w, chain, fork, g, a, b, c, x, y);
    again := FailOnce(w, chain, fork, [g], g, a, b, c, x, y, 7);
    rollback := Splice(w, chain, fork, g, a, b, c, x, y);
    added, read := GrowSpliced(w, fork, g, a, b, c, x, y);
  }

  lemma NeverHeld(w: World, g: Header, a: Header, b: Header, c: Header, x: Header, y: Header)
    requires Branches(w, g, a, b, c, x, y)
    ensures IndexOf(Stack([g, a, b, c]), x.AsPoint()) == 0
  {
    hide Branches;
    DifferentHashes(w, g, a, b, c, x, y);
  }

  // ----- a tip the primary has again -----

  /** The primary gives up b and takes it again. */
  method TakeBack(chain: Chain, ghost g: Header, a: Header, b: Header)
    requires At(chain, [g, a, b]) && chain.manager.forks == {1} && |chain.manager.cache.order| == 0
    requires Legit(chain.manager.world, b) && Follows(b, Some(a))
    modifies chain, chain.manager`db, chain.manager`rows, chain.manager`chainRollbackEvents, chain.manager.cache
    ensures At(chain, [g, a, b]) && Flagged(chain.manager.chainRollbackEvents, 1, 3)
  {
    hide At, Flagged, Noticed, Legit, RemovedIndices;
    AtFields(chain, [g, a, b]);
    RemovedLast();
    NoticesArrive(chain.manager.chainRollbackEvents, {1}, RemovedIndices(3, 2), 1, 3);
    GiveUp(chain, [g, a, b], 2, a.AsPoint());
    assert [g, a, b][..2] == [g, a];
    TakeBlock(chain, [g, a], b);
    assert [g, a] + [b] == [g, a, b];
  }

  /** A fork at b, with nothing buffered, then ends up with b buffered and the anchor below it,
      although the primary holds b. */
  method ReadoptedTipIsBuffered(ghost w: World, g: Header, a: Header, b: Header, ghost c: Header, ghost x: Header, ghost y: Header)
    returns (chain: Chain, fork: Fork, r: Result<()>)
    requires Branches(w, g, a, b, c, x, y)
    ensures r.Ok? && fork.manager == chain.manager && chain.manager.rows == fork.content == Stack([g, a, b])
    ensures fork.Shape() && fork.lastCommonBlockIndex == 2 && fork.blocks == [b.AsPoint()]
  {
    hide Chain.Valid, Manager.Valid, TipNames, Flagged, Legit, Reconcilable, Agrees, Chained, PointsOf, Reanchored, Vain, LoweredBy, Reordered;
    StackChained(w, [g, a, b]);
    chain := Load(w, g, a, b);
    ValidAt(chain, [g, a, b]);
    fork := OpenFork(chain.manager, [g, a, b], b);
    TakeBack(chain, g, a, b);
    fork.ShapeIff();
    TipReconciles(w, g, a, b, chain.manager.cache.order);
    var steps;
    r, steps := fork.Reconcile();
    AnchoredBelow(g, a, b, fork.lastCommonBlockIndex);
  }

  lemma RemovedLast()
    ensures exists i :: 0 <= i < |RemovedIndices(3, 2)| && RemovedIndices(3, 2)[i] <= 3
  {
    assert RemovedIndices(3, 2)[0] <= 3;
  }

  /** The tip and the block below it resolve on the primary itself. */
  lemma TipReconciles(w: World, g: Header, a: Header, b: Header, retained: seq<Block>)
    requires Chained(w, Stack([g, a, b]))
    ensures Reconcilable(Stack([g, a, b]), Stack([g, a, b]), retained, 2, 3)
  {
    hide Chained, BlockCache.Find, IndexOf;
    var c := Stack([g, a, b]);
    IndexOfAt(w, c, 2);
    assert c[1].Hash() == a.hash;
    assert WalkReaches(c, c, retained, 2, 2, 2);
  }

  lemma AnchoredBelow(g: Header, a: Header, b: Header, n: nat)
    requires Reanchored(Stack([g, a, b]), Stack([g, a, b]), 3, n)
    ensures n == 2 && PointsOf(Stack([g, a, b])[2..]) == [b.AsPoint()]
  {
    assert Common(Stack([g, a, b]), Stack([g, a, b]), 3);
  }
}
