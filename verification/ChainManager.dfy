/** The chain manager (chain/manager.go): block rows by index, the retained-block cache, and
    the rollback notices kept for fork chains. */
module ChainManager {
  import opened Blocks
  import opened BlockCache

  /** The row store holds exactly the blocks of c, under indices 1..|c|. */
  ghost predicate Holds(db: map<nat, Block>, c: seq<Block>) {
    && (forall i :: i in db ==> 1 <= i <= |c| && db[i] == c[i-1])
    && (forall i :: 1 <= i <= |c| ==> i in db)
  }

  /** A point can be looked up: the cache retains its block, or the primary chain holds it. */
  predicate Resolvable(retained: seq<Block>, rows: seq<Block>, p: Point) {
    (Find(retained, p.hash).Some? && Find(retained, p.hash).value.Slot() == p.slot) || IndexOf(rows, p) > 0
  }

  predicate HashResolvable(retained: seq<Block>, rows: seq<Block>, h: Hash) {
    Find(retained, h).Some? || exists i :: 0 <= i < |rows| && rows[i].Hash() == h
  }

  ghost predicate AllSound(w: World, bs: seq<Block>) {
    forall b :: b in bs ==> Sound(w, b)
  }

  class Manager {
    ghost const world: World
    const cache: Cache
    var db: map<nat, Block>                           // block rows of the primary chain
    ghost var rows: seq<Block>                        // the same rows, in index order
    var securityParam: int
    var forks: set<nat>                               // ids of the non-primary chains
    var chainRollbackEvents: map<nat, seq<nat>>       // removed indices a fork has not looked at

    ghost predicate Valid()
      reads this`db, this`rows, cache
    {
      cache.Valid() && AllSound(world, cache.order) && Holds(db, rows) && Chained(world, rows)
    }

    /** Open a manager over the rows a store already holds. */
    constructor (ghost world: World, db: map<nat, Block>, ghost rows: seq<Block>)
      requires Holds(db, rows) && Chained(world, rows)
      ensures Valid() && fresh(cache)
      ensures this.world == world && this.rows == rows && cache.order == [] && cache.capacity == 10000
      ensures securityParam == 0 && forks == {} && chainRollbackEvents == map[]
    {
      this.world := world;
      this.db := db;
      this.rows := rows;
      cache := new Cache(10000);
      securityParam := 0;
      forks := {};
      chainRollbackEvents := map[];
    }

    method BlockByPoint(p: Point) returns (r: Option<Block>)
      requires Valid()
      modifies cache`order
      ensures Valid()
      ensures cache.order == Touched(old(cache.order), p.hash)
      ensures r.Some? <==> Resolvable(old(cache.order), rows, p)
      ensures r.Some? ==> Sound(world, r.value) && r.value.AsPoint() == p
    {
      hide Chained, IndexOf, Position, Cacheable, Indexes, Touched;
      TouchedMembers(cache.order, p.hash);
      var hit := cache.Get(p.hash);
      if hit.Some? && hit.value.Slot() == p.slot {
        FoundIsMember(old(cache.order), p.hash);
        return hit;
      }
      if i :| i in db && db[i].AsPoint() == p {
        RowIsSound(i);
        assert rows[i-1].AsPoint() == p;
        return Some(db[i]);
      }
      assert forall i :: 0 <= i < |rows| ==> i + 1 in db && db[i+1] == rows[i];
      return None;
    }

    lemma RowsChained()
      requires Valid()
      ensures Chained(world, rows)
    {
    }

    /** A row read by index is the primary chain's block there. */
    lemma RowAt(i: nat)
      requires Valid()
      ensures i in db <==> 1 <= i <= |rows|
      ensures i in db ==> db[i] == rows[i-1]
    {
      hide Cache.Valid, AllSound, Chained;
    }

    lemma RowIsSound(i: nat)
      requires Valid() && i in db
      ensures Sound(world, db[i]) && db[i].id == i
    {
    }

    method BlockByHash(h: Hash) returns (r: Option<Block>)
      requires Valid()
      modifies cache`order
      ensures Valid()
      ensures cache.order == Touched(old(cache.order), h)
      ensures r.Some? <==> HashResolvable(old(cache.order), rows, h)
      ensures r.Some? ==> Sound(world, r.value) && r.value.Hash() == h
    {
      hide Chained, Position, Cacheable, Indexes, Touched;
      TouchedMembers(cache.order, h);
      var hit := cache.Get(h);
      if hit.Some? {
        FoundIsMember(old(cache.order), h);
        return hit;
      }
      if i :| i in db && db[i].Hash() == h {
        RowIsSound(i);
        assert rows[i-1].Hash() == h;
        return Some(db[i]);
      }
      assert forall i :: 0 <= i < |rows| ==> i + 1 in db && db[i+1] == rows[i];
      return None;
    }

    /** For a point of a well-formed chain, lookups by point and by hash resolve alike. */
    lemma ResolvableByHash(c: seq<Block>, p: Point)
      requires Valid() && Chained(world, c) && IndexOf(c, p) > 0
      ensures Resolvable(cache.order, rows, p) <==> HashResolvable(cache.order, rows, p.hash)
    {
      hide IndexOf, Cache.Valid, Position, Holds;
      var b := c[IndexOf(c, p) - 1];
      assert Sound(world, b);
      if Find(cache.order, p.hash).Some? {
        FoundIsMember(cache.order, p.hash);
      }
      forall i | 0 <= i < |rows| && rows[i].Hash() == p.hash ensures rows[i].AsPoint() == p {
        assert Sound(world, rows[i]);
      }
    }

    /** Store the next primary block. */
    method AddRow(b: Block)
      requires Valid() && Chained(world, rows + [b])
      modifies this`db, this`rows
      ensures Valid() && rows == old(rows) + [b]
    {
      hide Cache.Valid, AllSound, Chained;
      NextId(world, rows, b);
      db := db[b.id := b];
      rows := rows + [b];
    }

    /** Keep a fork's block in the cache. */
    method Retain(b: Block, ghost c: seq<Block>)
      requires Valid() && Chained(world, c) && c != [] && b == c[|c|-1]
      modifies cache
      ensures Valid() && cache.order == Stored(old(cache.order), cache.capacity, b)
    {
      hide Cache.Valid, AllSound, Chained, Holds, Stored;
      KeepSound(world, cache.order, cache.capacity, b, c);
      cache.Put(b);
    }

    /** Delete the row at blockIndex, retaining its block and telling every fork. */
    method RemoveBlockByIndex(blockIndex: nat) returns (r: Option<Block>)
      requires Valid() && |rows| <= blockIndex
      modifies this`db, this`rows, this`chainRollbackEvents, cache
      ensures Valid()
      ensures chainRollbackEvents == Notice(old(chainRollbackEvents), forks, blockIndex)
      ensures r.Some? <==> blockIndex == |old(rows)| && old(rows) != []
      ensures r.Some? ==> && r.value == old(rows)[|old(rows)|-1]
                          && rows == old(rows)[..|old(rows)|-1]
                          && cache.order == Stored(old(cache.order), cache.capacity, r.value)
      ensures r.None? ==> rows == old(rows) && cache.order == old(cache.order)
    {
      hide Cache.Valid, AllSound, Chained, Notice, Stored;
      chainRollbackEvents := Notice(chainRollbackEvents, forks, blockIndex);
      if blockIndex !in db {
        return None;
      }
      var b := db[blockIndex];
      HoldsPrefix(db, rows);
      KeepSound(world, cache.order, cache.capacity, b, rows);
      ChainedPrefix(world, rows, |rows| - 1);
      cache.Put(b);
      db := db - {blockIndex};
      rows := rows[..|rows|-1];
      return Some(b);
    }

    /** Whether a rollback reached at or below a fork's common prefix since it last asked;
        asking clears the notices. */
    method ChainNeedsReconcile(id: nat, lastCommon: nat) returns (r: bool)
      modifies this`chainRollbackEvents
      ensures r <==> Flagged(old(chainRollbackEvents), id, lastCommon)
      ensures chainRollbackEvents == old(chainRollbackEvents) - {id}
    {
      if id !in chainRollbackEvents {
        assert chainRollbackEvents - {id} == chainRollbackEvents;
        return false;
      }
      var events := chainRollbackEvents[id];
      r := false;
      for i := 0 to |events|
        invariant !r && forall j :: 0 <= j < i ==> events[j] > lastCommon
      {
        if events[i] <= lastCommon {
          r := true;
          break;
        }
      }
      chainRollbackEvents := chainRollbackEvents - {id};
    }
  }

  /** Every fork learns of a removed index. */
  function Notice(events: map<nat, seq<nat>>, forks: set<nat>, index: nat): map<nat, seq<nat>> {
    map id | id in events.Keys + forks ::
      (if id in events then events[id] else []) + (if id in forks then [index] else [])
  }

  function Noticed(events: map<nat, seq<nat>>, forks: set<nat>, removed: seq<nat>): map<nat, seq<nat>> {
    if removed == [] then events
    else Notice(Noticed(events, forks, removed[..|removed|-1]), forks, removed[|removed|-1])
  }

  lemma NoticedSnoc(events: map<nat, seq<nat>>, forks: set<nat>, removed: seq<nat>, index: nat)
    ensures Noticed(events, forks, removed + [index]) == Notice(Noticed(events, forks, removed), forks, index)
  {
    assert (removed + [index])[..|removed|] == removed;
  }

  predicate Flagged(events: map<nat, seq<nat>>, id: nat, lastCommon: nat) {
    id in events && exists i :: 0 <= i < |events[id]| && events[id][i] <= lastCommon
  }

  lemma FoundIsMember(es: seq<Block>, h: Hash)
    requires Find(es, h).Some?
    ensures Find(es, h).value in es && Find(es, h).value.Hash() == h
  {
  }

  lemma NextId(w: World, c: seq<Block>, b: Block)
    requires Chained(w, c + [b])
    ensures b.id == |c| + 1 && Sound(w, b)
  {
    assert (c + [b])[|c|] == b;
  }

  lemma HoldsPrefix(db: map<nat, Block>, c: seq<Block>)
    requires Holds(db, c) && c != []
    ensures Holds(db - {|c|}, c[..|c|-1])
  {
  }

  lemma KeepSound(w: World, es: seq<Block>, cap: nat, b: Block, c: seq<Block>)
    requires AllSound(w, es) && Chained(w, c) && c != [] && b == c[|c|-1]
    ensures AllSound(w, Stored(es, cap, b))
  {
    hide Stored;
    StoredMembers(es, cap, b);
  }
}
