/** The retained-block LRU cache (chain/blockcache.go) and the pure recency list it refines. */
module BlockCache {
  import opened Blocks

  const KEY_LENGTH := 32

  // ----- the recency list: most recently used block first -----

  function Position(es: seq<Block>, h: Hash): (r: nat)
    ensures r <= |es|
    ensures r < |es| ==> es[r].Hash() == h
    ensures forall i :: 0 <= i < r ==> es[i].Hash() != h
  {
    if es == [] then 0 else if es[0].Hash() == h then 0 else 1 + Position(es[1..], h)
  }

  function Find(es: seq<Block>, h: Hash): Option<Block> {
    var p := Position(es, h);
    if p < |es| && |h| == KEY_LENGTH then Some(es[p]) else None
  }

  function Without(es: seq<Block>, p: nat): (r: seq<Block>)
    requires p < |es|
    ensures |r| == |es| - 1
    ensures forall i :: 0 <= i < |r| ==> r[i] == es[if i < p then i else i + 1]
  {
    es[..p] + es[p+1..]
  }

  /** Recency list after a lookup of h. */
  function Touched(es: seq<Block>, h: Hash): seq<Block> {
    var p := Position(es, h);
    if p < |es| && |h| == KEY_LENGTH then [es[p]] + Without(es, p) else es
  }

  /** Recency list after storing b under capacity cap. */
  function Stored(es: seq<Block>, cap: nat, b: Block): seq<Block> {
    var p := Position(es, b.Hash());
    if |b.Hash()| != KEY_LENGTH then es
    else if p < |es| then [b] + Without(es, p)
    else if 0 < |es| && cap <= |es| then [b] + es[..|es|-1]
    else [b] + es
  }

  function StoredAll(es: seq<Block>, cap: nat, bs: seq<Block>): seq<Block> {
    if bs == [] then es else Stored(StoredAll(es, cap, bs[..|bs|-1]), cap, bs[|bs|-1])
  }

  function Removed(es: seq<Block>, h: Hash): seq<Block> {
    var p := Position(es, h);
    if p < |es| && |h| == KEY_LENGTH then Without(es, p) else es
  }

  ghost predicate NoDuplicates(es: seq<Block>) {
    forall i, j :: 0 <= i < j < |es| ==> es[i].Hash() != es[j].Hash()
  }

  /** A list the cache can hold: distinct 32-byte keys, no more than its capacity. */
  ghost predicate Cacheable(es: seq<Block>, cap: nat) {
    && NoDuplicates(es) && |es| <= cap
    && forall i :: 0 <= i < |es| ==> |es[i].Hash()| == KEY_LENGTH
  }

  /** Nothing but the stored block can enter the cache, whatever is evicted. */
  lemma StoredMembers(es: seq<Block>, cap: nat, b: Block)
    ensures forall e :: e in Stored(es, cap, b) ==> e == b || e in es
  {
  }

  lemma TouchedMembers(es: seq<Block>, h: Hash)
    ensures forall e :: e in Touched(es, h) <==> e in es
  {
    var p := Position(es, h);
    if p < |es| {
      assert es == es[..p] + [es[p]] + es[p+1..];
    }
  }

  /** Runs of cache operations. */
  datatype Op = Get(hash: Hash) | Put(block: Block) | Delete(hash: Hash)

  function Apply(es: seq<Block>, cap: nat, op: Op): seq<Block> {
    match op
    case Get(h) => Touched(es, h)
    case Put(b) => Stored(es, cap, b)
    case Delete(h) => Removed(es, h)
  }

  function Run(es: seq<Block>, cap: nat, ops: seq<Op>): seq<Block> {
    if ops == [] then es else Apply(Run(es, cap, ops[..|ops|-1]), cap, ops[|ops|-1])
  }

  function KeyOf(op: Op): Hash {
    match op case Get(h) => h case Put(b) => b.Hash() case Delete(h) => h
  }

  lemma WithoutKeepsCacheable(es: seq<Block>, cap: nat, p: nat)
    requires Cacheable(es, cap) && p < |es|
    ensures Cacheable(Without(es, p), cap - 1)
    ensures forall i :: 0 <= i < |es| - 1 ==> Without(es, p)[i].Hash() != es[p].Hash()
  {
  }

  lemma ConsKeepsCacheable(es: seq<Block>, cap: nat, b: Block)
    requires 0 < cap && Cacheable(es, cap - 1) && |b.Hash()| == KEY_LENGTH
    requires forall i :: 0 <= i < |es| ==> es[i].Hash() != b.Hash()
    ensures Cacheable([b] + es, cap)
  {
  }

  lemma ApplyKeepsCacheable(es: seq<Block>, cap: nat, op: Op)
    requires Cacheable(es, cap) && 0 < cap
    ensures Cacheable(Apply(es, cap, op), cap)
  {
    var p := Position(es, KeyOf(op));
    if p < |es| {
      WithoutKeepsCacheable(es, cap, p);
      var front := if op.Put? then op.block else es[p];
      ConsKeepsCacheable(Without(es, p), cap, front);
    } else if op.Put? && |op.block.Hash()| == KEY_LENGTH {
      ConsKeepsCacheable(if cap <= |es| then es[..|es|-1] else es, cap, op.block);
    }
  }

  lemma {:induction false} RunKeepsCacheable(es: seq<Block>, cap: nat, ops: seq<Op>)
    requires Cacheable(es, cap) && 0 < cap
    ensures Cacheable(Run(es, cap, ops), cap)
  {
    if ops != [] {
      RunKeepsCacheable(es, cap, ops[..|ops|-1]);
      ApplyKeepsCacheable(Run(es, cap, ops[..|ops|-1]), cap, ops[|ops|-1]);
    }
  }

  ghost function KeysOf(ops: seq<Op>): set<Hash> {
    set i | 0 <= i < |ops| :: KeyOf(ops[i])
  }

  ghost function KeysBefore(es: seq<Block>, p: nat): set<Hash>
    requires p <= |es|
  {
    set i | 0 <= i < p :: es[i].Hash()
  }

  lemma {:induction false} KeysBeforeSize(es: seq<Block>, p: nat)
    requires NoDuplicates(es) && p <= |es|
    ensures |KeysBefore(es, p)| == p
  {
    if p > 0 {
      KeysBeforeSize(es, p - 1);
      assert KeysBefore(es, p) == KeysBefore(es, p - 1) + {es[p-1].Hash()};
      assert es[p-1].Hash() !in KeysBefore(es, p - 1);
    }
  }

  /** Block b is at position p, and only used keys are ahead of it. */
  ghost predicate HeldAt(es: seq<Block>, b: Block, p: nat, used: set<Hash>) {
    p < |es| && es[p] == b && forall i :: 0 <= i < p ==> es[i].Hash() in used
  }

  /** One operation on another key: the block stays, and only that key can overtake it. */
  lemma RetainedStep(es: seq<Block>, cap: nat, b: Block, p: nat, used: set<Hash>, op: Op) returns (r: nat)
    requires Cacheable(es, cap) && 0 < cap
    requires HeldAt(es, b, p, used) && KeyOf(op) != b.Hash()
    requires |used + {KeyOf(op)}| < cap
    ensures HeldAt(Apply(es, cap, op), b, r, used + {KeyOf(op)})
  {
    hide Position, NoDuplicates, Without, HeldAt;
    var k := KeyOf(op);
    var q := Position(es, k);
    if |k| != KEY_LENGTH || (q == |es| && !op.Put?) {
      r := p;
      HeldMore(es, b, p, used, k);
    } else if q == |es| {
      r := p + 1;
      HeldAfterInsert(es, cap, op.block, b, p, used);
    } else if op.Delete? {
      r := HeldAfterDrop(es, b, p, q, used);
      HeldMore(Without(es, q), b, r, used, k);
    } else {
      r := HeldAfterDrop(es, b, p, q, used);
      HeldAfterCons(Without(es, q), if op.Put? then op.block else es[q], b, r, used);
      r := r + 1;
    }
  }

  lemma HeldMore(es: seq<Block>, b: Block, p: nat, used: set<Hash>, k: Hash)
    requires HeldAt(es, b, p, used)
    ensures HeldAt(es, b, p, used + {k})
  {
  }

  lemma HeldAfterDrop(es: seq<Block>, b: Block, p: nat, q: nat, used: set<Hash>) returns (r: nat)
    requires HeldAt(es, b, p, used) && q < |es| && es[q].Hash() != b.Hash()
    ensures HeldAt(Without(es, q), b, r, used)
  {
    r := if q < p then p - 1 else p;
  }

  lemma HeldAfterCons(es: seq<Block>, front: Block, b: Block, p: nat, used: set<Hash>)
    requires HeldAt(es, b, p, used)
    ensures HeldAt([front] + es, b, p + 1, used + {front.Hash()})
  {
  }

  lemma HeldAfterInsert(es: seq<Block>, cap: nat, front: Block, b: Block, p: nat, used: set<Hash>)
    requires HeldAt(es, b, p, used) && NoDuplicates(es) && |es| <= cap
    requires Position(es, front.Hash()) == |es| && |used + {front.Hash()}| < cap
    ensures HeldAt([front] + (if cap <= |es| then es[..|es|-1] else es), b, p + 1, used + {front.Hash()})
  {
    hide Position, NoDuplicates;
    FewAhead(es, front.Hash(), p, used);
    HeldAfterCons(if cap <= |es| then es[..|es|-1] else es, front, b, p, used);
  }

  lemma FewAhead(es: seq<Block>, k: Hash, p: nat, used: set<Hash>)
    requires p < |es| && NoDuplicates(es)
    requires Position(es, k) == |es| && forall i :: 0 <= i < p ==> es[i].Hash() in used
    ensures p + 1 <= |used + {k}|
  {
    hide Position, NoDuplicates;
    KeysBeforeSize(es, p);
    var ahead := KeysBefore(es, p);
    assert k !in ahead;
    assert |ahead + {k}| == p + 1;
    SubsetSize(ahead + {k}, used + {k});
  }

  lemma SamePosition(es: seq<Block>, h: Hash, p: nat)
    requires p < |es| && es[p].Hash() == h
    requires forall i :: 0 <= i < p ==> es[i].Hash() != h
    ensures Position(es, h) == p
  {
  }

  lemma {:induction false} SubsetSize<T>(a: set<T>, b: set<T>)
    requires a <= b
    ensures |a| <= |b|
    decreases |a|
  {
    if a != {} {
      var x :| x in a;
      SubsetSize(a - {x}, b - {x});
    }
  }

  /** What an operation does to every lookup: a lookup changes none, a removal takes its own key
      away, and a store serves its block and takes away at most one other, the least recently
      used, when the cache is full and the key new. */
  lemma LookupsAfter(es: seq<Block>, cap: nat, op: Op, h: Hash)
    requires Cacheable(es, cap) && 0 < cap
    ensures op.Get? ==> Find(Apply(es, cap, op), h) == Find(es, h)
    ensures op.Delete? ==> Find(Apply(es, cap, op), h) == if h == op.hash then None else Find(es, h)
    ensures op.Put? && |op.block.Hash()| == 32 ==>
              Find(Apply(es, cap, op), h) ==
              if h == op.block.Hash() then Some(op.block)
              else if |es| >= cap && es != [] && Find(es, op.block.Hash()).None? && h == es[|es|-1].Hash() then None
              else Find(es, h)
    ensures op.Put? && |op.block.Hash()| != 32 ==> Apply(es, cap, op) == es
  {
    ApplyKeepsCacheable(es, cap, op);
    var out := Apply(es, cap, op);
    FoundIff(es, cap, h);
    FoundIff(out, cap, h);
    match op
    case Get(g) => MovedMembers(es, g);
    case Delete(g) => RemovedMembers(es, cap, g);
    case Put(b) =>
      if |b.Hash()| == KEY_LENGTH {
        StoredExactly(es, cap, b);
        FoundIff(es, cap, b.Hash());
      }
  }

  /** A block is found exactly when the list holds it. */
  lemma FoundIff(es: seq<Block>, cap: nat, h: Hash)
    requires Cacheable(es, cap)
    ensures forall b :: Find(es, h) == Some(b) <==> b in es && b.Hash() == h
    ensures Find(es, h).None? <==> forall b :: b in es ==> b.Hash() != h
  {
    forall b | b in es && b.Hash() == h ensures Find(es, h) == Some(b) {
      var i :| 0 <= i < |es| && es[i] == b;
      SamePosition(es, h, i);
    }
    if Find(es, h).Some? { assert Find(es, h).value in es; }
  }

  lemma MovedMembers(es: seq<Block>, g: Hash)
    ensures forall b :: b in Touched(es, g) <==> b in es
  {
    TouchedMembers(es, g);
  }

  lemma WithoutMembers(es: seq<Block>, p: nat)
    requires NoDuplicates(es) && p < |es|
    ensures forall b :: b in Without(es, p) <==> b in es && b.Hash() != es[p].Hash()
  {
    forall b ensures b in Without(es, p) <==> b in es && b.Hash() != es[p].Hash() {
      if b in es && b.Hash() != es[p].Hash() {
        var i :| 0 <= i < |es| && es[i] == b;
        assert Without(es, p)[if i < p then i else i - 1] == b;
      }
      if b in Without(es, p) {
        var i :| 0 <= i < |es| - 1 && Without(es, p)[i] == b;
        assert es[if i < p then i else i + 1] == b;
      }
    }
  }

  lemma RemovedMembers(es: seq<Block>, cap: nat, g: Hash)
    requires Cacheable(es, cap)
    ensures forall b :: b in Removed(es, g) <==> b in es && b.Hash() != g
  {
    var p := Position(es, g);
    if p < |es| && |g| == KEY_LENGTH { WithoutMembers(es, p); }
  }

  lemma InitMembers(es: seq<Block>)
    requires NoDuplicates(es) && es != []
    ensures forall b :: b in es[..|es|-1] <==> b in es && b != es[|es|-1]
  {
    var init := es[..|es|-1];
    forall b ensures b in init <==> b in es && b != es[|es|-1] {
      if b in es && b != es[|es|-1] {
        var i :| 0 <= i < |es| && es[i] == b;
        assert init[i] == b;
      }
    }
  }

  lemma StoredExactly(es: seq<Block>, cap: nat, b: Block)
    requires Cacheable(es, cap) && |b.Hash()| == KEY_LENGTH
    ensures var dropped := |es| >= cap && es != [] && Position(es, b.Hash()) == |es|;
            forall x :: x in Stored(es, cap, b) <==>
              x == b || (x in es && x.Hash() != b.Hash() && (dropped ==> x != es[|es|-1]))
  {
    var p := Position(es, b.Hash());
    assert p == |es| ==> forall x :: x in es ==> x.Hash() != b.Hash();
    if p < |es| {
      WithoutMembers(es, p);
    } else if es != [] {
      InitMembers(es);
    }
    hide Cacheable, Position, NoDuplicates;
  }

  /** The LRU promise: a block just stored is still served, unchanged, after any run of
      operations on other keys, as long as fewer than `cap` distinct keys were used. */
  lemma {:induction false} RetainedWhileRecent(es: seq<Block>, cap: nat, b: Block, ops: seq<Op>)
    requires Cacheable(es, cap) && 0 < cap && |b.Hash()| == KEY_LENGTH
    requires b.Hash() !in KeysOf(ops) && |KeysOf(ops)| < cap
    ensures Find(Run(Stored(es, cap, b), cap, ops), b.Hash()) == Some(b)
  {
    var p := RetainedInvariant(es, cap, b, ops);
    var out := Run(Stored(es, cap, b), cap, ops);
    ApplyKeepsCacheable(es, cap, Put(b));
    RunKeepsCacheable(Stored(es, cap, b), cap, ops);
    SamePosition(out, b.Hash(), p);
  }

  /** A run stores b at i, and from then on its key is only looked up or stored again. */
  ghost predicate Keeps(ops: seq<Op>, i: nat, b: Block) {
    && i < |ops| && ops[i] == Put(b)
    && forall j :: i < j < |ops| && KeyOf(ops[j]) == b.Hash() ==> ops[j].Get? || ops[j] == Put(b)
  }

  /** The same promise with lookups of the block itself in between: it is served at the end of
      every run on no more than `cap` distinct keys. */
  lemma {:induction false} ServedAmongFew(es: seq<Block>, cap: nat, b: Block, ops: seq<Op>, i: nat)
    requires Cacheable(es, cap) && 0 < cap && |b.Hash()| == KEY_LENGTH
    requires Keeps(ops, i, b) && |KeysOf(ops)| <= cap
    ensures Find(Run(es, cap, ops), b.Hash()) == Some(b)
    decreases |ops|
  {
    hide Cacheable, Find, Stored, Touched, Position, Run;
    var j := LastUse(ops, i, b);
    var before, rest := ops[..j], ops[j+1..];
    var at := Run(es, cap, before);
    RunKeepsCacheable(es, cap, before);
    if ops[j].Get? {
      FewerKeys(ops, before);
      ServedAmongFew(es, cap, b, before, i);
      FoundIsStored(at, cap, b);
    }
    RunSplit(es, cap, ops, j);
    assert b.Hash() !in KeysOf(rest);
    FewerKeysThan(ops, rest, b.Hash());
    RetainedWhileRecent(at, cap, b, rest);
  }

  lemma LastUse(ops: seq<Op>, i: nat, b: Block) returns (j: nat)
    requires Keeps(ops, i, b)
    ensures i <= j < |ops| && KeyOf(ops[j]) == b.Hash() && (ops[j] == Put(b) || (ops[j].Get? && i < j))
    ensures forall l :: j < l < |ops| ==> KeyOf(ops[l]) != b.Hash()
  {
    j := |ops| - 1;
    while KeyOf(ops[j]) != b.Hash()
      invariant i <= j < |ops| && forall l :: j < l < |ops| ==> KeyOf(ops[l]) != b.Hash()
      decreases j
    {
      j := j - 1;
    }
  }

  lemma FoundIsStored(es: seq<Block>, cap: nat, b: Block)
    requires Find(es, b.Hash()) == Some(b)
    ensures Touched(es, b.Hash()) == Stored(es, cap, b)
  {
  }

  lemma FewerKeys(ops: seq<Op>, part: seq<Op>)
    requires part <= ops
    ensures |KeysOf(part)| <= |KeysOf(ops)|
  {
    SubsetSize(KeysOf(part), KeysOf(ops));
  }

  lemma FewerKeysThan(ops: seq<Op>, part: seq<Op>, h: Hash)
    requires h in KeysOf(ops) && h !in KeysOf(part) && forall op :: op in part ==> op in ops
    ensures |KeysOf(part)| < |KeysOf(ops)|
  {
    forall x | x in KeysOf(part) ensures x in KeysOf(ops) - {h} {
      var l :| 0 <= l < |part| && KeyOf(part[l]) == x;
      assert part[l] in ops;
    }
    SubsetSize(KeysOf(part), KeysOf(ops) - {h});
  }

  lemma {:induction false} RunSplit(es: seq<Block>, cap: nat, ops: seq<Op>, j: nat)
    requires j < |ops|
    ensures Run(es, cap, ops) == Run(Apply(Run(es, cap, ops[..j]), cap, ops[j]), cap, ops[j+1..])
  {
    hide Apply;
    if j < |ops| - 1 {
      var init, rest := ops[..|ops|-1], ops[j+1..];
      RunSplit(es, cap, init, j);
      assert init[..j] == ops[..j] && init[j+1..] == rest[..|rest|-1];
    }
  }

  lemma {:induction false} RetainedInvariant(es: seq<Block>, cap: nat, b: Block, ops: seq<Op>) returns (p: nat)
    requires Cacheable(es, cap) && 0 < cap && |b.Hash()| == KEY_LENGTH
    requires b.Hash() !in KeysOf(ops) && |KeysOf(ops)| < cap
    ensures HeldAt(Run(Stored(es, cap, b), cap, ops), b, p, KeysOf(ops))
  {
    if ops == [] {
      p := 0;
    } else {
      hide Cacheable, HeldAt, Position, Stored;
      var init, last := ops[..|ops|-1], ops[|ops|-1];
      assert KeysOf(ops) == KeysOf(init) + {KeyOf(last)};
      SubsetSize(KeysOf(init), KeysOf(ops));
      p := RetainedInvariant(es, cap, b, init);
      ApplyKeepsCacheable(es, cap, Put(b));
      RunKeepsCacheable(Stored(es, cap, b), cap, init);
      p := RetainedStep(Run(Stored(es, cap, b), cap, init), cap, b, p, KeysOf(init), last);
    }
  }

  // ----- the cache itself: a map beside a recency list -----

  /** The map's keys are the listed keys, each mapped to its listed block. */
  ghost predicate Indexes(items: map<Hash, Block>, order: seq<Block>) {
    && (forall i :: 0 <= i < |order| ==>
          order[i].Hash() in items && items[order[i].Hash()] == order[i])
    && (forall h :: h in items ==> Position(order, h) < |order|)
  }

  lemma IndexesAfterDrop(items: map<Hash, Block>, order: seq<Block>, p: nat)
    requires Indexes(items, order) && NoDuplicates(order) && p < |order|
    ensures Indexes(items - {order[p].Hash()}, Without(order, p))
  {
    hide Position, Without;
    var out := Without(order, p);
    forall h | h in items && h != order[p].Hash() ensures Position(out, h) < |out| {
      var i := Position(order, h);
      assert out[if i < p then i else i - 1].Hash() == h;
    }
  }

  lemma IndexesAfterCons(items: map<Hash, Block>, order: seq<Block>, b: Block)
    requires Indexes(items, order) && b.Hash() !in items
    ensures Indexes(items[b.Hash() := b], [b] + order)
  {
    hide Position;
    var out := [b] + order;
    assert out[0].Hash() == b.Hash();
    forall h | h in items ensures Position(out, h) < |out| {
      assert out[Position(order, h) + 1].Hash() == h;
    }
  }

  /** Moving a present key to the front, with its old block or a new one. */
  lemma IndexesAfterMove(items: map<Hash, Block>, order: seq<Block>, cap: nat, p: nat, b: Block)
    requires Indexes(items, order) && Cacheable(order, cap) && p < |order| && b.Hash() == order[p].Hash()
    ensures var out := [b] + Without(order, p);
            Cacheable(out, cap) && Indexes(items[b.Hash() := b], out)
  {
    IndexesAfterDrop(items, order, p);
    IndexesAfterCons(items - {b.Hash()}, Without(order, p), b);
    assert (items - {b.Hash()})[b.Hash() := b] == items[b.Hash() := b];
    WithoutKeepsCacheable(order, cap, p);
    ConsKeepsCacheable(Without(order, p), cap, b);
  }

  class Cache {
    const capacity: nat
    var items: map<Hash, Block>
    var order: seq<Block>        // front = most recent, back = least recent

    ghost predicate Valid()
      reads this
    {
      0 < capacity && Cacheable(order, capacity) && Indexes(items, order)
    }

    constructor (capacity: int)
      ensures Valid() && order == []
      ensures this.capacity == if capacity <= 0 then 10000 else capacity
    {
      this.capacity := if capacity <= 0 then 10000 else capacity;
      items := map[];
      order := [];
    }

    /** Detach the list element of a present key. */
    method Unlink(h: Hash) returns (b: Block)
      requires Valid() && h in items
      modifies this`order
      ensures var p := Position(old(order), h);
              p < |old(order)| && b == old(order)[p] == items[h] && order == Without(old(order), p)
    {
      hide Position, NoDuplicates;
      var p := 0;
      ghost var end := Position(order, h);
      while order[p].Hash() != h
        invariant p <= end < |order|
        decreases end - p
      {
        p := p + 1;
      }
      SamePosition(order, h, p);
      b := order[p];
      order := order[..p] + order[p+1..];
    }

    /** A key is in the map exactly when the recency list holds its block. */
    lemma MapMatchesList(h: Hash)
      requires Valid()
      ensures h in items <==> Position(order, h) < |order|
      ensures h in items ==> items[h] == order[Position(order, h)]
    {
    }

    method Get(h: Hash) returns (r: Option<Block>)
      requires Valid()
      modifies this`order
      ensures Valid()
      ensures r == Find(old(order), h)
      ensures order == Touched(old(order), h)
    {
      hide Position, Without, NoDuplicates;
      if |h| != KEY_LENGTH {
        return None;
      }
      MapMatchesList(h);
      if h !in items {
        return None;
      }
      IndexesAfterMove(items, order, capacity, Position(order, h), items[h]);
      assert items[h := items[h]] == items;
      var b := Unlink(h);
      order := [b] + order;
      return Some(items[h]);
    }

    method EvictOldest()
      requires Valid() && order != []
      modifies this
      ensures Valid()
      ensures order == old(order)[..|old(order)|-1]
      ensures items == old(items) - {old(order)[|old(order)|-1].Hash()}
    {
      hide Position, Indexes, Without;
      var b := order[|order|-1];
      IndexesAfterDrop(items, order, |order| - 1);
      assert Without(order, |order| - 1) == order[..|order|-1];
      order := order[..|order|-1];
      items := items - {b.Hash()};
    }

    method Put(b: Block)
      requires Valid()
      modifies this
      ensures Valid()
      ensures order == Stored(old(order), capacity, b)
    {
      hide Position, Without, NoDuplicates;
      var h := b.Hash();
      if |h| != KEY_LENGTH {
        return;
      }
      MapMatchesList(h);
      if h in items {
        IndexesAfterMove(items, order, capacity, Position(order, h), b);
        var _ := Unlink(h);
        order := [b] + order;
        items := items[h := b];
        return;
      }
      if |order| >= capacity {
        EvictOldest();
      }
      IndexesAfterCons(items, order, b);
      ConsKeepsCacheable(order, capacity, b);
      order := [b] + order;
      items := items[h := b];
    }

    method Delete(h: Hash)
      requires Valid()
      modifies this
      ensures Valid()
      ensures order == Removed(old(order), h)
    {
      if |h| != KEY_LENGTH {
        return;
      }
      MapMatchesList(h);
      if h in items {
        IndexesAfterDrop(items, order, Position(order, h));
        ApplyKeepsCacheable(order, capacity, Op.Delete(h));
        var b := Unlink(h);
        items := items - {h};
      }
    }
  }
}
