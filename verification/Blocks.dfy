/** Blocks, points and the ancestry a block hash fixes. */
module Blocks {
  type Hash = seq<bv8>

  datatype Option<+T> = None | Some(value: T)

  datatype Point = Point(slot: nat, hash: Hash)

  const Origin := Point(0, [])

  datatype Tip = Tip(point: Point, number: nat)

  datatype Header = Header(hash: Hash, prevHash: Hash, slot: nat, number: nat, era: nat) {
    function AsPoint(): Point { Point(slot, hash) }
  }

  /** A stored block: its header and the chain index (row id) it was stored under. */
  datatype Block = Block(id: nat, header: Header) {
    function Hash(): Hash { header.hash }
    function Slot(): nat { header.slot }
    function AsPoint(): Point { header.AsPoint() }
  }

  /** What the chain code relies on without checking: a hash determines the header it was
      computed from, and therefore how far above the first block that header sits. */
  datatype World = World(header: Hash -> Header, index: Hash -> nat) {
    ghost function BlockOf(h: Hash): Block { Block(index(h), header(h)) }
  }

  /** A header as the network can produce it: it is the one its hash stands for, its slot is
      positive, and its parent lies one index below it at an earlier slot (the parent of a
      first block is no block: index 0). */
  ghost predicate Legit(w: World, h: Header) {
    && h.hash != []
    && w.header(h.hash) == h
    && 1 <= h.slot
    && w.index(h.hash) == w.index(h.prevHash) + 1
    && (1 < w.index(h.hash) ==> w.header(h.prevHash).slot < h.slot)
  }

  /** A block record that is the one its hash stands for, at the index its hash stands for. */
  ghost predicate Sound(w: World, b: Block) {
    Legit(w, b.header) && b == w.BlockOf(b.Hash())
  }

  /** Well-formed chain content: indices 1, 2, ..., every block naming its predecessor. */
  ghost predicate Chained(w: World, c: seq<Block>) {
    && (forall i :: 0 <= i < |c| ==> Sound(w, c[i]) && c[i].id == i + 1)
    && (forall i, j :: 0 <= i < |c| && 0 <= j < |c| && j == i + 1 ==> c[j].header.prevHash == c[i].Hash())
  }

  lemma ChainedPrefix(w: World, c: seq<Block>, n: nat)
    requires Chained(w, c) && n <= |c|
    ensures Chained(w, c[..n])
  {
  }

  lemma ChainedAppend(w: World, c: seq<Block>, b: Block)
    requires Chained(w, c) && Legit(w, b.header) && b.id == |c| + 1
    requires c == [] ==> w.index(b.Hash()) == 1
    requires c != [] ==> b.header.prevHash == c[|c|-1].Hash()
    ensures Chained(w, c + [b])
  {
    if c != [] {
      assert Sound(w, c[|c|-1]);
    }
  }

  /** Slots strictly increase with index. */
  lemma {:induction false} SlotsIncrease(w: World, c: seq<Block>, i: nat, j: nat)
    requires Chained(w, c) && i < j < |c|
    ensures c[i].Slot() < c[j].Slot()
    decreases j
  {
    assert Sound(w, c[j]) && Sound(w, c[j-1]);
    assert c[j-1].Slot() < c[j].Slot();
    if i < j - 1 {
      SlotsIncrease(w, c, i, j - 1);
    }
  }

  lemma SlotPositive(w: World, c: seq<Block>, i: nat)
    requires Chained(w, c) && i < |c|
    ensures 1 <= c[i].Slot()
  {
    assert Sound(w, c[i]);
  }

  /** The whole ancestry of a block is fixed by its hash: two well-formed chains that hold
      the same hash hold it at the same index, on top of the same blocks. */
  lemma {:induction false} SameHashSamePrefix(w: World, c: seq<Block>, i: nat, d: seq<Block>, j: nat)
    requires Chained(w, c) && Chained(w, d) && i < |c| && j < |d|
    requires c[i].Hash() == d[j].Hash()
    ensures i == j && c[..i+1] == d[..j+1]
    decreases i
  {
    assert Sound(w, c[i]) && Sound(w, d[j]);
    if 0 < i {
      SameHashSamePrefix(w, c, i - 1, d, j - 1);
      assert c[..i+1] == c[..i] + [c[i]];
      assert d[..j+1] == d[..j] + [d[j]];
    }
  }

  /** One-based index of the block at point p, or 0 when the chain does not hold it. */
  function IndexOf(c: seq<Block>, p: Point): (r: nat)
    ensures r <= |c|
    ensures r > 0 ==> c[r-1].AsPoint() == p
    ensures r == 0 ==> forall i :: 0 <= i < |c| ==> c[i].AsPoint() != p
  {
    if c == [] then 0
    else if c[|c|-1].AsPoint() == p then |c|
    else IndexOf(c[..|c|-1], p)
  }

  lemma IndexOfAt(w: World, c: seq<Block>, i: nat)
    requires Chained(w, c) && i < |c|
    ensures IndexOf(c, c[i].AsPoint()) == i + 1
  {
    var r := IndexOf(c, c[i].AsPoint());
    assert r > 0;
    assert Sound(w, c[r-1]) && Sound(w, c[i]);
  }

  /** A point stays at its index as long as the chain is not cut below it. */
  lemma IndexOfStable(w: World, c: seq<Block>, d: seq<Block>, p: Point)
    requires Chained(w, c) && Chained(w, d)
    requires var n := IndexOf(c, p); 0 < n <= |d| && c[..n] == d[..n]
    ensures IndexOf(d, p) == IndexOf(c, p)
  {
    hide Chained, IndexOf;
    var n := IndexOf(c, p);
    assert d[n-1] == d[..n][n-1] == c[..n][n-1];
    IndexOfAt(w, d, n - 1);
  }

  /** A point has the same index on every well-formed chain that holds it, over the same blocks. */
  lemma IndexOfSame(w: World, c: seq<Block>, d: seq<Block>, p: Point)
    requires Chained(w, c) && Chained(w, d) && IndexOf(c, p) > 0 && IndexOf(d, p) > 0
    ensures IndexOf(c, p) == IndexOf(d, p) && c[..IndexOf(c, p)] == d[..IndexOf(d, p)]
  {
    hide Chained, IndexOf;
    SameHashSamePrefix(w, c, IndexOf(c, p) - 1, d, IndexOf(d, p) - 1);
  }

  function TipSlot(c: seq<Block>): nat {
    if c == [] then 0 else c[|c|-1].Slot()
  }

  function Reversed<T>(s: seq<T>): (r: seq<T>)
    ensures |r| == |s|
    ensures forall i :: 0 <= i < |s| ==> r[i] == s[|s| - 1 - i]
  {
    seq(|s|, i requires 0 <= i < |s| => s[|s| - 1 - i])
  }
}
