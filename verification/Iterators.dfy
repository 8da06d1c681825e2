/** Chain iterators (chain/iter.go and the iterator parts of chain/chain.go): how a rollback
    re-aims them, what Next hands out, and what a consumer that follows along ends up with. */
module Iterators {
  import opened Blocks

  datatype Iter = Iter(
    start: Point, last: Point, rollbackPoint: Point, next: nat, needsRollback: bool, reverse: bool)

  datatype Outcome = Delivered(block: Block) | RolledBack(point: Point) | AtTip | AtOrigin

  /** A new iterator at a start point, or nothing when the chain does not hold that point. */
  function NewIter(c: seq<Block>, start: Point, inclusive: bool, reverse: bool): Option<Iter> {
    var n := IndexOf(c, start);
    if start != Origin && n == 0 then None
    else
      var next :=
        if start == Origin then (if reverse then 0 else 1)
        else if inclusive then n
        else if reverse then n - 1
        else n + 1;
      Some(Iter(start, Origin, Origin, next, false, reverse))
  }

  /** The slot a forward iterator is compared at when the chain rolls back. */
  function RefSlot(it: Iter): nat {
    if it.last == Origin then it.start.slot else it.last.slot
  }

  /** The iterator after the chain rolled back to p, leaving n blocks. */
  function AfterRewind(it: Iter, p: Point, n: nat): Iter {
    if it.reverse then it.(next := if it.next > n then n else it.next)
    else if RefSlot(it) <= p.slot || (it.needsRollback && p.slot > it.rollbackPoint.slot) then it
    else it.(rollbackPoint := p, needsRollback := true)
  }

  function Index(c: seq<Block>, p: Point): nat {
    if p.slot == 0 then 0 else IndexOf(c, p)
  }

  /** What a non-blocking Next returns, and the iterator it leaves behind. */
  function Pull(it: Iter, c: seq<Block>): (Iter, Outcome) {
    if it.needsRollback then
      (it.(last := it.rollbackPoint, needsRollback := false, next := Index(c, it.rollbackPoint) + 1),
       RolledBack(it.rollbackPoint))
    else if 1 <= it.next <= |c| then
      var b := c[it.next - 1];
      (it.(next := if it.reverse then it.next - 1 else it.next + 1, last := b.AsPoint()), Delivered(b))
    else (it, if it.reverse then AtOrigin else AtTip)
  }

  /** A pending rollback marker names a point the chain holds now. */
  ghost predicate PendingOk(it: Iter, c: seq<Block>) {
    it.needsRollback ==>
      && !it.reverse
      && it.rollbackPoint.slot < RefSlot(it)
      && (it.rollbackPoint.slot > 0 ==> IndexOf(c, it.rollbackPoint) > 0)
  }

  lemma PendingOkAfterGrow(w: World, it: Iter, c: seq<Block>, b: Block)
    requires PendingOk(it, c) && Chained(w, c) && Chained(w, c + [b])
    ensures PendingOk(it, c + [b])
  {
    if it.needsRollback && it.rollbackPoint.slot > 0 {
      var n := IndexOf(c, it.rollbackPoint);
      assert (c + [b])[..n] == c[..n];
      IndexOfStable(w, c, c + [b], it.rollbackPoint);
    }
  }

  lemma PendingOkAfterRewind(w: World, it: Iter, c: seq<Block>, p: Point, n: nat)
    requires PendingOk(it, c) && Chained(w, c) && n <= |c|
    requires p.slot == 0 <==> n == 0
    requires n > 0 ==> c[n-1].AsPoint() == p
    ensures PendingOk(AfterRewind(it, p, n), c[..n])
  {
    ChainedPrefix(w, c, n);
    var out := AfterRewind(it, p, n);
    if out.needsRollback && out.rollbackPoint.slot > 0 {
      if out.rollbackPoint == p {
        IndexOfAt(w, c[..n], n - 1);
      } else {
        IndexBelow(w, c, out.rollbackPoint, n);
      }
    }
  }

  /** A held point at a slot before block n's stays at its index when the chain is cut to n. */
  lemma IndexBelow(w: World, c: seq<Block>, q: Point, n: nat)
    requires Chained(w, c) && 0 < n <= |c| && IndexOf(c, q) > 0 && q.slot <= c[n-1].Slot()
    ensures 0 < IndexOf(c, q) <= n && IndexOf(c[..n], q) == IndexOf(c, q)
  {
    hide Chained, IndexOf;
    var m := IndexOf(c, q);
    if m > n {
      SlotsIncrease(w, c, n - 1, m - 1);
      assert false;
    }
    ChainedPrefix(w, c, n);
    assert c[..n][..m] == c[..m];
    IndexOfStable(w, c, c[..n], q);
  }

  // ----- a consumer following a forward iterator -----

  /** What the consumer holds after an outcome: blocks are appended, rollbacks truncate. */
  function Consume(held: seq<Block>, out: Outcome): seq<Block> {
    match out
    case Delivered(b) => held + [b]
    case RolledBack(p) => held[..Index(held, p)]
    case AtTip => held
    case AtOrigin => held
  }

  datatype Sys = Sys(chain: seq<Block>, it: Iter, held: seq<Block>)

  datatype Op = Grow(block: Block) | Rewind(point: Point) | PullNext

  predicate Accepts(c: seq<Block>, p: Point) {
    p.slot == 0 || IndexOf(c, p) > 0
  }

  function Step(s: Sys, op: Op): Sys {
    match op
    case Grow(b) => s.(chain := s.chain + [b])
    case Rewind(p) =>
      if Accepts(s.chain, p) then
        var n := Index(s.chain, p);
        s.(chain := s.chain[..n], it := AfterRewind(s.it, p, n))
      else s
    case PullNext =>
      var (it, out) := Pull(s.it, s.chain);
      s.(it := it, held := Consume(s.held, out))
  }

  /** The iterator went back to origin and has handed out nothing since. */
  predicate AtStartAgain(it: Iter) {
    !it.needsRollback && it.next == 1 && it.last == Origin
  }

  /** The consumer holds what comes before the iterator's next block, or will after the
      pending rollback marker. */
  ghost predicate InSync(w: World, s: Sys) {
    var it := s.it;
    && Chained(w, s.chain) && Chained(w, s.held) && PendingOk(it, s.chain) && !it.reverse
    && if it.needsRollback then
         var m := Index(s.chain, it.rollbackPoint);
         m <= |s.held| && s.held[..m] == s.chain[..m]
       else
         && 1 <= it.next <= |s.chain| + 1 && s.held == s.chain[..it.next - 1]
         && (AtStartAgain(it) || RefAligned(s.chain, it))
  }

  /** The reference slot separates what was handed out from what is still to come. */
  ghost predicate RefAligned(c: seq<Block>, it: Iter)
    requires 1 <= it.next <= |c| + 1
  {
    && (it.next > 1 ==> c[it.next - 2].Slot() <= RefSlot(it))
    && (forall j :: it.next - 1 <= j < |c| ==> RefSlot(it) <= c[j].Slot())
    && RefSlot(it) <= TipSlot(c)
  }

  /** A rollback that re-aims an iterator sitting at origin, because the fallback to its
      start slot takes it for a later position than it has. */
  predicate Stale(it: Iter, p: Point) {
    AtStartAgain(it) && 0 < p.slot < it.start.slot
  }

  /** What the first Next of an iterator opened on a chain has to return. Inclusive is the start
      block, exclusive its neighbour in the direction of travel. */
  ghost predicate FirstIs(c: seq<Block>, start: Point, inclusive: bool, reverse: bool, out: Outcome) {
    if start == Origin then
      out == if reverse then AtOrigin else if c == [] then AtTip else Delivered(c[0])
    else exists i :: 0 <= i < |c| && c[i].AsPoint() == start && out == FirstAt(c, i, inclusive, reverse)
  }

  function FirstAt(c: seq<Block>, i: nat, inclusive: bool, reverse: bool): Outcome
    requires i < |c|
  {
    if inclusive then Delivered(c[i])
    else if reverse then (if i == 0 then AtOrigin else Delivered(c[i-1]))
    else (if i + 1 == |c| then AtTip else Delivered(c[i+1]))
  }

  /** An iterator is opened exactly at origin and at points the chain holds, and begins where
      the caller asked. */
  lemma FirstNext(c: seq<Block>, start: Point, inclusive: bool, reverse: bool)
    ensures var it := NewIter(c, start, inclusive, reverse);
            && (it.Some? <==> start == Origin || exists i :: 0 <= i < |c| && c[i].AsPoint() == start)
            && (it.Some? ==> FirstIs(c, start, inclusive, reverse, Pull(it.value, c).1))
  {
    hide IndexOf;
    var n := IndexOf(c, start);
    if n > 0 { assert c[n-1].AsPoint() == start; }
  }

  /** What comes before the first block such an iterator delivers. */
  function Before(c: seq<Block>, start: Point, inclusive: bool): seq<Block> {
    var n := IndexOf(c, start);
    if start == Origin || n == 0 then [] else if inclusive then c[..n-1] else c[..n]
  }

  lemma NewIterInSync(w: World, c: seq<Block>, start: Point, inclusive: bool)
    requires Chained(w, c) && NewIter(c, start, inclusive, false).Some?
    ensures InSync(w, Sys(c, NewIter(c, start, inclusive, false).value, Before(c, start, inclusive)))
  {
    hide Chained, IndexOf;
    var it := NewIter(c, start, inclusive, false).value;
    ChainedPrefix(w, c, it.next - 1);
    if start != Origin {
      var n := IndexOf(c, start);
      forall j | it.next - 1 <= j < |c| ensures RefSlot(it) <= c[j].Slot() {
        if n - 1 < j { SlotsIncrease(w, c, n - 1, j); }
      }
      if it.next > 1 && it.next - 2 < n - 1 { SlotsIncrease(w, c, it.next - 2, n - 1); }
      if n - 1 < |c| - 1 { SlotsIncrease(w, c, n - 1, |c| - 1); }
    }
  }

  lemma GrowKeepsSync(w: World, s: Sys, b: Block)
    requires InSync(w, s) && Chained(w, s.chain + [b])
    ensures InSync(w, Step(s, Grow(b)))
  {
    hide Chained, IndexOf, RefAligned;
    PendingOkAfterGrow(w, s.it, s.chain, b);
    if s.it.needsRollback {
      GrowWhilePending(w, s, b);
    } else {
      assert (s.chain + [b])[..s.it.next - 1] == s.chain[..s.it.next - 1];
      if RefAligned(s.chain, s.it) { GrowKeepsAligned(w, s.chain, s.it, b); }
    }
  }

  lemma GrowWhilePending(w: World, s: Sys, b: Block)
    requires InSync(w, s) && s.it.needsRollback && Chained(w, s.chain + [b])
    ensures var m := Index(s.chain + [b], s.it.rollbackPoint);
            m == Index(s.chain, s.it.rollbackPoint) && s.held[..m] == (s.chain + [b])[..m]
  {
    hide Chained, IndexOf;
    var c, q := s.chain, s.it.rollbackPoint;
    var m := Index(c, q);
    assert (c + [b])[..m] == c[..m];
    if q.slot > 0 { IndexOfStable(w, c, c + [b], q); }
  }

  lemma GrowKeepsAligned(w: World, c: seq<Block>, it: Iter, b: Block)
    requires 1 <= it.next <= |c| + 1 && RefAligned(c, it) && Chained(w, c + [b])
    ensures RefAligned(c + [b], it)
  {
    hide Chained;
    if c != [] { SlotsIncrease(w, c + [b], |c| - 1, |c|); }
  }

  lemma RewindKeepsSync(w: World, s: Sys, p: Point)
    requires InSync(w, s) && !Stale(s.it, p)
    ensures InSync(w, Step(s, Rewind(p)))
  {
    hide Chained, IndexOf;
    if Accepts(s.chain, p) {
      var c, it, n := s.chain, s.it, Index(s.chain, p);
      ChainedPrefix(w, c, n);
      if p.slot == 0 {
        PendingOkAfterRewind(w, it, c, p, 0);
      } else {
        PendingOkAfterRewind(w, it, c, p, n);
      }
      if it.needsRollback {
        RewindPending(w, s, p, n);
      } else {
        RewindIdle(w, s, p, n);
      }
    }
  }

  lemma RewindPending(w: World, s: Sys, p: Point, n: nat)
    requires InSync(w, s) && s.it.needsRollback && Accepts(s.chain, p) && n == Index(s.chain, p)
    ensures var out := AfterRewind(s.it, p, n);
            out.needsRollback && var m := Index(s.chain[..n], out.rollbackPoint);
            m <= |s.held| && s.held[..m] == s.chain[..n][..m]
  {
    hide Chained, IndexOf;
    var c, it := s.chain, s.it;
    var q, m := it.rollbackPoint, Index(c, it.rollbackPoint);
    var out := AfterRewind(it, p, n);
    if out.rollbackPoint == q && q.slot > 0 && q.slot <= p.slot {
      IndexBelow(w, c, q, n);
      assert c[..n][..m] == c[..m];
    } else if q.slot > 0 && p.slot > 0 {
      assert out.rollbackPoint == p;
      IndexBelow(w, c, p, m);
      ChainedPrefix(w, c, n);
      IndexOfAt(w, c[..n], n - 1);
      assert s.held[..n] == s.held[..m][..n] == c[..m][..n] == c[..n];
    }
  }

  lemma RewindIdle(w: World, s: Sys, p: Point, n: nat)
    requires InSync(w, s) && !s.it.needsRollback && !Stale(s.it, p)
    requires Accepts(s.chain, p) && n == Index(s.chain, p)
    requires PendingOk(AfterRewind(s.it, p, n), s.chain[..n])
    ensures InSync(w, Step(s, Rewind(p)))
  {
    hide Chained, IndexOf;
    var c, it := s.chain, s.it;
    ChainedPrefix(w, c, n);
    if RefSlot(it) > p.slot {
      MarkedIsHeld(w, s, p, n);
    } else if !AtStartAgain(it) {
      UnmarkedIsKept(w, s, p, n);
    }
  }

  /** Marked for rollback: everything up to p was already handed out. */
  lemma MarkedIsHeld(w: World, s: Sys, p: Point, n: nat)
    requires InSync(w, s) && !s.it.needsRollback && !Stale(s.it, p)
    requires Accepts(s.chain, p) && n == Index(s.chain, p) && p.slot < RefSlot(s.it)
    ensures n <= |s.held| && s.held[..n] == s.chain[..n]
    ensures n > 0 ==> IndexOf(s.chain[..n], p) == n
  {
    hide Chained, IndexOf;
    if n > 0 {
      ChainedPrefix(w, s.chain, n);
      IndexOfAt(w, s.chain[..n], n - 1);
    }
  }

  /** Not marked: nothing that was handed out is removed. */
  lemma UnmarkedIsKept(w: World, s: Sys, p: Point, n: nat)
    requires InSync(w, s) && !s.it.needsRollback && RefAligned(s.chain, s.it)
    requires Accepts(s.chain, p) && n == Index(s.chain, p) && RefSlot(s.it) <= p.slot
    ensures s.it.next - 1 <= n && s.held == s.chain[..n][..s.it.next - 1]
    ensures RefAligned(s.chain[..n], s.it)
  {
    hide Chained, IndexOf;
    var c, it := s.chain, s.it;
    if it.next > 1 {
      SlotPositive(w, c, it.next - 2);
      if n < it.next - 1 { SlotsIncrease(w, c, n - 1, it.next - 2); }
    }
  }

  lemma PullKeepsSync(w: World, s: Sys)
    requires InSync(w, s)
    ensures InSync(w, Step(s, PullNext))
  {
    hide Chained, IndexOf;
    var c, it := s.chain, s.it;
    var (out, o) := Pull(it, c);
    if it.needsRollback {
      PullRollback(w, s);
    } else if o.Delivered? {
      assert c[..it.next] == c[..it.next - 1] + [c[it.next - 1]];
      ChainedPrefix(w, c, it.next);
      AlignedAfter(w, c, it.next);
    }
  }

  lemma PullRollback(w: World, s: Sys)
    requires InSync(w, s) && s.it.needsRollback
    ensures InSync(w, Step(s, PullNext))
    ensures Step(s, PullNext).held == s.chain[..Index(s.chain, s.it.rollbackPoint)]
  {
    hide Chained, IndexOf;
    var c, it := s.chain, s.it;
    var q, m := it.rollbackPoint, Index(c, it.rollbackPoint);
    ChainedPrefix(w, c, m);
    if q.slot > 0 {
      // the marker's point is where the consumer's copy and the chain agree
      assert s.held[m-1] == s.held[..m][m-1] == c[..m][m-1] == c[m-1];
      IndexOfAt(w, s.held, m - 1);
      AlignedAfter(w, c, m);
    }
  }

  lemma AlignedAfter(w: World, c: seq<Block>, m: nat)
    requires Chained(w, c) && 0 < m <= |c|
    ensures forall j :: m - 1 <= j < |c| ==> c[m-1].Slot() <= c[j].Slot()
    ensures 1 <= c[m-1].Slot() <= TipSlot(c)
  {
    hide Chained;
    SlotPositive(w, c, m - 1);
    forall j | m <= j < |c| ensures c[m-1].Slot() <= c[j].Slot() { SlotsIncrease(w, c, m - 1, j); }
  }

  // ----- whole runs of a forward iterator -----

  function Run(s: Sys, ops: seq<Op>): Sys {
    if ops == [] then s else Step(Run(s, ops[..|ops|-1]), ops[|ops|-1])
  }

  /** Blocks are only added where they fit. */
  ghost predicate Admissible(w: World, s: Sys, op: Op) {
    op.Grow? ==> Chained(w, s.chain + [op.block])
  }

  ghost predicate AllAdmissible(w: World, s: Sys, ops: seq<Op>) {
    forall i :: 0 <= i < |ops| ==> Admissible(w, Run(s, ops[..i]), ops[i])
  }

  ghost predicate NeverStale(s: Sys, ops: seq<Op>) {
    forall i :: 0 <= i < |ops| ==> ops[i].Rewind? ==> !Stale(Run(s, ops[..i]).it, ops[i].point)
  }

  lemma {:induction false} RunKeepsSync(w: World, s: Sys, ops: seq<Op>)
    requires InSync(w, s) && AllAdmissible(w, s, ops) && NeverStale(s, ops)
    ensures InSync(w, Run(s, ops))
  {
    hide InSync, Stale, Step;
    if ops != [] {
      var init, last := ops[..|ops|-1], ops[|ops|-1];
      assert forall i :: 0 <= i < |init| ==> init[i] == ops[i] && init[..i] == ops[..i];
      RunKeepsSync(w, s, init);
      var t := Run(s, init);
      match last
      case Grow(b) => SyncChained(w, t); GrowKeepsSync(w, t, b);
      case Rewind(p) => RewindKeepsSync(w, t, p);
      case PullNext => PullKeepsSync(w, t);
    }
  }

  lemma SyncChained(w: World, s: Sys)
    requires InSync(w, s)
    ensures Chained(w, s.chain)
  {
  }

  lemma {:induction false} StartIsFixed(s: Sys, ops: seq<Op>)
    ensures Run(s, ops).it.start == s.it.start
  {
    if ops != [] {
      StartIsFixed(s, ops[..|ops|-1]);
    }
  }

  /** In sync, every outcome is the truth about the chain: what the consumer holds after a
      delivery or a rollback is a prefix of it, and at the tip it is the whole of it. */
  lemma OutcomeIsTruthful(w: World, s: Sys)
    requires InSync(w, s)
    ensures var out := Pull(s.it, s.chain).1; var held := Step(s, PullNext).held;
            && (out.Delivered? || out.RolledBack? ==> held <= s.chain)
            && (out.AtTip? ==> held == s.chain)
            && !out.AtOrigin?
  {
    hide Chained, IndexOf;
    if s.it.needsRollback {
      PullRollback(w, s);
    } else if s.it.next <= |s.chain| {
      assert s.chain[..s.it.next] == s.chain[..s.it.next - 1] + [s.chain[s.it.next - 1]];
    }
  }

  /** Replay from origin: whatever adds, rollbacks (to origin included) and reads interleave,
      each delivery leaves the consumer with a prefix of the chain, and a consumer told it is
      at the tip holds exactly the chain. */
  lemma OriginReplay(w: World, c: seq<Block>, inclusive: bool, ops: seq<Op>)
    requires Chained(w, c)
    requires AllAdmissible(w, Sys(c, NewIter(c, Origin, inclusive, false).value, []), ops)
    ensures var s := Run(Sys(c, NewIter(c, Origin, inclusive, false).value, []), ops);
            var out := Pull(s.it, s.chain).1; var held := Step(s, PullNext).held;
            && (out.Delivered? || out.RolledBack? ==> held <= s.chain)
            && (out.AtTip? ==> held == s.chain)
            && !out.AtOrigin?
  {
    hide Chained, IndexOf, InSync, Pull;
    NewIterInSync(w, c, Origin, inclusive);
    var s0 := Sys(c, NewIter(c, Origin, inclusive, false).value, []);
    assert c[..0] == [];
    forall i | 0 <= i < |ops| && ops[i].Rewind?
      ensures !Stale(Run(s0, ops[..i]).it, ops[i].point)
    {
      StartIsFixed(s0, ops[..i]);
    }
    RunKeepsSync(w, s0, ops);
    OutcomeIsTruthful(w, Run(s0, ops));
  }

  /** What the consumer holds once it has pulled everything there is. */
  function Drain(s: Sys): seq<Block>
    requires !s.it.reverse
    decreases s.it.needsRollback, if s.it.next <= |s.chain| then |s.chain| + 1 - s.it.next else 0
  {
    if Pull(s.it, s.chain).1.AtTip? then s.held else Drain(Step(s, PullNext))
  }

  lemma {:induction false} SyncDrains(w: World, s: Sys)
    requires InSync(w, s)
    ensures Drain(s) == s.chain
    decreases s.it.needsRollback, if s.it.next <= |s.chain| then |s.chain| + 1 - s.it.next else 0
  {
    hide Chained, IndexOf;
    PullKeepsSync(w, s);
    if !Pull(s.it, s.chain).1.AtTip? {
      SyncDrains(w, Step(s, PullNext));
    }
  }

  /** Exactly when a rollback is followed correctly: from any state in sync, a consumer that
      drains the iterator afterwards ends up with the chain if and only if the iterator was
      not sitting at origin with a start slot past the rollback point. */
  lemma RewindFollowedIff(w: World, s: Sys, p: Point)
    requires InSync(w, s) && Accepts(s.chain, p)
    ensures !Step(s, Rewind(p)).it.reverse
    ensures var t := Step(s, Rewind(p)); Drain(t) == t.chain <==> !Stale(s.it, p)
  {
    hide Chained, IndexOf;
    var t := Step(s, Rewind(p));
    if Stale(s.it, p) {
      var n := Index(s.chain, p);
      assert t.it.needsRollback && t.it.rollbackPoint == p && t.held == [] && |t.chain| == n > 0;
      SyncChained(w, s);
      ChainedPrefix(w, s.chain, n);
      IndexOfAt(w, t.chain, n - 1);
      var u := Step(t, PullNext);
      assert u.held == [] && u.it.next == n + 1 && !u.it.needsRollback;
    } else {
      RewindKeepsSync(w, s, p);
      SyncDrains(w, t);
    }
  }

  lemma RunSnoc(s: Sys, ops: seq<Op>, op: Op)
    ensures Run(s, ops + [op]) == Step(Run(s, ops), op)
  {
    assert (ops + [op])[..|ops|] == ops;
  }

  lemma RunFour(s: Sys, a: Op, b: Op, c: Op, d: Op)
    ensures Run(s, [a, b, c, d]) == Step(Step(Step(Step(s, a), b), c), d)
  {
    hide Step;
    RunSnoc(s, [], a);
    RunSnoc(s, [a], b);
    RunSnoc(s, [a, b], c);
    RunSnoc(s, [a, b, c], d);
    assert [] + [a] == [a];
    assert [a] + [b] == [a, b];
    assert [a, b] + [c] == [a, b, c];
    assert [a, b, c] + [d] == [a, b, c, d];
  }

  /** The failing case is reachable: an iterator started after a later block, rolled back to
      origin and told so, misses the first block after the next rollback. */
  lemma StaleIsReachable(w: World, a: Block, b: Block)
    requires Chained(w, [a, b])
    ensures var s := Run(Sys([a, b], NewIter([a, b], b.AsPoint(), false, false).value, [a, b]),
                         [Rewind(Origin), PullNext, Grow(a), Grow(b)]);
            var t := Step(s, Rewind(a.AsPoint()));
            t.chain == [a] && !t.it.reverse && Drain(t) != t.chain
  {
    hide Chained, IndexOf, Drain, Run;
    var c := [a, b];
    IndexOfAt(w, c, 1);
    SlotsIncrease(w, c, 0, 1);
    var s0 := Sys(c, NewIter(c, b.AsPoint(), false, false).value, c);
    var s2 := Step(Step(s0, Rewind(Origin)), PullNext);
    assert s2 == Sys([], Iter(b.AsPoint(), Origin, Origin, 1, false, false), []);
    var s4 := Step(Step(s2, Grow(a)), Grow(b));
    assert s4 == Sys(c, s2.it, []);
    RunFour(s0, Rewind(Origin), PullNext, Grow(a), Grow(b));
    AtOriginMisses(w, a, b, s2.it);
  }

  lemma AtOriginMisses(w: World, a: Block, b: Block, it: Iter)
    requires Chained(w, [a, b]) && it == Iter(b.AsPoint(), Origin, Origin, 1, false, false)
    ensures var t := Step(Sys([a, b], it, []), Rewind(a.AsPoint()));
            t.chain == [a] && !t.it.reverse && Drain(t) != t.chain
  {
    hide Chained, IndexOf, Drain;
    var c := [a, b];
    IndexOfAt(w, c, 0);
    SlotsIncrease(w, c, 0, 1);
    SlotPositive(w, c, 0);
    ChainedPrefix(w, c, 0);
    assert c[..0] == [];
    assert c[..1] == [a];
    RewindFollowedIff(w, Sys(c, it, []), a.AsPoint());
  }

  // ----- reverse iterators -----

  datatype Walk = Walk(chain: seq<Block>, it: Iter, given: seq<Block>)

  function WalkStep(s: Walk, op: Op): Walk {
    match op
    case Grow(b) => s.(chain := s.chain + [b])
    case Rewind(p) =>
      if Accepts(s.chain, p) then
        var n := Index(s.chain, p);
        s.(chain := s.chain[..n], it := AfterRewind(s.it, p, n))
      else s
    case PullNext =>
      var (it, out) := Pull(s.it, s.chain);
      s.(it := it, given := if out.Delivered? then s.given + [out.block] else s.given)
  }

  function WalkRun(s: Walk, ops: seq<Op>): Walk {
    if ops == [] then s else WalkStep(WalkRun(s, ops[..|ops|-1]), ops[|ops|-1])
  }

  /** What lies ahead of the iterator is the start block's own ancestry, and what it gave out
      is that ancestry too, at strictly decreasing indices above what is left. */
  ghost predicate OnLineage(lineage: seq<Block>, s: Walk) {
    && s.it.reverse && !s.it.needsRollback
    && s.it.next <= |lineage| && s.it.next <= |s.chain|
    && s.chain[..s.it.next] == lineage[..s.it.next]
    && (forall i :: 0 <= i < |s.given| ==> s.it.next < s.given[i].id <= |lineage|)
    && (forall i :: 0 <= i < |s.given| ==>
          1 <= s.given[i].id <= |lineage| && s.given[i] == lineage[s.given[i].id - 1])
    && (forall i, j :: 0 <= i < j < |s.given| ==> s.given[i].id > s.given[j].id)
  }

  lemma WalkStepStaysOnLineage(w: World, lineage: seq<Block>, s: Walk, op: Op)
    requires Chained(w, lineage) && OnLineage(lineage, s)
    ensures OnLineage(lineage, WalkStep(s, op))
  {
    hide IndexOf;
    var t := WalkStep(s, op);
    if op.PullNext? && s.it.next > 0 {
      var n := s.it.next;
      assert s.chain[n-1] == s.chain[..n][n-1] == lineage[..n][n-1] == lineage[n-1];
      assert s.chain[..n-1] == s.chain[..n][..n-1];
      assert lineage[..n-1] == lineage[..n][..n-1];
    } else if op.Rewind? && t != s {
      var m := t.it.next;
      assert t.chain[..m] == s.chain[..s.it.next][..m];
      assert lineage[..m] == lineage[..s.it.next][..m];
    }
  }

  /** A reverse iterator stays on one lineage: every block it ever hands out is the start
      block or an ancestor of it, at strictly decreasing indices, however the chain rolls
      back and regrows on another fork meanwhile. */
  lemma {:induction false} ReverseStaysOnLineage(w: World, c: seq<Block>, start: Point, inclusive: bool, ops: seq<Op>)
    requires Chained(w, c) && NewIter(c, start, inclusive, true).Some?
    ensures var lineage := c[..IndexOf(c, start)];
            var s := WalkRun(Walk(c, NewIter(c, start, inclusive, true).value, []), ops);
            OnLineage(lineage, s)
  {
    hide Chained, OnLineage, WalkStep;
    var lineage := c[..IndexOf(c, start)];
    if ops == [] {
      ReverseStart(c, start, inclusive);
    } else {
      ReverseStaysOnLineage(w, c, start, inclusive, ops[..|ops|-1]);
      ChainedPrefix(w, c, |lineage|);
      WalkStepStaysOnLineage(w, lineage,
        WalkRun(Walk(c, NewIter(c, start, inclusive, true).value, []), ops[..|ops|-1]), ops[|ops|-1]);
    }
  }

  lemma ReverseStart(c: seq<Block>, start: Point, inclusive: bool)
    requires NewIter(c, start, inclusive, true).Some?
    ensures OnLineage(c[..IndexOf(c, start)], Walk(c, NewIter(c, start, inclusive, true).value, []))
  {
    hide IndexOf;
    var it := NewIter(c, start, inclusive, true).value;
    assert c[..it.next] == c[..IndexOf(c, start)][..it.next] || start == Origin;
  }

  /** A rollback takes nothing from a reverse iterator that the chain still holds: whatever was
      ahead of it and was not removed still is. */
  lemma RewindSkipsNothing(lineage: seq<Block>, s: Walk, p: Point, i: nat)
    requires OnLineage(lineage, s) && 1 <= i <= s.it.next
    ensures var t := WalkStep(s, Rewind(p)); i <= t.it.next <==> i <= |t.chain|
  {
    hide IndexOf;
  }

  /** It ends at origin: each Next either moves strictly down or reports origin, and it
      reports origin exactly when nothing is left. */
  lemma ReverseTerminates(lineage: seq<Block>, s: Walk)
    requires OnLineage(lineage, s)
    ensures var out := Pull(s.it, s.chain).1; var t := WalkStep(s, PullNext);
            && (s.it.next == 0 ==> out == AtOrigin && t == s)
            && (s.it.next > 0 ==> out == Delivered(lineage[s.it.next - 1]) && t.it.next == s.it.next - 1)
  {
    var n := s.it.next;
    if n > 0 {
      assert s.chain[n-1] == s.chain[..n][n-1] == lineage[..n][n-1] == lineage[n-1];
    }
  }
}
