/** The points offered for chainsync intersection (IntersectPoints in chain/chain.go): a dense
    band below the tip, then doubling depths with a rung at the security parameter. */
module IntersectLadder {
  import opened Blocks
  import opened ChainModel

  const DENSE_POINT_COUNT := 32

  function Depth(c: seq<Block>, p: Point): int { |c| - IndexOf(c, p) }

  /** On-chain points, newest first, no two alike. */
  ghost predicate Ladder(c: seq<Block>, ps: seq<Point>) {
    && (forall i :: 0 <= i < |ps| ==> IndexOf(c, ps[i]) > 0)
    && (forall i, j :: 0 <= i < j < |ps| ==> IndexOf(c, ps[i]) > IndexOf(c, ps[j]))
  }

  /** The point at a depth was offered. */
  ghost predicate Offers(c: seq<Block>, ps: seq<Point>, depth: nat) {
    depth < |c| && c[|c|-1-depth].AsPoint() in ps
  }

  ghost predicate DeepestAtMost(c: seq<Block>, ps: seq<Point>, depth: nat) {
    forall i :: 0 <= i < |ps| ==> Depth(c, ps[i]) <= depth
  }

  function Pow2(n: nat): nat { if n == 0 then 1 else 2 * Pow2(n - 1) }

  lemma {:induction false} Pow2Add(a: nat, b: nat)
    ensures Pow2(a + b) == Pow2(a) * Pow2(b)
  {
    if a > 0 {
      Pow2Add(a - 1, b);
      assert Pow2(a + b) == 2 * Pow2(a - 1 + b);
    }
  }

  lemma Pow2At64()
    ensures Pow2(64) == TWO_64
  {
    assert Pow2(4) == 16;
    Pow2Add(4, 4);
    Pow2Add(8, 8);
    Pow2Add(16, 16);
    Pow2Add(32, 32);
  }

  ghost predicate IsPower(d: nat) {
    exists e: nat :: Pow2(e) == d
  }

  /** The depths the ladder is made of: the dense band, every power of two below it, and k. */
  ghost predicate IsRung(k: int, d: nat) {
    d < DENSE_POINT_COUNT || IsPower(d) || d == k
  }

  /** Every rung less than some depth down was offered. */
  ghost predicate Covers(c: seq<Block>, ps: seq<Point>, k: int, below: int) {
    forall d: nat :: d < below && d < |c| && IsRung(k, d) ==> Offers(c, ps, d)
  }

  /** No rung was left out above the deepest point offered. */
  ghost predicate NoGap(c: seq<Block>, ps: seq<Point>, k: int) {
    ps != [] && Covers(c, ps, k, Depth(c, ps[|ps|-1]) + 1)
  }

  /** Nothing but rungs and the first block was offered. */
  ghost predicate OnlyRungs(c: seq<Block>, ps: seq<Point>, k: int) {
    forall i :: 0 <= i < |ps| ==> Depth(c, ps[i]) >= 0 && (IsRung(k, Depth(c, ps[i])) || Depth(c, ps[i]) == |c| - 1)
  }

  /** Offering the next rung leaves no gap. */
  lemma OfferedNext(w: World, c: seq<Block>, ps: seq<Point>, r: seq<Point>, k: int, d: nat, count: nat)
    requires Chained(w, c) && d < |c| && NoGap(c, ps, k) && OnlyRungs(c, ps, k) && Covers(c, ps, k, d) && (IsRung(k, d) || d == |c| - 1)
    requires r == ps || r == ps + [c[|c|-1-d].AsPoint()]
    requires |r| < count ==> Offers(c, r, d)
    ensures NoGap(c, r, k) && OnlyRungs(c, r, k) && Covers(c, r, k, d)
    ensures |r| < count ==> Covers(c, r, k, d + 1)
  {
    hide Chained, IndexOf, IsRung;
    if r != ps {
      IndexOfAt(w, c, |c| - 1 - d);
      assert r[|ps|] == c[|c|-1-d].AsPoint();
      assert forall x: nat :: Offers(c, ps, x) ==> Offers(c, r, x);
    }
  }

  /** Between two powers of two there is no other. */
  lemma NoPowerBetween(e: nat, d: nat)
    requires Pow2(e) < d < Pow2(e + 1)
    ensures !IsPower(d)
  {
    if IsPower(d) {
      var f: nat :| Pow2(f) == d;
      if f <= e { Pow2Below(f, e); } else { Pow2Below(e + 1, f); }
    }
  }

  /** Append the point at an index unless the list is full or already has it. */
  method Offer(ghost w: World, c: seq<Block>, ps: seq<Point>, count: nat, index: nat) returns (r: seq<Point>)
    requires Chained(w, c) && Ladder(c, ps) && 1 <= index <= |c| && |ps| <= count
    requires DeepestAtMost(c, ps, |c| - index) || Offers(c, ps, |c| - index)
    ensures Ladder(c, r) && (r == ps || r == ps + [c[index-1].AsPoint()]) && |r| <= count
    ensures |r| < count ==> Offers(c, r, |c| - index)
    ensures forall p :: p in r ==> p in ps || p == c[index-1].AsPoint()
    ensures forall d: nat :: d >= |c| - index && DeepestAtMost(c, ps, d) ==> DeepestAtMost(c, r, d)
  {
    hide Chained, IndexOf;
    r := ps;
    if |ps| >= count {
      return;
    }
    var p := c[index-1].AsPoint();
    IndexOfAt(w, c, index - 1);
    if p in ps {
      return;
    }
    assert forall i :: 0 <= i < |ps| ==> IndexOf(c, ps[i]) > index by {
      forall i | 0 <= i < |ps| ensures IndexOf(c, ps[i]) > index {
        assert Depth(c, ps[i]) <= |c| - index;
        assert ps[i] in ps;
      }
    }
    r := ps + [p];
    assert r[|ps|] == p;
  }

  /** The newest min(count, 32) points, one per block. */
  method DenseBand(ghost w: World, c: seq<Block>, count: nat) returns (points: seq<Point>)
    requires Chained(w, c) && c != [] && 0 < count
    ensures Ladder(c, points) && |points| <= count
    ensures |points| == (if |c| < count then (if |c| < DENSE_POINT_COUNT then |c| else DENSE_POINT_COUNT)
                         else if count < DENSE_POINT_COUNT then count else DENSE_POINT_COUNT)
    ensures forall i :: 0 <= i < |points| ==> points[i] == c[|c|-1-i].AsPoint()
  {
    hide Chained, IndexOf;
    points := [c[|c|-1].AsPoint()];
    IndexOfAt(w, c, |c| - 1);
    var denseCount := if count < DENSE_POINT_COUNT then count else DENSE_POINT_COUNT;
    var idx := |c| - 1;
    while idx >= 1 && |points| < denseCount
      invariant 0 <= idx < |c| && |points| == |c| - idx && |points| <= denseCount
      invariant Ladder(c, points)
      invariant forall i :: 0 <= i < |points| ==> points[i] == c[|c|-1-i].AsPoint() && IndexOf(c, points[i]) == |c| - i
    {
      IndexOfAt(w, c, idx - 1);
      points := points + [c[idx-1].AsPoint()];
      idx := idx - 1;
    }
  }

  /** A peer whose tip is ours at depth `lag` holds a returned point at depth at most k. */
  ghost predicate Crossable(c: seq<Block>, ps: seq<Point>, k: int, lag: nat) {
    exists i :: 0 <= i < |ps| && lag <= Depth(c, ps[i]) <= k
  }

  /** The sparse rungs below the dense band: doubling depths, with the depth-k rung put in
      its place. The 64-bit offset may wrap to zero, which ends the doubling. */
  method SparseRungs(ghost w: World, c: seq<Block>, band: seq<Point>, k: int, count: nat) returns (points: seq<Point>)
    requires Chained(w, c) && |c| < TWO_64 && k < TWO_64
    requires Ladder(c, band) && |band| < count && DENSE_POINT_COUNT <= |c|
    requires |band| == DENSE_POINT_COUNT
    requires forall i :: 0 <= i < |band| ==> band[i] == c[|c|-1-i].AsPoint()
    ensures Ladder(c, points) && band <= points && |points| <= count
    ensures NoGap(c, points, k) && OnlyRungs(c, points, k)
    ensures |points| < count ==> Covers(c, points, k, |c|)
  {
    hide Chained, IndexOf, Pow2, NoGap, OnlyRungs, Covers, Ladder, DeepestAtMost, Offers, IsRung;
    points := band;
    var rung: nat := if k > 0 then k else 0;
    var offset: nat := DENSE_POINT_COUNT;
    ghost var e: nat := 5;
    BandCovers(w, c, band, k);
    while |points| < count
      invariant Ladder(c, points) && band <= points && |points| <= count
      invariant 5 <= e <= 64 && offset == (if e == 64 then 0 else Pow2(e))
      invariant DeepestAtMost(c, points, Pow2(e))
      invariant NoGap(c, points, k) && OnlyRungs(c, points, k)
      invariant |points| < count ==> RungsSoFar(c, points, k, rung, Pow2(e))
      decreases 64 - e
    {
      if offset == 0 || offset >= |c| {
        break;
      }
      points, rung := OneRung(w, c, points, k, count, rung, offset, e);
      if |points| >= count {
        break;
      }
      Pow2At64();
      Doubled(e);
      DeeperStill(c, points, offset, 2 * offset);
      offset := (offset * 2) % TWO_64;
      e := e + 1;
    }
    if |points| < count {
      Pow2Below(e, e);
      AllPowers(c, points, k, rung, e);
    }
    if rung > 0 && rung < |c| && |points| < count {
      ghost var before := points;
      points := Offer(w, c, points, count, |c| - rung);
      OfferedNext(w, c, before, points, k, rung, count);
      if |points| < count { CoversRest(c, before, points, k); }
    }
  }

  /** What the loop has offered when the next doubling is at some depth: all rungs less deep,
      but for the depth-k rung while it is pending. */
  ghost predicate RungsSoFar(c: seq<Block>, ps: seq<Point>, k: int, rung: nat, next: nat) {
    && (forall d: nat :: d < next && d < |c| && (d < DENSE_POINT_COUNT || IsPower(d)) ==> Offers(c, ps, d))
    && (if rung > 0 then rung == k && (DeepestAtMost(c, ps, k) || Offers(c, ps, k)) else 0 < k < |c| ==> Offers(c, ps, k))
  }

  lemma BandCovers(w: World, c: seq<Block>, band: seq<Point>, k: int)
    requires Chained(w, c) && |band| == DENSE_POINT_COUNT <= |c|
    requires forall i :: 0 <= i < |band| ==> band[i] == c[|c|-1-i].AsPoint()
    ensures Pow2(5) == DENSE_POINT_COUNT && DeepestAtMost(c, band, DENSE_POINT_COUNT)
    ensures NoGap(c, band, k) && OnlyRungs(c, band, k)
    ensures RungsSoFar(c, band, k, if k > 0 then k else 0, DENSE_POINT_COUNT)
  {
    hide Chained, IndexOf;
    BandDepth(w, c, band);
    assert Pow2(5) == DENSE_POINT_COUNT;
    forall d: nat | d < DENSE_POINT_COUNT ensures Offers(c, band, d) {
      assert band[d] in band;
    }
  }

  /** One doubling step, the depth-k rung first if it belongs above. */
  method OneRung(ghost w: World, c: seq<Block>, ps: seq<Point>, k: int, count: nat, rung: nat, offset: nat, ghost e: nat)
    returns (points: seq<Point>, rest: nat)
    requires Chained(w, c) && Ladder(c, ps) && |ps| < count && 0 < offset < |c| && offset == Pow2(e) && 5 <= e
    requires DeepestAtMost(c, ps, offset) && RungsSoFar(c, ps, k, rung, offset) && NoGap(c, ps, k) && OnlyRungs(c, ps, k)
    ensures Ladder(c, points) && ps <= points && |points| <= count
    ensures DeepestAtMost(c, points, offset) && NoGap(c, points, k) && OnlyRungs(c, points, k)
    ensures |points| < count ==> RungsSoFar(c, points, k, rest, Pow2(e + 1))
  {
    hide Chained, IndexOf, Ladder, DeepestAtMost, Offers, NoGap, OnlyRungs, Covers, Pow2, RungsSoFar, IsRung;
    points, rest := ps, rung;
    Pending(c, ps, k, rung, offset);
    if rung > 0 && rung < offset {
      points := Offer(w, c, points, count, |c| - rung);
      rest := 0;
      RungIsRung(k, e);
      OfferedNext(w, c, ps, points, k, rung, count);
      if |points| >= count {
        return;
      }
      RungDone(c, ps, points, k, rung, offset);
    }
    ghost var before := points;
    RungIsRung(k, e);
    Pending(c, before, k, rest, offset);
    points := Offer(w, c, points, count, |c| - offset);
    OfferedNext(w, c, before, points, k, offset, count);
    if |points| < count {
      Doubling(c, before, points, k, rest, e);
    }
  }

  lemma RungIsRung(k: int, e: nat)
    ensures IsRung(k, Pow2(e)) && (k >= 0 ==> IsRung(k, k))
  {
  }

  /** What is covered while the depth-k rung is pending, and once it is not. */
  lemma Pending(c: seq<Block>, ps: seq<Point>, k: int, rung: nat, next: nat)
    requires RungsSoFar(c, ps, k, rung, next)
    ensures rung > 0 ==> rung == k && (DeepestAtMost(c, ps, k) || Offers(c, ps, k)) && Covers(c, ps, k, if k < next then k else next)
    ensures rung == 0 ==> Covers(c, ps, k, next)
  {
    hide Offers, IsPower, DeepestAtMost;
    assert Offers(c, ps, 0) || !Offers(c, ps, 0);
  }

  lemma RungDone(c: seq<Block>, ps: seq<Point>, more: seq<Point>, k: int, rung: nat, next: nat)
    requires RungsSoFar(c, ps, k, rung, next) && rung == k > 0 && ps <= more && Offers(c, more, k)
    ensures RungsSoFar(c, more, k, 0, next)
  {
    hide IsPower;
    forall d: nat | Offers(c, ps, d) ensures Offers(c, more, d) { OffersMore(c, ps, more, d); }
  }

  lemma Doubling(c: seq<Block>, ps: seq<Point>, more: seq<Point>, k: int, rung: nat, e: nat)
    requires RungsSoFar(c, ps, k, rung, Pow2(e)) && ps <= more && Offers(c, more, Pow2(e)) && DeepestAtMost(c, more, Pow2(e))
    requires 5 <= e && (rung > 0 ==> rung >= Pow2(e))
    ensures RungsSoFar(c, more, k, rung, Pow2(e + 1))
  {
    hide Offers, IsPower;
    assert DENSE_POINT_COUNT <= Pow2(e) by { Pow2Below(5, e); assert Pow2(5) == 32; }
    forall d: nat | Offers(c, ps, d) ensures Offers(c, more, d) { OffersMore(c, ps, more, d); }
    forall d: nat | d < Pow2(e + 1) && d < |c| && (d < DENSE_POINT_COUNT || IsPower(d)) ensures Offers(c, more, d) {
      if d > Pow2(e) { NoPowerBetween(e, d); }
    }
    if rung > 0 && DeepestAtMost(c, more, Pow2(e)) { DeeperStill(c, more, Pow2(e), k); }
  }

  /** Once the doubling has passed the first block every power of two is covered. */
  lemma AllPowers(c: seq<Block>, ps: seq<Point>, k: int, rung: nat, e: nat)
    requires RungsSoFar(c, ps, k, rung, Pow2(e)) && |c| < TWO_64 && (e == 64 || (e < 64 && Pow2(e) >= |c|))
    ensures RungsSoFar(c, ps, k, rung, |c|)
    ensures rung == 0 || rung >= |c| ==> Covers(c, ps, k, |c|)
    ensures rung > 0 ==> rung == k && (DeepestAtMost(c, ps, k) || Offers(c, ps, k)) && Covers(c, ps, k, if k < |c| then k else |c|)
    ensures rung > 0 && Offers(c, ps, k) ==> Covers(c, ps, k, |c|)
    ensures k >= 0 ==> IsRung(k, k)
    ensures forall d: nat :: d < |c| && IsRung(k, d) && d != k ==> Offers(c, ps, d)
  {
    hide Pow2, Offers, DeepestAtMost, IsPower;
    Pow2At64();
    assert Pow2(e) >= |c|;
    assert RungsSoFar(c, ps, k, rung, |c|);
    Pending(c, ps, k, rung, |c|);
  }

  lemma CoversRest(c: seq<Block>, ps: seq<Point>, more: seq<Point>, k: int)
    requires ps <= more && 0 < k < |c| && Offers(c, more, k)
    requires forall d: nat :: d < |c| && IsRung(k, d) && d != k ==> Offers(c, ps, d)
    ensures Covers(c, more, k, |c|)
  {
    hide IsRung;
    forall d: nat | Offers(c, ps, d) ensures Offers(c, more, d) { OffersMore(c, ps, more, d); }
  }

  lemma DeeperStill(c: seq<Block>, ps: seq<Point>, depth: nat, more: nat)
    requires DeepestAtMost(c, ps, depth) && depth <= more
    ensures DeepestAtMost(c, ps, more)
  {
  }

  lemma OffersMore(c: seq<Block>, ps: seq<Point>, more: seq<Point>, k: int)
    requires ps <= more
    ensures k >= 0 && Offers(c, ps, k) ==> Offers(c, more, k)
  {
  }

  lemma Doubled(e: nat)
    requires e < 64 && Pow2(64) == TWO_64
    ensures (Pow2(e) * 2) % TWO_64 == if e + 1 == 64 then 0 else Pow2(e + 1)
    ensures Pow2(e) < Pow2(e + 1)
  {
    Pow2Below(e + 1, 64);
  }

  lemma {:induction false} Pow2Below(a: nat, b: nat)
    requires a <= b
    ensures 1 <= Pow2(a) <= Pow2(b)
    ensures a < b ==> Pow2(a) < Pow2(b)
    decreases b
  {
    if a < b {
      Pow2Below(a, b - 1);
    } else if a > 0 {
      Pow2Below(a - 1, b - 1);
    }
  }

  lemma BandDepth(w: World, c: seq<Block>, band: seq<Point>)
    requires Chained(w, c) && |band| <= |c|
    requires forall i :: 0 <= i < |band| ==> band[i] == c[|c|-1-i].AsPoint()
    ensures forall i :: 0 <= i < |band| ==> Depth(c, band[i]) == i
  {
    forall i | 0 <= i < |band| ensures Depth(c, band[i]) == i {
      IndexOfAt(w, c, |c| - 1 - i);
    }
  }

  /** At most count distinct on-chain points, newest first: exactly the rungs of the ladder and
      the first block, cut off at count. When fewer than count come back nothing is cut off:
      any peer whose tip lies within k blocks of ours shares a point with us at depth at most k,
      and any peer at all one at most twice as deep as it is behind. */
  method IntersectPoints(ghost w: World, c: seq<Block>, k: int, count: int) returns (points: seq<Point>)
    requires Chained(w, c) && |c| < TWO_64 && k < TWO_64
    ensures Ladder(c, points) && (count <= 0 || c == [] ==> points == [])
    ensures count > 0 ==> |points| <= count
    ensures OnlyRungs(c, points, k)
    ensures points != [] ==> NoGap(c, points, k)
    ensures forall i :: 0 <= i < |c| && i < count && i < DENSE_POINT_COUNT ==>
              i < |points| && points[i] == c[|c|-1-i].AsPoint()
    ensures c != [] && |points| < count ==> points != [] && Covers(c, points, k, |c|) && points[|points|-1] == c[0].AsPoint()
    ensures |points| < count ==> forall lag: nat :: lag < |c| ==> Crossable(c, points, 2 * lag, lag)
    ensures |points| < count ==>
              forall lag :: 0 <= lag <= k && lag < |c| ==> Crossable(c, points, k, lag)
  {
    hide Chained, IndexOf, NoGap, OnlyRungs, Covers, Ladder, Offers, IsRung, Crossable;
    points := [];
    if count <= 0 || c == [] {
      Nothing(c, k);
      return;
    }
    var band := DenseBand(w, c, count);
    points := band;
    DenseCovers(w, c, band, k);
    if |points| >= count {
      return;
    }
    if |c| > DENSE_POINT_COUNT {
      points := SparseRungs(w, c, band, k, count);
    }
    if |points| < count {
      ghost var before := points;
      FirstIsDeepest(c, points);
      points := Offer(w, c, points, count, 1);
      FewerCovered(c, before, k);
      OfferedNext(w, c, before, points, k, |c| - 1, count);
      if |points| < count {
        EndsAtFirst(w, c, points);
        forall lag: nat | lag <= k && lag < |c| ensures Crossable(c, points, k, lag) {
          RungCrosses(w, c, points, k, lag);
        }
        forall lag: nat | lag < |c| ensures Crossable(c, points, 2 * lag, lag) {
          DoublingBound(w, c, points, k, lag);
        }
      }
    }
  }

  lemma Nothing(c: seq<Block>, k: int)
    ensures OnlyRungs(c, [], k) && Ladder(c, [])
  {
  }

  lemma FewerCovered(c: seq<Block>, ps: seq<Point>, k: int)
    requires Covers(c, ps, k, |c|)
    ensures Covers(c, ps, k, |c| - 1)
  {
    hide IsRung, Offers;
  }

  lemma DenseCovers(w: World, c: seq<Block>, band: seq<Point>, k: int)
    requires Chained(w, c) && 0 < |band| <= |c| && |band| <= DENSE_POINT_COUNT
    requires forall i :: 0 <= i < |band| ==> band[i] == c[|c|-1-i].AsPoint()
    ensures NoGap(c, band, k) && OnlyRungs(c, band, k)
    ensures |band| == |c| ==> Covers(c, band, k, |c|)
  {
    hide Chained, IndexOf, IsPower;
    BandDepth(w, c, band);
    forall d: nat | d < |band| ensures Offers(c, band, d) {
      assert band[d] in band;
    }
  }

  /** The depth-k rung, or the first block of a shorter chain, is what such a peer shares. */
  lemma RungCrosses(w: World, c: seq<Block>, ps: seq<Point>, k: int, lag: nat)
    requires Chained(w, c) && lag <= k && lag < |c| && Covers(c, ps, k, |c|) && Offers(c, ps, |c| - 1)
    ensures Crossable(c, ps, k, lag)
  {
    hide Chained, IndexOf, IsPower;
    if k < |c| { assert IsRung(k, k); }
    OfferedIsCrossable(w, c, ps, k, if k < |c| then k else |c| - 1, lag);
  }

  /** How far a full ladder can make a peer fall back: a peer any number of blocks behind shares a
      point with us at most twice as deep. */
  lemma DoublingBound(w: World, c: seq<Block>, ps: seq<Point>, k: int, lag: nat)
    requires Chained(w, c) && lag < |c| && Covers(c, ps, k, |c|) && Offers(c, ps, |c| - 1)
    ensures Crossable(c, ps, 2 * lag, lag)
  {
    hide Chained, IndexOf, IsPower;
    var d: nat := lag;
    if lag >= DENSE_POINT_COUNT {
      d := PowerAbove(lag);
      if d >= |c| { d := |c| - 1; }
    }
    OfferedIsCrossable(w, c, ps, 2 * lag, d, lag);
  }

  lemma PowerAbove(n: nat) returns (d: nat)
    requires n > 0
    ensures IsPower(d) && n <= d <= 2 * n
  {
    var e: nat := 0;
    d := 1;
    while d < n
      invariant d == Pow2(e) && d <= 2 * n
      decreases n - d
    {
      e, d := e + 1, 2 * d;
    }
  }

  lemma FirstIsDeepest(c: seq<Block>, ps: seq<Point>)
    requires Ladder(c, ps) && c != []
    ensures DeepestAtMost(c, ps, |c| - 1)
  {
  }

  lemma EndsAtFirst(w: World, c: seq<Block>, ps: seq<Point>)
    requires Chained(w, c) && c != [] && Ladder(c, ps) && Offers(c, ps, |c| - 1)
    ensures ps != [] && ps[|ps|-1] == c[0].AsPoint()
  {
    hide Chained, IndexOf;
    var i :| 0 <= i < |ps| && ps[i] == c[0].AsPoint();
    IndexOfAt(w, c, 0);
    assert IndexOf(c, ps[|ps|-1]) <= IndexOf(c, ps[i]);
  }

  lemma OfferedIsCrossable(w: World, c: seq<Block>, ps: seq<Point>, k: int, depth: nat, lag: nat)
    requires Chained(w, c) && Offers(c, ps, depth) && lag <= depth <= k
    ensures Crossable(c, ps, k, lag)
  {
    hide Chained, IndexOf;
    IndexOfAt(w, c, |c| - 1 - depth);
    var i :| 0 <= i < |ps| && ps[i] == c[|c|-1-depth].AsPoint();
    assert Depth(c, ps[i]) == depth;
  }
}

