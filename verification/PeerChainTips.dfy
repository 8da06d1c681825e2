/** The tracked peer as the selector updates it in place (chainselection/peer_tip.go), and the
    fragments snapshotted from it (chainselection/candidate_fragment.go). */
module PeerChainTips {
  import opened Blocks
  import opened PeerTip

  class PeerChainTip {
    var tip: Tip
    var observedTip: Tip
    var observedSlots: seq<nat>
    var observedPoints: seq<Point>
    var observedTipHistory: seq<Tip>
    var praosView: nat
    var lastUpdated: nat

    function Value(): Peer
      reads this
    {
      Peer(tip, observedTip, observedSlots, observedPoints, observedTipHistory, praosView, lastUpdated)
    }

    ghost predicate Appendable(point: Point)
      reads this
    {
      && AscendingSlots(observedSlots) && Aligned(observedSlots, observedPoints)
      && forall i :: 0 <= i < |observedSlots| ==> observedSlots[i] <= point.slot
    }

    /** Record a delivered point in both frontiers and prune them to the window. */
    method RecordObservedPoint(point: Point, window: nat, trackHashes: bool)
      modifies this`observedSlots, this`observedPoints
      ensures Value() == RecordPoint(old(Value()), point, window, trackHashes)
    {
      hide PopSlots, PopPoints, Appended, Lead, AscendingSlots, Aligned;
      if !trackHashes {
        observedPoints := [];
      }
      if point.slot == 0 {
        observedSlots := [];
        observedPoints := [];
        return;
      }
      PopAbove(point.slot, trackHashes);
      AppendPoint(point, trackHashes);
      if window == 0 {
        if |observedSlots| > 1 {
          observedSlots := observedSlots[|observedSlots|-1..];
        }
        if |observedPoints| > 1 {
          observedPoints := observedPoints[|observedPoints|-1..];
        }
        return;
      }
      Prune(Cutoff(point.slot, window));
    }

    method PopAbove(slot: nat, trackHashes: bool)
      modifies this`observedSlots, this`observedPoints
      ensures observedSlots == PopSlots(old(observedSlots), slot)
      ensures observedPoints == PopPoints(old(observedSlots), old(observedPoints), slot, trackHashes)
    {
      while observedSlots != [] && observedSlots[|observedSlots|-1] > slot
        invariant PopSlots(observedSlots, slot) == PopSlots(old(observedSlots), slot)
        invariant PopPoints(observedSlots, observedPoints, slot, trackHashes) == PopPoints(old(observedSlots), old(observedPoints), slot, trackHashes)
        decreases |observedSlots|
      {
        observedSlots := observedSlots[..|observedSlots|-1];
        if trackHashes {
          observedPoints := Trimmed(observedPoints, |observedSlots|);
        }
      }
    }

    /** Put a point that nothing recorded lies above at the end of both frontiers: lockstep and
        order survive, the point ends the frontier, and only an entry at its own slot gives way. */
    method AppendPoint(point: Point, trackHashes: bool)
      modifies this`observedSlots, this`observedPoints
      ensures (observedSlots, observedPoints) == Appended(old(observedSlots), old(observedPoints), point, trackHashes)
      ensures old(Appendable(point)) && trackHashes ==>
                && AscendingSlots(observedSlots) && Aligned(observedSlots, observedPoints)
                && observedPoints != [] && observedPoints[|observedPoints|-1] == point
                && observedPoints[..|observedPoints|-1] <= old(observedPoints)
                && forall i :: 0 <= i < |old(observedPoints)| ==> (i < |observedPoints| - 1 <==> old(observedPoints)[i].slot < point.slot)
    {
      if Appendable(point) { AppendTracks(observedSlots, observedPoints, point); }
      if observedSlots == [] || observedSlots[|observedSlots|-1] < point.slot {
        observedSlots := observedSlots + [point.slot];
        if trackHashes {
          observedPoints := observedPoints + [point];
        }
      } else if trackHashes && |observedPoints| == |observedSlots| {
        observedPoints := observedPoints[|observedPoints|-1 := point];
      }
    }

    method Prune(cutoff: nat)
      modifies this`observedSlots, this`observedPoints
      ensures var n := Lead(old(observedSlots), cutoff);
              && observedSlots == old(observedSlots)[n..]
              && observedPoints == if n <= |old(observedPoints)| then old(observedPoints)[n..] else []
    {
      var n := 0;
      while n < |observedSlots| && observedSlots[n] < cutoff
        invariant n <= |observedSlots|
        invariant n + Lead(observedSlots[n..], cutoff) == Lead(observedSlots, cutoff)
      {
        n := n + 1;
      }
      if n > 0 {
        observedSlots := observedSlots[n..];
        if n <= |observedPoints| {
          observedPoints := observedPoints[n..];
        } else {
          observedPoints := [];
        }
      }
    }

    /** Record a delivered tip for later rollbacks, at most maxEntries of them. */
    method RecordObservedTipHistory(t: Tip, maxEntries: nat)
      modifies this`observedTipHistory
      ensures observedTipHistory == Remember(old(observedTipHistory), t, maxEntries)
    {
      hide PopTips, Newest;
      var bound := if maxEntries == 0 then 1 else maxEntries;
      if t.point == Origin {
        observedTipHistory := [];
        return;
      }
      PopTipsFrom(t.point.slot);
      observedTipHistory := observedTipHistory + [t];
      DropOldest(bound);
    }

    method PopTipsFrom(slot: nat)
      modifies this`observedTipHistory
      ensures observedTipHistory == PopTips(old(observedTipHistory), slot)
    {
      while observedTipHistory != [] && observedTipHistory[|observedTipHistory|-1].point.slot >= slot
        invariant PopTips(observedTipHistory, slot) == PopTips(old(observedTipHistory), slot)
        decreases |observedTipHistory|
      {
        observedTipHistory := observedTipHistory[..|observedTipHistory|-1];
      }
    }

    method DropOldest(bound: nat)
      modifies this`observedTipHistory
      ensures observedTipHistory == Newest(old(observedTipHistory), bound)
    {
      ghost var n := 0;
      while |observedTipHistory| > bound
        invariant n <= |old(observedTipHistory)| && observedTipHistory == old(observedTipHistory)[n..]
        invariant n > 0 ==> |observedTipHistory| >= bound
        decreases |observedTipHistory|
      {
        observedTipHistory := observedTipHistory[1..];
        n := n + 1;
      }
    }

    /** Trim both frontiers and the history at a rollback point. */
    method ApplyRollback(point: Point, t: Tip, now: nat)
      modifies this
      ensures Value() == RolledBack(old(Value()), point, t, now)
    {
      hide RollHistory, Lead;
      RestoreObserved(point);
      tip := t;
      praosView := 0;
      lastUpdated := now;
      if point.slot == 0 || observedSlots == [] {
        observedSlots := [];
        observedPoints := [];
        return;
      }
      KeepUntil(point.slot);
    }

    method RestoreObserved(point: Point)
      modifies this`observedTip, this`observedTipHistory
      ensures (observedTip, observedTipHistory) == RollHistory(old(Value()), point)
    {
      var previous := observedTip;
      observedTip := Tip(point, 0);
      if point == Origin {
        observedTipHistory := [];
        return;
      }
      if previous.point == point {
        observedTip := previous;
        return;
      }
      var i := |observedTipHistory|;
      assert observedTipHistory[..i] == observedTipHistory;
      while i > 0
        invariant i <= |observedTipHistory| && observedTip == Tip(point, 0) && observedTipHistory == old(observedTipHistory)
        invariant FindTip(observedTipHistory, point) == FindTip(observedTipHistory[..i], point)
      {
        i := i - 1;
        assert observedTipHistory[..i+1][..i] == observedTipHistory[..i];
        if observedTipHistory[i].point == point {
          observedTip := observedTipHistory[i];
          observedTipHistory := observedTipHistory[..i+1];
          return;
        }
      }
      observedTipHistory := [];
    }

    method KeepUntil(slot: nat)
      requires slot > 0 && observedSlots != []
      modifies this`observedSlots, this`observedPoints
      ensures (observedSlots, observedPoints) == RollFrontier(old(observedSlots), old(observedPoints), slot)
    {
      var n := 0;
      while n < |observedSlots| && observedSlots[n] <= slot
        invariant n <= |observedSlots|
        invariant n + Lead(observedSlots[n..], slot + 1) == Lead(observedSlots, slot + 1)
      {
        n := n + 1;
      }
      if n == 0 {
        observedSlots := [];
        observedPoints := [];
        return;
      }
      observedSlots := observedSlots[..n];
      observedPoints := Trimmed(observedPoints, n);
    }
  }

  // ----- comparisons over two frontiers -----

  predicate InRange(candidate: seq<Point>, w: Point)
    requires candidate != []
  {
    candidate[0].slot <= w.slot <= candidate[|candidate|-1].slot
  }

  /** The other peer overlaps the candidate, and every block it observed in the candidate's range
      is one the candidate observed, by slot and hash. */
  ghost predicate Confirms(candidate: seq<Point>, other: seq<Point>) {
    && candidate != []
    && (forall w :: w in other && InRange(candidate, w) ==> w.hash != [] && w in candidate)
    && (exists w :: w in other && InRange(candidate, w))
  }

  /** The two-pointer scan decides exactly that. */
  method ConfirmsRecentChain(candidate: seq<Point>, other: seq<Point>) returns (r: bool)
    requires AscendingPoints(candidate) && AscendingPoints(other)
    ensures r <==> Confirms(candidate, other)
  {
    if candidate == [] || other == [] {
      return false;
    }
    var lo, hi := candidate[0].slot, candidate[|candidate|-1].slot;
    var i: nat, n: nat := 0, 0;
    r := false;
    while n < |other|
      invariant i <= |candidate| && n <= |other|
      invariant n < |other| ==> forall t :: 0 <= t < i ==> candidate[t].slot < other[n].slot
      invariant Scanned(candidate, other, n, r)
    {
      hide AscendingPoints, Scanned, Confirms;
      if other[n].slot > hi {
        break;
      }
      if other[n].slot >= lo {
        i := SkipTo(candidate, i, other[n].slot);
        var matches := i < |candidate| && candidate[i].slot == other[n].slot && other[n].hash != [] && candidate[i].hash == other[n].hash;
        MatchIsMembership(candidate, i, other[n]);
        if !matches {
          Refuted(candidate, other, n);
          return false;
        }
        r := true;
      }
      ScanStep(candidate, other, n, r);
      NextIsHigher(other, n);
      n := n + 1;
    }
    ScanDone(candidate, other, n, r);
  }

  method SkipTo(candidate: seq<Point>, from: nat, slot: nat) returns (i: nat)
    requires from <= |candidate| && forall t :: 0 <= t < from ==> candidate[t].slot < slot
    ensures i <= |candidate| && forall t :: 0 <= t < i ==> candidate[t].slot < slot
    ensures i < |candidate| ==> candidate[i].slot >= slot
  {
    i := from;
    while i < |candidate| && candidate[i].slot < slot
      invariant i <= |candidate| && forall t :: 0 <= t < i ==> candidate[t].slot < slot
    {
      i := i + 1;
    }
  }

  /** The first n points of the other frontier all agree, and r says whether any is in range. */
  ghost predicate Scanned(candidate: seq<Point>, other: seq<Point>, n: nat, r: bool)
    requires candidate != [] && n <= |other|
  {
    && (forall m :: 0 <= m < n && InRange(candidate, other[m]) ==> other[m].hash != [] && other[m] in candidate)
    && (r <==> exists m :: 0 <= m < n && InRange(candidate, other[m]))
  }

  lemma ScanStep(candidate: seq<Point>, other: seq<Point>, n: nat, r: bool)
    requires candidate != [] && n < |other|
    requires if InRange(candidate, other[n]) then r && other[n].hash != [] && other[n] in candidate && exists q :: Scanned(candidate, other, n, q)
             else Scanned(candidate, other, n, r)
    ensures Scanned(candidate, other, n + 1, r)
  {
  }

  lemma NextIsHigher(other: seq<Point>, n: nat)
    requires AscendingPoints(other) && n < |other|
    ensures n + 1 < |other| ==> other[n].slot < other[n+1].slot
  {
  }

  lemma MatchIsMembership(candidate: seq<Point>, i: nat, w: Point)
    requires AscendingPoints(candidate) && i <= |candidate|
    requires forall t :: 0 <= t < i ==> candidate[t].slot < w.slot
    requires i < |candidate| ==> candidate[i].slot >= w.slot
    ensures w in candidate <==> i < |candidate| && candidate[i] == w
  {
  }

  lemma Refuted(candidate: seq<Point>, other: seq<Point>, n: nat)
    requires candidate != [] && n < |other| && InRange(candidate, other[n])
    requires other[n].hash == [] || other[n] !in candidate
    ensures !Confirms(candidate, other)
  {
    assert other[n] in other;
  }

  lemma ScanDone(candidate: seq<Point>, other: seq<Point>, n: nat, r: bool)
    requires candidate != [] && n <= |other| && AscendingPoints(other) && Scanned(candidate, other, n, r)
    requires n < |other| ==> other[n].slot > candidate[|candidate|-1].slot
    ensures r <==> Confirms(candidate, other)
  {
    assert forall m :: n <= m < |other| ==> !InRange(candidate, other[m]);
    if r {
      var m :| 0 <= m < n && InRange(candidate, other[m]);
      assert other[m] in other;
    }
  }

  /** How many slots lie less than a window before the last. */
  function CountWithin(slots: seq<nat>, last: nat, window: nat): nat {
    if slots == [] then 0
    else CountWithin(slots[..|slots|-1], last, window) + if 0 < slots[|slots|-1] && last < slots[|slots|-1] + window then 1 else 0
  }

  lemma {:induction false} CountSuffix(slots: seq<nat>, last: nat, window: nat, n: nat)
    requires n <= |slots|
    requires forall i :: 0 <= i < |slots| ==> (i >= n <==> 0 < slots[i] && last < slots[i] + window)
    ensures CountWithin(slots, last, window) == |slots| - n
  {
    if slots != [] {
      CountSuffix(slots[..|slots|-1], last, window, if n == |slots| then n - 1 else n);
    }
  }

  /** The density of a frontier: how many observed slots the window ending at the latest covers;
      without a window all of them. */
  function Density(slots: seq<nat>, window: nat): nat {
    if slots == [] then 0 else if window == 0 then |slots| else CountWithin(slots, slots[|slots|-1], window)
  }

  method ObservedDensity(slots: seq<nat>, window: nat) returns (r: nat)
    requires AscendingSlots(slots)
    ensures r == Density(slots, window)
  {
    if slots == [] {
      return 0;
    }
    if window == 0 {
      return |slots|;
    }
    var latest := slots[|slots|-1];
    var cutoff := Cutoff(latest, window);
    var i := 0;
    while i < |slots|
      invariant i <= |slots| && forall t :: 0 <= t < i ==> slots[t] < cutoff
    {
      if slots[i] >= cutoff {
        CountSuffix(slots, latest, window, i);
        return |slots| - i;
      }
      i := i + 1;
    }
    CountSuffix(slots, latest, window, i);
    return 0;
  }

  // ----- fragments -----

  predicate Has(h: seq<Tip>, p: Point) {
    exists t :: t in h && t.point == p
  }

  predicate Common(a: seq<Tip>, b: seq<Tip>, p: Point) {
    Has(a, p) && Has(b, p)
  }

  /** The highest point two fragments share, or none exactly when they share none. */
  method Intersect(a: seq<Tip>, b: seq<Tip>) returns (r: Option<Point>)
    requires AscendingTips(a) && AscendingTips(b)
    ensures r.Some? ==> Common(a, b, r.value) && forall p :: Common(a, b, p) ==> p.slot <= r.value.slot
    ensures r.None? <==> forall p :: !Common(a, b, p)
  {
    var i: nat, j: nat := |a|, |b|;
    while i > 0 && j > 0
      invariant i <= |a| && j <= |b|
      invariant forall x, y :: 0 <= x < |a| && 0 <= y < |b| && (x >= i || y >= j) ==> a[x].point != b[y].point
      decreases i + j
    {
      var p, q := a[i-1].point, b[j-1].point;
      if p.slot == q.slot {
        if p.hash == q.hash {
          assert a[i-1] in a && b[j-1] in b;
          forall c | Common(a, b, c) ensures c.slot <= p.slot {
            CommonBelow(a, b, i, j, c);
          }
          return Some(p);
        }
        i, j := i - 1, j - 1;
      } else if p.slot > q.slot {
        i := i - 1;
      } else {
        j := j - 1;
      }
    }
    forall c ensures !Common(a, b, c) {
      if Common(a, b, c) { CommonBelow(a, b, i, j, c); }
    }
    return None;
  }

  lemma CommonBelow(a: seq<Tip>, b: seq<Tip>, i: nat, j: nat, c: Point)
    requires i <= |a| && j <= |b| && AscendingTips(a) && Common(a, b, c)
    requires forall x, y :: 0 <= x < |a| && 0 <= y < |b| && (x >= i || y >= j) ==> a[x].point != b[y].point
    ensures i > 0 && j > 0 && c.slot <= a[i-1].point.slot
  {
    var s :| s in a && s.point == c;
    var t :| t in b && t.point == c;
    var x :| 0 <= x < |a| && a[x] == s;
    var y :| 0 <= y < |b| && b[y] == t;
    assert x < i && y < j;
  }
}
