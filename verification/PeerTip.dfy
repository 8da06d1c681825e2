/** What the selector remembers of one peer (chainselection/peer_tip.go): the frontier of
    observed slots, the same frontier with hashes, and the delivered tips a rollback needs. */
module PeerTip {
  import opened Blocks

  /** The fields of a tracked peer. The tiebreaker view is opaque here. */
  datatype Peer = Peer(tip: Tip, observed: Tip, slots: seq<nat>, points: seq<Point>, history: seq<Tip>,
                       view: nat, updated: nat)

  // ----- orders -----

  predicate AscendingSlots(s: seq<nat>) {
    forall i, j :: 0 <= i < j < |s| ==> s[i] < s[j]
  }

  predicate AscendingPoints(f: seq<Point>) {
    forall i, j :: 0 <= i < j < |f| ==> f[i].slot < f[j].slot
  }

  predicate AscendingTips(h: seq<Tip>) {
    forall i, j :: 0 <= i < j < |h| ==> h[i].point.slot < h[j].point.slot
  }

  /** The hash frontier matches the slot frontier entry by entry. */
  predicate Aligned(slots: seq<nat>, points: seq<Point>) {
    && |points| == |slots|
    && forall i :: 0 <= i < |slots| ==> points[i].slot == slots[i]
  }

  predicate Lockstep(p: Peer) {
    Aligned(p.slots, p.points)
  }

  // ----- recording an observed point -----

  /** The oldest slot a window that ends at slot still covers. */
  function Cutoff(slot: nat, window: nat): nat {
    if slot > window then slot - window + 1 else 1
  }

  function Trimmed(points: seq<Point>, n: nat): seq<Point> {
    if n <= |points| then points[..n] else points
  }

  /** Drop what lies above slot, keeping both frontiers together. */
  function PopSlots(slots: seq<nat>, slot: nat): seq<nat> {
    if slots != [] && slots[|slots|-1] > slot then PopSlots(slots[..|slots|-1], slot) else slots
  }

  function PopPoints(slots: seq<nat>, points: seq<Point>, slot: nat, track: bool): seq<Point> {
    if slots != [] && slots[|slots|-1] > slot then
      PopPoints(slots[..|slots|-1], if track then Trimmed(points, |slots| - 1) else points, slot, track)
    else points
  }

  /** How many leading slots lie below x. */
  function Lead(slots: seq<nat>, x: nat): (n: nat)
    ensures n <= |slots|
    ensures forall i :: 0 <= i < n ==> slots[i] < x
    ensures n < |slots| ==> slots[n] >= x
  {
    if slots == [] || slots[0] >= x then 0 else 1 + Lead(slots[1..], x)
  }

  function Last<T>(s: seq<T>): seq<T> {
    if |s| > 1 then s[|s|-1..] else s
  }

  /** The frontiers after a point, before pruning to the window. */
  function Appended(slots: seq<nat>, points: seq<Point>, point: Point, track: bool): (seq<nat>, seq<Point>) {
    if slots == [] || slots[|slots|-1] < point.slot then
      (slots + [point.slot], if track then points + [point] else points)
    else
      (slots, if track && |points| == |slots| then points[|points| - 1 := point] else points)
  }

  function Pruned(slots: seq<nat>, points: seq<Point>, slot: nat, window: nat): (seq<nat>, seq<Point>) {
    if window == 0 then (Last(slots), Last(points))
    else
      var n := Lead(slots, Cutoff(slot, window));
      (slots[n..], if n <= |points| then points[n..] else [])
  }

  function RecordPoint(p: Peer, point: Point, window: nat, track: bool): Peer {
    var points := if track then p.points else [];
    if point.slot == 0 then p.(slots := [], points := [])
    else
      var a := Appended(PopSlots(p.slots, point.slot), PopPoints(p.slots, points, point.slot, track), point, track);
      var r := Pruned(a.0, a.1, point.slot, window);
      p.(slots := r.0, points := r.1)
  }

  lemma {:induction false} PopSlotsIsPrefix(slots: seq<nat>, slot: nat)
    ensures PopSlots(slots, slot) <= slots
    ensures AscendingSlots(slots) ==> forall i :: 0 <= i < |slots| ==> (i < |PopSlots(slots, slot)| <==> slots[i] <= slot)
  {
    if slots != [] && slots[|slots|-1] > slot {
      PopSlotsIsPrefix(slots[..|slots|-1], slot);
    }
  }

  lemma {:induction false} PopKeepsAligned(slots: seq<nat>, points: seq<Point>, slot: nat)
    requires Aligned(slots, points)
    ensures |PopSlots(slots, slot)| <= |points|
    ensures PopPoints(slots, points, slot, true) == points[..|PopSlots(slots, slot)|]
  {
    if slots != [] && slots[|slots|-1] > slot {
      var m := |slots| - 1;
      PopKeepsAligned(slots[..m], points[..m], slot);
      var n := |PopSlots(slots[..m], slot)|;
      assert points[..m][..n] == points[..n];
    }
  }

  lemma AppendTracks(slots: seq<nat>, points: seq<Point>, point: Point)
    requires AscendingSlots(slots) && Aligned(slots, points)
    requires forall i :: 0 <= i < |slots| ==> slots[i] <= point.slot
    ensures var a := Appended(slots, points, point, true);
            && AscendingSlots(a.0) && Aligned(a.0, a.1) && a.1 != [] && a.1[|a.1|-1] == point
            && |a.1| <= |points| + 1 && a.1[..|a.1|-1] <= points
            && forall i :: 0 <= i < |points| ==> (i < |a.1| - 1 <==> points[i].slot < point.slot)
  {
  }

  lemma PruneTracks(slots: seq<nat>, points: seq<Point>, slot: nat, window: nat)
    requires AscendingSlots(slots) && Aligned(slots, points) && slots != [] && slots[|slots|-1] == slot > 0
    ensures var r := Pruned(slots, points, slot, window);
            && AscendingSlots(r.0) && Aligned(r.0, r.1) && r.1 != []
            && |r.1| <= |points| && r.1 == points[|points|-|r.1|..]
            && (window == 0 ==> |r.1| == 1)
            && (window > 0 ==> forall i :: 0 <= i < |points| ==> (i >= |points| - |r.1| <==> points[i].slot >= Cutoff(slot, window)))
  {
    assert forall i :: 0 <= i < |slots| - 1 ==> slots[i] < slot;
    hide AscendingSlots, Aligned, Lead;
    if window > 0 {
      DropTracks(slots, points, Lead(slots, Cutoff(slot, window)), Cutoff(slot, window));
    } else {
      DropTracks(slots, points, |slots| - 1, slot);
    }
  }

  lemma DropTracks(slots: seq<nat>, points: seq<Point>, n: nat, x: nat)
    requires AscendingSlots(slots) && Aligned(slots, points) && slots != [] && slots[|slots|-1] >= x
    requires n <= |slots| && (forall i :: 0 <= i < n ==> slots[i] < x) && (n < |slots| ==> slots[n] >= x)
    ensures n < |points| == |slots| && AscendingSlots(slots[n..]) && Aligned(slots[n..], points[n..])
    ensures forall i :: 0 <= i < |points| ==> (i >= n <==> points[i].slot >= x)
  {
    assert n < |slots|;
  }

  /** The old slots a record keeps: below the new one and less than a window before it. */
  predicate Kept(x: nat, slot: nat, window: nat) {
    0 < x < slot < x + window
  }

  /** With hashes tracked, lockstep and order survive, and the new frontier is exactly the old
      points inside the window and below the new one, plus the new one. */
  lemma RecordTracks(p: Peer, point: Point, window: nat)
    requires AscendingSlots(p.slots) && Lockstep(p)
    ensures var r := RecordPoint(p, point, window, true);
            && AscendingSlots(r.slots) && Lockstep(r)
            && (point.slot == 0 ==> r.slots == [])
            && (point.slot > 0 ==> forall q :: q in r.points <==> q == point || (q in p.points && Kept(q.slot, point.slot, window)))
            && (point.slot > 0 ==> forall x :: x in r.slots <==> x == point.slot || (x in p.slots && Kept(x, point.slot, window)))
  {
    hide Appended, Pruned, PopSlots, PopPoints;
    if point.slot > 0 {
      hide AscendingSlots, Aligned;
      var n, a, r := RecordShape(p, point, window);
      KeptMembers(p.points, a.1, r.1, point, window);
      KeptSlots(p.slots, p.points, r.0, r.1, point, window);
    }
  }

  lemma KeptSlots(slots: seq<nat>, points: seq<Point>, now: seq<nat>, nowPoints: seq<Point>, point: Point, window: nat)
    requires Aligned(slots, points) && Aligned(now, nowPoints)
    requires forall q :: q in nowPoints <==> q == point || (q in points && Kept(q.slot, point.slot, window))
    ensures forall x :: x in now <==> x == point.slot || (x in slots && Kept(x, point.slot, window))
  {
    forall x ensures x in now <==> x == point.slot || (x in slots && Kept(x, point.slot, window)) {
      if x in now {
        var i :| 0 <= i < |now| && now[i] == x;
        assert nowPoints[i] in nowPoints;
        if nowPoints[i] != point {
          var j :| 0 <= j < |points| && points[j] == nowPoints[i];
          assert slots[j] == x;
        }
      }
      if x in slots && Kept(x, point.slot, window) {
        var j :| 0 <= j < |slots| && slots[j] == x;
        assert points[j] in points && points[j] in nowPoints;
        var i :| 0 <= i < |nowPoints| && nowPoints[i] == points[j];
        assert now[i] == x;
      }
      if x == point.slot {
        assert point in nowPoints;
        var i :| 0 <= i < |nowPoints| && nowPoints[i] == point;
        assert now[i] == x;
      }
    }
  }

  lemma RecordShape(p: Peer, point: Point, window: nat) returns (n: nat, a: (seq<nat>, seq<Point>), r: (seq<nat>, seq<Point>))
    requires AscendingSlots(p.slots) && Lockstep(p) && point.slot > 0
    ensures RecordPoint(p, point, window, true) == p.(slots := r.0, points := r.1)
    ensures AscendingSlots(r.0) && Aligned(r.0, r.1)
    ensures FrontierStep(p.points, a.1, r.1, point, window)
  {
    hide Appended, Pruned, PopPoints, PopSlots;
    PopSlotsIsPrefix(p.slots, point.slot);
    PopKeepsAligned(p.slots, p.points, point.slot);
    n := |PopSlots(p.slots, point.slot)|;
    assert PopSlots(p.slots, point.slot) == p.slots[..n];
    a := Appended(p.slots[..n], p.points[..n], point, true);
    AppendTracks(p.slots[..n], p.points[..n], point);
    PruneTracks(a.0, a.1, point.slot, window);
    r := Pruned(a.0, a.1, point.slot, window);
  }

  /** The middle frontier is a prefix of the old one plus the point; the new one a suffix of it. */
  predicate FrontierStep(old_: seq<Point>, mid: seq<Point>, now: seq<Point>, point: Point, window: nat) {
    && mid != [] && mid[|mid|-1] == point && mid[..|mid|-1] <= old_
    && (forall i :: 0 <= i < |old_| ==> (i < |mid| - 1 <==> old_[i].slot < point.slot))
    && 0 < |now| <= |mid| && now == mid[|mid|-|now|..]
    && (window == 0 ==> |now| == 1)
    && (window > 0 ==> forall i :: 0 <= i < |mid| ==> (i >= |mid| - |now| <==> mid[i].slot >= Cutoff(point.slot, window)))
  }

  lemma KeptMembers(old_: seq<Point>, mid: seq<Point>, now: seq<Point>, point: Point, window: nat)
    requires FrontierStep(old_, mid, now, point, window)
    ensures forall q :: q in now <==> q == point || (q in old_ && Kept(q.slot, point.slot, window))
  {
    forall q ensures q in now <==> q == point || (q in old_ && Kept(q.slot, point.slot, window)) {
      if q in now {
        var i :| 0 <= i < |now| && now[i] == q;
        assert mid[|mid| - |now| + i] == q;
      }
      if q in old_ && Kept(q.slot, point.slot, window) {
        var i :| 0 <= i < |old_| && old_[i] == q;
        assert mid[i] == q;
        assert now[i - (|mid| - |now|)] == q;
      }
      assert now[|now|-1] == point;
    }
  }

  /** Without hashes the slot frontier keeps its order and lockstep is given up, unless the
      point clears both frontiers. */
  lemma RecordUntracked(p: Peer, point: Point, window: nat)
    requires AscendingSlots(p.slots)
    ensures var r := RecordPoint(p, point, window, false);
            && AscendingSlots(r.slots) && r.points == [] && (Lockstep(r) <==> point.slot == 0)
            && (point.slot > 0 ==> forall x :: x in r.slots <==> x == point.slot || (x in p.slots && Kept(x, point.slot, window)))
  {
    var q := p.(points := seq(|p.slots|, i requires 0 <= i < |p.slots| => Point(p.slots[i], [])));
    assert Lockstep(q);
    RecordTracks(q, point, window);
    SlotsIgnoreTracking(p, q, point, window);
    if point.slot > 0 {
      UntrackedPop(p.slots, point.slot);
      assert point in RecordPoint(q, point, window, true).points;
    }
  }

  lemma SlotsIgnoreTracking(p: Peer, q: Peer, point: Point, window: nat)
    requires p.slots == q.slots
    ensures RecordPoint(p, point, window, false).slots == RecordPoint(q, point, window, true).slots
  {
    hide Lead, PopSlots, PopPoints;
  }

  lemma {:induction false} UntrackedPop(slots: seq<nat>, slot: nat)
    ensures PopPoints(slots, [], slot, false) == []
  {
    if slots != [] && slots[|slots|-1] > slot {
      UntrackedPop(slots[..|slots|-1], slot);
    }
  }

  /** Turning hash tracking on over a frontier that already has slots does not bring lockstep
      back: a later point at a lower slot can leave a block above the frontier behind. */
  lemma ReenablingTrackingIsUnsafe(tip: Tip, h: Hash)
    ensures var p0 := Peer(tip, tip, [1, 2, 3], [], [], 0, 0);
            var p1 := RecordPoint(p0, Point(4, h), 100, true);
            var p2 := RecordPoint(p1, Point(2, h), 100, true);
            p1.slots == [1, 2, 3, 4] && p1.points == [Point(4, h)] && p2.slots == [1, 2] && p2.points == [Point(4, h)]
  {
    var s := [1, 2, 3, 4];
    assert s[..3] == [1, 2, 3] && s[..3][..2] == [1, 2];
    assert PopSlots([1, 2, 3], 4) == [1, 2, 3] && PopPoints([1, 2, 3], [], 4, true) == [];
    assert PopSlots([1, 2], 2) == [1, 2] && PopPoints([1, 2], [Point(4, h)], 2, true) == [Point(4, h)];
    assert PopSlots([1, 2, 3], 2) == [1, 2] && PopPoints([1, 2, 3], [Point(4, h)], 2, true) == [Point(4, h)];
    assert PopSlots(s, 2) == [1, 2] && PopPoints(s, [Point(4, h)], 2, true) == [Point(4, h)];
  }

  // ----- the delivered-tip history -----

  function PopTips(h: seq<Tip>, slot: nat): seq<Tip> {
    if h != [] && h[|h|-1].point.slot >= slot then PopTips(h[..|h|-1], slot) else h
  }

  function Newest(h: seq<Tip>, n: nat): seq<Tip> {
    if |h| > n then h[|h|-n..] else h
  }

  function Remember(h: seq<Tip>, tip: Tip, maxEntries: nat): seq<Tip> {
    if tip.point == Origin then []
    else Newest(PopTips(h, tip.point.slot) + [tip], if maxEntries == 0 then 1 else maxEntries)
  }

  lemma {:induction false} PopTipsIsPrefix(h: seq<Tip>, slot: nat)
    ensures PopTips(h, slot) <= h
    ensures AscendingTips(h) ==> forall i :: 0 <= i < |h| ==> (i < |PopTips(h, slot)| <==> h[i].point.slot < slot)
  {
    if h != [] && h[|h|-1].point.slot >= slot {
      PopTipsIsPrefix(h[..|h|-1], slot);
    }
  }

  /** The history stays in order and bounded, and ends at the tip just delivered. */
  lemma RememberKeepsOrder(h: seq<Tip>, tip: Tip, maxEntries: nat)
    requires AscendingTips(h) && maxEntries > 0
    ensures var r := Remember(h, tip, maxEntries);
            AscendingTips(r) && |r| <= maxEntries && (r == [] <==> tip.point == Origin) && (r != [] ==> r[|r|-1] == tip)
  {
    PopTipsIsPrefix(h, tip.point.slot);
  }

  // ----- rollback -----

  function FindTip(h: seq<Tip>, point: Point): (r: Option<nat>)
    ensures r.Some? ==> r.value < |h| && h[r.value].point == point
    ensures r.None? <==> forall i :: 0 <= i < |h| ==> h[i].point != point
  {
    if h == [] then None
    else if h[|h|-1].point == point then Some(|h| - 1)
    else FindTip(h[..|h|-1], point)
  }

  function RollHistory(p: Peer, point: Point): (Tip, seq<Tip>) {
    if point == Origin then (Tip(point, 0), [])
    else if p.observed.point == point then (p.observed, p.history)
    else match FindTip(p.history, point)
      case Some(i) => (p.history[i], p.history[..i+1])
      case None => (Tip(point, 0), [])
  }

  function RollFrontier(slots: seq<nat>, points: seq<Point>, slot: nat): (seq<nat>, seq<Point>) {
    if slot == 0 || slots == [] || Lead(slots, slot + 1) == 0 then ([], [])
    else (slots[..Lead(slots, slot + 1)], Trimmed(points, Lead(slots, slot + 1)))
  }

  function RolledBack(p: Peer, point: Point, tip: Tip, now: nat): Peer {
    var h := RollHistory(p, point);
    var f := RollFrontier(p.slots, p.points, point.slot);
    Peer(tip, h.0, f.0, f.1, h.1, 0, now)
  }

  /** A rollback truncates both frontiers at the point. */
  lemma RollbackTruncates(p: Peer, point: Point, tip: Tip, now: nat)
    requires AscendingSlots(p.slots)
    ensures var r := RolledBack(p, point, tip, now);
            && AscendingSlots(r.slots) && r.slots <= p.slots
            && (point.slot > 0 ==> forall i :: 0 <= i < |p.slots| ==> (i < |r.slots| <==> p.slots[i] <= point.slot))
            && (Lockstep(p) ==> Lockstep(r) && r.points <= p.points)
            && (p.points == [] ==> r.points == [])
            && r.tip == tip && r.updated == now && r.view == 0 && (point.slot == 0 ==> r.slots == [])
  {
  }

  /** Rollback to a retained point restores that delivery exactly. */
  lemma RollbackRestores(p: Peer, point: Point, tip: Tip, now: nat, i: nat)
    requires AscendingTips(p.history) && (p.history != [] ==> p.history[|p.history|-1] == p.observed)
    requires i < |p.history| && p.history[i].point == point != Origin
    ensures RolledBack(p, point, tip, now).observed == p.history[i]
    ensures RolledBack(p, point, tip, now).history == p.history[..i+1]
  {
  }

  /** A rollback to where the peer is changes neither tip nor history. */
  lemma RollbackToSelf(p: Peer, tip: Tip, now: nat)
    requires p.observed.point != Origin
    ensures var r := RolledBack(p, p.observed.point, tip, now); r.observed == p.observed && r.history == p.history
  {
  }

  /** A rollback to a point that was not retained, or to origin, leaves the point with block
      number zero and no history. */
  lemma RollbackForgets(p: Peer, point: Point, tip: Tip, now: nat)
    requires point == Origin || (p.observed.point != point && forall i :: 0 <= i < |p.history| ==> p.history[i].point != point)
    ensures var r := RolledBack(p, point, tip, now); r.observed == Tip(point, 0) && r.history == [] && r.tip == tip && r.updated == now
  {
  }

  // ----- every run of deliveries and rollbacks -----

  datatype PeerOp =
    | Deliver(tip: Tip, observed: Tip, window: nat, track: bool, view: nat, now: nat)
    | RollBack(point: Point, tip: Tip, now: nat)

  function PeerStep(p: Peer, k: nat, op: PeerOp): Peer {
    match op
    case Deliver(tip, observed, window, track, view, now) =>
      var q := RecordPoint(p.(tip := tip, observed := observed, view := view, updated := now), observed.point, window, track);
      q.(history := Remember(q.history, observed, k + 1))
    case RollBack(point, tip, now) => RolledBack(p, point, tip, now)
  }

  function PeerRun(p: Peer, k: nat, ops: seq<PeerOp>): Peer {
    if ops == [] then p else PeerStep(PeerRun(p, k, ops[..|ops|-1]), k, ops[|ops|-1])
  }

  /** Both frontiers in order, the history bounded by k+1 and ending at the observed tip. */
  predicate Tracked(p: Peer, k: nat) {
    && AscendingSlots(p.slots)
    && AscendingTips(p.history) && |p.history| <= k + 1
    && (p.history != [] ==> p.history[|p.history|-1] == p.observed)
  }

  lemma StepKeepsTracked(p: Peer, k: nat, op: PeerOp)
    requires Tracked(p, k) && (op.Deliver? && op.track ==> Lockstep(p))
    ensures Tracked(PeerStep(p, k, op), k)
    ensures Lockstep(p) && (op.Deliver? ==> op.track) ==> Lockstep(PeerStep(p, k, op))
    ensures op.Deliver? && !op.track ==> PeerStep(p, k, op).points == []
  {
    hide AscendingSlots, Lead, RecordPoint, Remember, RollFrontier, Lockstep;
    match op
    case Deliver(tip, observed, window, track, view, now) =>
      var q := p.(tip := tip, observed := observed, view := view, updated := now);
      LockstepIgnores(p, q);
      if track { RecordTracks(q, observed.point, window); } else { RecordUntracked(q, observed.point, window); }
      RecordKeepsRest(q, observed.point, window, track);
      var r := RecordPoint(q, observed.point, window, track);
      LockstepIgnores(r, r.(history := Remember(r.history, observed, k + 1)));
      RememberKeepsOrder(q.history, observed, k + 1);
    case RollBack(point, tip, now) =>
      RollbackTruncates(p, point, tip, now);
  }

  lemma LockstepIgnores(p: Peer, q: Peer)
    requires p.slots == q.slots && p.points == q.points
    ensures Lockstep(p) == Lockstep(q)
  {
  }

  lemma RecordKeepsRest(p: Peer, point: Point, window: nat, track: bool)
    ensures var r := RecordPoint(p, point, window, track); r == p.(slots := r.slots, points := r.points)
  {
  }

  /** Over any deliveries and rollbacks, whether hashes are tracked throughout or never. */
  lemma {:induction false} RunKeepsTracked(p: Peer, k: nat, ops: seq<PeerOp>, track: bool)
    requires Tracked(p, k) && (track ==> Lockstep(p)) && (!track ==> p.points == [])
    requires forall i :: 0 <= i < |ops| && ops[i].Deliver? ==> ops[i].track == track
    ensures var r := PeerRun(p, k, ops); Tracked(r, k) && (track ==> Lockstep(r)) && (!track ==> r.points == [])
  {
    hide Tracked, Lockstep, PeerStep;
    if ops != [] {
      var init, last := ops[..|ops|-1], ops[|ops|-1];
      RunKeepsTracked(p, k, init, track);
      StepKeepsTracked(PeerRun(p, k, init), k, last);
      RollbackKeepsEmpty(PeerRun(p, k, init), k, last);
    }
  }

  lemma RollbackKeepsEmpty(p: Peer, k: nat, op: PeerOp)
    ensures op.RollBack? && p.points == [] ==> PeerStep(p, k, op).points == []
  {
  }

  // ----- how deep a rollback can be resolved -----

  /** A peer together with the chain it has really delivered and the highest it has reached. */
  datatype Journey = Journey(peer: Peer, chain: seq<Tip>, peak: nat)

  datatype Move =
    | Extend(next: Tip, tip: Tip, window: nat, track: bool, view: nat, now: nat)
    | Retreat(length: nat, tip: Tip, now: nat)

  predicate Possible(j: Journey, m: Move) {
    match m
    case Extend(next, _, _, _, _, _) => next.point.slot > 0 && (j.chain != [] ==> j.chain[|j.chain|-1].point.slot < next.point.slot)
    case Retreat(n, _, _) => n <= |j.chain|
  }

  function Moved(j: Journey, k: nat, m: Move): Journey
    requires Possible(j, m)
  {
    match m
    case Extend(next, tip, window, track, view, now) =>
      var chain := j.chain + [next];
      Journey(PeerStep(j.peer, k, Deliver(tip, next, window, track, view, now)), chain,
              if |chain| > j.peak then |chain| else j.peak)
    case Retreat(n, tip, now) =>
      Journey(PeerStep(j.peer, k, RollBack(if n == 0 then Origin else j.chain[n-1].point, tip, now)), j.chain[..n], j.peak)
  }

  /** The history is the end of the delivered chain, and short of k+1 entries only by what has
      been rolled back since the peak. */
  predicate Anchored(h: seq<Tip>, chain: seq<Tip>, peak: nat, k: nat) {
    && |h| <= |chain| <= peak
    && h == chain[|chain|-|h|..]
    && |h| + (peak - |chain|) >= (if peak < k + 1 then peak else k + 1)
  }

  /** A chain of real blocks in slot order. */
  predicate Rising(chain: seq<Tip>) {
    AscendingTips(chain) && forall i :: 0 <= i < |chain| ==> chain[i].point.slot > 0
  }

  /** The observed tip is the end of the history, or at least names the end of the chain. */
  predicate AtEnd(observed: Tip, h: seq<Tip>, chain: seq<Tip>) {
    if h != [] then h[|h|-1] == observed else chain != [] ==> observed.point == chain[|chain|-1].point
  }

  predicate Faithful(j: Journey, k: nat) {
    && Rising(j.chain)
    && Anchored(j.peer.history, j.chain, j.peak, k)
    && AtEnd(j.peer.observed, j.peer.history, j.chain)
  }

  lemma NewestAnchored(h: seq<Tip>, chain: seq<Tip>, peak: nat, k: nat, next: Tip)
    requires Anchored(h, chain, peak, k)
    ensures Anchored(Newest(h + [next], k + 1), chain + [next], if |chain| + 1 > peak then |chain| + 1 else peak, k)
  {
    var longer, all := h + [next], chain + [next];
    assert longer == all[|all|-|longer|..];
    if |longer| > k + 1 {
      assert longer[|longer|-(k+1)..] == all[|all|-(k+1)..];
    }
  }

  lemma CutAnchored(h: seq<Tip>, chain: seq<Tip>, peak: nat, k: nat, n: nat)
    requires Anchored(h, chain, peak, k) && n <= |chain|
    ensures n <= |chain| - |h| ==> Anchored([], chain[..n], peak, k)
    ensures n > |chain| - |h| ==> Anchored(h[..n-(|chain|-|h|)], chain[..n], peak, k)
  {
    if n > |chain| - |h| {
      var c, kept := chain[..n], h[..n-(|chain|-|h|)];
      assert kept == c[|c|-|kept|..];
    } else {
      assert [] == chain[..n][n..];
    }
  }

  /** Where in the history a point of the delivered chain sits. */
  lemma FindInHistory(h: seq<Tip>, chain: seq<Tip>, peak: nat, k: nat, n: nat)
    requires Anchored(h, chain, peak, k) && AscendingTips(chain) && 0 < n <= |chain|
    ensures FindTip(h, chain[n-1].point) == if n > |chain| - |h| then Some(n - (|chain| - |h|) - 1) else None
    ensures h != [] && h[|h|-1].point == chain[n-1].point ==> n == |chain|
    ensures n > |chain| - |h| ==> h[n-(|chain|-|h|)-1] == chain[n-1]
  {
    hide AscendingTips, FindTip;
    var off := |chain| - |h|;
    var r := FindTip(h, chain[n-1].point);
    if n > off {
      assert h[n-off-1] == chain[n-1];
    }
    if r.Some? {
      assert h[r.value] == chain[off+r.value];
      OneTipPerSlot(chain, off + r.value, n - 1);
    }
    if h != [] && h[|h|-1].point == chain[n-1].point {
      assert h[|h|-1] == chain[|chain|-1];
      OneTipPerSlot(chain, |chain| - 1, n - 1);
    }
  }

  lemma OneTipPerSlot(chain: seq<Tip>, a: nat, b: nat)
    requires AscendingTips(chain) && a < |chain| && b < |chain| && chain[a].point.slot == chain[b].point.slot
    ensures a == b
  {
  }

  lemma ExtendKeepsFaithful(j: Journey, k: nat, m: Move)
    requires Faithful(j, k) && m.Extend? && Possible(j, m)
    ensures Faithful(Moved(j, k, m), k)
  {
    hide PeerStep, Newest, Anchored, Rising;
    NewestAnchored(j.peer.history, j.chain, j.peak, k, m.next);
    RisingSnoc(j.chain, m.next);
    ExtendedPeer(j, k, m);
    NewestEnds(j.peer.history, m.next, k + 1);
  }

  lemma ExtendedPeer(j: Journey, k: nat, m: Move)
    requires Faithful(j, k) && m.Extend? && Possible(j, m)
    ensures Moved(j, k, m).peer.history == Newest(j.peer.history + [m.next], k + 1)
    ensures Moved(j, k, m).peer.observed == m.next
  {
    hide RecordPoint, PopTips, Anchored, Rising, AtEnd, Newest;
    NothingToPop(j.peer.history, j.chain, j.peak, k, m.next.point.slot);
    RecordKeepsRest(j.peer.(tip := m.tip, observed := m.next, view := m.view, updated := m.now), m.next.point, m.window, m.track);
  }

  lemma NewestEnds(h: seq<Tip>, next: Tip, n: nat)
    requires n > 0
    ensures var r := Newest(h + [next], n); r != [] && r[|r|-1] == next
  {
  }

  lemma NothingToPop(h: seq<Tip>, chain: seq<Tip>, peak: nat, k: nat, slot: nat)
    requires Anchored(h, chain, peak, k) && (chain != [] ==> chain[|chain|-1].point.slot < slot)
    ensures PopTips(h, slot) == h
  {
    if h != [] { assert h[|h|-1] == chain[|chain|-1]; }
  }

  lemma RisingSnoc(chain: seq<Tip>, next: Tip)
    requires Rising(chain) && next.point.slot > 0 && (chain != [] ==> chain[|chain|-1].point.slot < next.point.slot)
    ensures Rising(chain + [next])
  {
  }

  lemma RisingPrefix(chain: seq<Tip>, n: nat)
    requires Rising(chain) && n <= |chain|
    ensures Rising(chain[..n])
    ensures n > 0 ==> chain[n-1].point != Origin
  {
  }

  /** Any rollback to a block at most k below the highest the peer has reached is resolved to
      the exact tip that was delivered. */
  lemma RetreatKeepsFaithful(j: Journey, k: nat, m: Move)
    requires Faithful(j, k) && m.Retreat? && Possible(j, m)
    ensures Faithful(Moved(j, k, m), k)
    ensures 0 < m.length && j.peak - m.length <= k ==> Moved(j, k, m).peer.observed == j.chain[m.length-1]
  {
    hide RollFrontier, RollHistory, Rising, Anchored;
    var n, h := m.length, j.peer.history;
    RisingPrefix(j.chain, n);
    CutAnchored(h, j.chain, j.peak, k, n);
    AnchoredDepth(h, j.chain, j.peak, k, n);
    if n > 0 {
      RetreatRolls(j, k, n);
    } else {
      RollsToOrigin(j.peer);
    }
  }

  lemma RollsToOrigin(p: Peer)
    ensures RollHistory(p, Origin) == (Tip(Origin, 0), [])
  {
  }

  /** What lies at most k below the peak is still in the history. */
  lemma AnchoredDepth(h: seq<Tip>, chain: seq<Tip>, peak: nat, k: nat, n: nat)
    requires Anchored(h, chain, peak, k) && n <= |chain|
    ensures |h| <= |chain|
    ensures 0 < n && peak - n <= k ==> n > |chain| - |h|
    ensures h != [] ==> h[|h|-1] == chain[|chain|-1]
  {
    DepthArithmetic(|h|, |chain|, peak, k, n);
    if h != [] {
      SuffixEnd(h, chain);
    }
  }

  lemma DepthArithmetic(held: nat, length: nat, peak: nat, k: nat, n: nat)
    requires held <= length <= peak && n <= length
    requires held + (peak - length) >= (if peak < k + 1 then peak else k + 1)
    ensures 0 < n && peak - n <= k ==> n > length - held
  {
  }

  lemma SuffixEnd(h: seq<Tip>, chain: seq<Tip>)
    requires 0 < |h| <= |chain| && h == chain[|chain|-|h|..]
    ensures h[|h|-1] == chain[|chain|-1]
  {
  }

  lemma RetreatRolls(j: Journey, k: nat, n: nat)
    requires Faithful(j, k) && 0 < n <= |j.chain|
    ensures var r := RollHistory(j.peer, j.chain[n-1].point);
            var off := |j.chain| - |j.peer.history|;
            if n > off then 0 <= off && r == (j.chain[n-1], j.peer.history[..n-off]) && j.peer.history[n-off-1] == j.chain[n-1]
            else r.1 == [] && r.0.point == j.chain[n-1].point
  {
    hide FindTip, AscendingTips, Anchored;
    RisingPrefix(j.chain, n);
    FindInHistory(j.peer.history, j.chain, j.peak, k, n);
    AnchoredDepth(j.peer.history, j.chain, j.peak, k, n);
    if n == |j.chain| && j.peer.history != [] {
      assert j.peer.history[..|j.peer.history|] == j.peer.history;
    }
  }

  function Travelled(j: Journey, k: nat, ms: seq<Move>): Option<Journey> {
    if ms == [] then Some(j)
    else match Travelled(j, k, ms[..|ms|-1])
      case None => None
      case Some(i) => if Possible(i, ms[|ms|-1]) then Some(Moved(i, k, ms[|ms|-1])) else None
  }

  lemma {:induction false} TravelKeepsFaithful(j: Journey, k: nat, ms: seq<Move>)
    requires Faithful(j, k) && Travelled(j, k, ms).Some?
    ensures Faithful(Travelled(j, k, ms).value, k)
  {
    hide Faithful, Moved;
    if ms != [] {
      TravelKeepsFaithful(j, k, ms[..|ms|-1]);
      var i, m := Travelled(j, k, ms[..|ms|-1]).value, ms[|ms|-1];
      if m.Extend? { ExtendKeepsFaithful(i, k, m); } else { RetreatKeepsFaithful(i, k, m); }
    }
  }
}
