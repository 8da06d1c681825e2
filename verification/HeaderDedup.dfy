/** Cross-peer header deduplication (chainsync/chainsync.go, chainsync/strategy.go): headers are
    recorded by slot, and slots that fall behind the retention window are pruned in two
    separately locked phases. */
module HeaderDedup {
  import opened Blocks

  const PRUNE_INTERVAL := 1000

  type ConnId = nat

  datatype Record = Record(hash: Hash, conn: ConnId)

  type Seen = map<nat, seq<Record>>

  datatype Strategy = Primary | Parallel | RoundRobin

  function Records(seen: Seen, slot: nat): seq<Record> {
    if slot in seen then seen[slot] else []
  }

  predicate HasHash(rs: seq<Record>, h: Hash) {
    exists r :: r in rs && r.hash == h
  }

  predicate Known(seen: Seen, p: Point) {
    HasHash(Records(seen, p.slot), p.hash)
  }

  function Noted(seen: Seen, conn: ConnId, p: Point): Seen {
    if Known(seen, p) then seen else seen[p.slot := Records(seen, p.slot) + [Record(p.hash, conn)]]
  }

  function DroppedBelow(seen: Seen, cutoff: nat): Seen {
    map s | s in seen && s >= cutoff :: seen[s]
  }

  // ----- the cache -----

  class Cache {
    var seenHeaders: Seen
    var maxSlot: nat
    var lastPruneCheck: nat

    /** No observation lies above the frontier, nor the prune marker. */
    predicate Valid()
      reads this
    {
      (forall s :: s in seenHeaders ==> s <= maxSlot) && lastPruneCheck <= maxSlot
    }

    /** The cache as the machine below sees it. */
    ghost predicate Shows(s: Sys)
      reads this
    {
      s.seen == seenHeaders && s.maxSlot == maxSlot && s.lastCheck == lastPruneCheck
    }

    /** Record a header; it is new exactly when no peer has reported it, and a second hash at
        its slot is reported as a fork against the first. */
    method ProcessHeader(conn: ConnId, p: Point, ghost s: Sys) returns (isNew: bool, fork: Option<(Record, Record)>)
      requires Valid() && Shows(s)
      modifies this`seenHeaders, this`maxSlot
      ensures Valid()
      ensures isNew <==> !Known(old(seenHeaders), p)
      ensures seenHeaders == Noted(old(seenHeaders), conn, p) && Known(seenHeaders, p)
      ensures maxSlot == if isNew && p.slot > old(maxSlot) then p.slot else old(maxSlot)
      ensures fork.Some? <==> isNew && Records(old(seenHeaders), p.slot) != []
      ensures fork.Some? ==> fork.value == (Records(old(seenHeaders), p.slot)[0], Record(p.hash, conn))
      ensures Shows(Step(s, 0, Deliver(conn, p))) && Step(s, 0, Deliver(conn, p)).log == s.log + [Delivery(p, conn, isNew)]
    {
      var records := Records(seenHeaders, p.slot);
      var i := 0;
      while i < |records|
        invariant i <= |records| && forall j :: 0 <= j < i ==> records[j].hash != p.hash
      {
        if records[i].hash == p.hash {
          assert records[i] in records;
          return false, None;
        }
        i := i + 1;
      }
      var mine := Record(p.hash, conn);
      assert mine in records + [mine];
      seenHeaders := seenHeaders[p.slot := records + [mine]];
      if p.slot > maxSlot {
        maxSlot := p.slot;
      }
      return true, if records != [] then Some((records[0], mine)) else None;
    }

    /** First phase of a prune: decide from the frontier whether one is due. */
    method BeginPrune(ghost s: Sys) returns (due: bool, frontier: nat)
      requires Valid() && Shows(s)
      modifies this`lastPruneCheck
      ensures Valid() && frontier == maxSlot
      ensures due <==> maxSlot - old(lastPruneCheck) >= 1000
      ensures lastPruneCheck == if due then maxSlot else old(lastPruneCheck)
      ensures Shows(Step(s, 0, Begin)) && Step(s, 0, Begin).pruning == s.pruning + if due then multiset{frontier} else multiset{}
    {
      frontier := maxSlot;
      due := !(frontier >= lastPruneCheck && frontier - lastPruneCheck < PRUNE_INTERVAL);
      if due {
        lastPruneCheck := frontier;
      }
    }

    /** Second phase: delete whatever lies more than the retention behind the frontier read. */
    method FinishPrune(frontier: nat, retention: nat, ghost s: Sys)
      requires Valid() && Shows(s) && frontier in s.pruning
      modifies this`seenHeaders
      ensures Valid()
      ensures seenHeaders == DroppedBelow(old(seenHeaders), Cutoff(frontier, retention))
      ensures Shows(Step(s, retention, Finish(frontier)))
    {
      if retention == 0 || frontier <= retention {
        assert DroppedBelow(seenHeaders, 0) == seenHeaders;
        return;
      }
      PruneSeenHeaders(frontier - retention, s);
    }

    method PruneSeenHeaders(before: nat, ghost s: Sys)
      requires Valid() && Shows(s)
      modifies this`seenHeaders
      ensures Valid() && seenHeaders == DroppedBelow(old(seenHeaders), before)
      ensures Shows(Step(s, 0, PruneBefore(before)))
    {
      var todo := seenHeaders.Keys;
      var all := seenHeaders;
      while todo != {}
        invariant todo <= all.Keys && seenHeaders.Keys <= all.Keys
        invariant forall x :: x in all ==> (x in seenHeaders <==> x in todo || x >= before)
        invariant forall x :: x in seenHeaders ==> seenHeaders[x] == all[x]
        decreases |todo|
      {
        var slot :| slot in todo;
        todo := todo - {slot};
        if slot < before {
          seenHeaders := seenHeaders - {slot};
        }
      }
    }

    /** Forget everything, frontier and marker with it. */
    method ClearSeenHeaders(ghost s: Sys)
      requires Valid() && Shows(s)
      modifies this
      ensures Valid() && maxSlot == 0 && lastPruneCheck == 0
      ensures forall p :: !Known(seenHeaders, p)
      ensures Shows(Step(s, 0, ClearAll))
    {
      seenHeaders := map[];
      maxSlot := 0;
      lastPruneCheck := 0;
    }

    /** Forget everything above a slot, so that a restarted client can replay from there. */
    method ClearSeenHeadersFrom(from: nat, ghost s: Sys)
      requires Valid() && Shows(s)
      modifies this
      ensures Valid()
      ensures forall x :: x in seenHeaders <==> x in old(seenHeaders) && x <= from
      ensures forall x :: x in seenHeaders ==> seenHeaders[x] == old(seenHeaders)[x]
      ensures maxSlot == if old(maxSlot) > from then from else old(maxSlot)
      ensures Shows(Step(s, 0, ClearFrom(from)))
    {
      var todo := seenHeaders.Keys;
      var all := seenHeaders;
      while todo != {}
        invariant todo <= all.Keys && seenHeaders.Keys <= all.Keys && maxSlot == old(maxSlot) && lastPruneCheck == old(lastPruneCheck)
        invariant forall x :: x in all ==> (x in seenHeaders <==> x in todo || x <= from)
        invariant forall x :: x in seenHeaders ==> seenHeaders[x] == all[x]
        decreases |todo|
      {
        var slot :| slot in todo;
        todo := todo - {slot};
        if slot > from {
          seenHeaders := seenHeaders - {slot};
        }
      }
      if maxSlot > from {
        maxSlot := from;
      }
      if lastPruneCheck > maxSlot {
        lastPruneCheck := maxSlot;
      }
    }
  }

  /** The oldest slot kept once the frontier has been read. */
  function Cutoff(frontier: nat, retention: nat): nat {
    if retention == 0 || frontier <= retention then 0 else frontier - retention
  }

  // ----- many connections, any interleaving -----

  datatype Delivery = Delivery(point: Point, conn: ConnId, isNew: bool)

  /** The cache, the prunes between their two phases, and what each delivery was told. */
  datatype Sys = Sys(seen: Seen, maxSlot: nat, lastCheck: nat, pruning: multiset<nat>, log: seq<Delivery>)

  datatype Action =
    | Deliver(conn: ConnId, point: Point)
    | Begin
    | Finish(frontier: nat)
    | ClearAll
    | ClearFrom(slot: nat)
    | PruneBefore(slot: nat)

  const EMPTY := Sys(map[], 0, 0, multiset{}, [])

  predicate Enabled(s: Sys, a: Action) {
    a.Finish? ==> a.frontier in s.pruning
  }

  function Step(s: Sys, retention: nat, a: Action): Sys
    requires Enabled(s, a)
  {
    match a
    case Deliver(conn, p) =>
      var isNew := !Known(s.seen, p);
      Sys(Noted(s.seen, conn, p), if isNew && p.slot > s.maxSlot then p.slot else s.maxSlot, s.lastCheck, s.pruning,
          s.log + [Delivery(p, conn, isNew)])
    case Begin =>
      if s.maxSlot >= s.lastCheck && s.maxSlot - s.lastCheck < PRUNE_INTERVAL then s
      else s.(lastCheck := s.maxSlot, pruning := s.pruning + multiset{s.maxSlot})
    case Finish(frontier) =>
      s.(seen := DroppedBelow(s.seen, Cutoff(frontier, retention)), pruning := s.pruning - multiset{frontier})
    case ClearAll => s.(seen := map[], maxSlot := 0, lastCheck := 0)
    case ClearFrom(slot) =>
      var top := if s.maxSlot > slot then slot else s.maxSlot;
      s.(seen := map t | t in s.seen && t <= slot :: s.seen[t], maxSlot := top,
         lastCheck := if s.lastCheck > top then top else s.lastCheck)
    case PruneBefore(slot) => s.(seen := DroppedBelow(s.seen, slot))
  }

  // ----- when a header is new -----

  predicate Delivers(a: Action, p: Point) {
    a.Deliver? && a.point == p
  }

  /** The actions that make the cache forget a header. */
  predicate Removes(a: Action, retention: nat, p: Point) {
    match a
    case Finish(frontier) => p.slot < Cutoff(frontier, retention)
    case ClearAll => true
    case ClearFrom(slot) => slot < p.slot
    case PruneBefore(slot) => p.slot < slot
    case _ => false
  }

  /** What the second phase of a prune removes: with a retention, exactly what lies more than that
      behind the frontier its first phase read. */
  lemma FinishRemovesIff(frontier: nat, retention: nat, p: Point)
    ensures Removes(Finish(frontier), retention, p) <==> retention > 0 && p.slot + retention < frontier
  {
  }

  /** The header was delivered, and nothing since has made the cache forget it. */
  predicate DeliveredSince(acts: seq<Action>, retention: nat, p: Point) {
    acts != [] &&
    var last := acts[|acts|-1];
    (Delivers(last, p) || (!Removes(last, retention, p) && DeliveredSince(acts[..|acts|-1], retention, p)))
  }

  /** How often a header was delivered, and how often it was reported new. */
  function Deliveries(log: seq<Delivery>, p: Point): nat {
    if log == [] then 0
    else Deliveries(log[..|log|-1], p) + if log[|log|-1].point == p then 1 else 0
  }

  function NewReports(log: seq<Delivery>, p: Point): nat {
    if log == [] then 0
    else NewReports(log[..|log|-1], p) + if log[|log|-1].point == p && log[|log|-1].isNew then 1 else 0
  }

  /** A new header at a slot joins the records after those already there, with its connection. */
  lemma NotedRecords(seen: Seen, conn: ConnId, p: Point, slot: nat)
    ensures Records(Noted(seen, conn, p), slot) ==
            Records(seen, slot) + if slot == p.slot && !Known(seen, p) then [Record(p.hash, conn)] else []
  {
  }

  lemma NotedKnows(seen: Seen, conn: ConnId, p: Point, q: Point)
    ensures Known(Noted(seen, conn, p), q) <==> Known(seen, q) || q == p
  {
    var rs := Records(seen, p.slot);
    var mine := Record(p.hash, conn);
    if !Known(seen, p) {
      assert mine in rs + [mine];
      if q.slot == p.slot {
        assert forall r :: r in rs + [mine] <==> r in rs || r == mine;
      }
    }
  }

  lemma DroppedKnows(seen: Seen, cutoff: nat, q: Point)
    ensures q.slot >= cutoff ==> (Known(DroppedBelow(seen, cutoff), q) <==> Known(seen, q))
    ensures q.slot < cutoff ==> !Known(DroppedBelow(seen, cutoff), q)
  {
    assert Records(DroppedBelow(seen, cutoff), q.slot) == if q.slot >= cutoff then Records(seen, q.slot) else [];
  }

  lemma ClearedKnows(seen: Seen, slot: nat, q: Point)
    ensures Known(map t | t in seen && t <= slot :: seen[t], q) <==> q.slot <= slot && Known(seen, q)
  {
    assert Records(map t | t in seen && t <= slot :: seen[t], q.slot) == if q.slot <= slot then Records(seen, q.slot) else [];
  }

  lemma NothingKnown(p: Point)
    ensures !Known(map[], p)
  {
  }

  function Run(s: Sys, retention: nat, acts: seq<Action>): Option<Sys> {
    if acts == [] then Some(s)
    else match Run(s, retention, acts[..|acts|-1])
      case None => None
      case Some(t) => if Enabled(t, acts[|acts|-1]) then Some(Step(t, retention, acts[|acts|-1])) else None
  }

  lemma StepKnows(s: Sys, retention: nat, a: Action, p: Point)
    requires Enabled(s, a)
    ensures Known(Step(s, retention, a).seen, p) <==> Delivers(a, p) || (!Removes(a, retention, p) && Known(s.seen, p))
  {
    hide Known, DroppedBelow, Noted;
    match a
    case Deliver(conn, q) => NotedKnows(s.seen, conn, q, p);
    case Begin =>
    case Finish(f) => DroppedKnows(s.seen, Cutoff(f, retention), p);
    case ClearAll => NothingKnown(p);
    case ClearFrom(slot) => ClearedKnows(s.seen, slot, p);
    case PruneBefore(slot) => DroppedKnows(s.seen, slot, p);
  }

  /** Over every run of deliveries from any connections, interleaved prune phases, clears and
      explicit prunes: the cache knows a header exactly when it was delivered and nothing since
      has removed it. */
  lemma {:induction false} KnownIff(retention: nat, acts: seq<Action>, p: Point)
    requires Run(EMPTY, retention, acts).Some?
    ensures Known(Run(EMPTY, retention, acts).value.seen, p) <==> DeliveredSince(acts, retention, p)
  {
    hide Step, Enabled, Removes;
    if acts == [] {
      assert !Known(EMPTY.seen, p);
    } else {
      KnownIff(retention, acts[..|acts|-1], p);
      StepKnows(Run(EMPTY, retention, acts[..|acts|-1]).value, retention, acts[|acts|-1], p);
    }
  }

  /** A delivery is reported new exactly when the header was not delivered since the last action
      that removes it. */
  lemma ReportedNewIff(retention: nat, acts: seq<Action>, conn: ConnId, p: Point)
    requires Run(EMPTY, retention, acts).Some?
    ensures var t := Step(Run(EMPTY, retention, acts).value, retention, Deliver(conn, p));
            t.log[|t.log|-1] == Delivery(p, conn, !DeliveredSince(acts, retention, p))
  {
    hide Known;
    KnownIff(retention, acts, p);
  }

  // ----- how often a header is new -----

  predicate Delivered(acts: seq<Action>, p: Point) {
    exists i :: 0 <= i < |acts| && Delivers(acts[i], p)
  }

  /** The header was delivered again after being removed after having been delivered. */
  predicate Redelivered(acts: seq<Action>, retention: nat, p: Point) {
    exists k :: 0 <= k < |acts| && Delivers(acts[k], p) && Removed(acts[..k], retention, p)
  }

  /** Delivery i has not been undone. */
  predicate Standing(acts: seq<Action>, retention: nat, p: Point, i: nat) {
    i < |acts| && Delivers(acts[i], p) && forall j :: i < j < |acts| ==> !Removes(acts[j], retention, p)
  }

  lemma {:induction false} SinceStands(acts: seq<Action>, retention: nat, p: Point) returns (i: nat)
    requires DeliveredSince(acts, retention, p)
    ensures Standing(acts, retention, p, i)
  {
    hide Removes;
    if Delivers(acts[|acts|-1], p) {
      i := |acts| - 1;
    } else {
      i := SinceStands(acts[..|acts|-1], retention, p);
    }
  }

  lemma {:induction false} NotSinceWasRemoved(acts: seq<Action>, retention: nat, p: Point)
    requires Delivered(acts, p) && !DeliveredSince(acts, retention, p)
    ensures Removed(acts, retention, p)
  {
    hide Removes;
    assert acts != [];
    hide Delivered;
    var init, n := acts[..|acts|-1], |acts| - 1;
    DeliveredStep(acts, p);
    if DeliveredSince(init, retention, p) {
      var i := SinceStands(init, retention, p);
      assert Delivers(acts[i], p) && Removes(acts[n], retention, p);
    } else {
      NotSinceWasRemoved(init, retention, p);
      var i, j :| 0 <= i < j < |init| && Delivers(init[i], p) && Removes(init[j], retention, p);
      assert Delivers(acts[i], p) && Removes(acts[j], retention, p);
    }
  }

  /** A new action re-delivers exactly a header that had been forgotten. */
  lemma RedeliveredStep(acts: seq<Action>, retention: nat, p: Point)
    requires acts != []
    ensures var init, last := acts[..|acts|-1], acts[|acts|-1];
            Redelivered(acts, retention, p) <==> Redelivered(init, retention, p) || (Delivers(last, p) && Removed(init, retention, p))
  {
    hide Removed;
    var init, n := acts[..|acts|-1], |acts| - 1;
    assert forall k :: 0 <= k < n ==> init[k] == acts[k] && init[..k] == acts[..k];
    assert acts[..n] == init;
    if Redelivered(acts, retention, p) {
      var k :| 0 <= k < |acts| && Delivers(acts[k], p) && Removed(acts[..k], retention, p);
      if k < n { assert Delivers(init[k], p) && Removed(init[..k], retention, p); }
    }
    if Redelivered(init, retention, p) {
      var k :| 0 <= k < |init| && Delivers(init[k], p) && Removed(init[..k], retention, p);
      assert Delivers(acts[k], p) && Removed(acts[..k], retention, p);
    }
    if Delivers(acts[n], p) && Removed(init, retention, p) {
      assert Removed(acts[..n], retention, p);
    }
  }

  predicate Removed(acts: seq<Action>, retention: nat, p: Point) {
    exists i, j :: 0 <= i < j < |acts| && Delivers(acts[i], p) && Removes(acts[j], retention, p)
  }

  lemma DeliveredStep(acts: seq<Action>, p: Point)
    requires acts != []
    ensures Delivered(acts, p) <==> Delivered(acts[..|acts|-1], p) || Delivers(acts[|acts|-1], p)
  {
    var init := acts[..|acts|-1];
    if Delivered(acts, p) {
      var i :| 0 <= i < |acts| && Delivers(acts[i], p);
      if i < |init| { assert Delivers(init[i], p); }
    }
    if Delivered(init, p) {
      var i :| 0 <= i < |init| && Delivers(init[i], p);
      assert Delivers(acts[i], p);
    }
  }

  /** A header that is known now and was removed before has been delivered again. */
  lemma KnownAgain(acts: seq<Action>, retention: nat, p: Point)
    requires DeliveredSince(acts, retention, p) && Removed(acts, retention, p)
    ensures Redelivered(acts, retention, p)
  {
    hide Removes, DeliveredSince;
    var k := SinceStands(acts, retention, p);
    var i, j :| 0 <= i < j < |acts| && Delivers(acts[i], p) && Removes(acts[j], retention, p);
    assert j != k by { DeliveryRemovesNothing(acts[k], retention, p); }
    assert Delivers(acts[..k][i], p) && Removes(acts[..k][j], retention, p);
  }

  lemma DeliveryRemovesNothing(a: Action, retention: nat, p: Point)
    ensures Delivers(a, p) ==> !Removes(a, retention, p)
  {
  }

  /** A header is reported new at least once if it is delivered at all, and more than once if and
      only if it is delivered again after having been delivered and removed. */
  lemma {:induction false} NewReportsIff(retention: nat, acts: seq<Action>, p: Point)
    requires Run(EMPTY, retention, acts).Some?
    ensures var log := Run(EMPTY, retention, acts).value.log;
            && (NewReports(log, p) > 0 <==> Delivered(acts, p))
            && (NewReports(log, p) > 1 <==> Redelivered(acts, retention, p))
  {
    hide Known, Removes, DeliveredSince, Enabled, Redelivered, Delivered, Removed;
    if acts == [] {
      NothingYet(retention, p);
    } else {
      var init, last := acts[..|acts|-1], acts[|acts|-1];
      NewReportsIff(retention, init, p);
      DeliveredStep(acts, p);
      RedeliveredStep(acts, retention, p);
      var s := Run(EMPTY, retention, init).value;
      LogStep(s, retention, last, p);
      if Delivers(last, p) {
        ReportedNewIff(retention, init, last.conn, p);
        RemovedMeans(init, retention, p);
        if DeliveredSince(init, retention, p) && Removed(init, retention, p) { KnownAgain(init, retention, p); }
      }
    }
  }

  lemma NothingYet(retention: nat, p: Point)
    ensures !Delivered([], p) && !Redelivered([], retention, p)
  {
  }

  lemma LogStep(s: Sys, retention: nat, a: Action, p: Point)
    requires Enabled(s, a)
    ensures var t := Step(s, retention, a);
            NewReports(t.log, p) == NewReports(s.log, p) + if Delivers(a, p) && t.log[|t.log|-1].isNew then 1 else 0
    ensures a.Deliver? ==> Step(s, retention, a).log != []
  {
    hide Known, Noted, DroppedBelow;
    if a.Deliver? {
      var t := Step(s, retention, a);
      assert t.log[..|t.log|-1] == s.log;
    }
  }

  /** Removed needs a delivery first; a delivery that is not known any more was removed. */
  lemma RemovedMeans(acts: seq<Action>, retention: nat, p: Point)
    ensures Removed(acts, retention, p) ==> Delivered(acts, p)
    ensures Delivered(acts, p) && !DeliveredSince(acts, retention, p) ==> Removed(acts, retention, p)
    ensures DeliveredSince(acts, retention, p) ==> Delivered(acts, p)
  {
    hide Removes, DeliveredSince;
    if DeliveredSince(acts, retention, p) {
      var i := SinceStands(acts, retention, p);
    } else if Delivered(acts, p) {
      NotSinceWasRemoved(acts, retention, p);
    }
  }

  // ----- the retention window -----

  predicate InWindow(s: Sys, retention: nat, p: Point) {
    s.maxSlot <= p.slot + retention
  }

  predicate OnlyPrunes(acts: seq<Action>) {
    forall i :: 0 <= i < |acts| ==> !acts[i].ClearAll? && !acts[i].ClearFrom? && !acts[i].PruneBefore?
  }

  /** Without clears and explicit prunes a prune under way has read no frontier ahead of the
      present one, so nothing removes a header within the retention of the frontier. */
  lemma {:induction false} NothingRemovesRecent(retention: nat, acts: seq<Action>, p: Point)
    requires Run(EMPTY, retention, acts).Some? && OnlyPrunes(acts)
    ensures var t := Run(EMPTY, retention, acts).value;
            && (forall f :: f in t.pruning ==> f <= t.maxSlot)
            && (InWindow(t, retention, p) ==> forall i :: 0 <= i < |acts| ==> !Removes(acts[i], retention, p))
  {
    hide Step, Enabled, Removes;
    if acts != [] {
      var init, last := acts[..|acts|-1], acts[|acts|-1];
      assert forall i :: 0 <= i < |init| ==> init[i] == acts[i];
      NothingRemovesRecent(retention, init, p);
      FrontierStep(Run(EMPTY, retention, init).value, retention, last, p);
    }
  }

  lemma FrontierStep(s: Sys, retention: nat, a: Action, p: Point)
    requires Enabled(s, a) && !a.ClearAll? && !a.ClearFrom? && !a.PruneBefore? && forall f :: f in s.pruning ==> f <= s.maxSlot
    ensures var t := Step(s, retention, a);
            && (forall f :: f in t.pruning ==> f <= t.maxSlot) && s.maxSlot <= t.maxSlot
            && (InWindow(t, retention, p) ==> !Removes(a, retention, p))
  {
    hide Known, Noted, DroppedBelow;
  }

  /** However deliveries from any connections and the two phases of any prunes interleave, a
      header whose slot is within the retention of the frontier has been reported new exactly
      once, no matter how many times it was delivered. */
  lemma ReportedNewOnce(retention: nat, acts: seq<Action>, p: Point)
    requires Run(EMPTY, retention, acts).Some? && OnlyPrunes(acts)
    requires InWindow(Run(EMPTY, retention, acts).value, retention, p) && Delivered(acts, p)
    ensures NewReports(Run(EMPTY, retention, acts).value.log, p) == 1
  {
    hide Run, Removes, NewReports;
    NothingRemovesRecent(retention, acts, p);
    NewReportsIff(retention, acts, p);
  }

  lemma RunOneMore(retention: nat, acts: seq<Action>, a: Action)
    requires Run(EMPTY, retention, acts).Some? && Enabled(Run(EMPTY, retention, acts).value, a)
    ensures Run(EMPTY, retention, acts + [a]) == Some(Step(Run(EMPTY, retention, acts).value, retention, a))
  {
    assert (acts + [a])[..|acts|] == acts;
  }

  /** With a clear in between, a prune that read its frontier before the clear deletes headers
      the window now covers, and they are reported new twice. */
  lemma ClearBreaksTheWindow(h: Hash)
    ensures var acts := [Deliver(0, Point(5000, h)), Begin, ClearFrom(100)] + [Deliver(0, Point(50, h))] + [Finish(5000)] + [Deliver(1, Point(50, h))];
            var t := Run(EMPTY, 1000, acts);
            t.Some? && InWindow(t.value, 1000, Point(50, h)) && NewReports(t.value.log, Point(50, h)) > 1
  {
    hide Run, NewReports, DroppedBelow;
    var near := Point(50, h);
    var start := [Deliver(0, Point(5000, h)), Begin, ClearFrom(100)];
    var s := StalePruner(h);
    RunOneMore(1000, start, Deliver(0, near));
    RunOneMore(1000, start + [Deliver(0, near)], Finish(5000));
    RunOneMore(1000, start + [Deliver(0, near)] + [Finish(5000)], Deliver(1, near));
    var acts := start + [Deliver(0, near)] + [Finish(5000)] + [Deliver(1, near)];
    assert Delivers(acts[..5][3], near) && Removes(acts[..5][4], 1000, near) && Delivers(acts[5], near);
    NewReportsIff(1000, acts, near);
  }

  /** A prune that has read slot 5000 as its frontier when the cache is cleared down to 100. */
  lemma StalePruner(h: Hash) returns (s: Sys)
    ensures Run(EMPTY, 1000, [Deliver(0, Point(5000, h)), Begin, ClearFrom(100)]) == Some(s)
    ensures s == Sys(map[], 100, 100, multiset{5000}, [Delivery(Point(5000, h), 0, true)])
  {
    var far := Point(5000, h);
    var s1 := Step(EMPTY, 1000, Deliver(0, far));
    var s2 := Step(s1, 1000, Begin);
    s := Step(s2, 1000, ClearFrom(100));
    assert Run(EMPTY, 1000, []) == Some(EMPTY);
    RunOneMore(1000, [], Deliver(0, far));
    assert [] + [Deliver(0, far)] == [Deliver(0, far)];
    RunOneMore(1000, [Deliver(0, far)], Begin);
    assert [Deliver(0, far)] + [Begin] == [Deliver(0, far), Begin];
    RunOneMore(1000, [Deliver(0, far), Begin], ClearFrom(100));
    assert [Deliver(0, far), Begin] + [ClearFrom(100)] == [Deliver(0, far), Begin, ClearFrom(100)];
  }

  // ----- what reaches the ledger -----

  /** Whether a delivery is published; replay is the single-driver strategies' allowance for
      duplicates first seen elsewhere. */
  predicate Publishes(strategy: Strategy, isNew: bool, drives: bool, seenElsewhere: bool) {
    match strategy
    case Parallel => isNew
    case RoundRobin => drives && (isNew || seenElsewhere)
    case Primary => isNew || (drives && seenElsewhere)
  }

  /** How often a header was published, given what drove and what had been seen elsewhere at
      each delivery. */
  function Published(strategy: Strategy, log: seq<Delivery>, replay: nat -> (bool, bool), p: Point): nat {
    if log == [] then 0
    else
      var n := |log| - 1;
      Published(strategy, log[..n], replay, p)
      + if log[n].point == p && Publishes(strategy, log[n].isNew, replay(n).0, replay(n).1) then 1 else 0
  }

  lemma {:induction false} ParallelPublishesNews(log: seq<Delivery>, replay: nat -> (bool, bool), p: Point)
    ensures Published(Parallel, log, replay, p) == NewReports(log, p)
  {
    if log != [] {
      ParallelPublishesNews(log[..|log|-1], replay, p);
    }
  }

  /** Under the parallel strategy, over every run, a delivered header is published exactly once
      if and only if it is not delivered again after having been removed. */
  lemma ParallelPublishesOnceIff(retention: nat, acts: seq<Action>, replay: nat -> (bool, bool), p: Point)
    requires Run(EMPTY, retention, acts).Some? && Delivered(acts, p)
    ensures Published(Parallel, Run(EMPTY, retention, acts).value.log, replay, p) == 1 <==> !Redelivered(acts, retention, p)
  {
    hide Run, Redelivered, Delivered;
    NewReportsIff(retention, acts, p);
    ParallelPublishesNews(Run(EMPTY, retention, acts).value.log, replay, p);
  }
}
