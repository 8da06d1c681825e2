/** The chain selector (chainselection/selector.go): it tracks peers, and after every change
    that may matter evaluates which one to follow. Maps are walked in an arbitrary order. */
module Selector {
  import opened Blocks
  import opened PeerTip
  import opened PeerChainTips
  import opened SelectionRules
  import opened SelectionSteps

  const DEFAULT_MAX_PEERS := 200

  class ChainSelector {
    var config: Config
    var securityParam: nat
    var mode: Mode
    var peerTips: map<Conn, Peer>
    var eligible: map<Conn, bool>
    var priority: map<Conn, int>
    var bestPeerConn: Option<Conn>
    var localTip: Tip
    var localTipProgressBlock: nat
    var localTipProgressAt: Option<nat>
    var pendingSelectedNone: Option<Conn>

    function Now(): Selection
      reads this
    {
      Selection(config, securityParam, mode, peerTips, eligible, priority, localTip, localTipProgressAt)
    }

    function All(): Full
      reads this
    {
      Full(Now(), bestPeerConn, pendingSelectedNone)
    }

    ghost predicate Valid()
      reads this
    {
      Sane(All()) && localTipProgressBlock == localTip.number
    }

    constructor (staleThreshold: nat, windowSlots: nat, minCorroborating: int, maxPeers: int, k: nat, genesis: bool)
      ensures Valid() && peerTips == map[] && bestPeerConn == None && localTip.number == 0
      ensures config.minCorroborating == (if minCorroborating < 0 then 1 else minCorroborating)
      ensures config.maxPeers == (if maxPeers <= 0 then 200 else maxPeers)
      ensures GateActive(Now()) <==> genesis && minCorroborating != 0
    {
      config := Config(staleThreshold, windowSlots, if minCorroborating < 0 then 1 else minCorroborating,
                       if maxPeers <= 0 then DEFAULT_MAX_PEERS else maxPeers);
      securityParam := k;
      mode := if genesis then Genesis else Praos;
      peerTips, eligible, priority := map[], map[], map[];
      bestPeerConn := None;
      localTip := Tip(Origin, 0);
      localTipProgressBlock := 0;
      localTipProgressAt := None;
      pendingSelectedNone := None;
    }

    // ----- reading -----

    /** Count the independent hosts that confirm a candidate's recent chain. */
    method CorroboratingPeers(e: Env, candidate: Conn) returns (n: nat)
      requires WellKept(Now()) && candidate in peerTips
      ensures n == |Hosts(Now(), e, candidate)|
    {
      hide WellKept, Confirms;
      var s := Now();
      var hosts: set<nat> := {};
      var todo := peerTips.Keys;
      while todo != {}
        invariant todo <= peerTips.Keys
        invariant forall h :: h in hosts <==> Witnessed(s, e, candidate, peerTips.Keys - todo, h)
        decreases |todo|
      {
        var w :| w in todo;
        todo := todo - {w};
        WitnessStep(s, e, candidate, todo, w);
        if w != candidate && Present(s, e, w) {
          KeptPoints(s, candidate);
          KeptPoints(s, w);
          var confirms := ConfirmsRecentChain(s.peers[candidate].points, s.peers[w].points);
          if confirms {
            hosts := hosts + {w.host};
          }
        }
      }
      hosts := hosts - {candidate.host};
      assert peerTips.Keys - todo == peerTips.Keys;
      HostsAre(s, e, candidate, hosts);
      return |hosts|;
    }

    method IsPeerCorroborated(e: Env, c: Conn) returns (r: bool)
      requires WellKept(Now()) && c in peerTips
      ensures r <==> Corroborated(Now(), e, c)
    {
      hide WellKept, Hosts;
      if !GateActive(Now()) {
        return true;
      }
      var n := CorroboratingPeers(e, c);
      return n >= config.minCorroborating;
    }

    /** Whether a peer's blocks may reach the ledger: always outside the gate, and inside it
        exactly for known peers with enough independent witnesses. */
    method ShouldApplyIngress(e: Env, c: Conn) returns (r: bool)
      requires WellKept(Now())
      ensures r <==> MayApply(Now(), e, c)
    {
      hide WellKept, Hosts;
      if !GateActive(Now()) {
        return true;
      }
      if c !in peerTips {
        return false;
      }
      r := IsPeerCorroborated(e, c);
    }

    /** The highest block number any eligible, fresh peer has delivered, or zero. */
    method BestKnownBlockNumber(e: Env) returns (best: nat)
      ensures forall c :: c in peerTips && Counts(Now(), e, c) ==> Number(Now(), c) <= best
      ensures best == 0 || exists c :: c in peerTips && Counts(Now(), e, c) && Number(Now(), c) == best
    {
      hide Counts;
      var s := Now();
      best := 0;
      var todo := peerTips.Keys;
      while todo != {}
        invariant todo <= peerTips.Keys
        invariant forall c :: c in peerTips.Keys - todo && Counts(s, e, c) ==> Number(s, c) <= best
        invariant best == 0 || exists c :: c in peerTips && Counts(s, e, c) && Number(s, c) == best
        decreases |todo|
      {
        var c :| c in todo;
        todo := todo - {c};
        if Counts(s, e, c) && Number(s, c) > best {
          best := Number(s, c);
        }
      }
      assert forall c :: c in peerTips ==> c in peerTips.Keys - todo;
    }

    method IsPeerSelectable(e: Env, c: Conn) returns (r: bool)
      requires WellKept(Now())
      ensures r <==> Selectable(Now(), e, c)
    {
      hide WellKept, Corroborated, Counts;
      var s := Now();
      if !Present(s, e, c) || BehindLocal(s, c) {
        return false;
      }
      if securityParam > 0 {
        var best := BestKnownBlockNumber(e);
        if best > 0 && SatAdd(Number(s, c), securityParam) < best {
          return false;
        }
      }
      r := IsPeerCorroborated(e, c);
    }

    // ----- leaving Genesis mode -----

    /** The highest advertised slot that a selectable peer has delivered up to. */
    method BestKnownGenesisSlot(e: Env) returns (best: nat)
      requires WellKept(Now())
      ensures forall c :: Delivered(Now(), e, c) ==> peerTips[c].tip.point.slot <= best
      ensures best == 0 || exists c :: Delivered(Now(), e, c) && peerTips[c].tip.point.slot == best
    {
      hide WellKept, Selectable;
      var s := Now();
      best := 0;
      var todo := peerTips.Keys;
      while todo != {}
        invariant todo <= peerTips.Keys
        invariant forall c :: c in peerTips.Keys - todo && Delivered(s, e, c) ==> s.peers[c].tip.point.slot <= best
        invariant best == 0 || exists c :: c in s.peers && Delivered(s, e, c) && s.peers[c].tip.point.slot == best
        decreases |todo|
      {
        var c :| c in todo;
        todo := todo - {c};
        var selectable := IsPeerSelectable(e, c);
        var p := peerTips[c];
        if selectable && SatAdd(p.observed.point.slot, Window(s)) >= p.tip.point.slot {
          if p.tip.point.slot > best {
            best := p.tip.point.slot;
          }
        }
      }
      AllTracked(s, e);
    }

    /** Leave Genesis mode once the local tip has caught up. */
    method AdvanceSelectionMode(e: Env) returns (changed: bool)
      requires Valid()
      modifies this`mode, this`peerTips
      ensures Valid() && Now() == Advanced(old(Now()), e)
      ensures changed <==> mode != old(mode)
    {
      hide WellKept, Delivered;
      AdvancedIsSane(All(), e);
      if mode != Genesis {
        return false;
      }
      var best := BestKnownGenesisSlot(e);
      if best == 0 || SatAdd(localTip.point.slot, Window(Now())) < best {
        return false;
      }
      mode := Praos;
      peerTips := map c | c in peerTips :: peerTips[c].(points := []);
      return true;
    }

    // ----- choosing -----

    /** The best selectable peer, whatever order the peers are visited in. */
    method SelectBestChain(e: Env) returns (best: Option<Conn>)
      requires Valid()
      modifies this`mode, this`peerTips
      ensures Valid() && Now() == Advanced(old(Now()), e)
      ensures Best(Now(), e, Now().peers.Keys, best) && (best.Some? ==> best.value in peerTips)
    {
      hide WellKept, Advanced, Selectable, Best;
      var _ := AdvanceSelectionMode(e);
      best := PickBest(e);
      BestIsTracked(Now(), e, best);
    }

    method PickBest(e: Env) returns (best: Option<Conn>)
      requires WellKept(Now())
      ensures Best(Now(), e, Now().peers.Keys, best)
    {
      hide WellKept, Selectable, Compare;
      var s := Now();
      best := None;
      var todo := peerTips.Keys;
      while todo != {}
        invariant todo <= peerTips.Keys
        invariant Best(s, e, peerTips.Keys - todo, best)
        decreases |todo|
      {
        var c :| c in todo;
        ghost var seen := peerTips.Keys - todo;
        todo := todo - {c};
        assert peerTips.Keys - todo == seen + {c};
        var selectable := IsPeerSelectable(e, c);
        BestStep(s, e, seen, best, c);
        if selectable && (best.None? || Compare(s, e, c, best.value) == ABetter) {
          best := Some(c);
        }
      }
      assert peerTips.Keys - todo == peerTips.Keys;
    }

    /** Evaluate which peer to follow. */
    method EvaluateBestPeer(e: Env) returns (switched: bool)
      requires Valid()
      modifies this`mode, this`peerTips, this`bestPeerConn, this`pendingSelectedNone
      ensures Valid() && Evaluated(old(All()), All(), e)
      ensures switched <==> bestPeerConn.Some? && bestPeerConn != old(bestPeerConn)
    {
      hide WellKept, Advanced, Selectable, KeepsIncumbent, Best;
      AdvancedIsKept(Now(), e);
      var newBest := SelectBestChain(e);
      var s := Now();
      BestIsTracked(s, e, newBest);
      var previous := bestPeerConn;
      if newBest.None? {
        if previous.Some? {
          pendingSelectedNone := previous;
        }
        bestPeerConn := None;
        return false;
      }
      ghost var best := newBest.value;
      if previous.Some? && previous != newBest {
        var selectable := IsPeerSelectable(e, previous.value);
        IncumbentOutcome(s, e, previous.value, newBest.value);
        if selectable && KeepsIncumbent(s, e, previous.value, newBest.value) {
          newBest := previous;
        }
      } else {
        BestTrailsNone(s, e, newBest.value);
      }
      switched := previous != newBest;
      bestPeerConn := newBest;
      assert Prevails(old(All()), All(), e, best) by { SameKept(s, e, best); }
    }

    // ----- peers come, report and go -----

    /** Whether a report stays within k blocks of what is known, or a local tip has outrun it. */
    method CheckPlausible(c: Conn, tip: Tip, observed: Tip) returns (ok: bool)
      ensures ok <==> Plausible(Now(), c, tip, observed)
    {
      if securityParam == 0 {
        return true;
      }
      var s := Now();
      var hasReference, reference, advertised := References(c);
      if !hasReference {
        return true;
      }
      var observedReject := observed.number > SatAdd(reference, securityParam);
      var advertisedReject := tip.number > SatAdd(advertised, securityParam);
      if observedReject && localTip.number > 0 && reference <= localTip.number {
        observedReject := observed.number > SatAdd(localTip.number, SatAdd(securityParam, securityParam));
      }
      PlausibleByReference(s, c, tip, observed, reference, advertised);
      return !observedReject && !(advertisedReject && localTip.number == 0);
    }

    /** A known peer is measured against itself, a new one against the best of the others. */
    method References(c: Conn) returns (has: bool, reference: nat, advertised: nat)
      ensures has <==> Referees(Now(), c) != {}
      ensures has ==> IsMax(Now(), Referees(Now(), c), reference, advertised)
    {
      hide IsMax;
      if c in peerTips {
        MaxOfOne(Now(), c);
        return true, Number(Now(), c), peerTips[c].tip.number;
      }
      has := peerTips != map[];
      reference, advertised := BestReferences();
    }

    method BestReferences() returns (reference: nat, advertised: nat)
      ensures peerTips != map[] ==> IsMax(Now(), peerTips.Keys, reference, advertised)
    {
      hide IsMax;
      var s := Now();
      reference, advertised := 0, 0;
      var todo := peerTips.Keys;
      ghost var seen: set<Conn> := {};
      while todo != {}
        invariant todo + seen == peerTips.Keys
        invariant if seen == {} then reference == 0 && advertised == 0 else IsMax(s, seen, reference, advertised)
        decreases |todo|
      {
        var d :| d in todo;
        MaxStep(s, seen, reference, advertised, d);
        todo := todo - {d};
        seen := seen + {d};
        if Number(s, d) > reference {
          reference := Number(s, d);
        }
        if s.peers[d].tip.number > advertised {
          advertised := s.peers[d].tip.number;
        }
      }
      assert seen == peerTips.Keys;
    }

    method LeastRecent() returns (oldest: Option<Conn>)
      ensures oldest.None? <==> forall c :: c in peerTips ==> bestPeerConn == Some(c)
      ensures oldest.Some? ==> IsLeastRecent(Now(), bestPeerConn, oldest.value)
    {
      var s := Now();
      oldest := None;
      var todo := peerTips.Keys;
      while todo != {}
        invariant todo <= peerTips.Keys
        invariant oldest.None? ==> forall c :: c in peerTips.Keys - todo ==> bestPeerConn == Some(c)
        invariant oldest.Some? ==> oldest.value in peerTips && oldest != bestPeerConn
        invariant oldest.Some? ==> forall c :: c in peerTips.Keys - todo && bestPeerConn != Some(c) ==> !Earlier(s, c, oldest.value)
        decreases |todo|
      {
        var c :| c in todo;
        todo := todo - {c};
        if bestPeerConn != Some(c) && (oldest.None? || Earlier(s, c, oldest.value)) {
          oldest := Some(c);
        }
      }
      assert forall c :: c in peerTips ==> c in peerTips.Keys - todo;
    }

    /** Stop tracking the least recently updated peer other than the one followed; fewer blocks
        and then the smaller id break ties. */
    method EvictLeastRecentPeer() returns (evicted: Option<Conn>)
      requires Valid()
      modifies this`peerTips, this`eligible, this`priority
      ensures Valid()
      ensures evicted.None? <==> forall c :: c in old(peerTips) ==> bestPeerConn == Some(c)
      ensures evicted.None? ==> Now() == old(Now())
      ensures evicted.Some? ==> IsLeastRecent(old(Now()), bestPeerConn, evicted.value) && Now() == Without(old(Now()), {evicted.value})
    {
      hide Sane, Earlier, Without;
      evicted := LeastRecent();
      if evicted.Some? {
        DeletePeer(evicted.value);
      }
    }

    method DeletePeer(c: Conn)
      requires Valid() && bestPeerConn != Some(c)
      modifies this`peerTips, this`eligible, this`priority
      ensures Valid() && Now() == Without(old(Now()), {c})
    {
      hide WellKept, Without;
      var rest := Without(Now(), {c});
      WithoutIsKept(Now(), {c});
      WithoutKeepsRest(Now(), {c}, bestPeerConn);
      peerTips := rest.peers;
      eligible := rest.eligible;
      priority := rest.priority;
    }

    /** Take in a peer's report. It is dropped exactly when the connection is closed, the report
        is implausible, or no place can be made; otherwise it becomes that peer's state, and at
        most one other peer, never the one followed, is forgotten for it. */
    method UpdatePeerTip(e: Env, c: Conn, tip: Tip, observed: Tip, view: nat)
      returns (accepted: bool, shouldEvaluate: bool, evicted: Option<Conn>)
      requires Valid()
      modifies this`mode, this`peerTips, this`eligible, this`priority
      ensures Valid() && UpdatedTo(old(All()), All(), e, c, tip, observed, view)
      ensures accepted <==> Accepts(old(All()), e, c, tip, observed)
      ensures evicted.Some? <==> accepted && c !in old(peerTips) && |old(peerTips)| >= config.maxPeers
      ensures evicted.Some? ==> IsLeastRecent(old(Now()), bestPeerConn, evicted.value)
      ensures accepted ==> c in peerTips && (bestPeerConn.Some? ==> bestPeerConn.value in peerTips)
      ensures accepted ==>
                (shouldEvaluate <==> || mode != old(mode) || GateActive(old(Now())) || bestPeerConn.None?
                                     || Compare(Now(), e, c, bestPeerConn.value) == ABetter)
    {
      hide Sane, Plausible, Reported, Advanced, Compare, IsLeastRecent, HasRoom, MakesRoom, Stored;
      accepted, shouldEvaluate, evicted := false, false, None;
      if !e.live(c) {
        return;
      }
      var plausible := CheckPlausible(c, tip, observed);
      if !plausible {
        return;
      }
      var gate := GateActive(Now());
      var changed;
      accepted, changed, evicted := Record(e, c, Reported(Now(), c, tip, observed, view, e.now), tip, observed, view);
      if accepted {
        shouldEvaluate := changed || gate || bestPeerConn.None? || Compare(Now(), e, c, bestPeerConn.value) == ABetter;
      }
    }

    method Record(e: Env, c: Conn, report: Peer, ghost tip: Tip, ghost observed: Tip, ghost view: nat)
      returns (accepted: bool, changed: bool, evicted: Option<Conn>)
      requires Valid() && report == Reported(Now(), c, tip, observed, view, e.now)
      modifies this`mode, this`peerTips, this`eligible, this`priority
      ensures Valid() && (accepted <==> HasRoom(old(All()), c)) && (changed <==> mode != old(mode))
      ensures !accepted ==> Now() == old(Now())
      ensures evicted.Some? <==> accepted && c !in old(peerTips) && |old(peerTips)| >= config.maxPeers
      ensures evicted.Some? ==> IsLeastRecent(old(Now()), bestPeerConn, evicted.value)
      ensures accepted ==> c in peerTips && (bestPeerConn.Some? ==> bestPeerConn.value in peerTips)
      ensures accepted ==> MakesRoom(old(All()), c, Gone(evicted)) && Now() == Advanced(Stored(old(Now()), Gone(evicted), c, report), e)
    {
      hide WellKept, Advanced, Reported, PeerKept, IsLeastRecent, HasRoom, MakesRoom, Without;
      ReportedIsKept(Now(), c, tip, observed, view, e.now);
      changed := false;
      accepted, evicted := MakeRoom(c);
      if accepted {
        StoreReport(c, report);
        AdvancedIsKept(Now(), e);
        changed := AdvanceSelectionMode(e);
      }
    }

    /** Make place for a report, forgetting a least recent peer if it takes that. */
    method MakeRoom(c: Conn) returns (room: bool, evicted: Option<Conn>)
      requires Valid()
      modifies this`peerTips, this`eligible, this`priority
      ensures Valid()
      ensures room <==> HasRoom(old(All()), c)
      ensures room ==> c in peerTips || |peerTips| < config.maxPeers
      ensures !room ==> Now() == old(Now()) && evicted.None?
      ensures evicted.Some? <==> room && c !in old(peerTips) && |old(peerTips)| >= config.maxPeers
      ensures evicted.Some? ==> IsLeastRecent(old(Now()), bestPeerConn, evicted.value)
      ensures room ==> MakesRoom(old(All()), c, Gone(evicted)) && Now() == Without(old(Now()), Gone(evicted))
    {
      hide WellKept, Earlier;
      room, evicted := true, None;
      if c !in peerTips && |peerTips| >= config.maxPeers {
        ghost var m := peerTips;
        evicted := EvictLeastRecentPeer();
        room := evicted.Some?;
        if room {
          OneFewer(m, evicted.value);
        }
      } else {
        WithoutNone(Now());
      }
    }

    method StoreReport(c: Conn, report: Peer)
      requires Valid() && PeerKept(report, GateActive(Now())) && (c in peerTips || |peerTips| < config.maxPeers)
      modifies this`peerTips
      ensures Valid() && Now() == old(Now()).(peers := old(peerTips)[c := report])
    {
      hide PeerKept, WellKept;
      StoredIsKept(Now(), c, report);
      peerTips := peerTips[c := report];
    }

    /** A peer rolled back: its frontiers and history are trimmed at the point. */
    method HandlePeerRollback(e: Env, c: Conn, point: Point, tip: Tip) returns (shouldEvaluate: bool)
      requires Valid()
      modifies this`peerTips
      ensures Valid() && Transition(RolledBackBy(e, c, point, tip), old(All()), All())
      ensures shouldEvaluate <==> c in old(peerTips)
    {
      hide Evaluated, UpdatedTo, Forgot, RolledBack, PeerKept, WellKept;
      shouldEvaluate := c in peerTips;
      if shouldEvaluate {
        KeptOf(Now(), c);
        RollbackKeepsPeer(peerTips[c], point, tip, e.now, GateActive(Now()));
        StoreReport(c, RolledBack(peerTips[c], point, tip, e.now));
      }
    }

    /** A connection is gone; under the gate any departure but that of the peer followed, which
        is replaced at once, calls for a re-evaluation. */
    method RemovePeer(e: Env, c: Conn) returns (reevaluate: bool)
      requires Valid()
      modifies this`mode, this`peerTips, this`eligible, this`priority, this`bestPeerConn, this`pendingSelectedNone
      ensures Valid() && Forgot(old(All()), All(), e, {c})
      ensures reevaluate <==> GateActive(old(Now())) && old(bestPeerConn) != Some(c)
    {
      hide Sane, Best, Without, Advanced;
      reevaluate := GateActive(Now()) && bestPeerConn != Some(c);
      var lost := Forget(c);
      if lost {
        Replace(e, c);
      }
    }

    /** Stop tracking a peer, and following it if it was followed. */
    method Forget(c: Conn) returns (lost: bool)
      requires Valid()
      modifies this`peerTips, this`eligible, this`priority, this`bestPeerConn
      ensures Valid() && Now() == Without(old(Now()), {c})
      ensures lost <==> old(bestPeerConn) == Some(c)
      ensures bestPeerConn == if lost then None else old(bestPeerConn)
    {
      hide WellKept, Without;
      lost := bestPeerConn == Some(c);
      if lost {
        bestPeerConn := None;
      }
      DeletePeer(c);
    }

    /** Follow the best remaining peer after losing one, or announce that there is none. */
    method Replace(e: Env, lost: Conn)
      requires Valid()
      modifies this`mode, this`peerTips, this`bestPeerConn, this`pendingSelectedNone
      ensures Valid() && Now() == Advanced(old(Now()), e)
      ensures Best(Now(), e, Now().peers.Keys, bestPeerConn)
      ensures pendingSelectedNone == if bestPeerConn.None? then Some(lost) else old(pendingSelectedNone)
    {
      hide WellKept, Best, Advanced;
      var best := SelectBestChain(e);
      bestPeerConn := best;
      if best.None? {
        pendingSelectedNone := Some(lost);
      }
    }

    /** Forget peers silent for twice the threshold. */
    method CleanupStalePeers(e: Env)
      requires Valid()
      modifies this`mode, this`peerTips, this`eligible, this`priority, this`bestPeerConn, this`pendingSelectedNone
      ensures Valid() && Forgot(old(All()), All(), e, Silent(old(Now()), e))
    {
      hide Sane, Best, Without, Advanced, Silent;
      var lost := DropSilent(e);
      if lost.Some? {
        Replace(e, lost.value);
      }
    }

    method DropSilent(e: Env) returns (lost: Option<Conn>)
      requires Valid()
      modifies this`peerTips, this`eligible, this`priority, this`bestPeerConn
      ensures Valid() && Now() == Without(old(Now()), Silent(old(Now()), e))
      ensures lost == if old(bestPeerConn).Some? && old(bestPeerConn).value in Silent(old(Now()), e) then old(bestPeerConn) else None
      ensures bestPeerConn == if lost.Some? then None else old(bestPeerConn)
    {
      hide Sane, Without;
      var s, followed := Now(), bestPeerConn;
      lost := None;
      var todo := peerTips.Keys;
      ghost var gone: set<Conn> := {};
      WithoutNone(s);
      while todo != {}
        invariant Valid() && todo <= s.peers.Keys && Now() == Without(s, gone)
        invariant gone == Silent(s, e) - todo
        invariant lost == if followed.Some? && followed.value in gone then followed else None
        invariant bestPeerConn == if lost.Some? then None else followed
        decreases |todo|
      {
        var c :| c in todo;
        todo := todo - {c};
        if Stale(s, e, c, 2 * s.config.staleThreshold) {
          WithoutTwice(s, gone, c);
          var wasBest := Forget(c);
          if wasBest {
            lost := Some(c);
          }
          gone := gone + {c};
        }
      }
      assert gone == Silent(s, e);
    }

    /** The applied tip moved; only forward movement restarts the stall clock. */
    method SetLocalTip(e: Env, tip: Tip) returns (shouldEvaluate: bool)
      requires Valid()
      modifies this`mode, this`peerTips, this`localTip, this`localTipProgressAt, this`localTipProgressBlock
      ensures Valid() && Transition(LocalTip(e, tip), old(All()), All())
      ensures localTip == tip && bestPeerConn == old(bestPeerConn)
      ensures localTipProgressAt == if tip.number > old(localTip.number) then Some(e.now) else old(localTipProgressAt)
      ensures shouldEvaluate <==> mode != old(mode)
    {
      hide Evaluated, UpdatedTo, Forgot, WellKept, Advanced;
      SamePeersKept(Now(), LocalMoved(Now(), tip, e.now));
      if tip.number > localTipProgressBlock {
        localTipProgressAt := Some(e.now);
      }
      localTipProgressBlock := tip.number;
      localTip := tip;
      shouldEvaluate := AdvanceSelectionMode(e);
    }

    method SetSecurityParam(e: Env, k: nat) returns (shouldEvaluate: bool)
      requires Valid()
      modifies this`mode, this`peerTips, this`securityParam
      ensures Valid() && Transition(SecurityParam(e, k), old(All()), All())
      ensures shouldEvaluate <==> mode != old(mode)
    {
      hide Evaluated, UpdatedTo, Forgot, WellKept, Advanced;
      SamePeersKept(Now(), Now().(k := k));
      securityParam := k;
      shouldEvaluate := AdvanceSelectionMode(e);
    }

    /** Activity without a new tip only refreshes the peer's time. */
    method TouchPeer(e: Env, c: Conn)
      requires Valid()
      modifies this`peerTips
      ensures Valid() && Transition(Touch(e, c), old(All()), All())
      ensures forall d :: d in peerTips <==> d in old(peerTips)
      ensures forall d :: d in peerTips ==>
                peerTips[d] == if d == c && e.live(c) then old(peerTips)[d].(updated := e.now) else old(peerTips)[d]
    {
      hide Evaluated, UpdatedTo, Forgot, WellKept;
      if e.live(c) && c in peerTips {
        KeptOf(Now(), c);
        StoreReport(c, peerTips[c].(updated := e.now));
      }
    }

    /** Make one connection eligible or not, and no other. */
    method SetConnectionEligible(c: Conn, ok: bool)
      requires Valid()
      modifies this`eligible
      ensures Valid() && Transition(Eligible(c, ok), old(All()), All())
      ensures forall d :: IsEligible(Now(), d) == if d == c then ok else IsEligible(old(Now()), d)
    {
      hide Evaluated, UpdatedTo, Forgot, WellKept, WithEligible, IsEligible;
      ghost var s := Now();
      eligible := WithEligible(eligible, c, ok);
      SamePeersKept(s, Now());
      forall d ensures IsEligible(Now(), d) == if d == c then ok else IsEligible(s, d) {
        EligibleSets(s, c, ok, d);
      }
    }

    /** Set one connection's priority, and no other's. */
    method SetConnectionPriority(c: Conn, p: int)
      requires Valid()
      modifies this`priority
      ensures Valid() && Transition(Priority(c, p), old(All()), All())
      ensures forall d :: PriorityOf(Now(), d) == if d == c then p else PriorityOf(old(Now()), d)
    {
      hide Evaluated, UpdatedTo, Forgot, WellKept, WithPriority, PriorityOf;
      ghost var s := Now();
      priority := WithPriority(priority, c, p);
      SamePeersKept(s, Now());
      forall d ensures PriorityOf(Now(), d) == if d == c then p else PriorityOf(s, d) {
        PrioritySets(s, c, p, d);
      }
    }

    // ----- any run -----

    /** Each step is one the relation allows. */
    method Apply(op: Op)
      requires Valid()
      modifies this
      ensures Valid() && Transition(op, old(All()), All())
    {
      hide Sane, Evaluated, UpdatedTo, Forgot, Accepts, IsLeastRecent, Advanced, RolledBack, Compare, WithEligible, WithPriority;
      match op
      case Evaluate(e) => var _ := EvaluateBestPeer(e);
      case Update(e, c, tip, observed, view) => var _, _, _ := UpdatePeerTip(e, c, tip, observed, view);
      case RolledBackBy(e, c, point, tip) => var _ := HandlePeerRollback(e, c, point, tip);
      case Remove(e, c) => var _ := RemovePeer(e, c);
      case Cleanup(e) => CleanupStalePeers(e);
      case Touch(e, c) => TouchPeer(e, c);
      case LocalTip(e, tip) => var _ := SetLocalTip(e, tip);
      case SecurityParam(e, k) => var _ := SetSecurityParam(e, k);
      case Eligible(c, ok) => SetConnectionEligible(c, ok);
      case Priority(c, p) => SetConnectionPriority(c, p);
    }

    /** Any sequence of steps is a run of the relation, so what every run keeps holds of it. */
    method Run(ops: seq<Op>) returns (ghost trace: seq<Full>)
      requires Valid()
      modifies this
      ensures Valid() && IsRun(ops, trace) && trace[0] == old(All()) && trace[|ops|] == All()
    {
      hide Sane, Transition;
      trace := [All()];
      for i := 0 to |ops|
        invariant Valid() && |trace| == i + 1 && trace[0] == old(All()) && trace[i] == All()
        invariant forall a, b :: 0 <= a < i && b == a + 1 ==> Transition(ops[a], trace[a], trace[b])
      {
        Apply(ops[i]);
        trace := trace + [All()];
      }
    }
  }

  lemma SameKept(s: Selection, e: Env, c: Conn)
    requires c in s.peers
    ensures KeepsIncumbent(s, e, c, c)
  {
  }

  function Gone(evicted: Option<Conn>): set<Conn> {
    if evicted.Some? then {evicted.value} else {}
  }

  lemma WithoutKeepsRest(s: Selection, gone: set<Conn>, best: Option<Conn>)
    ensures var t := Without(s, gone); t == s.(peers := t.peers, eligible := t.eligible, priority := t.priority)
    ensures best.Some? && best.value in s.peers && best.value !in gone ==> best.value in Without(s, gone).peers
  {
  }

  lemma WithoutNone(s: Selection)
    ensures Without(s, {}) == s
  {
    assert s.peers - {} == s.peers && s.eligible - {} == s.eligible && s.priority - {} == s.priority;
  }

  lemma WithoutTwice(s: Selection, gone: set<Conn>, c: Conn)
    ensures Without(Without(s, gone), {c}) == Without(s, gone + {c})
  {
    assert s.peers - gone - {c} == s.peers - (gone + {c});
    assert s.eligible - gone - {c} == s.eligible - (gone + {c});
    assert s.priority - gone - {c} == s.priority - (gone + {c});
  }

  lemma SamePeersKept(s: Selection, t: Selection)
    requires WellKept(s) && GateActive(t) == GateActive(s) && t.peers == s.peers
    ensures WellKept(t)
  {
  }

  predicate IsMax(s: Selection, ds: set<Conn>, reference: nat, advertised: nat)
    requires ds <= s.peers.Keys
  {
    && (forall d :: d in ds ==> Number(s, d) <= reference && s.peers[d].tip.number <= advertised)
    && (exists d :: d in ds && Number(s, d) == reference)
    && (exists d :: d in ds && s.peers[d].tip.number == advertised)
  }

  lemma MaxOfOne(s: Selection, c: Conn)
    requires c in s.peers
    ensures IsMax(s, {c}, Number(s, c), s.peers[c].tip.number)
  {
    assert c in {c};
  }

  lemma MaxStep(s: Selection, seen: set<Conn>, reference: nat, advertised: nat, d: Conn)
    requires seen <= s.peers.Keys && d in s.peers
    requires if seen == {} then reference == 0 && advertised == 0 else IsMax(s, seen, reference, advertised)
    ensures IsMax(s, seen + {d}, if Number(s, d) > reference then Number(s, d) else reference,
                  if s.peers[d].tip.number > advertised then s.peers[d].tip.number else advertised)
  {
    assert d in seen + {d};
    if seen != {} {
      var a :| a in seen && Number(s, a) == reference;
      var b :| b in seen && s.peers[b].tip.number == advertised;
      assert a in seen + {d} && b in seen + {d};
    }
  }

  lemma PlausibleByReference(s: Selection, c: Conn, tip: Tip, observed: Tip, reference: nat, advertised: nat)
    requires Referees(s, c) != {} && IsMax(s, Referees(s, c), reference, advertised)
    ensures LeapsAhead(s, c, observed.number) <==> observed.number > SatAdd(reference, s.k)
    ensures ClaimsAhead(s, c, tip.number) <==> tip.number > SatAdd(advertised, s.k)
    ensures (forall d :: d in Referees(s, c) ==> Number(s, d) <= s.local.number) <==> reference <= s.local.number
  {
  }

  lemma AllTracked(s: Selection, e: Env)
    ensures forall c :: Delivered(s, e, c) ==> c in s.peers
  {
  }

  /** Some peer among those visited confirms the candidate from host h. */
  ghost predicate Witnessed(s: Selection, e: Env, c: Conn, visited: set<Conn>, h: nat)
    requires c in s.peers
  {
    exists w :: w in visited && ConfirmsFrom(s, e, c, w, h)
  }

  ghost predicate ConfirmsFrom(s: Selection, e: Env, c: Conn, w: Conn, h: nat)
    requires c in s.peers
  {
    w != c && Present(s, e, w) && w.host == h && Confirms(s.peers[c].points, s.peers[w].points)
  }

  lemma WitnessStep(s: Selection, e: Env, c: Conn, todo: set<Conn>, w: Conn)
    requires c in s.peers && w in s.peers && w !in todo
    ensures forall h :: Witnessed(s, e, c, s.peers.Keys - todo, h) <==>
              Witnessed(s, e, c, s.peers.Keys - (todo + {w}), h) || ConfirmsFrom(s, e, c, w, h)
  {
  }

  lemma HostsAre(s: Selection, e: Env, c: Conn, hosts: set<nat>)
    requires c in s.peers
    requires forall h :: h in hosts <==> Witnessed(s, e, c, s.peers.Keys, h) && h != c.host
    ensures hosts == Hosts(s, e, c)
  {
    forall h ensures h in hosts <==> h in Hosts(s, e, c) {
      if h in hosts {
        var w :| w in s.peers.Keys && ConfirmsFrom(s, e, c, w, h);
        assert Vouches(s, e, c, w);
      }
      if h in Hosts(s, e, c) {
        var w :| w in s.peers && Vouches(s, e, c, w) && w.host == h;
        assert ConfirmsFrom(s, e, c, w, h);
      }
    }
  }
}
