/** What each step of the selector may do (chainselection/selector.go), as a relation on its
    state, and what every run of such steps keeps. */
module SelectionSteps {
  import opened Blocks
  import opened PeerTip
  import opened PeerChainTips
  import opened SelectionRules

  // ----- choosing -----

  /** A best choice among the peers seen so far. */
  ghost predicate Best(s: Selection, e: Env, seen: set<Conn>, best: Option<Conn>) {
    && (best.None? ==> forall c :: c in seen ==> !Selectable(s, e, c))
    && (best.Some? ==> best.value in seen && Selectable(s, e, best.value))
    && (best.Some? ==> forall c :: c in seen && Selectable(s, e, c) ==> NotAhead(s, c, best.value))
  }

  lemma BestStep(s: Selection, e: Env, seen: set<Conn>, best: Option<Conn>, c: Conn)
    requires Best(s, e, seen, best) && c in s.peers
    ensures !Selectable(s, e, c) ==> Best(s, e, seen + {c}, best)
    ensures Selectable(s, e, c) && (best.None? || Compare(s, e, c, best.value) == ABetter) ==> Best(s, e, seen + {c}, Some(c))
    ensures Selectable(s, e, c) && best.Some? && Compare(s, e, c, best.value) != ABetter ==> Best(s, e, seen + {c}, best)
  {
    SelectableIsTracked(s, e);
    if best.Some? { BetterIsAhead(s, e, c, best.value); }
    hide Selectable, Compare, DensityOf;
  }

  lemma SelectableIsTracked(s: Selection, e: Env)
    ensures forall c :: Selectable(s, e, c) ==> c in s.peers
  {
  }

  /** An incumbent keeps its place when the tips tie, when it wins outright, or when pinned. */
  predicate KeepsIncumbent(s: Selection, e: Env, incumbent: Conn, challenger: Conn)
    requires incumbent in s.peers && challenger in s.peers
  {
    || ComparePraosTips(e, s.peers[challenger], s.peers[incumbent]) == Equal
    || Compare(s, e, incumbent, challenger) == ABetter
    || Pins(s, e, incumbent, challenger)
  }

  /** How many blocks the peer followed may trail by. */
  function Slack(s: Selection, e: Env): nat {
    if s.local.number == 0 || LocalStalled(s, e) then 0 else HEAD_MARGIN
  }

  /** Whichever of the two is kept trails no selectable peer by more than the slack. */
  ghost predicate Trails(s: Selection, e: Env, c: Conn)
    requires c in s.peers
  {
    s.mode.Praos? ==> forall d :: Selectable(s, e, d) ==> Number(s, d) <= Number(s, c) + Slack(s, e)
  }

  /** A selectable incumbent that no selectable peer leads by more than the margin. */
  ghost predicate Undisputed(s: Selection, e: Env, incumbent: Option<Conn>) {
    && incumbent.Some? && Selectable(s, e, incumbent.value)
    && s.local.number > 0 && !LocalStalled(s, e)
    && forall c :: Selectable(s, e, c) ==> Number(s, c) <= SatAdd(Number(s, incumbent.value), HEAD_MARGIN)
  }

  lemma BestTrailsNone(s: Selection, e: Env, best: Conn)
    requires Best(s, e, s.peers.Keys, Some(best))
    ensures Trails(s, e, best)
  {
    SelectableIsTracked(s, e);
    hide Selectable;
  }

  lemma BestIsTracked(s: Selection, e: Env, best: Option<Conn>)
    requires Best(s, e, s.peers.Keys, best)
    ensures best.None? <==> forall c :: !Selectable(s, e, c)
    ensures best.Some? ==> best.value in s.peers && Selectable(s, e, best.value)
    ensures forall c :: Selectable(s, e, c) ==> c in s.peers
  {
    SelectableIsTracked(s, e);
    hide Selectable;
  }

  lemma IncumbentOutcome(s: Selection, e: Env, incumbent: Conn, best: Conn)
    requires Best(s, e, s.peers.Keys, Some(best)) && incumbent in s.peers && Selectable(s, e, best)
    ensures Trails(s, e, best)
    ensures KeepsIncumbent(s, e, incumbent, best) ==> Trails(s, e, incumbent)
    ensures Undisputed(s, e, Some(incumbent)) ==> KeepsIncumbent(s, e, incumbent, best)
  {
    BestTrailsNone(s, e, best);
    BetterIsAhead(s, e, incumbent, best);
    BetterIsAhead(s, e, best, incumbent);
    SelectableIsTracked(s, e);
    hide Selectable, Compare, ComparePraosTips;
  }

  // ----- leaving Genesis mode -----

  function HashesDropped(peers: map<Conn, Peer>): map<Conn, Peer> {
    map c | c in peers :: peers[c].(points := [])
  }

  /** Genesis mode is left once the local tip has caught up, hash frontiers with it; it is never
      entered. */
  ghost function Advanced(s: Selection, e: Env): Selection {
    if s.mode.Genesis? && CaughtUp(s, e) then s.(mode := Praos, peers := HashesDropped(s.peers)) else s
  }

  lemma AdvancedIsKept(s: Selection, e: Env)
    requires WellKept(s)
    ensures WellKept(Advanced(s, e)) && Advanced(s, e).peers.Keys == s.peers.Keys && |Advanced(s, e).peers| == |s.peers|
  {
    hide CaughtUp;
    var t := Advanced(s, e);
    assert t.peers.Keys == s.peers.Keys;
    assert |t.peers| == |t.peers.Keys| && |s.peers| == |s.peers.Keys|;
    forall c | c in t.peers ensures PeerKept(t.peers[c], GateActive(t)) {
      assert PeerKept(s.peers[c], GateActive(s));
    }
  }

  // ----- forgetting -----

  /** The selector without some connections. */
  function Without(s: Selection, gone: set<Conn>): Selection {
    s.(peers := s.peers - gone, eligible := s.eligible - gone, priority := s.priority - gone)
  }

  /** Tip, eligibility and priority of those connections go together, and nothing else does. */
  lemma WithoutIff(s: Selection, gone: set<Conn>, c: Conn)
    ensures var t := Without(s, gone);
            && (c in t.peers <==> c in s.peers && c !in gone) && (c in t.peers ==> t.peers[c] == s.peers[c])
            && (c in t.eligible <==> c in s.eligible && c !in gone) && (c in t.eligible ==> t.eligible[c] == s.eligible[c])
            && (c in t.priority <==> c in s.priority && c !in gone) && (c in t.priority ==> t.priority[c] == s.priority[c])
            && t == s.(peers := t.peers, eligible := t.eligible, priority := t.priority)
  {
  }

  lemma WithoutIsKept(s: Selection, gone: set<Conn>)
    requires WellKept(s)
    ensures WellKept(Without(s, gone)) && |Without(s, gone).peers| <= |s.peers|
  {
    hide PeerKept;
    PartIsSmaller(s.peers, gone);
  }

  lemma PartIsSmaller(m: map<Conn, Peer>, gone: set<Conn>)
    ensures |m - gone| <= |m|
    ensures forall c :: c in m - gone <==> c in m && c !in gone
    ensures forall c :: c in m - gone ==> (m - gone)[c] == m[c]
  {
    var n := m - gone;
    assert m.Keys == n.Keys + (m.Keys - n.Keys);
    assert |m| == |m.Keys| && |n| == |n.Keys|;
  }

  /** A tracked peer other than the one followed, before which no other such peer comes. */
  predicate IsLeastRecent(s: Selection, best: Option<Conn>, c: Conn) {
    && c in s.peers && best != Some(c)
    && forall d :: d in s.peers && best != Some(d) ==> !Earlier(s, d, c)
  }

  predicate Earlier(s: Selection, a: Conn, b: Conn)
    requires a in s.peers && b in s.peers
  {
    var p, q := s.peers[a], s.peers[b];
    || p.updated < q.updated
    || (p.updated == q.updated && p.observed.number < q.observed.number)
    || (p.updated == q.updated && p.observed.number == q.observed.number && a.id < b.id)
  }

  /** Who is forgotten first, field by field: heard from longest ago, then fewest blocks delivered,
      then the smallest id. */
  lemma LeastRecentIff(s: Selection, best: Option<Conn>, c: Conn)
    ensures IsLeastRecent(s, best, c) <==>
            && c in s.peers && best != Some(c)
            && forall d :: d in s.peers && best != Some(d) ==>
                 var p, q := s.peers[c], s.peers[d];
                 && p.updated <= q.updated
                 && (p.updated == q.updated ==> p.observed.number <= q.observed.number)
                 && (p.updated == q.updated && p.observed.number == q.observed.number ==> c.id <= d.id)
  {
  }

  /** The peers silent for twice the threshold. */
  function Silent(s: Selection, e: Env): set<Conn> {
    set c | c in s.peers && Stale(s, e, c, 2 * s.config.staleThreshold)
  }

  lemma SilentIff(s: Selection, e: Env, c: Conn)
    ensures c in Silent(s, e) <==> c in s.peers && e.now > s.peers[c].updated + 2 * s.config.staleThreshold
  {
  }

  // ----- reports -----

  /** The peer's state after a report, hashes being kept only while the gate is up. */
  function Reported(s: Selection, c: Conn, tip: Tip, observed: Tip, view: nat, now: nat): Peer {
    var p := if c in s.peers then s.peers[c] else Peer(tip, observed, [], [], [], view, now);
    PeerStep(p, SatAdd(s.k, 1) - 1, Deliver(tip, observed, Window(s), GateActive(s), view, now))
  }

  lemma ReportedIsKept(s: Selection, c: Conn, tip: Tip, observed: Tip, view: nat, now: nat)
    requires WellKept(s)
    ensures PeerKept(Reported(s, c, tip, observed, view, now), GateActive(s))
  {
    var p := if c in s.peers then s.peers[c] else Peer(tip, observed, [], [], [], view, now);
    assert PeerKept(p, GateActive(s));
    DeliverKeepsPeer(p, SatAdd(s.k, 1) - 1, Deliver(tip, observed, Window(s), GateActive(s), view, now));
  }

  /** What the selector remembered of a connection before a report. */
  function Previous(s: Selection, c: Conn, tip: Tip, observed: Tip, view: nat, now: nat): Peer {
    if c in s.peers then s.peers[c] else Peer(tip, observed, [], [], [], view, now)
  }

  /** The peer shows what it reported and when; its frontier keeps what lies less than a window
      before the report; and a report past everything remembered joins the history, of which the
      last k + 1 deliveries stay. */
  lemma ReportedShows(s: Selection, c: Conn, tip: Tip, observed: Tip, view: nat, now: nat)
    requires WellKept(s) && s.k < MAX_UINT64 && observed.point.slot > 0
    ensures var p, r := Previous(s, c, tip, observed, view, now), Reported(s, c, tip, observed, view, now);
            && r.tip == tip && r.observed == observed && r.view == view && r.updated == now
            && (forall x :: x in r.slots <==>
                  x == observed.point.slot || (x in p.slots && 0 < x < observed.point.slot < x + Window(s)))
            && ((forall i :: 0 <= i < |p.history| ==> p.history[i].point.slot < observed.point.slot) ==>
                  r.history == if |p.history| <= s.k then p.history + [observed] else (p.history + [observed])[|p.history|-s.k..])
  {
    var p := Previous(s, c, tip, observed, view, now);
    assert PeerKept(p, GateActive(s));
    hide AscendingSlots, AscendingTips, Lockstep, RecordPoint;
    var q := p.(tip := tip, observed := observed, view := view, updated := now);
    LockstepIgnores(p, q);
    if GateActive(s) { RecordTracks(q, observed.point, Window(s)); } else { RecordUntracked(q, observed.point, Window(s)); }
    RecordKeepsRest(q, observed.point, Window(s), GateActive(s));
  }

  lemma DeliverKeepsPeer(p: Peer, k: nat, op: PeerOp)
    requires op.Deliver? && PeerKept(p, op.track)
    ensures PeerKept(PeerStep(p, k, op), op.track)
  {
    hide AscendingSlots, AscendingTips, Lockstep, RecordPoint, Remember;
    var q := p.(tip := op.tip, observed := op.observed, view := op.view, updated := op.now);
    LockstepIgnores(p, q);
    if op.track { RecordTracks(q, op.observed.point, op.window); } else { RecordUntracked(q, op.observed.point, op.window); }
    RecordKeepsRest(q, op.observed.point, op.window, op.track);
    var r := RecordPoint(q, op.observed.point, op.window, op.track);
    LockstepIgnores(r, r.(history := Remember(r.history, op.observed, k + 1)));
    RememberKeepsOrder(q.history, op.observed, k + 1);
  }

  lemma RollbackKeepsPeer(p: Peer, point: Point, tip: Tip, now: nat, gate: bool)
    requires PeerKept(p, gate)
    ensures PeerKept(RolledBack(p, point, tip, now), gate)
  {
    RollbackTruncates(p, point, tip, now);
    hide AscendingSlots, Lockstep, RollFrontier;
  }

  lemma StoredIsKept(s: Selection, c: Conn, p: Peer)
    requires WellKept(s) && PeerKept(p, GateActive(s))
    ensures WellKept(s.(peers := s.peers[c := p])) && |s.peers[c := p]| <= |s.peers| + 1
    ensures c in s.peers ==> |s.peers[c := p]| == |s.peers|
  {
    hide PeerKept;
    OneMore(s.peers, c, p);
  }

  lemma OneMore(m: map<Conn, Peer>, c: Conn, p: Peer)
    ensures |m[c := p]| <= |m| + 1 && (c in m ==> |m[c := p]| == |m|)
  {
    var n := m[c := p];
    assert n.Keys == m.Keys + {c};
    assert |n| == |n.Keys| && |m| == |m.Keys|;
  }

  // ----- plausibility -----

  /** Whose reports a new report is measured against. */
  function Referees(s: Selection, c: Conn): set<Conn> {
    if c in s.peers then {c} else s.peers.Keys
  }

  /** The delivered block is more than k above everything it is measured against. */
  predicate LeapsAhead(s: Selection, c: Conn, number: nat) {
    Referees(s, c) != {} && forall d :: d in Referees(s, c) ==> number > SatAdd(Number(s, d), s.k)
  }

  predicate ClaimsAhead(s: Selection, c: Conn, number: nat) {
    Referees(s, c) != {} && forall d :: d in Referees(s, c) ==> number > SatAdd(s.peers[d].tip.number, s.k)
  }

  /** Everything it is measured against lies behind the local tip, and it is within 2k of that. */
  predicate CatchesUp(s: Selection, c: Conn, number: nat) {
    && s.local.number > 0 && number <= SatAdd(s.local.number, SatAdd(s.k, s.k))
    && forall d :: d in Referees(s, c) ==> Number(s, d) <= s.local.number
  }

  predicate Plausible(s: Selection, c: Conn, tip: Tip, observed: Tip) {
    s.k > 0 ==>
      && (LeapsAhead(s, c, observed.number) ==> CatchesUp(s, c, observed.number))
      && (ClaimsAhead(s, c, tip.number) ==> s.local.number > 0)
  }

  /** An accepted report raises the highest delivered block by at most k, or stays within 2k
      of the applied local tip. */
  lemma PlausibleIsBounded(s: Selection, c: Conn, tip: Tip, observed: Tip, top: nat)
    requires Plausible(s, c, tip, observed) && s.k > 0 && s.peers != map[]
    requires forall d :: d in s.peers ==> Number(s, d) <= top
    ensures observed.number <= top + s.k || (s.local.number > 0 && observed.number <= s.local.number + 2 * s.k)
  {
    if !LeapsAhead(s, c, observed.number) {
      assert s.peers.Keys != {};
      var d :| d in Referees(s, c) && observed.number <= SatAdd(Number(s, d), s.k);
    }
  }

  /** What a tracked peer's report must satisfy, in plain numbers: at most k blocks past its last
      one, or, with that at or behind the local tip, at most 2k past the local tip; and no
      advertised tip more than k past its last before any block is applied. */
  lemma PlausibleFromKnownIff(s: Selection, c: Conn, tip: Tip, observed: Tip)
    requires c in s.peers && observed.number <= MAX_UINT64 && tip.number <= MAX_UINT64
    ensures var last, local := s.peers[c], s.local.number;
            Plausible(s, c, tip, observed) <==>
            || s.k == 0
            || (&& (|| observed.number <= last.observed.number + s.k
                    || (0 < local && last.observed.number <= local && observed.number <= local + 2 * s.k))
                && (tip.number <= last.tip.number + s.k || 0 < local))
  {
    assert c in Referees(s, c);
  }

  /** A first report is measured against the best of the others, and passes when there are none. */
  lemma PlausibleFromNewIff(s: Selection, c: Conn, tip: Tip, observed: Tip)
    requires c !in s.peers && observed.number <= MAX_UINT64 && tip.number <= MAX_UINT64
    ensures var local := s.local.number;
            Plausible(s, c, tip, observed) <==>
            || s.k == 0 || s.peers == map[]
            || (&& (|| (exists d :: d in s.peers && observed.number <= s.peers[d].observed.number + s.k)
                    || (0 < local && observed.number <= local + 2 * s.k && forall d :: d in s.peers ==> s.peers[d].observed.number <= local))
                && ((exists d :: d in s.peers && tip.number <= s.peers[d].tip.number + s.k) || 0 < local))
  {
    assert s.peers.Keys == {} <==> s.peers == map[];
  }

  // ----- steps -----

  /** The selector's state, the peer it follows, and the loss it has yet to announce. */
  datatype Full = Full(sel: Selection, best: Option<Conn>, lost: Option<Conn>)

  datatype Op =
    | Evaluate(e: Env)
    | Update(e: Env, c: Conn, tip: Tip, observed: Tip, view: nat)
    | RolledBackBy(e: Env, c: Conn, point: Point, tip: Tip)
    | Remove(e: Env, c: Conn)
    | Cleanup(e: Env)
    | Touch(e: Env, c: Conn)
    | LocalTip(e: Env, tip: Tip)
    | SecurityParam(e: Env, k: nat)
    | Eligible(c: Conn, ok: bool)
    | Priority(c: Conn, p: int)

  /** The peer followed is a best one, or the incumbent, a selectable one, kept over a best one. */
  ghost predicate Chosen(s: Full, t: Full, e: Env) {
    exists best :: Best(t.sel, e, t.sel.peers.Keys, Some(best)) && best in t.sel.peers && Prevails(s, t, e, best)
  }

  ghost predicate Prevails(s: Full, t: Full, e: Env, best: Conn)
    requires best in t.sel.peers
  {
    t.best == if s.best.Some? && s.best.value in t.sel.peers && Selectable(t.sel, e, s.best.value)
                 && KeepsIncumbent(t.sel, e, s.best.value, best) then s.best else Some(best)
  }

  /** When an incumbent is kept over a challenger, field by field: at the same block, or at equally
      many blocks with neither preferred; or when it is the better one anyway; or when a block has
      been applied, the local tip has moved within twenty seconds, and the challenger leads by at
      most two blocks. */
  lemma KeepsIncumbentIff(s: Selection, e: Env, incumbent: Conn, challenger: Conn)
    requires incumbent in s.peers && challenger in s.peers && Bounded(s)
    ensures var p, q := s.peers[incumbent], s.peers[challenger];
            KeepsIncumbent(s, e, incumbent, challenger) <==>
            || (&& p.observed.number == q.observed.number
                && (p.observed.point == q.observed.point || (!e.prefer(p.view, q.view) && !e.prefer(q.view, p.view))))
            || Compare(s, e, incumbent, challenger) == ABetter
            || (s.local.number > 0 && !StalledFor20s(s, e) && q.observed.number <= p.observed.number + 2)
  {
    hide Compare;
  }

  /** An evaluation. None is followed exactly when none is selectable. The one followed is
      selectable; in Praos mode it has delivered at most two blocks fewer than the longest
      selectable peer, and none fewer before any block is applied or once the local tip stalls.
      A change is to a best peer; a selectable incumbent that no selectable peer leads by more
      than two blocks stays. Losing the incumbent for no one is announced. */
  ghost predicate Evaluated(s: Full, t: Full, e: Env) {
    && t.sel == Advanced(s.sel, e)
    && (t.best.None? <==> forall c :: !Selectable(t.sel, e, c))
    && (t.best.Some? ==> Selectable(t.sel, e, t.best.value) && t.best.value in t.sel.peers && Trails(t.sel, e, t.best.value))
    && (t.best != s.best ==> Best(t.sel, e, t.sel.peers.Keys, t.best))
    && (t.best.Some? ==> Chosen(s, t, e))
    && (Undisputed(t.sel, e, s.best) ==> t.best == s.best)
    && t.lost == (if t.best.None? && s.best.Some? then s.best else s.lost)
  }

  /** A place can be made for a connection. */
  predicate HasRoom(s: Full, c: Conn) {
    || c in s.sel.peers || |s.sel.peers| < s.sel.config.maxPeers
    || exists d :: d in s.sel.peers && s.best != Some(d)
  }

  /** Who makes place: no one while there is room, else a least recent peer. */
  ghost predicate MakesRoom(s: Full, c: Conn, gone: set<Conn>) {
    if c in s.sel.peers || |s.sel.peers| < s.sel.config.maxPeers then gone == {}
    else exists d :: gone == {d} && IsLeastRecent(s.sel, s.best, d)
  }

  ghost predicate Accepts(s: Full, e: Env, c: Conn, tip: Tip, observed: Tip) {
    e.live(c) && Plausible(s.sel, c, tip, observed) && HasRoom(s, c)
  }

  /** The state with a peer's report in it and those that made place for it gone. */
  function Stored(s: Selection, gone: set<Conn>, c: Conn, p: Peer): Selection {
    var t := Without(s, gone);
    t.(peers := t.peers[c := p])
  }

  ghost predicate UpdatedTo(s: Full, t: Full, e: Env, c: Conn, tip: Tip, observed: Tip, view: nat) {
    if Accepts(s, e, c, tip, observed) then
      && t == s.(sel := t.sel)
      && exists gone :: MakesRoom(s, c, gone) && t.sel == Advanced(Stored(s.sel, gone, c, Reported(s.sel, c, tip, observed, view, e.now)), e)
    else t == s
  }

  /** Forgetting connections: if the one followed is among them, the best of the rest takes its
      place at once, or its loss is announced. */
  ghost predicate Forgot(s: Full, t: Full, e: Env, gone: set<Conn>) {
    if s.best.Some? && s.best.value in gone then
      && t.sel == Advanced(Without(s.sel, gone), e)
      && Best(t.sel, e, t.sel.peers.Keys, t.best)
      && t.lost == (if t.best.None? then s.best else s.lost)
    else t == s.(sel := Without(s.sel, gone))
  }

  function LocalMoved(s: Selection, tip: Tip, now: nat): Selection {
    s.(local := tip, progressAt := if tip.number > s.local.number then Some(now) else s.progressAt)
  }

  /** Eligible and zero are the defaults, and are not stored. */
  function WithEligible(m: map<Conn, bool>, c: Conn, ok: bool): map<Conn, bool> {
    if ok then m - {c} else m[c := false]
  }

  function WithPriority(m: map<Conn, int>, c: Conn, p: int): map<Conn, int> {
    if p == 0 then m - {c} else m[c := p]
  }

  /** Only the connection named changes, to what was asked. */
  lemma EligibleSets(s: Selection, c: Conn, ok: bool, d: Conn)
    ensures IsEligible(s.(eligible := WithEligible(s.eligible, c, ok)), d) == if d == c then ok else IsEligible(s, d)
  {
  }

  lemma PrioritySets(s: Selection, c: Conn, p: int, d: Conn)
    ensures PriorityOf(s.(priority := WithPriority(s.priority, c, p)), d) == if d == c then p else PriorityOf(s, d)
  {
  }

  ghost predicate Transition(op: Op, s: Full, t: Full) {
    match op
    case Evaluate(e) => Evaluated(s, t, e)
    case Update(e, c, tip, observed, view) => UpdatedTo(s, t, e, c, tip, observed, view)
    case RolledBackBy(e, c, point, tip) =>
      t == if c in s.sel.peers then s.(sel := s.sel.(peers := s.sel.peers[c := RolledBack(s.sel.peers[c], point, tip, e.now)])) else s
    case Remove(e, c) => Forgot(s, t, e, {c})
    case Cleanup(e) => Forgot(s, t, e, Silent(s.sel, e))
    case Touch(e, c) =>
      t == if e.live(c) && c in s.sel.peers then s.(sel := s.sel.(peers := s.sel.peers[c := s.sel.peers[c].(updated := e.now)])) else s
    case LocalTip(e, tip) => t == s.(sel := Advanced(LocalMoved(s.sel, tip, e.now), e))
    case SecurityParam(e, k) => t == s.(sel := Advanced(s.sel.(k := k), e))
    case Eligible(c, ok) => t == s.(sel := s.sel.(eligible := WithEligible(s.sel.eligible, c, ok)))
    case Priority(c, p) => t == s.(sel := s.sel.(priority := WithPriority(s.sel.priority, c, p)))
  }

  /** How long ago the applied tip last moved forward, in milliseconds, is what stalls it. */
  predicate StalledFor20s(s: Selection, e: Env) {
    s.progressAt.Some? && s.progressAt.value + 20_000 <= e.now
  }

  /** After an evaluation in Praos mode, in plain numbers: the peer followed has delivered at most
      two blocks fewer than any selectable peer, and none fewer before any block is applied or
      once the local tip has stood still for twenty seconds. */
  lemma FollowedTrailsByTwo(s: Full, t: Full, e: Env, d: Conn)
    requires Evaluated(s, t, e) && t.best.Some? && t.sel.mode.Praos? && Selectable(t.sel, e, d)
    ensures t.best.value in t.sel.peers && d in t.sel.peers
    ensures t.sel.peers[d].observed.number <= t.sel.peers[t.best.value].observed.number + 2
    ensures t.sel.local.number == 0 || StalledFor20s(t.sel, e) ==>
              t.sel.peers[d].observed.number <= t.sel.peers[t.best.value].observed.number
  {
    hide BehindLocal, BehindBest, Corroborated, Advanced, Best, Undisputed;
  }

  /** And a selectable incumbent stays while some block is applied, the local tip has moved within
      twenty seconds, and no selectable peer leads it by more than two blocks. */
  lemma IncumbentStays(s: Full, t: Full, e: Env)
    requires Evaluated(s, t, e) && s.best.Some? && Selectable(t.sel, e, s.best.value) && Bounded(t.sel)
    requires t.sel.local.number > 0 && !StalledFor20s(t.sel, e)
    requires forall d :: Selectable(t.sel, e, d) ==> t.sel.peers[d].observed.number <= t.sel.peers[s.best.value].observed.number + 2
    ensures t.best == s.best
  {
    hide BehindLocal, BehindBest, Corroborated, Advanced, Best, Trails;
    forall c | Selectable(t.sel, e, c) ensures Number(t.sel, c) <= SatAdd(Number(t.sel, s.best.value), HEAD_MARGIN) {
      assert t.sel.peers[c].observed.number <= t.sel.peers[s.best.value].observed.number + 2;
    }
  }

  // ----- what every run keeps -----

  /** Every tracked peer is in order, their number is bounded, and the peer followed is tracked. */
  ghost predicate Sane(s: Full) {
    && WellKept(s.sel)
    && 0 < s.sel.config.maxPeers && |s.sel.peers| <= s.sel.config.maxPeers
    && (s.best.Some? ==> s.best.value in s.sel.peers)
  }

  /** Settings stay, and Genesis mode is never re-entered. */
  predicate Forward(s: Full, t: Full) {
    t.sel.config == s.sel.config && (s.sel.mode.Praos? ==> t.sel.mode.Praos?)
  }

  lemma AdvancedIsSane(s: Full, e: Env)
    requires Sane(s)
    ensures Sane(s.(sel := Advanced(s.sel, e)))
  {
    hide WellKept, CaughtUp;
    AdvancedIsKept(s.sel, e);
  }

  lemma UpdateIsSane(s: Full, t: Full, e: Env, c: Conn, tip: Tip, observed: Tip, view: nat)
    requires Sane(s) && UpdatedTo(s, t, e, c, tip, observed, view)
    ensures Sane(t) && Forward(s, t)
  {
    hide WellKept, CaughtUp, Plausible, Reported, PeerKept;
    if Accepts(s, e, c, tip, observed) {
      var p := Reported(s.sel, c, tip, observed, view, e.now);
      var gone :| MakesRoom(s, c, gone) && t.sel == Advanced(Stored(s.sel, gone, c, p), e);
      ReportedIsKept(s.sel, c, tip, observed, view, e.now);
      StoredIsSane(s, c, gone, p);
      AdvancedIsSane(s.(sel := Stored(s.sel, gone, c, p)), e);
    }
  }

  lemma StoredIsSane(s: Full, c: Conn, gone: set<Conn>, p: Peer)
    requires Sane(s) && MakesRoom(s, c, gone) && PeerKept(p, GateActive(s.sel))
    ensures Sane(s.(sel := Stored(s.sel, gone, c, p)))
  {
    hide WellKept, PeerKept, Earlier;
    WithoutIsKept(s.sel, gone);
    var u := Without(s.sel, gone);
    StoredIsKept(u, c, p);
    if gone == {} {
      assert u.peers == s.sel.peers;
    } else {
      var d :| gone == {d} && IsLeastRecent(s.sel, s.best, d);
      OneFewer(s.sel.peers, d);
    }
  }

  lemma OneFewer(m: map<Conn, Peer>, d: Conn)
    requires d in m
    ensures |m - {d}| == |m| - 1
  {
    var n := m - {d};
    assert m.Keys == n.Keys + {d};
    assert |m| == |m.Keys| && |n| == |n.Keys|;
  }

  lemma ForgettingIsSane(s: Full, t: Full, e: Env, gone: set<Conn>)
    requires Sane(s) && Forgot(s, t, e, gone)
    ensures Sane(t) && Forward(s, t)
  {
    hide WellKept, CaughtUp, Best;
    WithoutIsKept(s.sel, gone);
    if s.best.Some? && s.best.value in gone {
      AdvancedIsKept(Without(s.sel, gone), e);
      BestIsTracked(t.sel, e, t.best);
    }
  }

  lemma PeerChangeIsSane(s: Full, c: Conn, p: Peer)
    requires Sane(s) && c in s.sel.peers && PeerKept(p, GateActive(s.sel))
    ensures Sane(s.(sel := s.sel.(peers := s.sel.peers[c := p])))
  {
    hide WellKept, PeerKept;
    StoredIsKept(s.sel, c, p);
  }

  lemma KeptOf(s: Selection, c: Conn)
    requires WellKept(s) && c in s.peers
    ensures PeerKept(s.peers[c], GateActive(s))
  {
  }

  lemma TransitionIsSane(op: Op, s: Full, t: Full)
    requires Sane(s) && Transition(op, s, t)
    ensures Sane(t) && Forward(s, t)
  {
    hide CaughtUp, PeerKept, RolledBack, Best, Forgot, UpdatedTo, Trails, Undisputed, Selectable, WithEligible, WithPriority;
    match op
    case Evaluate(e) => AdvancedIsKept(s.sel, e);
    case Update(e, c, tip, observed, view) => UpdateIsSane(s, t, e, c, tip, observed, view);
    case RolledBackBy(e, c, point, tip) =>
      if c in s.sel.peers {
        KeptOf(s.sel, c);
        RollbackKeepsPeer(s.sel.peers[c], point, tip, e.now, GateActive(s.sel));
        PeerChangeIsSane(s, c, RolledBack(s.sel.peers[c], point, tip, e.now));
      }
    case Remove(e, c) => ForgettingIsSane(s, t, e, {c});
    case Cleanup(e) => ForgettingIsSane(s, t, e, Silent(s.sel, e));
    case Touch(e, c) =>
      if e.live(c) && c in s.sel.peers { TouchIsSane(s, c, e.now); }
    case LocalTip(e, tip) =>
      assert WellKept(LocalMoved(s.sel, tip, e.now));
      AdvancedIsSane(s.(sel := LocalMoved(s.sel, tip, e.now)), e);
    case SecurityParam(e, k) =>
      assert WellKept(s.sel.(k := k));
      AdvancedIsSane(s.(sel := s.sel.(k := k)), e);
    case Eligible(c, ok) =>
    case Priority(c, p) =>
  }

  lemma TouchIsSane(s: Full, c: Conn, now: nat)
    requires Sane(s) && c in s.sel.peers
    ensures Sane(s.(sel := s.sel.(peers := s.sel.peers[c := s.sel.peers[c].(updated := now)])))
  {
    hide WellKept;
    KeptOf(s.sel, c);
    PeerChangeIsSane(s, c, s.sel.peers[c].(updated := now));
  }

  /** A run: consecutive states related by the steps taken. */
  ghost predicate IsRun(ops: seq<Op>, trace: seq<Full>) {
    |trace| == |ops| + 1 && forall i, j :: 0 <= i < |ops| && j == i + 1 ==> Transition(ops[i], trace[i], trace[j])
  }

  /** The reading of the outside world a step was taken with. */
  function Reading(op: Op): Option<Env> {
    match op
    case Evaluate(e) => Some(e)
    case Update(e, _, _, _, _) => Some(e)
    case RolledBackBy(e, _, _, _) => Some(e)
    case Remove(e, _) => Some(e)
    case Cleanup(e) => Some(e)
    case Touch(e, _) => Some(e)
    case LocalTip(e, _) => Some(e)
    case SecurityParam(e, _) => Some(e)
    case Eligible(_, _) => None
    case Priority(_, _) => None
  }

  /** Over every run: the frontiers stay ordered and, while the gate is up, in lockstep; at most
      the configured number of peers is tracked and the one followed is among them; Genesis mode
      is never re-entered; and while the gate is up every step that selects a peer, whether an
      evaluation or the replacement of a lost one, selects one that enough peers on other,
      pairwise different hosts vouch for. Gate or not, the one selected is open, eligible, heard
      from recently and at most k blocks behind. */
  lemma {:induction false} RunIsSound(ops: seq<Op>, trace: seq<Full>, n: nat)
    requires IsRun(ops, trace) && Sane(trace[0]) && n < |trace|
    ensures Sane(trace[n]) && Forward(trace[0], trace[n])
    ensures n > 0 && Selects(ops[n-1], trace[n-1], trace[n]) ==>
              && Reading(ops[n-1]).Some? && Vouched(trace[n].sel, Reading(ops[n-1]).value, trace[n].best.value)
              && Fit(trace[n].sel, Reading(ops[n-1]).value, trace[n].best.value)
              && KeepsUp(trace[n].sel, Reading(ops[n-1]).value, trace[n].best.value)
  {
    hide Sane, Transition, Vouched, Fit, KeepsUp;
    if n > 0 {
      RunIsSound(ops, trace, n - 1);
      TransitionIsSane(ops[n-1], trace[n-1], trace[n]);
      if Selects(ops[n-1], trace[n-1], trace[n]) { SelectionVouches(ops[n-1], trace[n-1], trace[n]); }
    }
  }

  /** A step that ends with a peer selected: an evaluation, or any change of the one followed. */
  predicate Selects(op: Op, s: Full, t: Full) {
    t.best.Some? && (op.Evaluate? || t.best != s.best)
  }

  /** In every state of every run, a peer whose blocks may reach the ledger while the gate is up
      is one that enough peers on other, pairwise different hosts vouch for. */
  lemma IngressIsSound(ops: seq<Op>, trace: seq<Full>, n: nat, e: Env, c: Conn)
    requires IsRun(ops, trace) && Sane(trace[0]) && n < |trace| && MayApply(trace[n].sel, e, c)
    ensures Sane(trace[n]) && Vouched(trace[n].sel, e, c)
  {
    hide Sane, Transition, Hosts;
    RunIsSound(ops, trace, n);
    if GateActive(trace[n].sel) {
      var ws := CorroborationGivesWitnesses(trace[n].sel, e, c);
      assert Witnesses(trace[n].sel, e, c, ws);
    }
  }

  /** Who may apply blocks: anyone outside the gate, inside it known and corroborated peers. */
  ghost predicate MayApply(s: Selection, e: Env, c: Conn) {
    GateActive(s) ==> c in s.peers && |Hosts(s, e, c)| >= s.config.minCorroborating
  }

  /** Under the gate, at least the configured number of witnesses on different hosts. */
  ghost predicate Vouched(s: Selection, e: Env, c: Conn) {
    GateActive(s) ==> c in s.peers && exists ws: seq<Conn> :: |ws| >= s.config.minCorroborating && Witnesses(s, e, c, ws)
  }

  ghost predicate Witnesses(s: Selection, e: Env, c: Conn, ws: seq<Conn>)
    requires c in s.peers
  {
    && (forall i :: 0 <= i < |ws| ==> Vouches(s, e, c, ws[i]))
    && (forall i, j :: 0 <= i < j < |ws| ==> ws[i].host != ws[j].host)
  }

  lemma SelectableIsVouched(s: Selection, e: Env, c: Conn)
    requires Selectable(s, e, c)
    ensures Vouched(s, e, c)
  {
    hide Hosts;
    if GateActive(s) {
      var ws := CorroborationGivesWitnesses(s, e, c);
      assert Witnesses(s, e, c, ws);
    }
  }

  lemma SelectionVouches(op: Op, s: Full, t: Full)
    requires Transition(op, s, t) && Selects(op, s, t)
    ensures Reading(op).Some? && Vouched(t.sel, Reading(op).value, t.best.value)
    ensures Fit(t.sel, Reading(op).value, t.best.value) && KeepsUp(t.sel, Reading(op).value, t.best.value)
  {
    SelectedIsSelectable(op, s, t);
    SelectableIsVouched(t.sel, Reading(op).value, t.best.value);
    SelectableIff(t.sel, Reading(op).value, t.best.value);
  }

  lemma SelectedIsSelectable(op: Op, s: Full, t: Full)
    requires Transition(op, s, t) && Selects(op, s, t)
    ensures Reading(op).Some? && Selectable(t.sel, Reading(op).value, t.best.value)
  {
    hide Undisputed, Trails, Selectable, Advanced, Without, WithEligible, WithPriority, RolledBack, Accepts;
    match op
    case Evaluate(e) =>
    case Remove(e, c) =>
    case Cleanup(e) =>
    case _ =>
  }

  // ----- eligibility over runs -----

  predicate MadeIneligible(s: Selection, c: Conn) {
    c in s.eligible && !s.eligible[c]
  }

  /** A step that neither makes c eligible nor forgets it. */
  predicate Spares(op: Op, s: Full, t: Full, c: Conn) {
    && !(op.Eligible? && op.c == c && op.ok)
    && !(op.Remove? && op.c == c)
    && (c in s.sel.peers ==> c in t.sel.peers)
  }

  lemma WithoutOthers(s: Selection, gone: set<Conn>, c: Conn)
    requires MadeIneligible(s, c) && c !in gone
    ensures MadeIneligible(Without(s, gone), c)
  {
  }

  lemma AdvancedKeepsEligible(s: Selection, e: Env)
    ensures Advanced(s, e).eligible == s.eligible && Advanced(s, e).peers.Keys == s.peers.Keys
  {
    hide CaughtUp;
  }

  lemma SparedStaysIneligible(op: Op, s: Full, t: Full, c: Conn)
    requires Transition(op, s, t) && Spares(op, s, t, c) && MadeIneligible(s.sel, c)
    ensures MadeIneligible(t.sel, c)
  {
    hide CaughtUp, RolledBack, Trails, Undisputed, Selectable, Best, Reported, Plausible, Without;
    match op
    case Evaluate(e) => AdvancedKeepsEligible(s.sel, e);
    case Update(e, d, tip, observed, view) => SparedByUpdate(s, t, e, d, tip, observed, view, c);
    case Remove(e, d) => SparedByForgetting(s, t, e, {d}, c);
    case Cleanup(e) =>
      if c in Silent(s.sel, e) { WithoutDrops(s.sel, Silent(s.sel, e), c); AdvancedKeepsEligible(Without(s.sel, Silent(s.sel, e)), e); }
      SparedByForgetting(s, t, e, Silent(s.sel, e), c);
    case LocalTip(e, tip) => AdvancedKeepsEligible(LocalMoved(s.sel, tip, e.now), e);
    case SecurityParam(e, k) => AdvancedKeepsEligible(s.sel.(k := k), e);
    case Eligible(d, ok) =>
    case _ =>
  }

  lemma WithoutDrops(s: Selection, gone: set<Conn>, c: Conn)
    requires c in gone
    ensures c !in Without(s, gone).peers
  {
  }

  lemma SparedByForgetting(s: Full, t: Full, e: Env, gone: set<Conn>, c: Conn)
    requires Forgot(s, t, e, gone) && MadeIneligible(s.sel, c) && c !in gone
    ensures MadeIneligible(t.sel, c)
  {
    hide Best, Advanced, Without;
    WithoutOthers(s.sel, gone, c);
    AdvancedKeepsEligible(Without(s.sel, gone), e);
  }

  lemma SparedByUpdate(s: Full, t: Full, e: Env, d: Conn, tip: Tip, observed: Tip, view: nat, c: Conn)
    requires UpdatedTo(s, t, e, d, tip, observed, view) && MadeIneligible(s.sel, c) && (c in s.sel.peers ==> c in t.sel.peers)
    ensures MadeIneligible(t.sel, c)
  {
    hide Advanced, Plausible, Reported, Earlier, Without;
    if Accepts(s, e, d, tip, observed) {
      var p := Reported(s.sel, d, tip, observed, view, e.now);
      var gone :| MakesRoom(s, d, gone) && t.sel == Advanced(Stored(s.sel, gone, d, p), e);
      AdvancedKeepsEligible(Stored(s.sel, gone, d, p), e);
      if c in gone { WithoutDrops(s.sel, gone, c); } else { WithoutOthers(s.sel, gone, c); }
    }
  }

  /** Once made ineligible, a peer is not selected by any step until it is made eligible again or
      forgotten. */
  lemma {:induction false} IneligibleIsNotSelected(ops: seq<Op>, trace: seq<Full>, from: nat, n: nat, c: Conn)
    requires IsRun(ops, trace) && from < n < |trace| && ops[from] == Eligible(c, false)
    requires forall i, j :: from < i < n && j == i + 1 ==> Spares(ops[i], trace[i], trace[j], c)
    ensures MadeIneligible(trace[n].sel, c)
    ensures Selects(ops[n-1], trace[n-1], trace[n]) ==> trace[n].best != Some(c)
  {
    hide MadeIneligible, Spares, Transition;
    if n == from + 1 {
      NowIneligible(trace[from], trace[n], c);
    } else {
      IneligibleIsNotSelected(ops, trace, from, n - 1, c);
      SparedStaysIneligible(ops[n-1], trace[n-1], trace[n], c);
    }
    if Selects(ops[n-1], trace[n-1], trace[n]) && trace[n].best == Some(c) {
      SelectionVouches(ops[n-1], trace[n-1], trace[n]);
      FitIsEligible(trace[n].sel, Reading(ops[n-1]).value, c);
    }
  }

  lemma NowIneligible(s: Full, t: Full, c: Conn)
    requires Transition(Eligible(c, false), s, t)
    ensures MadeIneligible(t.sel, c)
  {
  }

  lemma FitIsEligible(s: Selection, e: Env, c: Conn)
    ensures Fit(s, e, c) ==> !MadeIneligible(s, c)
  {
  }
}
