/** What the selector's decisions read (chainselection/selector.go and
    chainselection/genesis_corroboration.go): which peers may be followed, and which of two
    is better. */
module SelectionRules {
  import opened Blocks
  import opened PeerTip
  import opened PeerChainTips

  const MAX_UINT64 := 0xFFFF_FFFF_FFFF_FFFF
  const HEAD_MARGIN := 2
  const STALL_TIMEOUT_MS := 20_000
  const DEFAULT_GENESIS_WINDOW := 6480

  /** A connection: ids are ordered as their printed forms are, host is the remote address. */
  datatype Conn = Conn(id: nat, host: nat)

  datatype Mode = Praos | Genesis

  datatype Comparison = ABetter | BBetter | Equal

  datatype Config = Config(staleThreshold: nat, windowSlots: nat, minCorroborating: nat, maxPeers: nat)

  /** One reading of what lies outside the selector: the clock, which connections are open,
      fetch latencies, and the tiebreak between equally long chains. */
  datatype Env = Env(now: nat, live: Conn -> bool, latency: Conn -> Option<nat>, prefer: (nat, nat) -> bool)

  /** The selector's state as its decisions see it. */
  datatype Selection = Selection(
    config: Config, k: nat, mode: Mode, peers: map<Conn, Peer>, eligible: map<Conn, bool>,
    priority: map<Conn, int>, local: Tip, progressAt: Option<nat>)

  /** Unsigned addition that sticks at the largest value instead of wrapping. */
  function SatAdd(a: nat, b: nat): (r: nat)
    ensures r <= a + b && (a + b <= MAX_UINT64 ==> r == a + b) && (a <= MAX_UINT64 ==> a <= r)
  {
    if a + b > MAX_UINT64 then MAX_UINT64 else a + b
  }

  function Window(s: Selection): nat {
    if s.config.windowSlots > 0 then s.config.windowSlots
    else if s.k > 0 then SatAdd(s.k, SatAdd(s.k, s.k))
    else DEFAULT_GENESIS_WINDOW
  }

  /** The block number the peer has actually delivered. */
  function Number(s: Selection, c: Conn): nat
    requires c in s.peers
  {
    s.peers[c].observed.number
  }

  // ----- who may be followed -----

  predicate IsEligible(s: Selection, c: Conn) {
    c in s.eligible ==> s.eligible[c]
  }

  predicate Stale(s: Selection, e: Env, c: Conn, threshold: nat)
    requires c in s.peers
  {
    e.now - s.peers[c].updated > threshold
  }

  /** Open, eligible and recently heard from. */
  predicate Present(s: Selection, e: Env, c: Conn) {
    c in s.peers && e.live(c) && IsEligible(s, c) && !Stale(s, e, c, s.config.staleThreshold)
  }

  predicate GateActive(s: Selection) {
    s.mode.Genesis? && s.config.minCorroborating > 0
  }

  /** A peer that confirms the candidate's recent chain from another host. */
  ghost predicate Vouches(s: Selection, e: Env, c: Conn, w: Conn)
    requires c in s.peers
  {
    Present(s, e, w) && w.host != c.host && Confirms(s.peers[c].points, s.peers[w].points)
  }

  /** The hosts that vouch for a candidate. */
  ghost function Hosts(s: Selection, e: Env, c: Conn): set<nat>
    requires c in s.peers
  {
    set w | w in s.peers && Vouches(s, e, c, w) :: w.host
  }

  ghost predicate Corroborated(s: Selection, e: Env, c: Conn)
    requires c in s.peers
  {
    GateActive(s) ==> |Hosts(s, e, c)| >= s.config.minCorroborating
  }

  /** More than k blocks behind the local tip. */
  predicate BehindLocal(s: Selection, c: Conn)
    requires c in s.peers
  {
    s.k > 0 && s.local.number > 0 && SatAdd(Number(s, c), s.k) < s.local.number
  }

  /** More than k blocks behind what some eligible, fresh peer has delivered. */
  predicate BehindBest(s: Selection, e: Env, c: Conn)
    requires c in s.peers
  {
    s.k > 0 && exists d :: d in s.peers && Counts(s, e, d) && SatAdd(Number(s, c), s.k) < Number(s, d)
  }

  predicate Counts(s: Selection, e: Env, d: Conn)
    requires d in s.peers
  {
    IsEligible(s, d) && !Stale(s, e, d, s.config.staleThreshold)
  }

  ghost predicate Selectable(s: Selection, e: Env, c: Conn) {
    Present(s, e, c) && !BehindLocal(s, c) && !BehindBest(s, e, c) && Corroborated(s, e, c)
  }

  // ----- what that means, field by field -----

  /** The connection is open, nobody has made it ineligible, and it was heard from no longer ago
      than the threshold. */
  predicate Fit(s: Selection, e: Env, c: Conn) {
    && c in s.peers && e.live(c)
    && !(c in s.eligible && !s.eligible[c])
    && e.now <= s.peers[c].updated + s.config.staleThreshold
  }

  /** At most k blocks behind the local tip and behind every peer that is fit but for being open. */
  predicate KeepsUp(s: Selection, e: Env, c: Conn)
    requires c in s.peers
  {
    s.k > 0 ==>
      && s.local.number <= s.peers[c].observed.number + s.k
      && forall d :: d in s.peers && !(d in s.eligible && !s.eligible[d]) && e.now <= s.peers[d].updated + s.config.staleThreshold ==>
           s.peers[d].observed.number <= s.peers[c].observed.number + s.k
  }

  /** Numbers as the source has them, in 64 bits. */
  predicate Bounded(s: Selection) {
    s.local.number <= MAX_UINT64 && forall c :: c in s.peers ==> s.peers[c].observed.number <= MAX_UINT64
  }

  /** Who may be followed, exactly: fit peers that keep up and, under the gate, are vouched for. */
  lemma SelectableIff(s: Selection, e: Env, c: Conn)
    ensures Selectable(s, e, c) ==> Fit(s, e, c) && KeepsUp(s, e, c) && Corroborated(s, e, c)
    ensures Bounded(s) && Fit(s, e, c) && KeepsUp(s, e, c) && Corroborated(s, e, c) ==> Selectable(s, e, c)
  {
    hide Corroborated;
  }

  /** Who vouches for a candidate, exactly. */
  lemma VouchesIff(s: Selection, e: Env, c: Conn, w: Conn)
    requires c in s.peers
    ensures Vouches(s, e, c, w) <==> Fit(s, e, w) && w.host != c.host && Confirms(s.peers[c].points, s.peers[w].points)
  {
    hide Confirms;
  }

  // ----- which of two is better -----

  function ComparePraosTips(e: Env, a: Peer, b: Peer): Comparison {
    if a.observed.number > b.observed.number then ABetter
    else if b.observed.number > a.observed.number then BBetter
    else if a.observed.point == b.observed.point then Equal
    else if e.prefer(b.view, a.view) then ABetter
    else if e.prefer(a.view, b.view) then BBetter
    else Equal
  }

  function ByLatency(e: Env, a: Conn, b: Conn): Comparison {
    match (e.latency(a), e.latency(b))
    case (Some(x), Some(y)) => if x < y then ABetter else if y < x then BBetter else ById(a, b)
    case _ => ById(a, b)
  }

  function ById(a: Conn, b: Conn): Comparison {
    if a.id < b.id then ABetter else if b.id < a.id then BBetter else Equal
  }

  function PriorityOf(s: Selection, c: Conn): int {
    if c in s.priority then s.priority[c] else 0
  }

  function ComparePraos(s: Selection, e: Env, a: Conn, b: Conn): Comparison
    requires a in s.peers && b in s.peers
  {
    var r := ComparePraosTips(e, s.peers[a], s.peers[b]);
    if r != Equal || s.peers[a].observed != s.peers[b].observed then r
    else if PriorityOf(s, a) > PriorityOf(s, b) then ABetter
    else if PriorityOf(s, b) > PriorityOf(s, a) then BBetter
    else ByLatency(e, a, b)
  }

  function Compare(s: Selection, e: Env, a: Conn, b: Conn): Comparison
    requires a in s.peers && b in s.peers
  {
    var x, y := Density(s.peers[a].slots, Window(s)), Density(s.peers[b].slots, Window(s));
    if s.mode.Genesis? && x > y then ABetter
    else if s.mode.Genesis? && y > x then BBetter
    else ComparePraos(s, e, a, b)
  }

  function DensityOf(s: Selection, c: Conn): nat
    requires c in s.peers
  {
    Density(s.peers[c].slots, Window(s))
  }

  /** Not ahead: by density first in Genesis mode, then by blocks delivered. */
  predicate NotAhead(s: Selection, a: Conn, b: Conn)
    requires a in s.peers && b in s.peers
  {
    if s.mode.Genesis? then
      DensityOf(s, a) < DensityOf(s, b) || (DensityOf(s, a) == DensityOf(s, b) && Number(s, a) <= Number(s, b))
    else Number(s, a) <= Number(s, b)
  }

  /** The better of two peers is not behind the other, and the two orders of comparing agree. */
  lemma BetterIsAhead(s: Selection, e: Env, a: Conn, b: Conn)
    requires a in s.peers && b in s.peers
    ensures if Compare(s, e, a, b) == ABetter then NotAhead(s, b, a) else NotAhead(s, a, b)
    ensures ComparePraosTips(e, s.peers[a], s.peers[b]) == Equal ==> Number(s, a) == Number(s, b)
  {
    hide Density;
  }

  /** Comparing in the other order gives the opposite answer, whenever the tiebreak does not
      prefer each of the two to the other. */
  lemma CompareIsAntisymmetric(s: Selection, e: Env, a: Conn, b: Conn)
    requires a in s.peers && b in s.peers
    requires !(e.prefer(s.peers[a].view, s.peers[b].view) && e.prefer(s.peers[b].view, s.peers[a].view))
    ensures Compare(s, e, a, b) == ABetter <==> Compare(s, e, b, a) == BBetter
    ensures Compare(s, e, a, b) == Equal <==> Compare(s, e, b, a) == Equal
  {
    hide Density;
  }

  /** In Genesis mode the peer with more observed slots in its window is better, whatever else. */
  lemma DenserIsBetter(s: Selection, e: Env, a: Conn, b: Conn)
    requires a in s.peers && b in s.peers && s.mode.Genesis?
    requires Density(s.peers[a].slots, Window(s)) > Density(s.peers[b].slots, Window(s))
    ensures Compare(s, e, a, b) == ABetter && Compare(s, e, b, a) == BBetter
  {
    hide Density;
  }

  /** Between equally long chains that differ, equally dense in Genesis mode, the tiebreak decides. */
  lemma TiebreakDecides(s: Selection, e: Env, a: Conn, b: Conn)
    requires a in s.peers && b in s.peers && Number(s, a) == Number(s, b)
    requires s.peers[a].observed.point != s.peers[b].observed.point && (s.mode.Genesis? ==> DensityOf(s, a) == DensityOf(s, b))
    ensures e.prefer(s.peers[b].view, s.peers[a].view) ==> Compare(s, e, a, b) == ABetter
    ensures !e.prefer(s.peers[b].view, s.peers[a].view) && e.prefer(s.peers[a].view, s.peers[b].view) ==> Compare(s, e, a, b) == BBetter
    ensures !e.prefer(s.peers[b].view, s.peers[a].view) && !e.prefer(s.peers[a].view, s.peers[b].view) ==> Compare(s, e, a, b) == Equal
  {
    hide Density;
  }

  /** At the very same tip and density the choice is between connections: higher priority, then
      lower latency where both are measured, then the smaller id. */
  lemma SameTipByConnection(s: Selection, e: Env, a: Conn, b: Conn)
    requires a in s.peers && b in s.peers && s.peers[a].observed == s.peers[b].observed && DensityOf(s, a) == DensityOf(s, b)
    ensures PriorityOf(s, a) > PriorityOf(s, b) ==> Compare(s, e, a, b) == ABetter
    ensures PriorityOf(s, a) == PriorityOf(s, b) && e.latency(a).Some? && e.latency(b).Some? && e.latency(a).value < e.latency(b).value ==>
              Compare(s, e, a, b) == ABetter
    ensures PriorityOf(s, a) == PriorityOf(s, b) && (e.latency(a).None? || e.latency(b).None? || e.latency(a) == e.latency(b)) ==>
              (Compare(s, e, a, b) == ABetter <==> a.id < b.id)
  {
    hide Density;
  }

  // ----- the anti-flap pin -----

  predicate LocalStalled(s: Selection, e: Env) {
    s.progressAt.Some? && e.now - s.progressAt.value >= STALL_TIMEOUT_MS
  }

  /** Keep a selectable incumbent over this challenger. */
  predicate Pins(s: Selection, e: Env, incumbent: Conn, challenger: Conn)
    requires incumbent in s.peers && challenger in s.peers
  {
    && s.local.number > 0
    && !LocalStalled(s, e)
    && Number(s, challenger) <= SatAdd(Number(s, incumbent), HEAD_MARGIN)
  }

  // ----- leaving Genesis mode -----

  /** A selectable peer that has delivered up to within the window of what it advertises. */
  ghost predicate Delivered(s: Selection, e: Env, c: Conn) {
    Selectable(s, e, c) && SatAdd(s.peers[c].observed.point.slot, Window(s)) >= s.peers[c].tip.point.slot
  }

  /** The local tip is within the window of everything delivered and advertised so far. */
  ghost predicate CaughtUp(s: Selection, e: Env) {
    && (exists c :: Delivered(s, e, c) && s.peers[c].tip.point.slot > 0)
    && (forall c :: Delivered(s, e, c) ==> s.peers[c].tip.point.slot <= SatAdd(s.local.point.slot, Window(s)))
  }

  /** The window: as configured, else three times the security parameter, else 6480 slots. */
  lemma WindowIs(s: Selection)
    ensures s.config.windowSlots > 0 ==> Window(s) == s.config.windowSlots
    ensures s.config.windowSlots == 0 && s.k > 0 && 3 * s.k <= MAX_UINT64 ==> Window(s) == 3 * s.k
    ensures s.config.windowSlots == 0 && s.k == 0 ==> Window(s) == 6480
  {
  }

  /** Genesis mode may be left exactly when some selectable peer has delivered to within the
      window of a tip it advertises, and every such tip is within the window of the local one. */
  lemma CaughtUpIff(s: Selection, e: Env)
    requires forall c :: c in s.peers ==> s.peers[c].tip.point.slot <= MAX_UINT64
    ensures CaughtUp(s, e) <==>
            && (exists c :: && Selectable(s, e, c) && 0 < s.peers[c].tip.point.slot <= s.peers[c].observed.point.slot + Window(s))
            && (forall c :: Selectable(s, e, c) && s.peers[c].tip.point.slot <= s.peers[c].observed.point.slot + Window(s) ==>
                  s.peers[c].tip.point.slot <= s.local.point.slot + Window(s))
  {
    hide Window, BehindLocal, BehindBest, Corroborated;
  }

  // ----- what the state keeps -----

  /** Frontiers in order; the history ends at the delivered tip; hashes are kept in lockstep
      exactly while the gate may need them. */
  predicate PeerKept(p: Peer, gate: bool) {
    && AscendingSlots(p.slots) && AscendingTips(p.history)
    && (p.history != [] ==> p.history[|p.history|-1] == p.observed)
    && (if gate then Lockstep(p) else p.points == [])
  }

  predicate WellKept(s: Selection) {
    forall c :: c in s.peers ==> PeerKept(s.peers[c], GateActive(s))
  }

  lemma KeptPoints(s: Selection, c: Conn)
    requires WellKept(s) && c in s.peers
    ensures AscendingPoints(s.peers[c].points) && AscendingSlots(s.peers[c].slots)
  {
    assert PeerKept(s.peers[c], GateActive(s));
  }

  // ----- what corroboration means -----

  /** Any such witnesses are counted. */
  lemma WitnessesCount(s: Selection, e: Env, c: Conn, ws: seq<Conn>)
    requires c in s.peers
    requires forall i :: 0 <= i < |ws| ==> ws[i] in s.peers && Vouches(s, e, c, ws[i])
    requires forall i, j :: 0 <= i < j < |ws| ==> ws[i].host != ws[j].host
    ensures |ws| <= |Hosts(s, e, c)|
  {
    hide Vouches;
    var hosts := Hosts(s, e, c);
    var i, seen: set<nat> := 0, {};
    while i < |ws|
      invariant i <= |ws| && seen <= hosts && |seen| == i
      invariant forall h :: h in seen ==> exists j :: 0 <= j < i && ws[j].host == h
    {
      assert ws[i].host in hosts;
      seen := seen + {ws[i].host};
      i := i + 1;
    }
    assert hosts == seen + (hosts - seen);
  }

  /** A corroborated peer has that many witnesses on pairwise different hosts, none its own. */
  lemma CorroborationGivesWitnesses(s: Selection, e: Env, c: Conn) returns (ws: seq<Conn>)
    requires c in s.peers
    ensures |ws| == |Hosts(s, e, c)|
    ensures forall i :: 0 <= i < |ws| ==> Vouches(s, e, c, ws[i]) && ws[i].host != c.host
    ensures forall i, j :: 0 <= i < j < |ws| ==> ws[i].host != ws[j].host
  {
    ws := [];
    var left := Hosts(s, e, c);
    while left != {}
      invariant |ws| + |left| == |Hosts(s, e, c)| && left <= Hosts(s, e, c)
      invariant forall i :: 0 <= i < |ws| ==> Vouches(s, e, c, ws[i]) && ws[i].host !in left
      invariant forall i, j :: 0 <= i < j < |ws| ==> ws[i].host != ws[j].host
      decreases |left|
    {
      var h :| h in left;
      var w :| w in s.peers && Vouches(s, e, c, w) && w.host == h;
      ws := ws + [w];
      left := left - {h};
    }
  }
}
