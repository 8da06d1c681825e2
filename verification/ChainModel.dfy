/** What the primary chain looks like from outside: block content and a queue of headers
    waiting on its tip, and what each operation decides and leaves behind. */
module ChainModel {
  import opened Blocks

  const DEFAULT_MAX_QUEUED_HEADERS := 10_000
  const ERA_BYRON := 0
  const TWO_64 := 0x1_0000_0000_0000_0000

  datatype Error =
    | QueueFull | NotFitTip | NumberNotContiguous | NotMatchHeader | InvalidRawBlock
    | NotConfigured | NotFound | NotOnChain | ExceedsSecurityParam | BeyondForkBuffer

  datatype Result<+T> = Ok(value: T) | Err(error: Error)

  datatype View = View(blocks: seq<Block>, headers: seq<Header>)

  // ----- well-formedness -----

  /** The chain with the queued headers put on top of it. */
  function Extended(v: View): (r: seq<Block>)
    ensures |r| == |v.blocks| + |v.headers|
    ensures forall i :: 0 <= i < |r| ==>
              r[i] == if i < |v.blocks| then v.blocks[i] else Block(i + 1, v.headers[i - |v.blocks|])
  {
    seq(|v.blocks| + |v.headers|, i requires 0 <= i < |v.blocks| + |v.headers| =>
      if i < |v.blocks| then v.blocks[i] else Block(i + 1, v.headers[i - |v.blocks|]))
  }

  /** Blocks are linked at indices 1..n, and the queued headers are a linked extension of the tip. */
  ghost predicate WellFormed(w: World, v: View) {
    Chained(w, Extended(v))
  }

  /** The header the next queued header must name as its parent, if any. */
  function HeaderTip(v: View): Option<Header> {
    if v.headers != [] then Some(v.headers[|v.headers|-1])
    else if v.blocks != [] then Some(v.blocks[|v.blocks|-1].header)
    else None
  }

  lemma BlocksChained(w: World, v: View)
    requires WellFormed(w, v)
    ensures Chained(w, v.blocks)
  {
    ChainedPrefix(w, Extended(v), |v.blocks|);
    assert Extended(v)[..|v.blocks|] == v.blocks;
  }

  lemma HeaderLegit(w: World, v: View, i: nat)
    requires WellFormed(w, v) && i < |v.headers|
    ensures Legit(w, v.headers[i])
  {
    assert Sound(w, Extended(v)[|v.blocks| + i]);
  }

  lemma HeaderSlotsIncrease(w: World, v: View, i: nat, j: nat)
    requires WellFormed(w, v) && i < j < |v.headers|
    ensures v.headers[i].slot < v.headers[j].slot
  {
    SlotsIncrease(w, Extended(v), |v.blocks| + i, |v.blocks| + j);
  }

  // ----- adding headers and blocks -----

  /** Block numbers follow their parent's, modulo the 64-bit width they are kept in. */
  predicate Contiguous(era: nat, number: nat, parent: nat) {
    number == (parent + 1) % TWO_64 || (era == ERA_BYRON && number == parent)
  }

  function MaxQueuedHeaders(k: int): nat {
    if k > 0 && 2 * k > DEFAULT_MAX_QUEUED_HEADERS then 2 * k else DEFAULT_MAX_QUEUED_HEADERS
  }

  predicate Follows(h: Header, parent: Option<Header>) {
    parent.Some? ==> h.prevHash == parent.value.hash && Contiguous(h.era, h.number, parent.value.number)
  }

  function FollowError(h: Header, parent: Option<Header>): Error {
    if parent.Some? && h.prevHash == parent.value.hash then NumberNotContiguous else NotFitTip
  }

  function BlockTip(v: View): Option<Header> {
    HeaderTip(v.(headers := []))
  }

  /** What adding a block decides: fetched blocks must be the oldest queued header, locally
      forged ones only need to fit the tip. */
  function AddVerdict(v: View, h: Header, matchPending: bool): Option<Error> {
    if matchPending && v.headers != [] && h.hash != v.headers[0].hash then Some(NotMatchHeader)
    else if !Follows(h, BlockTip(v)) then Some(FollowError(h, BlockTip(v)))
    else None
  }

  function AfterAdd(v: View, h: Header, matchPending: bool): View {
    View(v.blocks + [Block(|v.blocks| + 1, h)],
         if matchPending && v.headers != [] then v.headers[1..] else [])
  }

  /** What a caller may offer: a header the network can produce, and on an empty chain the
      one first block. */
  ghost predicate MayOffer(w: World, h: Header, parent: Option<Header>) {
    Legit(w, h) && (parent.None? ==> w.index(h.hash) == 1)
  }

  lemma ExtendedAfterQueue(v: View, h: Header)
    ensures Extended(v.(headers := v.headers + [h])) == Extended(v) + [Block(|Extended(v)| + 1, h)]
  {
  }

  /** A block taken for its queued header only moves the boundary between the two. */
  lemma ExtendedAfterMatch(v: View)
    requires v.headers != []
    ensures Extended(AfterAdd(v, v.headers[0], true)) == Extended(v)
  {
  }

  lemma ExtendedWithoutQueue(c: seq<Block>)
    ensures Extended(View(c, [])) == c
  {
  }

  lemma HeaderKeepsWellFormed(w: World, v: View, h: Header)
    requires WellFormed(w, v) && MayOffer(w, h, HeaderTip(v))
    requires HeaderTip(v).Some? ==> h.prevHash == HeaderTip(v).value.hash
    ensures WellFormed(w, v.(headers := v.headers + [h]))
  {
    var e := Extended(v);
    var b := Block(|e| + 1, h);
    if e != [] {
      assert e[|e|-1].header == HeaderTip(v).value;
    }
    ChainedAppend(w, e, b);
    ExtendedAfterQueue(v, h);
  }

  lemma BlockKeepsWellFormed(w: World, v: View, h: Header, matchPending: bool)
    requires WellFormed(w, v)
    requires MayOffer(w, h, if matchPending then HeaderTip(v) else BlockTip(v))
    requires matchPending && v.headers != [] ==> h.hash == v.headers[0].hash
    requires BlockTip(v).Some? ==> h.prevHash == BlockTip(v).value.hash
    ensures WellFormed(w, AfterAdd(v, h, matchPending))
  {
    BlocksChained(w, v);
    if matchPending && v.headers != [] {
      HeaderLegit(w, v, 0);
      ExtendedAfterMatch(v);
    } else {
      ChainedAppend(w, v.blocks, Block(|v.blocks| + 1, h));
      ExtendedWithoutQueue(v.blocks + [Block(|v.blocks| + 1, h)]);
    }
  }

  // ----- rolling back -----

  datatype Queued = AtHeader(i: nat) | Below | Misplaced

  /** Where a rollback point lies relative to the queued headers: one of them, below all of
      them, or somewhere no header is. */
  function Locate(hs: seq<Header>, p: Point): (r: Queued)
    ensures r.AtHeader? ==> r.i < |hs| && hs[r.i].AsPoint() == p
    ensures r.Below? ==> forall i :: 0 <= i < |hs| ==> p.slot <= hs[i].slot && hs[i].AsPoint() != p
    ensures r.Misplaced? ==> exists i :: 0 <= i < |hs| && hs[i].slot < p.slot
  {
    if hs == [] then Below
    else
      var i := |hs| - 1;
      if hs[i].AsPoint() == p then AtHeader(i)
      else if hs[i].slot < p.slot then Misplaced
      else Locate(hs[..i], p)
  }

  datatype Verdict = Refuse(error: Error) | DropHeaders(keep: nat) | Truncate(n: nat)

  /** What a rollback to p decides once p is no queued header: only origin and blocks the
      chain holds now can be targets, and at most k blocks may go. */
  function DecideBlocks(c: seq<Block>, k: int, p: Point): (r: Verdict)
    ensures r.Truncate? ==> r.n <= |c|
    ensures !r.DropHeaders?
  {
    var n := if p.slot == 0 then 0 else IndexOf(c, p);
    if p.slot > 0 && n == 0 then Refuse(NotFound)
    else if |c| >= k && |c| - n > k then Refuse(ExceedsSecurityParam)
    else Truncate(n)
  }

  /** What a rollback to p decides, k being the security parameter. */
  function Decide(v: View, k: int, p: Point): (r: Verdict)
    ensures r.DropHeaders? ==> r.keep <= |v.headers|
    ensures r.Truncate? ==> r.n <= |v.blocks|
  {
    if k <= 0 then Refuse(NotConfigured)
    else match Locate(v.headers, p)
      case Misplaced => Refuse(NotFound)
      case AtHeader(i) => DropHeaders(i + 1)
      case Below => DecideBlocks(v.blocks, k, p)
  }

  function AfterRollback(v: View, k: int, p: Point): View {
    match Decide(v, k, p)
    case Refuse(_) => v
    case DropHeaders(keep) => v.(headers := v.headers[..keep])
    case Truncate(n) => View(v.blocks[..n], [])
  }

  lemma RollbackKeepsWellFormed(w: World, v: View, k: int, p: Point)
    requires WellFormed(w, v)
    ensures WellFormed(w, AfterRollback(v, k, p))
  {
    ExtendedAfterRollback(v, k, p);
    var out := AfterRollback(v, k, p);
    ChainedPrefix(w, Extended(v), |out.blocks| + |out.headers|);
  }

  lemma ExtendedAfterRollback(v: View, k: int, p: Point)
    ensures var out := AfterRollback(v, k, p);
            Extended(out) == Extended(v)[..|out.blocks| + |out.headers|]
  {
  }

  /** A block point is never mistaken for a header position. */
  lemma OnChainIsBelow(w: World, v: View, p: Point)
    requires WellFormed(w, v)
    requires p.slot == 0 || IndexOf(v.blocks, p) > 0
    ensures Locate(v.headers, p).Below?
  {
    hide Chained, Extended, Locate, IndexOf;
    match Locate(v.headers, p)
    case Below =>
    case AtHeader(i) =>
      HeaderLegit(w, v, i);
      if p.slot > 0 { SlotsIncrease(w, Extended(v), IndexOf(v.blocks, p) - 1, |v.blocks| + i); }
    case Misplaced =>
      var i :| 0 <= i < |v.headers| && v.headers[i].slot < p.slot;
      SlotsIncrease(w, Extended(v), IndexOf(v.blocks, p) - 1, |v.blocks| + i);
  }

  /** A queued header's point is found as that header. */
  lemma {:induction false} LocateHeader(hs: seq<Header>, i: nat)
    requires i < |hs|
    requires forall a, b :: 0 <= a < b < |hs| ==> hs[a].slot < hs[b].slot
    ensures Locate(hs, hs[i].AsPoint()) == AtHeader(i)
  {
    if i < |hs| - 1 {
      LocateHeader(hs[..|hs|-1], i);
    }
  }

  /** Exactly which rollbacks are accepted: to a queued header, or to origin or a block the
      chain holds now when that removes at most k blocks. */
  lemma RollbackAcceptedIff(w: World, v: View, k: int, p: Point)
    requires WellFormed(w, v)
    ensures !Decide(v, k, p).Refuse? <==>
              && k > 0
              && (|| (exists i :: 0 <= i < |v.headers| && v.headers[i].AsPoint() == p)
                  || ((p.slot == 0 || IndexOf(v.blocks, p) > 0)
                      && |v.blocks| - (if p.slot == 0 then 0 else IndexOf(v.blocks, p)) <= k))
  {
    hide Chained, Extended, Locate, IndexOf;
    if i :| 0 <= i < |v.headers| && v.headers[i].AsPoint() == p {
      forall a, b | 0 <= a < b < |v.headers| ensures v.headers[a].slot < v.headers[b].slot {
        HeaderSlotsIncrease(w, v, a, b);
      }
      LocateHeader(v.headers, i);
    } else if p.slot == 0 || IndexOf(v.blocks, p) > 0 {
      OnChainIsBelow(w, v, p);
    }
  }

  /** An accepted rollback to a block point leaves exactly the prefix that ends at that point,
      with nothing queued, and gives up at most k blocks. */
  lemma RollbackIsTruncation(w: World, v: View, k: int, p: Point)
    requires WellFormed(w, v) && Decide(v, k, p).Truncate?
    ensures var n := Decide(v, k, p).n;
            && AfterRollback(v, k, p) == View(v.blocks[..n], [])
            && |v.blocks| - n <= k
            && (p.slot == 0 <==> n == 0)
            && (n > 0 ==> v.blocks[n-1].AsPoint() == p)
  {
    hide Chained, Extended, Locate, IndexOf;
  }

  // ----- whole runs -----

  datatype Op =
    | QueueHeader(header: Header) | AddFetched(header: Header) | AddLocal(header: Header)
    | AddRaw(header: Header) | RollBack(point: Point) | ClearQueue

  /** Raw import checks the link to the tip but not the block number. */
  function RawVerdict(v: View, h: Header): Option<Error> {
    if h.hash == [] || (v.blocks != [] && h.prevHash == []) then Some(InvalidRawBlock)
    else if v.headers != [] && h.hash != v.headers[0].hash then Some(NotMatchHeader)
    else if v.blocks != [] && h.prevHash != v.blocks[|v.blocks|-1].Hash() then Some(NotFitTip)
    else None
  }

  function QueueVerdict(v: View, k: int, h: Header): Option<Error> {
    if |v.headers| >= MaxQueuedHeaders(k) then Some(QueueFull)
    else if !Follows(h, HeaderTip(v)) then Some(FollowError(h, HeaderTip(v)))
    else None
  }

  // ----- what is accepted, field by field -----

  /** On an empty chain anything fits; else the block names the last one as its parent and carries
      the next number in 64 bits, or, in the Byron era, may repeat the parent's. */
  predicate FitsOn(c: seq<Block>, h: Header) {
    c == [] ||
    var last := c[|c|-1].header;
    && h.prevHash == last.hash
    && (h.number == (if last.number + 1 == 0x1_0000_0000_0000_0000 then 0 else last.number + 1) || (h.era == 0 && h.number == last.number))
  }

  predicate Sized(c: seq<Block>) {
    forall i :: 0 <= i < |c| ==> c[i].header.number < 0x1_0000_0000_0000_0000
  }

  /** A header is queued exactly when it fits on the chain with its queue and fewer than 10000, or
      fewer than 2k, are waiting; a full queue is reported first, then a wrong parent, then a
      wrong number. */
  lemma QueuedIff(v: View, k: int, h: Header)
    requires Sized(Extended(v))
    ensures QueueVerdict(v, k, h).None? <==> (|v.headers| < 10_000 || |v.headers| < 2 * k) && FitsOn(Extended(v), h)
    ensures QueueVerdict(v, k, h) == Some(QueueFull) <==> |v.headers| >= 10_000 && |v.headers| >= 2 * k
    ensures QueueVerdict(v, k, h) == Some(NumberNotContiguous) <==>
            && (|v.headers| < 10_000 || |v.headers| < 2 * k) && !FitsOn(Extended(v), h)
            && h.prevHash == Extended(v)[|Extended(v)|-1].Hash()
  {
    var e := Extended(v);
    if e != [] { assert HeaderTip(v) == Some(e[|e|-1].header); }
  }

  /** A block is added exactly when it fits on the chain and, where it has to match, is the oldest
      queued header; a mismatch is reported first, then a wrong parent, then a wrong number. */
  lemma AddedIff(v: View, h: Header, matchPending: bool)
    requires Sized(v.blocks)
    ensures var mismatch := matchPending && v.headers != [] && h.hash != v.headers[0].hash;
            && (AddVerdict(v, h, matchPending).None? <==> !mismatch && FitsOn(v.blocks, h))
            && (AddVerdict(v, h, matchPending) == Some(NotMatchHeader) <==> mismatch)
            && (AddVerdict(v, h, matchPending) == Some(NumberNotContiguous) <==>
                  !mismatch && !FitsOn(v.blocks, h) && h.prevHash == v.blocks[|v.blocks|-1].Hash())
  {
  }

  /** A raw import needs hashes, the right parent and the oldest queued header, but no number. */
  lemma RawAddedIff(v: View, h: Header)
    ensures RawVerdict(v, h).None? <==>
            && h.hash != [] && (v.headers != [] ==> h.hash == v.headers[0].hash)
            && (v.blocks != [] ==> h.prevHash != [] && h.prevHash == v.blocks[|v.blocks|-1].Hash())
  {
  }

  /** A rollback to a queued header keeps the blocks and the queue up to and including it. */
  lemma HeaderRollback(w: World, v: View, k: int, i: nat)
    requires WellFormed(w, v) && k > 0 && i < |v.headers|
    ensures AfterRollback(v, k, v.headers[i].AsPoint()) == View(v.blocks, v.headers[..i+1])
  {
    hide Chained, Extended, Locate;
    forall a, b | 0 <= a < b < |v.headers| ensures v.headers[a].slot < v.headers[b].slot {
      HeaderSlotsIncrease(w, v, a, b);
    }
    LocateHeader(v.headers, i);
  }

  /** Why a rollback is refused: without a security parameter as not configured, beyond k blocks
      as too deep when the chain holds the point, and otherwise as not found. */
  lemma RollbackRefusedAs(w: World, v: View, k: int, p: Point)
    requires WellFormed(w, v) && Decide(v, k, p).Refuse?
    ensures Decide(v, k, p).error == NotConfigured <==> k <= 0
    ensures Decide(v, k, p).error == ExceedsSecurityParam <==> k > 0 && (p.slot == 0 || IndexOf(v.blocks, p) > 0)
    ensures Decide(v, k, p).error in {NotConfigured, ExceedsSecurityParam, NotFound}
  {
    hide Chained, Extended, Locate, IndexOf;
    if p.slot == 0 || IndexOf(v.blocks, p) > 0 { OnChainIsBelow(w, v, p); }
  }

  /** The view after one operation; a refused operation changes nothing. */
  function Step(v: View, k: int, op: Op): View {
    match op
    case QueueHeader(h) => if QueueVerdict(v, k, h).None? then v.(headers := v.headers + [h]) else v
    case AddFetched(h) => if AddVerdict(v, h, true).None? then AfterAdd(v, h, true) else v
    case AddLocal(h) => if AddVerdict(v, h, false).None? then AfterAdd(v, h, false) else v
    case AddRaw(h) => if RawVerdict(v, h).None? then AfterAdd(v, h, true) else v
    case RollBack(p) => AfterRollback(v, k, p)
    case ClearQueue => v.(headers := [])
  }

  ghost predicate Admissible(w: World, v: View, op: Op) {
    match op
    case QueueHeader(h) => MayOffer(w, h, HeaderTip(v))
    case AddFetched(h) => MayOffer(w, h, HeaderTip(v))
    case AddLocal(h) => MayOffer(w, h, BlockTip(v))
    case AddRaw(h) => MayOffer(w, h, HeaderTip(v))
    case RollBack(_) => true
    case ClearQueue => true
  }

  lemma StepKeepsWellFormed(w: World, v: View, k: int, op: Op)
    requires WellFormed(w, v) && Admissible(w, v, op)
    ensures WellFormed(w, Step(v, k, op))
  {
    match op
    case QueueHeader(h) => if QueueVerdict(v, k, h).None? { HeaderKeepsWellFormed(w, v, h); }
    case AddFetched(h) => if AddVerdict(v, h, true).None? { BlockKeepsWellFormed(w, v, h, true); }
    case AddLocal(h) => if AddVerdict(v, h, false).None? { BlockKeepsWellFormed(w, v, h, false); }
    case AddRaw(h) => if RawVerdict(v, h).None? { BlockKeepsWellFormed(w, v, h, true); }
    case RollBack(p) => RollbackKeepsWellFormed(w, v, k, p);
    case ClearQueue =>
      BlocksChained(w, v);
      ExtendedWithoutQueue(v.blocks);
  }

  function Run(v: View, k: int, ops: seq<Op>): View {
    if ops == [] then v else Step(Run(v, k, ops[..|ops|-1]), k, ops[|ops|-1])
  }

  ghost predicate AllAdmissible(w: World, v: View, k: int, ops: seq<Op>) {
    forall i :: 0 <= i < |ops| ==> Admissible(w, Run(v, k, ops[..i]), ops[i])
  }

  /** Every run keeps the chain linked and the queue a linked extension of its tip. */
  lemma {:induction false} RunKeepsWellFormed(w: World, v: View, k: int, ops: seq<Op>)
    requires WellFormed(w, v) && AllAdmissible(w, v, k, ops)
    ensures WellFormed(w, Run(v, k, ops))
  {
    hide Chained, Extended;
    if ops != [] {
      var init := ops[..|ops|-1];
      assert forall i :: 0 <= i < |init| ==> init[i] == ops[i] && init[..i] == ops[..i];
      RunKeepsWellFormed(w, v, k, init);
      StepKeepsWellFormed(w, Run(v, k, init), k, ops[|ops|-1]);
    }
  }

  // ----- block numbers -----

  ghost predicate NumbersContiguous(c: seq<Block>) {
    forall i, j :: 0 <= i < |c| && 0 <= j < |c| && j == i + 1 ==>
      Contiguous(c[j].header.era, c[j].header.number, c[i].header.number)
  }

  /** What contiguous numbers count: from one block to a later one the number grows by at most one
      a block, never falls, and grows by exactly one a block where no Byron block lies between. */
  lemma {:induction false} NumbersCount(c: seq<Block>, i: nat, j: nat)
    requires NumbersContiguous(c) && i <= j < |c| && c[i].header.number + (j - i) < TWO_64
    ensures c[i].header.number <= c[j].header.number <= c[i].header.number + (j - i)
    ensures (forall m :: i < m <= j ==> c[m].header.era != 0) ==> c[j].header.number == c[i].header.number + (j - i)
    decreases j
  {
    if i < j {
      NumbersCount(c, i, j - 1);
      assert Contiguous(c[j].header.era, c[j].header.number, c[j-1].header.number);
    }
  }

  /** What a raw import leaves unchecked: that the number follows the tip's. A queued header
      fixes the number, and the first block has none to follow. */
  predicate RawFits(v: View, h: Header) {
    v.headers == [] && v.blocks != [] ==> Contiguous(h.era, h.number, v.blocks[|v.blocks|-1].header.number)
  }

  /** Every accepted raw import of the run carries a number that follows. */
  ghost predicate RawsFit(v: View, k: int, ops: seq<Op>) {
    forall i :: 0 <= i < |ops| && ops[i].AddRaw? ==>
      var u := Run(v, k, ops[..i]); RawVerdict(u, ops[i].header).None? ==> RawFits(u, ops[i].header)
  }

  /** No block number can be inflated: along the chain and its queue every number follows its
      parent's, as long as every accepted raw import does. */
  lemma {:induction false} RunKeepsNumbersContiguous(w: World, v: View, k: int, ops: seq<Op>)
    requires WellFormed(w, v) && AllAdmissible(w, v, k, ops)
    requires NumbersContiguous(Extended(v)) && RawsFit(v, k, ops)
    ensures NumbersContiguous(Extended(Run(v, k, ops)))
  {
    if ops != [] {
      hide WellFormed, NumbersContiguous, Step, RawVerdict, RawFits;
      var init, last := ops[..|ops|-1], ops[|ops|-1];
      assert forall i :: 0 <= i < |init| ==> init[i] == ops[i] && init[..i] == ops[..i];
      RunKeepsNumbersContiguous(w, v, k, init);
      RunKeepsWellFormed(w, v, k, init);
      var u := Run(v, k, init);
      if last.AddRaw? {
        RawKeepsNumbersIff(w, u, k, last.header);
      } else {
        StepKeepsNumbersContiguous(w, u, k, last);
      }
    }
  }

  /** An accepted raw import keeps the numbers contiguous if and only if it takes a queued
      header, or is the first block, or its number follows the tip's; a refused one always does. */
  lemma RawKeepsNumbersIff(w: World, v: View, k: int, h: Header)
    requires WellFormed(w, v) && MayOffer(w, h, HeaderTip(v)) && NumbersContiguous(Extended(v))
    ensures NumbersContiguous(Extended(Step(v, k, AddRaw(h)))) <==> (RawVerdict(v, h).None? ==> RawFits(v, h))
  {
    hide NumbersContiguous, WellFormed;
    if RawVerdict(v, h).None? {
      if v.headers != [] {
        HeaderLegit(w, v, 0);
        assert h == v.headers[0];
        ExtendedAfterMatch(v);
      } else if RawFits(v, h) {
        RawAppends(v, h);
      } else {
        RawInflates(v, h);
      }
    }
  }

  lemma RawAppends(v: View, h: Header)
    requires v.headers == [] && RawFits(v, h) && NumbersContiguous(Extended(v))
    ensures NumbersContiguous(Extended(AfterAdd(v, h, true)))
  {
    ExtendedWithoutQueue(v.blocks);
    ExtendedWithoutQueue(v.blocks + [Block(|v.blocks| + 1, h)]);
    assert v == View(v.blocks, []);
    NumbersAppend(v.blocks, h);
  }

  lemma RawInflates(v: View, h: Header)
    requires v.headers == [] && !RawFits(v, h)
    ensures !NumbersContiguous(Extended(AfterAdd(v, h, true)))
  {
    var e, n := Extended(AfterAdd(v, h, true)), |v.blocks|;
    assert e[n].header == h && e[n-1] == v.blocks[n-1];
  }

  lemma StepKeepsNumbersContiguous(w: World, v: View, k: int, op: Op)
    requires WellFormed(w, v) && Admissible(w, v, op) && !op.AddRaw?
    requires NumbersContiguous(Extended(v))
    ensures NumbersContiguous(Extended(Step(v, k, op)))
  {
    var out := Step(v, k, op);
    if out != v {
      match op
      case QueueHeader(h) => NumbersAfterQueue(v, h);
      case AddFetched(h) =>
        if v.headers != [] {
          HeaderLegit(w, v, 0);
          ExtendedAfterMatch(v);
        } else {
          NumbersAfterAdd(v, h);
        }
      case AddLocal(h) => NumbersAfterAdd(v, h);
      case RollBack(p) =>
        ExtendedAfterRollback(v, k, p);
        NumbersPrefix(Extended(v), |out.blocks| + |out.headers|);
      case ClearQueue =>
        ExtendedWithoutQueue(v.blocks);
        NumbersOfBlocks(v);
    }
  }

  lemma NumbersPrefix(c: seq<Block>, n: nat)
    requires NumbersContiguous(c) && n <= |c|
    ensures NumbersContiguous(c[..n])
  {
  }

  lemma NumbersOfBlocks(v: View)
    requires NumbersContiguous(Extended(v))
    ensures NumbersContiguous(v.blocks)
  {
    NumbersPrefix(Extended(v), |v.blocks|);
    assert Extended(v)[..|v.blocks|] == v.blocks;
  }

  lemma NumbersAfterQueue(v: View, h: Header)
    requires NumbersContiguous(Extended(v)) && Follows(h, HeaderTip(v))
    ensures NumbersContiguous(Extended(v.(headers := v.headers + [h])))
  {
    ExtendedAfterQueue(v, h);
    NumbersAppend(Extended(v), h);
  }

  lemma NumbersAppend(c: seq<Block>, h: Header)
    requires NumbersContiguous(c)
    requires c != [] ==> Contiguous(h.era, h.number, c[|c|-1].header.number)
    ensures NumbersContiguous(c + [Block(|c| + 1, h)])
  {
  }

  lemma NumbersAfterAdd(v: View, h: Header)
    requires NumbersContiguous(Extended(v)) && Follows(h, BlockTip(v))
    ensures NumbersContiguous(Extended(View(v.blocks + [Block(|v.blocks| + 1, h)], [])))
  {
    ExtendedWithoutQueue(v.blocks + [Block(|v.blocks| + 1, h)]);
    NumbersOfBlocks(v);
    NumbersAppend(v.blocks, h);
  }

  /** The failing case exists: a raw import takes a number an ordinary add refuses. */
  lemma RawImportSkipsNumbers(w: World, a: Header, b: Header, k: int)
    requires Legit(w, a) && w.index(a.hash) == 1 && Legit(w, b) && b.prevHash == a.hash
    requires !Contiguous(b.era, b.number, a.number)
    ensures var v := View([Block(1, a)], []);
            && WellFormed(w, v) && Step(v, k, AddFetched(b)) == v
            && Step(v, k, AddRaw(b)).blocks == [Block(1, a), Block(2, b)]
            && !NumbersContiguous(Extended(Step(v, k, AddRaw(b))))
  {
    var v := View([Block(1, a)], []);
    ExtendedWithoutQueue(v.blocks);
    RawInflates(v, b);
  }
}
