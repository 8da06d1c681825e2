/** Batched writes (AddBlocks and addRawBlocks in chain/chain.go): memory advances inside the
    transaction's closure, the store only when the commit that follows succeeds. */
module BatchCommit {
  import opened Blocks
  import opened ChainModel
  import opened ChainManager

  const BATCH_SIZE := 50

  datatype Mem = Mem(view: View, generation: nat)

  /** The batch writer: outside, holding the barrier, or between closure and commit. */
  datatype Writer =
    | Idle
    | Holding
    | Applied(saved: Mem, applied: Mem, rows: map<nat, Block>)

  datatype Sys = Sys(mem: Mem, store: map<nat, Block>, writer: Writer)

  datatype Action =
    | Begin                                                       // take the barrier for read
    | ApplyBatch(batch: seq<Header>, raw: bool, failAt: nat)      // the closure; the callback rejects block failAt
    | Commit(ok: bool)
    | RollBack(point: Point)                                      // takes the barrier for write
    | QueueOne(header: Header)
    | ClearQueue
    | DirectAdd(header: Header, matchPending: bool)               // an add with its own transaction

  // ----- the closure -----

  function Verdict(v: View, h: Header, raw: bool): Option<Error> {
    if raw then RawVerdict(v, h) else AddVerdict(v, h, true)
  }

  /** Add a batch block by block; nothing if any block is rejected, or the callback rejects it. */
  function ApplyAll(v: View, batch: seq<Header>, raw: bool, failAt: nat): Option<View> {
    if batch == [] then Some(v)
    else match ApplyAll(v, batch[..|batch|-1], raw, failAt)
      case None => None
      case Some(u) =>
        if Verdict(u, batch[|batch|-1], raw).Some? || failAt == |batch| - 1 then None
        else Some(AfterAdd(u, batch[|batch|-1], true))
  }

  function Records(start: nat, batch: seq<Header>): (r: seq<Block>)
    ensures |r| == |batch|
    ensures forall i :: 0 <= i < |batch| ==> r[i] == Block(start + 1 + i, batch[i])
  {
    seq(|batch|, i requires 0 <= i < |batch| => Block(start + 1 + i, batch[i]))
  }

  ghost predicate MayApply(w: World, v: View, batch: seq<Header>) {
    && (forall i :: 0 <= i < |batch| ==> Legit(w, batch[i]))
    && (batch != [] ==> MayOffer(w, batch[0], HeaderTip(v)))
  }

  /** What a whole batch leaves behind: its blocks on top of the old ones, still well formed. */
  lemma {:induction false} ApplyAllExtends(w: World, v: View, batch: seq<Header>, raw: bool, failAt: nat)
    requires WellFormed(w, v) && MayApply(w, v, batch) && ApplyAll(v, batch, raw, failAt).Some?
    ensures var out := ApplyAll(v, batch, raw, failAt).value;
            WellFormed(w, out) && out.blocks == v.blocks + Records(|v.blocks|, batch)
  {
    hide WellFormed, Legit, Records, AddVerdict, RawVerdict;
    if batch == [] {
      assert v.blocks + Records(|v.blocks|, []) == v.blocks;
    } else {
      var init, last := batch[..|batch|-1], batch[|batch|-1];
      ApplyAllExtends(w, v, init, raw, failAt);
      var u := ApplyAll(v, init, raw, failAt).value;
      AcceptedKeepsWellFormed(w, u, last, raw);
      assert Records(|v.blocks|, batch) == Records(|v.blocks|, init) + [Block(|u.blocks| + 1, last)];
    }
  }

  lemma AcceptedKeepsWellFormed(w: World, u: View, h: Header, raw: bool)
    requires WellFormed(w, u) && MayOffer(w, h, HeaderTip(u)) && Verdict(u, h, raw).None?
    ensures WellFormed(w, AfterAdd(u, h, true))
  {
    hide WellFormed;
    BlockKeepsWellFormed(w, u, h, true);
  }

  // ----- the protocol -----

  /** Rows for the blocks of c above the first n. */
  function RowsAbove(c: seq<Block>, n: nat): map<nat, Block> {
    map i | n < i <= |c| :: At(c, i)
  }

  function At(c: seq<Block>, i: nat): Block
    requires 1 <= i <= |c|
  {
    c[i-1]
  }

  function TipHash(v: View): Hash {
    if v.blocks == [] then [] else v.blocks[|v.blocks|-1].Hash()
  }

  /** The chain still shows exactly what the batch left behind. */
  predicate RestoreIsSafe(now: Mem, applied: Mem) {
    && |now.view.blocks| == |applied.view.blocks|
    && now.generation == applied.generation
    && TipHash(now.view) == TipHash(applied.view)
  }

  predicate Enabled(s: Sys, a: Action) {
    match a
    case Begin => s.writer.Idle?
    case ApplyBatch(batch, _, _) => s.writer.Holding? && 0 < |batch| <= BATCH_SIZE
    case Commit(_) => s.writer.Applied?
    case RollBack(_) => s.writer.Idle?
    case QueueOne(_) => true
    case ClearQueue => true
    case DirectAdd(_, _) => true
  }

  /** A rollback deletes the rows it removes from memory. */
  function Without(store: map<nat, Block>, n: nat): map<nat, Block> {
    map i | i in store && i <= n :: store[i]
  }

  function Step(s: Sys, k: int, a: Action): Sys
    requires Enabled(s, a)
  {
    match a
    case Begin => s.(writer := Holding)
    case ApplyBatch(batch, raw, failAt) =>
      (match ApplyAll(s.mem.view, batch, raw, failAt)
       case None => s.(writer := Idle)              // closure error: snapshot restored, transaction dropped
       case Some(v) =>
         var applied := Mem(v, s.mem.generation + |batch|);
         Sys(applied, s.store, Applied(s.mem, applied, RowsAbove(v.blocks, |s.mem.view.blocks|))))
    case Commit(ok) =>
      if ok then Sys(s.mem, s.store + s.writer.rows, Idle)
      else if RestoreIsSafe(s.mem, s.writer.applied) then Sys(s.writer.saved, s.store, Idle)
      else s.(writer := Idle)
    case RollBack(p) =>
      var v := AfterRollback(s.mem.view, k, p);
      Sys(Mem(v, if Decide(s.mem.view, k, p).Truncate? then s.mem.generation + 1 else s.mem.generation),
          Without(s.store, |v.blocks|), s.writer)
    case QueueOne(h) => s.(mem := s.mem.(view := ChainModel.Step(s.mem.view, k, QueueHeader(h))))
    case ClearQueue => s.(mem := s.mem.(view := s.mem.view.(headers := [])))
    case DirectAdd(h, m) =>
      if AddVerdict(s.mem.view, h, m).None? then
        var v := AfterAdd(s.mem.view, h, m);
        Sys(Mem(v, s.mem.generation + 1), s.store[|v.blocks| := v.blocks[|v.blocks|-1]], s.writer)
      else s
  }

  ghost predicate Admissible(w: World, s: Sys, a: Action) {
    match a
    case ApplyBatch(batch, _, _) => MayApply(w, s.mem.view, batch)
    case QueueOne(h) => MayOffer(w, h, HeaderTip(s.mem.view))
    case DirectAdd(h, m) => MayOffer(w, h, if m then HeaderTip(s.mem.view) else BlockTip(s.mem.view))
    case _ => true
  }

  /** Blocks added past the batch while its commit is outstanding. */
  function Overtaken(s: Sys): bool {
    s.writer.Applied? && s.mem.view.blocks != s.writer.applied.view.blocks
  }

  /** Outside the window memory and store agree. In it the store lacks exactly the batch's
      rows, which the transaction carries, and memory is the batch plus whatever was added
      past it since. */
  ghost predicate Inv(w: World, s: Sys) {
    && WellFormed(w, s.mem.view)
    && match s.writer
       case Applied(saved, applied, rows) =>
         && WellFormed(w, saved.view)
         && InWindow(saved.view.blocks, applied.view.blocks, s.mem.view.blocks, s.store, rows)
         && s.mem.generation == applied.generation + |s.mem.view.blocks| - |applied.view.blocks|
       case _ => Holds(s.store, s.mem.view.blocks)
  }

  ghost predicate InWindow(saved: seq<Block>, applied: seq<Block>, now: seq<Block>, store: map<nat, Block>, rows: map<nat, Block>) {
    && saved <= applied && applied <= now && |saved| < |applied|
    && (forall i :: i in rows <==> |saved| < i <= |applied|)
    && (forall i :: i in rows ==> rows[i] == now[i-1])
    && (forall i :: i in store <==> 1 <= i <= |saved| || |applied| < i <= |now|)
    && (forall i :: i in store ==> store[i] == now[i-1])
  }

  // ----- one step -----

  lemma ApplyOpensWindow(w: World, s: Sys, k: int, batch: seq<Header>, raw: bool, failAt: nat)
    requires Inv(w, s) && Enabled(s, ApplyBatch(batch, raw, failAt)) && MayApply(w, s.mem.view, batch)
    ensures Inv(w, Step(s, k, ApplyBatch(batch, raw, failAt)))
  {
    hide WellFormed, MayApply, ApplyAll, Records;
    var v := s.mem.view;
    if ApplyAll(v, batch, raw, failAt).Some? {
      ApplyAllExtends(w, v, batch, raw, failAt);
      var out := ApplyAll(v, batch, raw, failAt).value;
      assert forall i :: 0 <= i < |v.blocks| ==> out.blocks[i] == v.blocks[i];
    }
  }

  /** Whatever happens to the commit, memory and store agree afterwards and the batch is wholly
      in or wholly out, provided nothing was added past it. */
  lemma CommitConcludes(w: World, s: Sys, k: int, ok: bool)
    requires Inv(w, s) && s.writer.Applied? && !Overtaken(s)
    ensures var t := Step(s, k, Commit(ok));
            && Inv(w, t) && Holds(t.store, t.mem.view.blocks)
            && (if ok then t.mem == s.mem else t.mem == s.writer.saved && t.store == s.store)
  {
    hide WellFormed;
  }

  /** A failed commit leaves memory and store in agreement if and only if nothing was added
      past the batch in the meantime. */
  lemma FailedCommitAgreesIff(w: World, s: Sys, k: int)
    requires Inv(w, s) && s.writer.Applied?
    ensures var t := Step(s, k, Commit(false));
            Holds(t.store, t.mem.view.blocks) <==> !Overtaken(s)
  {
    hide WellFormed;
    var saved, applied, now := s.writer.saved.view.blocks, s.writer.applied.view.blocks, s.mem.view.blocks;
    if Overtaken(s) {
      assert |saved| + 1 !in s.store;
    } else {
      CommitConcludes(w, s, k, false);
    }
  }

  /** A commit that succeeds restores agreement in every case. */
  lemma CommitSucceeds(w: World, s: Sys, k: int)
    requires Inv(w, s) && s.writer.Applied?
    ensures Inv(w, Step(s, k, Commit(true)))
  {
    hide WellFormed;
  }

  lemma RollbackKeepsAgreement(w: World, s: Sys, k: int, p: Point)
    requires Inv(w, s) && s.writer.Idle?
    ensures Inv(w, Step(s, k, Action.RollBack(p)))
  {
    hide WellFormed, Decide;
    RollbackKeepsWellFormed(w, s.mem.view, k, p);
    var v := AfterRollback(s.mem.view, k, p);
    AfterRollbackPrefix(s.mem.view, k, p);
  }

  lemma AfterRollbackPrefix(v: View, k: int, p: Point)
    ensures AfterRollback(v, k, p).blocks <= v.blocks
  {
  }

  /** A rollback only ever asks the store for rows it holds. */
  lemma RollbackFindsItsRows(w: World, s: Sys, k: int, p: Point)
    requires Inv(w, s) && Enabled(s, Action.RollBack(p)) && Decide(s.mem.view, k, p).Truncate?
    ensures forall i :: Decide(s.mem.view, k, p).n < i <= |s.mem.view.blocks| ==>
              i in s.store && s.store[i] == s.mem.view.blocks[i-1]
  {
    hide WellFormed, Decide;
  }

  lemma DirectAddKeepsInv(w: World, s: Sys, k: int, h: Header, m: bool)
    requires Inv(w, s) && Admissible(w, s, DirectAdd(h, m))
    ensures Inv(w, Step(s, k, DirectAdd(h, m)))
  {
    hide WellFormed, MayOffer, AddVerdict, InWindow;
    if AddVerdict(s.mem.view, h, m).None? {
      AddedKeepsWellFormed(w, s.mem.view, h, m);
      if s.writer.Applied? {
        WindowGrows(s.writer.saved.view.blocks, s.writer.applied.view.blocks, s.mem.view, s.store, s.writer.rows, h, m);
      }
    }
  }

  lemma AddedKeepsWellFormed(w: World, v: View, h: Header, m: bool)
    requires WellFormed(w, v) && MayOffer(w, h, if m then HeaderTip(v) else BlockTip(v)) && AddVerdict(v, h, m).None?
    ensures WellFormed(w, AfterAdd(v, h, m))
  {
    hide WellFormed, MayOffer, AfterAdd;
    BlockKeepsWellFormed(w, v, h, m);
  }

  lemma WindowGrows(saved: seq<Block>, applied: seq<Block>, v: View, store: map<nat, Block>, rows: map<nat, Block>, h: Header, m: bool)
    requires InWindow(saved, applied, v.blocks, store, rows)
    ensures var c := AfterAdd(v, h, m).blocks; InWindow(saved, applied, c, store[|c| := c[|c|-1]], rows)
  {
  }

  lemma StepKeepsInv(w: World, s: Sys, k: int, a: Action)
    requires Inv(w, s) && Enabled(s, a) && Admissible(w, s, a)
    requires a == Commit(false) ==> !Overtaken(s)
    ensures Inv(w, Step(s, k, a))
  {
    match a
    case Begin =>
    case ApplyBatch(batch, raw, failAt) => ApplyOpensWindow(w, s, k, batch, raw, failAt);
    case Commit(ok) => if ok { CommitSucceeds(w, s, k); } else { CommitConcludes(w, s, k, ok); }
    case RollBack(p) => RollbackKeepsAgreement(w, s, k, p);
    case QueueOne(h) => QueueKeepsInv(w, s, k, QueueHeader(h));
    case ClearQueue => QueueKeepsInv(w, s, k, Op.ClearQueue);
    case DirectAdd(h, m) => DirectAddKeepsInv(w, s, k, h, m);
  }

  lemma QueueKeepsInv(w: World, s: Sys, k: int, op: Op)
    requires Inv(w, s) && ChainModel.Admissible(w, s.mem.view, op) && (op.QueueHeader? || op.ClearQueue?)
    ensures Inv(w, s.(mem := s.mem.(view := ChainModel.Step(s.mem.view, k, op))))
  {
    hide WellFormed, InWindow, Holds;
    StepKeepsWellFormed(w, s.mem.view, k, op);
  }

  // ----- whole runs -----

  function Run(s: Sys, k: int, acts: seq<Action>): Option<Sys> {
    if acts == [] then Some(s)
    else match Run(s, k, acts[..|acts|-1])
      case Some(t) => if Enabled(t, acts[|acts|-1]) then Some(Step(t, k, acts[|acts|-1])) else None
      case None => None
  }

  ghost predicate AllAdmissible(w: World, s: Sys, k: int, acts: seq<Action>) {
    forall i :: 0 <= i < |acts| ==> Run(s, k, acts[..i]).Some? && Admissible(w, Run(s, k, acts[..i]).value, acts[i])
  }

  /** No commit fails after something was added past its batch. */
  ghost predicate NeverFailsOvertaken(s: Sys, k: int, acts: seq<Action>) {
    forall i :: 0 <= i < |acts| && acts[i] == Commit(false) ==> Run(s, k, acts[..i]).Some? && !Overtaken(Run(s, k, acts[..i]).value)
  }

  /** One batch writer, with rollbacks, header traffic and adds with their own transactions at
      any point where the locks let them in: in every reachable state outside the window memory
      and store agree, inside it the batch is the only difference, and the queue links to the tip
      throughout, as long as no commit fails after being overtaken. */
  lemma {:induction false} RunKeepsAgreement(w: World, s: Sys, k: int, acts: seq<Action>)
    requires Inv(w, s) && AllAdmissible(w, s, k, acts) && Run(s, k, acts).Some? && NeverFailsOvertaken(s, k, acts)
    ensures var t := Run(s, k, acts).value;
            Inv(w, t) && (!t.writer.Applied? ==> Holds(t.store, t.mem.view.blocks))
  {
    if acts != [] {
      hide Inv, Admissible, ChainModel.Step;
      var init, last := acts[..|acts|-1], acts[|acts|-1];
      assert forall i :: 0 <= i < |init| ==> init[i] == acts[i] && init[..i] == acts[..i];
      RunKeepsAgreement(w, s, k, init);
      StepKeepsInv(w, Run(s, k, init).value, k, last);
      InvOutside(w, Run(s, k, acts).value);
    } else {
      InvOutside(w, s);
    }
  }

  lemma InvOutside(w: World, s: Sys)
    requires Inv(w, s)
    ensures !s.writer.Applied? ==> Holds(s.store, s.mem.view.blocks)
  {
  }

  lemma RunOneMore(s: Sys, k: int, acts: seq<Action>, a: Action)
    requires Run(s, k, acts).Some? && Enabled(Run(s, k, acts).value, a)
    ensures Run(s, k, acts + [a]) == Some(Step(Run(s, k, acts).value, k, a))
  {
    hide Step;
    assert (acts + [a])[..|acts|] == acts;
  }

  /** The excluded case is reachable from any idle state that agrees: a batch of one block is
      applied, a block fetched on top of it is added with its own transaction, the commit fails,
      and memory holds a block the store does not. */
  lemma OvertakenIsReachable(w: World, s: Sys, k: int, h: Header, g: Header)
    requires Inv(w, s) && s.writer.Idle? && s.mem.view.headers == []
    requires MayOffer(w, h, HeaderTip(s.mem.view)) && RawVerdict(s.mem.view, h).None?
    requires Legit(w, g) && Follows(g, Some(h))
    ensures var t := Run(s, k, [] + [Begin] + [ApplyBatch([h], true, 1)] + [DirectAdd(g, true)] + [Commit(false)]);
            t.Some? && t.value.writer.Idle? && |t.value.mem.view.blocks| == |s.mem.view.blocks| + 2
            && !Holds(t.value.store, t.value.mem.view.blocks)
  {
    hide Run, Inv, Legit;
    var s1, s2 := BatchOfOne(w, s, k, h);
    var s3 := Step(s2, k, DirectAdd(g, true));
    assert s3.writer == s2.writer && s3.mem.view.blocks == s2.mem.view.blocks + [Block(|s2.mem.view.blocks| + 1, g)];
    DirectAddKeepsInv(w, s2, k, g, true);
    FailedCommitAgreesIff(w, s3, k);
    RunNone(s, k);
    RunOneMore(s, k, [], Begin);
    RunOneMore(s, k, [] + [Begin], ApplyBatch([h], true, 1));
    RunOneMore(s, k, [] + [Begin] + [ApplyBatch([h], true, 1)], DirectAdd(g, true));
    RunOneMore(s, k, [] + [Begin] + [ApplyBatch([h], true, 1)] + [DirectAdd(g, true)], Commit(false));
  }

  lemma RunNone(s: Sys, k: int)
    ensures Run(s, k, []) == Some(s)
  {
  }

  lemma BatchOfOne(w: World, s: Sys, k: int, h: Header) returns (s1: Sys, s2: Sys)
    requires Inv(w, s) && s.writer.Idle? && s.mem.view.headers == []
    requires MayOffer(w, h, HeaderTip(s.mem.view)) && RawVerdict(s.mem.view, h).None?
    ensures s1 == Step(s, k, Begin) && Enabled(s1, ApplyBatch([h], true, 1)) && s2 == Step(s1, k, ApplyBatch([h], true, 1))
    ensures Inv(w, s2) && s2.writer.Applied? && s2.mem.view == AfterAdd(s.mem.view, h, true) && s2.mem == s2.writer.applied
  {
    hide RawVerdict;
    s1 := Step(s, k, Begin);
    assert [h][..0] == [];
    assert ApplyAll(s.mem.view, [], true, 1) == Some(s.mem.view);
    assert ApplyAll(s.mem.view, [h], true, 1) == Some(AfterAdd(s.mem.view, h, true));
    ApplyOpensWindow(w, s1, k, [h], true, 1);
    s2 := Step(s1, k, ApplyBatch([h], true, 1));
  }

  // ----- the batch writer itself, undisturbed -----

  /** The protocol's steps for one batch that nothing comes between. */
  function Undisturbed(s: Sys, batch: seq<Header>, failAt: nat, commitOk: bool): Sys
    requires s.writer.Idle? && 0 < |batch| <= BATCH_SIZE
  {
    var t := Step(Step(s, 0, Begin), 0, ApplyBatch(batch, true, failAt));
    if t.writer.Applied? then Step(t, 0, Commit(commitOk)) else t
  }

  lemma {:induction false} ApplyAllPrefix(v: View, batch: seq<Header>, raw: bool, failAt: nat)
    requires ApplyAll(v, batch, raw, failAt).Some?
    ensures v.blocks <= ApplyAll(v, batch, raw, failAt).value.blocks
  {
    hide RawVerdict, AddVerdict;
    if batch != [] { ApplyAllPrefix(v, batch[..|batch|-1], raw, failAt); }
  }

  lemma UndisturbedIs(s: Sys, batch: seq<Header>, failAt: nat, commitOk: bool)
    requires s.writer.Idle? && 0 < |batch| <= BATCH_SIZE && Holds(s.store, s.mem.view.blocks)
    ensures var t, out := Undisturbed(s, batch, failAt, commitOk), ApplyAll(s.mem.view, batch, true, failAt);
            && t.writer.Idle?
            && (commitOk && out.Some? ==> t.mem == Mem(out.value, s.mem.generation + |batch|) && Holds(t.store, out.value.blocks))
            && (!(commitOk && out.Some?) ==> t == s)
  {
    hide ApplyAll;
    var out := ApplyAll(s.mem.view, batch, true, failAt);
    if out.Some? { ApplyAllPrefix(s.mem.view, batch, true, failAt); }
  }

  /** A store holds a chain in one way only. */
  lemma HoldsUnique(a: map<nat, Block>, b: map<nat, Block>, c: seq<Block>)
    requires Holds(a, c) && Holds(b, c)
    ensures a == b
  {
  }

  class Importer {
    var headers: seq<Header>
    var currentTip: Option<Header>
    var tipBlockIndex: nat
    var mutationGeneration: nat
    var store: map<nat, Block>
    ghost var blocks: seq<Block>

    ghost function V(): View
      reads this
    {
      View(blocks, headers)
    }

    ghost predicate Valid()
      reads this
    {
      tipBlockIndex == |blocks| && currentTip == BlockTip(V())
    }

    /** Add one pre-extracted block inside a transaction; nothing changes if it is rejected. */
    method AddRawBlock(h: Header, callbackOk: bool, txn: map<nat, Block>) returns (ok: bool, out: map<nat, Block>)
      requires Valid()
      modifies this`headers, this`currentTip, this`tipBlockIndex, this`mutationGeneration, this`blocks
      ensures Valid()
      ensures ok <==> RawVerdict(old(V()), h).None? && callbackOk
      ensures ok ==> && V() == AfterAdd(old(V()), h, true) && mutationGeneration == old(mutationGeneration) + 1
                     && out == txn[|blocks| := blocks[|blocks|-1]]
      ensures !ok ==> V() == old(V()) && mutationGeneration == old(mutationGeneration)
    {
      out := txn;
      if h.hash == [] || (tipBlockIndex >= 1 && h.prevHash == []) {
        return false, out;
      }
      if headers != [] && h.hash != headers[0].hash {
        return false, out;
      }
      if tipBlockIndex >= 1 && h.prevHash != currentTip.value.hash {
        return false, out;
      }
      var b := Block(tipBlockIndex + 1, h);
      out := out[b.id := b];
      if !callbackOk {
        return false, out;
      }
      headers := if headers != [] then headers[1..] else [];
      blocks := blocks + [b];
      currentTip := Some(h);
      tipBlockIndex := b.id;
      mutationGeneration := mutationGeneration + 1;
      return true, out;
    }

    /** One batch in one transaction: all of it in memory and store, or nothing anywhere. */
    method AddBatch(batch: seq<Header>, failAt: nat, commitOk: bool) returns (ok: bool)
      requires Valid() && Holds(store, blocks)
      modifies this
      ensures Valid() && Holds(store, blocks)
      ensures ok <==> commitOk && ApplyAll(old(V()), batch, true, failAt).Some?
      ensures ok ==> && V() == ApplyAll(old(V()), batch, true, failAt).value
                     && mutationGeneration == old(mutationGeneration) + |batch|
      ensures !ok ==> && V() == old(V()) && mutationGeneration == old(mutationGeneration)
                      && store == old(store)
      ensures 0 < |batch| <= BATCH_SIZE ==>
                Sys(Mem(V(), mutationGeneration), store, Idle) ==
                Undisturbed(old(Sys(Mem(V(), mutationGeneration), store, Idle)), batch, failAt, commitOk)
    {
      hide RawVerdict, ApplyAll, Holds, Undisturbed;
      ghost var sys := Sys(Mem(V(), mutationGeneration), store, Idle);
      if 0 < |batch| <= BATCH_SIZE { UndisturbedIs(sys, batch, failAt, commitOk); }
      var savedHeaders, savedTip, savedIndex, savedGeneration := headers, currentTip, tipBlockIndex, mutationGeneration;
      ghost var start := V();
      var txn := store;
      var i := 0;
      NothingApplied(start, batch, failAt);
      while i < |batch|
        invariant 0 <= i <= |batch|
        invariant Valid() && Holds(txn, blocks) && store == old(store)
        invariant ApplyAll(start, batch[..i], true, failAt) == Some(V())
        invariant mutationGeneration == savedGeneration + i
      {
        ghost var before := V();
        var added;
        ghost var held := txn;
        added, txn := AddRawBlock(batch[i], failAt != i, txn);
        OneMore(start, batch, failAt, i, before);
        if !added {
          RejectedPrefix(start, batch, failAt, i + 1);
          headers, currentTip, tipBlockIndex, mutationGeneration := savedHeaders, savedTip, savedIndex, savedGeneration;
          blocks := start.blocks;
          return false;
        }
        HoldsOneMore(held, before, batch[i]);
        i := i + 1;
      }
      assert batch[..i] == batch;
      if !commitOk {
        headers, currentTip, tipBlockIndex, mutationGeneration := savedHeaders, savedTip, savedIndex, savedGeneration;
        blocks := start.blocks;
        return false;
      }
      store := txn;
      if 0 < |batch| <= BATCH_SIZE { HoldsUnique(store, Undisturbed(sys, batch, failAt, commitOk).store, blocks); }
      return true;
    }

    /** A long import in batches of 50: it stops at the first failing batch, with exactly the
        batches before it stored and in memory. */
    method AddRawBlocks(ghost w: World, all: seq<Header>, failAt: nat -> nat, commitOk: nat -> bool) returns (done: nat, ok: bool)
      requires Valid() && Holds(store, blocks) && WellFormed(w, V()) && MayApply(w, V(), all)
      modifies this
      ensures Valid() && Holds(store, blocks) && WellFormed(w, V())
      ensures done <= |all| && (done % 50 == 0 || done == |all|)
      ensures ok <==> done == |all|
      ensures !ok ==> !commitOk(done) || ApplyAll(V(), NextBatch(all, done), true, failAt(done)).None?
      ensures blocks == old(blocks) + Records(|old(blocks)|, all[..done])
      ensures mutationGeneration == old(mutationGeneration) + done
    {
      hide WellFormed, Legit, ApplyAll, Holds, Records, HeaderTip, NextBatch;
      done := 0;
      NoRecords(blocks);
      while done < |all|
        invariant done <= |all| && (done % BATCH_SIZE == 0 || done == |all|)
        invariant Valid() && Holds(store, blocks) && WellFormed(w, V())
        invariant blocks == old(blocks) + Records(|old(blocks)|, all[..done])
        invariant mutationGeneration == old(mutationGeneration) + done
        invariant done == 0 ==> V() == old(V())
      {
        var batch := NextBatch(all, done);
        ghost var before := V();
        if done > 0 { TipAfterRecords(V(), old(blocks), all[..done]); }
        var added := AddBatch(batch, failAt(done), commitOk(done));
        if !added {
          return done, false;
        }
        ApplyAllExtends(w, before, batch, true, failAt(done));
        JoinRecords(old(blocks), all, done, done + |batch|);
        done := done + |batch|;
      }
      return done, true;
    }
  }

  function NextBatch(all: seq<Header>, done: nat): (r: seq<Header>)
    requires done <= |all|
    ensures |r| <= BATCH_SIZE && done + |r| <= |all| && r == all[done..done+|r|]
    ensures done + |r| < |all| ==> |r| == BATCH_SIZE
  {
    if |all| - done < BATCH_SIZE then all[done..] else all[done..done+BATCH_SIZE]
  }

  lemma NothingApplied(v: View, batch: seq<Header>, failAt: nat)
    ensures ApplyAll(v, batch[..0], true, failAt) == Some(v)
  {
  }

  lemma OneMore(v: View, batch: seq<Header>, failAt: nat, i: nat, u: View)
    requires i < |batch| && ApplyAll(v, batch[..i], true, failAt) == Some(u)
    ensures ApplyAll(v, batch[..i+1], true, failAt) ==
            if RawVerdict(u, batch[i]).None? && failAt != i then Some(AfterAdd(u, batch[i], true)) else None
  {
    hide RawVerdict, AfterAdd;
    assert batch[..i+1][..i] == batch[..i];
  }

  lemma HoldsOneMore(rows: map<nat, Block>, u: View, h: Header)
    requires Holds(rows, u.blocks)
    ensures var c := AfterAdd(u, h, true).blocks; Holds(rows[|c| := c[|c|-1]], c)
  {
  }

  lemma {:induction false} RejectedPrefix(v: View, batch: seq<Header>, failAt: nat, n: nat)
    requires n <= |batch| && ApplyAll(v, batch[..n], true, failAt).None?
    ensures ApplyAll(v, batch, true, failAt).None?
    decreases |batch| - n
  {
    hide RawVerdict, AfterAdd;
    if n < |batch| {
      assert batch[..n+1][..n] == batch[..n];
      RejectedPrefix(v, batch, failAt, n + 1);
    } else {
      assert batch[..n] == batch;
    }
  }

  lemma NoRecords(c: seq<Block>)
    ensures c + Records(|c|, []) == c
  {
  }

  lemma TipAfterRecords(v: View, c: seq<Block>, hs: seq<Header>)
    requires hs != [] && v.blocks == c + Records(|c|, hs)
    ensures HeaderTip(v).Some?
  {
  }

  lemma JoinRecords(c: seq<Block>, all: seq<Header>, a: nat, b: nat)
    requires a <= b <= |all|
    ensures var one := c + Records(|c|, all[..a]);
            one + Records(|one|, all[a..b]) == c + Records(|c|, all[..b])
  {
  }
}
