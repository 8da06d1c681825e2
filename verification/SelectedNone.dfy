/** The worker that retries "no peer selected" transitions while a lifecycle operation holds
    the lock (node_chainsync_recycler.go): a coalescing slot, a flag, and a wake channel that
    holds one token. */
module SelectedNone {
  import opened Blocks

  const INITIAL_RETRY_MS := 10
  const MAX_RETRY_MS := 1000

  type Event = nat

  datatype Lock = Free | Elsewhere | WithWorker

  /** Where the worker is; the interval is the one it would sleep next. */
  datatype Worker =
    | NotStarted
    | Parked
    | Checking(retry: nat)
    | Trying(retry: nat)
    | Sleeping(retry: nat)
    | Taking
    | Handling(event: Event)
    | Exited

  datatype Sys = Sys(
    pending: Event, pendingSet: bool, token: bool, worker: Worker, lock: Lock, cancelled: bool,
    sending: nat,            // deferrers that have set the slot and not yet sent
    fails: nat,              // failed attempts at the lock in this contention
    deferred: seq<Event>,    // every transition deferred so far
    marks: seq<nat>,         // how many had been deferred at each take
    handled: seq<Event>)

  datatype Action =
    | Start
    | SetPending(e: Event)
    | Send
    | WorkerStep
    | TakeLock
    | ReleaseLock
    | Cancel
    | Exit

  const INIT := Sys(0, false, false, NotStarted, Free, false, 0, 0, [], [], [])

  function NextRetry(current: nat, lockAcquired: bool): nat {
    if lockAcquired then INITIAL_RETRY_MS
    else if current >= MAX_RETRY_MS / 2 then MAX_RETRY_MS
    else 2 * current
  }

  predicate Enabled(s: Sys, a: Action) {
    match a
    case Start => s.worker.NotStarted?
    case Send => s.sending > 0
    case WorkerStep => !s.worker.NotStarted? && !s.worker.Exited? && (s.worker.Parked? ==> s.token)
    case TakeLock => s.lock.Free?
    case ReleaseLock => s.lock.Elsewhere?
    case Exit => s.cancelled && (s.worker.Parked? || s.worker.Sleeping?)
    case _ => true
  }

  function Step(s: Sys, a: Action): Sys
    requires Enabled(s, a)
  {
    match a
    case Start => s.(worker := Parked)
    case SetPending(e) =>
      s.(pending := e, pendingSet := true, deferred := s.deferred + [e],
         sending := if s.worker.NotStarted? then s.sending else s.sending + 1)
    case Send => s.(token := true, sending := s.sending - 1)
    case WorkerStep => Worked(s)
    case TakeLock => s.(lock := Elsewhere)
    case ReleaseLock => s.(lock := Free)
    case Cancel => s.(cancelled := true)
    case Exit => s.(worker := Exited)
  }

  /** The worker's next move. */
  function Worked(s: Sys): Sys
    requires Enabled(s, WorkerStep)
  {
    match s.worker
    case Parked => s.(token := false, worker := Checking(INITIAL_RETRY_MS), fails := 0)
    case Checking(r) => if s.pendingSet then s.(worker := Trying(r)) else s.(worker := Parked)
    case Trying(r) =>
      if s.lock.Free? then s.(lock := WithWorker, worker := Taking, fails := 0)
      else s.(worker := Sleeping(r), fails := s.fails + 1)
    case Sleeping(r) => s.(worker := Checking(NextRetry(r, false)))
    case Taking => s.(pendingSet := false, worker := Handling(s.pending), marks := s.marks + [|s.deferred|])
    case Handling(e) => s.(lock := Free, worker := Checking(NextRetry(INITIAL_RETRY_MS, true)), handled := s.handled + [e])
  }

  // ----- the retry interval -----

  function Doubled(n: nat): nat {
    if n == 0 then INITIAL_RETRY_MS else 2 * Doubled(n - 1)
  }

  /** The interval after n failed attempts: doubling from 10ms, capped at one second. */
  function Backoff(n: nat): nat {
    if Doubled(n) < MAX_RETRY_MS then Doubled(n) else MAX_RETRY_MS
  }

  lemma {:induction false} DoubledAtLeast(n: nat)
    ensures INITIAL_RETRY_MS <= Doubled(n)
  {
    if n > 0 { DoubledAtLeast(n - 1); }
  }

  lemma RetryFollowsBackoff(n: nat)
    ensures NextRetry(Backoff(n), false) == Backoff(n + 1)
    ensures Backoff(0) == 10 && 10 <= Backoff(n) <= 1000
    ensures Backoff(n + 1) == if 2 * Backoff(n) < 1000 then 2 * Backoff(n) else 1000
    ensures NextRetry(Backoff(n), true) == 10
  {
    DoubledAtLeast(n);
  }

  // ----- what every interleaving keeps -----

  function LastMark(s: Sys): nat {
    if s.marks == [] then 0 else s.marks[|s.marks|-1]
  }

  /** A pending transition is never stranded: the parked worker has a token or one is coming. */
  predicate Covered(s: Sys) {
    s.pendingSet && (s.worker.Parked? || s.worker.NotStarted?) ==> s.token || s.sending > 0
  }

  /** The slot holds the newest transition, and is set exactly when one came after the last take. */
  predicate Newest(s: Sys) {
    && (s.pendingSet ==> s.deferred != [] && s.pending == s.deferred[|s.deferred|-1])
    && (s.pendingSet <==> LastMark(s) < |s.deferred|)
    && LastMark(s) <= |s.deferred|
  }

  /** Takes are in order and none repeats; each transition taken was the newest at its take. */
  predicate InOrder(deferred: seq<Event>, marks: seq<nat>, taken: seq<Event>) {
    && |taken| == |marks|
    && (forall i :: 0 <= i < |marks| ==> 0 < marks[i] <= |deferred|)
    && (forall i, j :: 0 <= i < j < |marks| ==> marks[i] < marks[j])
    && (forall i :: 0 <= i < |marks| ==> taken[i] == deferred[marks[i]-1])
  }

  /** The transitions handled, and the one in hand. */
  function Taken(s: Sys): seq<Event> {
    if s.worker.Handling? then s.handled + [s.worker.event] else s.handled
  }

  predicate Ordered(s: Sys) {
    InOrder(s.deferred, s.marks, Taken(s))
  }

  predicate Exclusive(s: Sys) {
    && (s.lock.WithWorker? <==> s.worker.Taking? || s.worker.Handling?)
    && (s.worker.Trying? || s.worker.Taking? || s.worker.Sleeping? ==> s.pendingSet)
    && (s.worker.NotStarted? ==> !s.token && s.sending == 0)
  }

  predicate Paced(s: Sys) {
    match s.worker
    case Checking(r) => r == Backoff(s.fails)
    case Trying(r) => r == Backoff(s.fails)
    case Sleeping(r) => s.fails > 0 && r == Backoff(s.fails - 1)
    case Taking => s.fails == 0
    case Handling(_) => s.fails == 0
    case _ => true
  }

  predicate Inv(s: Sys) {
    Covered(s) && Newest(s) && Ordered(s) && Exclusive(s) && Paced(s)
  }

  lemma StepKeepsNewest(s: Sys, a: Action)
    requires Newest(s) && Exclusive(s) && Enabled(s, a)
    ensures Newest(Step(s, a)) && Exclusive(Step(s, a))
  {
  }

  lemma DeferKeepsOrder(deferred: seq<Event>, marks: seq<nat>, handled: seq<Event>, e: Event)
    requires InOrder(deferred, marks, handled)
    ensures InOrder(deferred + [e], marks, handled)
  {
  }

  lemma TakeKeepsOrder(deferred: seq<Event>, marks: seq<nat>, taken: seq<Event>)
    requires InOrder(deferred, marks, taken) && deferred != []
    requires marks == [] || marks[|marks|-1] < |deferred|
    ensures InOrder(deferred, marks + [|deferred|], taken + [deferred[|deferred|-1]])
  {
  }

  lemma StepKeepsOrdered(s: Sys, a: Action)
    requires Newest(s) && Ordered(s) && Exclusive(s) && Enabled(s, a)
    ensures Ordered(Step(s, a))
  {
    hide InOrder;
    match a
    case SetPending(e) => DeferKeepsOrder(s.deferred, s.marks, Taken(s), e);
    case WorkerStep => if s.worker.Taking? { TakeKeepsOrder(s.deferred, s.marks, Taken(s)); }
    case _ =>
  }

  lemma StepKeepsPaced(s: Sys, a: Action)
    requires Paced(s) && Enabled(s, a)
    ensures Paced(Step(s, a))
  {
    if s.worker.Sleeping? { RetryFollowsBackoff(s.fails - 1); }
  }

  /** A deferral that arrives before the worker exists finds no channel to send on. */
  predicate TooEarly(s: Sys, a: Action) {
    a.SetPending? && s.worker.NotStarted?
  }

  /** No wakeup is lost by any step, except by deferring before the worker has started. */
  lemma CoveredKeptIff(s: Sys, a: Action)
    requires Covered(s) && Exclusive(s) && Enabled(s, a)
    ensures Covered(Step(s, a)) <==> !TooEarly(s, a)
  {
  }

  lemma StepKeepsInv(s: Sys, a: Action)
    requires Inv(s) && Enabled(s, a) && !TooEarly(s, a)
    ensures Inv(Step(s, a))
  {
    hide Covered, Newest, Ordered, Exclusive, Paced, Step;
    CoveredKeptIff(s, a);
    StepKeepsNewest(s, a);
    StepKeepsOrdered(s, a);
    StepKeepsPaced(s, a);
  }

  // ----- whole runs -----

  function Run(acts: seq<Action>): Option<Sys> {
    if acts == [] then Some(INIT)
    else match Run(acts[..|acts|-1])
      case None => None
      case Some(s) => if Enabled(s, acts[|acts|-1]) then Some(Step(s, acts[|acts|-1])) else None
  }

  predicate StartsFirst(acts: seq<Action>) {
    forall i :: 0 <= i < |acts| && acts[i].SetPending? ==> Start in acts[..i]
  }

  lemma {:induction false} StartedStays(acts: seq<Action>)
    requires Run(acts).Some? && Start in acts
    ensures !Run(acts).value.worker.NotStarted?
  {
    var init, last := acts[..|acts|-1], acts[|acts|-1];
    if last != Start {
      StartedStays(init);
    }
  }

  /** Every interleaving of deferrers, lifecycle operations, cancellation and the worker. */
  lemma {:induction false} RunKeepsInv(acts: seq<Action>)
    requires Run(acts).Some? && StartsFirst(acts)
    ensures Inv(Run(acts).value)
  {
    hide Inv, Step;
    if acts == [] {
      InitInv();
    } else {
      var init, last := acts[..|acts|-1], acts[|acts|-1];
      assert forall i :: 0 <= i < |init| ==> init[..i] == acts[..i];
      RunKeepsInv(init);
      if last.SetPending? {
        assert acts[..|acts|-1] == init && Start in init;
        StartedStays(init);
      }
      StepKeepsInv(Run(init).value, last);
    }
  }

  lemma InitInv()
    ensures Inv(INIT)
  {
  }

  predicate Settled(s: Sys) {
    !s.pendingSet && !s.worker.Handling?
  }

  /** When nothing is pending or in hand, the newest transition deferred is the last handled. */
  lemma SettledMeansHandled(s: Sys)
    requires Inv(s) && Settled(s) && s.deferred != []
    ensures s.handled != [] && s.handled[|s.handled|-1] == s.deferred[|s.deferred|-1]
  {
  }

  /** No transition is handled twice and none is handled that was not deferred. */
  lemma HandledOnce(s: Sys, i: nat, j: nat)
    requires Inv(s) && i < j < |s.handled|
    ensures s.marks[i] < s.marks[j] <= |s.deferred|
    ensures s.handled[i] == s.deferred[s.marks[i]-1] && s.handled[j] == s.deferred[s.marks[j]-1]
  {
  }

  /** A deferral before the worker starts is stranded until another one arrives. */
  lemma EarlyDeferralIsStranded(e: Event)
    ensures var s := Run([SetPending(e), Start]);
            s.Some? && s.value.pendingSet && s.value.worker.Parked? && !Enabled(s.value, WorkerStep) && !Enabled(s.value, Send)
  {
    var acts := [SetPending(e), Start];
    assert acts[..1] == [SetPending(e)] && acts[..1][..0] == [];
    assert Run([]) == Some(INIT);
    assert Run(acts[..1]) == Some(Step(INIT, SetPending(e)));
  }

  // ----- progress -----

  /** Moves left until the pending transition has been handled. */
  function Distance(s: Sys): nat {
    match s.worker
    case Handling(_) => if s.pendingSet then 5 else 1
    case Parked => if s.pendingSet then 5 else 0
    case Sleeping(_) => 5
    case Checking(_) => if s.pendingSet then 4 else 0
    case Trying(_) => 3
    case Taking => 2
    case _ => 0
  }

  predicate CanProceed(s: Sys) {
    && !s.worker.NotStarted? && !s.worker.Exited?
    && !s.lock.Elsewhere? && s.sending == 0
  }

  function Advance(s: Sys, n: nat): Sys
    decreases n
  {
    if n == 0 || !Enabled(s, WorkerStep) then s else Advance(Worked(s), n - 1)
  }

  lemma OneMove(s: Sys)
    requires Inv(s) && CanProceed(s) && Distance(s) > 0
    ensures Enabled(s, WorkerStep) && CanProceed(Worked(s)) && Distance(Worked(s)) == Distance(s) - 1
  {
  }

  /** Once lifecycle operations let go of the lock and no deferrer is half-way, at most five
      moves of the worker handle the newest transition. */
  lemma {:induction false} Drains(s: Sys)
    requires Inv(s) && CanProceed(s)
    ensures Distance(s) <= 5
    ensures var t := Advance(s, Distance(s));
            Settled(t) && t.deferred == s.deferred && (s.deferred != [] ==> t.handled != [] && t.handled[|t.handled|-1] == s.deferred[|s.deferred|-1])
    decreases Distance(s)
  {
    hide Inv;
    if Distance(s) > 0 {
      OneMove(s);
      StepKeepsInv(s, WorkerStep);
      Drains(Worked(s));
    } else {
      AtRest(s);
    }
  }

  lemma AtRest(s: Sys)
    requires Inv(s) && CanProceed(s) && Distance(s) == 0
    ensures Settled(s)
    ensures s.deferred != [] ==> s.handled != [] && s.handled[|s.handled|-1] == s.deferred[|s.deferred|-1]
  {
    if s.deferred != [] { SettledMeansHandled(s); }
  }

  // ----- the slot and one pass of the worker, undisturbed -----

  class Slot {
    var pending: Event
    var pendingSet: bool
    var token: bool

    /** The slot as the machine sees it. */
    ghost predicate Shows(s: Sys)
      reads this
    {
      s.pending == pending && s.pendingSet == pendingSet && s.token == token
    }

    /** A deferral is the machine's two steps, setting the slot and sending the token: it keeps
        everything every run keeps, and the transition is now the newest one waiting. */
    method Defer(e: Event, ghost s: Sys) returns (ghost t: Sys)
      requires Shows(s) && Inv(s) && !s.worker.NotStarted?
      modifies this
      ensures t == Step(Step(s, SetPending(e)), Send)
      ensures Shows(t) && Inv(t) && t.deferred == s.deferred + [e] && t.pending == e && t.pendingSet && t.token
    {
      hide Inv;
      StepKeepsInv(s, SetPending(e));
      StepKeepsInv(Step(s, SetPending(e)), Send);
      t := Step(Step(s, SetPending(e)), Send);
      pending := e;
      pendingSet := true;
      if !token {
        token := true;
      }
    }

    /** One wake of the worker, the lock being held elsewhere for the first `busy` attempts:
        the newest transition is taken once, after the backed-off sleeps and no others. */
    method Drain(busy: nat) returns (slept: seq<nat>, taken: seq<Event>)
      requires token
      modifies this
      ensures !token && !pendingSet && pending == old(pending)
      ensures taken == if old(pendingSet) then [old(pending)] else []
      ensures |slept| == if old(pendingSet) then busy else 0
      ensures forall i :: 0 <= i < |slept| ==> slept[i] == Backoff(i)
    {
      token := false;
      slept, taken := [], [];
      var retry, attempts := INITIAL_RETRY_MS, 0;
      while pendingSet
        invariant !token && pending == old(pending)
        invariant pendingSet ==> old(pendingSet) && taken == [] && retry == Backoff(|slept|) && |slept| == attempts <= busy
        invariant !pendingSet ==> taken == (if old(pendingSet) then [old(pending)] else []) && |slept| == (if old(pendingSet) then busy else 0)
        invariant forall i :: 0 <= i < |slept| ==> slept[i] == Backoff(i)
        decreases if pendingSet then 1 + busy - attempts else 0
      {
        if attempts < busy {
          attempts := attempts + 1;
          RetryFollowsBackoff(|slept|);
          slept := slept + [retry];
          retry := NextRetry(retry, false);
        } else {
          retry := NextRetry(retry, true);
          taken := taken + [pending];
          pendingSet := false;
        }
      }
    }
  }
}
