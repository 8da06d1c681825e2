/** The data-directory swap of a live restore and the startup reconciliation meant to make it
    crash-safe (node_lifecycle.go). Names and contents are kept apart: what is deleted inside a
    directory is gone at once, under whatever name it is found later, while a changed name is
    certain only once the parent directory has been synced. Power loss therefore brings back the
    names of some earlier moment since the last sync, over the contents of now. */
module RestoreSwap {
  import opened Blocks

  /** A directory, whatever name it goes by. */
  type Id = nat

  datatype Dir = Data | Backup | Staging

  datatype Namespace = Namespace(data: Option<Id>, backup: Option<Id>, staging: Option<Id>) {
    function At(d: Dir): Option<Id> {
      match d
      case Data => data
      case Backup => backup
      case Staging => staging
    }

    function With(d: Dir, o: Option<Id>): Namespace {
      match d
      case Data => this.(data := o)
      case Backup => this.(backup := o)
      case Staging => this.(staging := o)
    }

    function Moved(src: Dir, dst: Dir): Namespace {
      With(dst, At(src)).With(src, None)
    }

    /** The directory startup will open. */
    function Home(): Option<Id> {
      if data.Some? then data else backup
    }

    predicate Distinct() {
      && (data.Some? ==> data != backup && data != staging)
      && (backup.Some? ==> backup != staging)
    }

    predicate Below(next: Id) {
      && (data.Some? ==> data.value < next)
      && (backup.Some? ==> backup.value < next)
      && (staging.Some? ==> staging.value < next)
    }
  }

  /** What startup makes of the three names. */
  function Reconciled(ns: Namespace): Namespace {
    if ns.backup.None? then ns
    else if ns.data.None? then ns.Moved(Backup, Data).With(Staging, None)
    else ns.With(Staging, None)
  }

  /** An intact database that has come up before. */
  predicate Proven(o: Option<Id>, up: set<Id>, broken: set<Id>) {
    o.Some? && o.value in up && o.value !in broken
  }

  /** Startup finds an intact database to open, and one that has come up before is still there,
      either as that one or as its backup. */
  predicate Good(ns: Namespace, up: set<Id>, broken: set<Id>) {
    var r := Reconciled(ns);
    && r.data.Some? && r.data.value !in broken
    && (Proven(r.data, up, broken) || Proven(r.backup, up, broken))
  }

  lemma GoodGrows(ns: Namespace, up: set<Id>, more: set<Id>, broken: set<Id>)
    requires Good(ns, up, broken) && up <= more
    ensures Good(ns, more, broken)
  {
  }

  datatype Removal = Gone | Damaged | Untouched

  datatype SwapResult = Swapped | Failed | Unrecoverable

  /** How the operating system answers each call of one swap. */
  datatype SwapFaults = SwapFaults(
    clearBackup: Removal,
    moveAside: bool, syncAside: bool, undoAside: bool, syncUndoAside: bool,
    activate: bool, undoActivate: bool, syncUndoActivate: bool, syncActive: bool)

  datatype Drain = Drained | Errored | Unconfirmed

  datatype RestoreFaults = RestoreFaults(
    clearStaging: Removal, quiesce: Drain, close: Drain,
    staged: bool, dropStaging: Removal, rollbackPending: bool,
    swap: SwapFaults, remoteRollback: bool, resume: bool, dropBackup: Removal)

  /** How a startup goes, and how many file-system steps the process gets before it dies. */
  datatype StartFaults = StartFaults(
    steps: nat,
    statBackup: bool, statData: bool, rollBack: bool, syncRollBack: bool, dropStaging: Removal,
    comesUp: bool, statConfirmed: bool, dropBackup: Removal)

  // ----- what each call does -----

  /** The disk as a running process leaves it: the names it sees, those since the last sync that
      power loss could bring back, the directories that are incomplete or damaged, those that
      have come up as a database, the steps left before the process dies (at zero nothing has
      any effect), and the first directory not created yet. */
  datatype State = State(ns: Namespace, past: seq<Namespace>, broken: set<Id>, up: set<Id>, steps: nat, next: Id) {
    function Wrote(ns': Namespace): State
      requires steps > 0
    {
      this.(ns := ns', past := past + [ns], steps := steps - 1)
    }

    /** The same disk under a process that will die after m steps. */
    function Capped(m: nat): State {
      this.(steps := m)
    }

    /** A rename may replace an emptied directory, never one that still holds a database. */
    predicate Free(d: Dir) {
      ns.At(d).None? || ns.At(d).value in broken
    }

    function Renamed(src: Dir, dst: Dir, works: bool): (State, bool) {
      if steps > 0 && works && ns.At(src).Some? && Free(dst) then (Wrote(ns.Moved(src, dst)), true) else (this, false)
    }

    /** A sync that succeeds makes every name so far certain, one that fails none. */
    function Synced(works: bool): (State, bool) {
      if steps == 0 then (this, false)
      else (this.(past := if works then [] else past, steps := steps - 1), works)
    }

    /** Recursive removal: the contents go first, the name last, and it may stop anywhere. */
    function Removed(d: Dir, r: Removal): State {
      if steps == 0 || ns.At(d).None? || r == Untouched then this
      else
        var worn := this.(broken := broken + {ns.At(d).value}, steps := steps - 1);
        if worn.steps == 0 || r == Damaged then worn else worn.Wrote(ns.With(d, None))
    }

    /** The node tries to start on the active directory. */
    function Started(works: bool): (State, bool) {
      if steps == 0 then (this, false)
      else
        var proved := if works && ns.data.Some? && ns.data.value !in broken then up + {ns.data.value} else up;
        (this.(up := proved, steps := steps - 1), works)
    }

    // ----- the swap -----

    function Undone(works: bool, sync: bool): (State, SwapResult) {
      var (s, ok) := Renamed(Backup, Data, works);
      if ok then (s.Synced(sync).0, Failed) else (s, Unrecoverable)
    }

    function Activated(f: SwapFaults): (State, SwapResult) {
      var (s, ok) := Renamed(Staging, Data, f.activate);
      if !ok then s.Undone(f.undoActivate, f.syncUndoActivate)
      else
        var (t, synced) := s.Synced(f.syncActive);
        (t, if synced then Swapped else Failed)
    }

    function SetAside(f: SwapFaults): (State, bool) {
      Removed(Backup, f.clearBackup).Renamed(Data, Backup, f.moveAside)
    }

    /** Move the staged database into place, the original being kept as backup. */
    function Swap(f: SwapFaults): (State, SwapResult) {
      var (s, moved) := SetAside(f);
      if !moved then (s, Failed)
      else
        var (t, synced) := s.Synced(f.syncAside);
        if synced then t.Activated(f) else t.Undone(f.undoAside, f.syncUndoAside)
    }

    // ----- startup -----

    function ReconciledBy(i: StartFaults): (State, bool) {
      if !i.statBackup then (this, false)
      else if ns.backup.None? then (this, true)
      else if ns.data.None? then
        var (s, moved) := Renamed(Backup, Data, i.rollBack);
        if !moved then (s, false)
        else
          var (t, synced) := s.Synced(i.syncRollBack);
          if synced then (t.Removed(Staging, i.dropStaging), true) else (t, false)
      else if !i.statData then (this, false)
      else (Removed(Staging, i.dropStaging), true)
    }

    /** Reconcile, start, and only then give up the backup. */
    function Booted(i: StartFaults): (State, bool) {
      var (s, ok) := ReconciledBy(i);
      if !ok then (s, false)
      else
        var (t, running) := s.Started(i.comesUp);
        (if running && i.statConfirmed then t.Removed(Backup, i.dropBackup) else t, running)
    }

    // ----- a live restore -----

    /** Restore into a new directory; it is a database only once that completes. */
    function Staged(completes: bool): State {
      if steps == 0 then this
      else
        var s := Wrote(ns.With(Staging, Some(next))).(next := next + 1);
        if s.steps == 0 || !completes then s.(broken := broken + {next}) else s.(steps := s.steps - 1)
    }

    /** What follows a staged candidate: swap, start on what is in place, drop the backup. */
    function Finished(f: RestoreFaults): (State, bool) {
      var (s, swapped) := Swap(f.swap);
      if swapped.Swapped? then
        var (t, running) := s.Started(f.resume);
        (if running then t.Removed(Backup, f.dropBackup) else t, running)
      else if !f.remoteRollback || swapped.Unrecoverable? then (s, false)
      else s.Started(f.resume)
    }

    function Restored(f: RestoreFaults): (State, bool) {
      var s := Removed(Staging, f.clearStaging);
      if f.clearStaging != Gone then (s, true)
      else if f.quiesce == Unconfirmed || (f.quiesce == Drained && f.close == Unconfirmed) then (s, false)
      else if f.quiesce == Errored || f.close == Errored then s.Started(f.resume)
      else
        var t := s.Staged(f.staged);
        if f.staged then t.Finished(f)
        else
          var u := t.Removed(Staging, f.dropStaging);
          if f.rollbackPending then (u, false) else u.Started(f.resume)
    }

    /** Power returns: the disk shows the names of some moment since the last sync. */
    function Rebooted(k: nat): State {
      this.(ns := if k < |past| then past[k] else ns, past := [])
    }
  }

  // ----- what is kept -----

  /** Whatever a crash leaves, startup finds an intact database and a proven one is there. */
  ghost predicate Safe(s: State) {
    Good(s.ns, s.up, s.broken) && forall n :: n in s.past ==> Good(n, s.up, s.broken)
  }

  /** An activation that power loss would take back, finding what is now the backup. */
  predicate TakesBack(n: Namespace, ns: Namespace) {
    n.data.None? && n.backup.Some? && ns.data.Some? && n.backup == ns.backup
  }

  /** How an earlier namespace relates to the present one. */
  predicate Fits(n: Namespace, ns: Namespace, next: Id) {
    && n.Distinct() && n.Below(next)
    && (ns.staging.Some? ==> n.data != ns.staging && n.backup != ns.staging)
    && (n.Home() == ns.Home() || TakesBack(n, ns))
  }

  ghost predicate Tidy(s: State) {
    && s.ns.Distinct() && s.ns.Below(s.next)
    && (forall n :: n in s.past ==> Fits(n, s.ns, s.next))
    && (forall o :: o in s.broken ==> o < s.next)
  }

  ghost predicate Ready(s: State) {
    Safe(s) && Tidy(s)
  }

  /** Power loss would not change which database startup opens: no activation is in doubt. */
  ghost predicate Settled(s: State) {
    forall n :: n in s.past ==> n.Home() == s.ns.Home()
  }

  /** The process is dead, or runs on a database that has come up. */
  predicate OnProven(s: State) {
    s.steps > 0 ==> Proven(s.ns.data, s.up, s.broken)
  }

  /** The calls that change one thing at most. */
  lemma SyncKeeps(s: State, works: bool)
    requires Ready(s)
    ensures var (t, ok) := s.Synced(works); Ready(t) && (ok ==> t.past == [] && Settled(t)) && (!ok ==> t.past == s.past)
    ensures var (t, ok) := s.Synced(works); t == s.(past := t.past, steps := t.steps) && t.steps <= s.steps
  {
    hide Good, Fits;
  }

  lemma StartKeeps(s: State, works: bool)
    requires Ready(s)
    ensures var (t, ok) := s.Started(works); Ready(t) && (Settled(t) <==> Settled(s)) && s.up <= t.up
    ensures var (t, ok) := s.Started(works); t == s.(up := t.up, steps := t.steps) && t.steps <= s.steps
    ensures var (t, ok) := s.Started(works); ok && s.ns.data.Some? ==> Proven(t.ns.data, t.up, t.broken)
  {
    hide Fits;
    var t := s.Started(works).0;
    GoodGrows(s.ns, s.up, t.up, s.broken);
    forall n | n in s.past ensures Good(n, t.up, t.broken) {
      GoodGrows(n, s.up, t.up, s.broken);
    }
  }

  /** Damage to a directory that is neither active nor backup in a namespace leaves it good. */
  lemma ForeignDamage(n: Namespace, up: set<Id>, broken: set<Id>, o: Id)
    requires Good(n, up, broken) && n.data != Some(o) && n.backup != Some(o)
    ensures Good(n, up, broken + {o})
  {
  }

  lemma StageKeeps(s: State, completes: bool)
    requires Ready(s)
    ensures var t := s.Staged(completes);
            && Ready(t) && (Settled(t) <==> Settled(s)) && t.up == s.up && t.steps <= s.steps
            && t.ns.data == s.ns.data && t.ns.backup == s.ns.backup
            && (s.steps > 0 ==> t.ns.staging == Some(s.next))
            && (t.steps > 0 && completes ==> t.broken == s.broken && s.next !in t.broken)
            && (s.steps == 0 ==> t == s)
            && (s.ns.data.Some? ==> (s.ns.data.value in t.broken <==> s.ns.data.value in s.broken))
            && (s.ns.backup.Some? ==> (s.ns.backup.value in t.broken <==> s.ns.backup.value in s.broken))
  {
    var t := s.Staged(completes);
    if s.steps > 0 {
      ForeignDamage(s.ns, s.up, s.broken, s.next);
      forall n | n in s.past ensures Good(n, s.up, s.broken + {s.next}) {
        ForeignDamage(n, s.up, s.broken, s.next);
      }
      GoodByNames(s.ns, t.ns, t.up, t.broken);
      hide Good, Reconciled;
      assert Safe(t);
    }
  }

  lemma GoodByNames(n: Namespace, m: Namespace, up: set<Id>, broken: set<Id>)
    requires n.data == m.data && n.backup == m.backup
    ensures Good(n, up, broken) <==> Good(m, up, broken)
  {
  }

  lemma DropStagingKeeps(s: State, r: Removal)
    requires Ready(s)
    ensures var t := s.Removed(Staging, r);
            && Ready(t) && (Settled(t) <==> Settled(s)) && t.up == s.up && t.next == s.next && t.steps <= s.steps
            && t.ns.data == s.ns.data && t.ns.backup == s.ns.backup
            && (s.ns.data.Some? ==> (s.ns.data.value in t.broken <==> s.ns.data.value in s.broken))
            && (s.ns.backup.Some? ==> (s.ns.backup.value in t.broken <==> s.ns.backup.value in s.broken))
  {
    var t := s.Removed(Staging, r);
    if t != s {
      var o := s.ns.staging.value;
      ForeignDamage(s.ns, s.up, s.broken, o);
      forall n | n in s.past ensures Good(n, s.up, s.broken + {o}) {
        ForeignDamage(n, s.up, s.broken, o);
      }
      GoodByNames(s.ns, t.ns, t.up, t.broken);
      hide Good, Reconciled;
      assert Safe(t);
    }
  }

  /** Deleting the backup of a proven database is safe exactly when no activation is in doubt. */
  lemma DropBackupSafeIff(s: State, r: Removal)
    requires Ready(s) && OnProven(s)
    ensures var t := s.Removed(Backup, r);
            && (Safe(t) <==> Settled(s) || s.steps == 0 || r == Untouched)
            && (Safe(t) ==> Tidy(t) && (Settled(t) <==> Settled(s)))
            && t.up == s.up && t.next == s.next && t.steps <= s.steps && OnProven(t)
            && t.ns.data == s.ns.data && t.ns.staging == s.ns.staging
            && (t.steps > 0 && r != Untouched ==> t.Free(Backup)) && (t.steps > 0 && r == Gone ==> t.ns.backup.None?)
            && (r == Untouched || s.steps == 0 ==> t == s)
            && (s.ns.staging.Some? && s.ns.staging.value !in s.broken ==> s.ns.staging.value !in t.broken)
  {
    var t := s.Removed(Backup, r);
    if !Settled(s) && s.steps > 0 && r != Untouched {
      var n :| n in s.past && n.Home() != s.ns.Home();
      assert TakesBack(n, s.ns);
      assert n in t.past && !Good(n, t.up, t.broken);
    }
  }

  // ----- the swap -----

  /** Moving the original aside and back changes names only, not what startup opens. */
  lemma UndoKeeps(s: State, works: bool, sync: bool)
    requires Ready(s) && Settled(s) && (s.steps > 0 ==> s.ns.data.None?)
    ensures var (t, r) := s.Undone(works, sync);
            && Ready(t) && Settled(t) && t.up == s.up && t.broken == s.broken && t.steps <= s.steps && !r.Swapped?
            && (t.steps > 0 ==> if r.Unrecoverable? then !works && t.ns == s.ns else works && t.ns == s.ns.Moved(Backup, Data))
  {
    hide Safe, Tidy, Settled;
    RollBackKeeps(s, works);
    var (a, ok) := s.Renamed(Backup, Data, works);
    SyncKeeps(a, sync);
    hide Good;
    if ok && !a.Synced(sync).1 { SettledSame(a, a.Synced(sync).0); }
  }

  lemma SettledSame(s: State, t: State)
    requires t.ns == s.ns && t.past == s.past
    ensures Settled(t) <==> Settled(s)
  {
  }

  lemma RollBackKeeps(s: State, works: bool)
    requires Ready(s) && (s.steps > 0 ==> s.ns.data.None?)
    ensures var (t, ok) := s.Renamed(Backup, Data, works);
            && Ready(t) && (Settled(s) ==> Settled(t)) && t == s.(ns := t.ns, past := t.past, steps := t.steps) && t.steps <= s.steps
            && (ok ==> t.ns == s.ns.Moved(Backup, Data) && Proven(t.ns.data, t.up, t.broken))
            && (s.steps > 0 ==> (ok <==> works)) && (!ok ==> t == s)
  {
    var (t, ok) := s.Renamed(Backup, Data, works);
    if ok {
      hide Safe;
      assert Safe(t) by { SafeWrite(s, t.ns); }
    }
  }

  lemma SafeWrite(s: State, ns: Namespace)
    requires Safe(s) && s.steps > 0
    ensures Safe(s.Wrote(ns)) <==> Good(ns, s.up, s.broken)
  {
    hide Good;
  }

  /** The calls before the second rename all succeed. */
  predicate ReachesActivation(s: State, f: SwapFaults) {
    (f.clearBackup != Untouched || s.Free(Backup)) && f.moveAside && f.syncAside
  }

  /** No data directory is left in place. */
  predicate Strands(s: State, f: SwapFaults) {
    if ReachesActivation(s, f) then !f.activate && !f.undoActivate
    else (f.clearBackup != Untouched || s.Free(Backup)) && f.moveAside && !f.undoAside
  }

  /** After the second rename: the restored database active, the original set aside. */
  predicate InPlace(before: Namespace, after: Namespace) {
    after == Namespace(before.staging, before.data, None)
  }

  lemma ActivateKeeps(s: State, f: SwapFaults)
    requires Ready(s) && s.past == []
    requires s.steps > 0 ==> s.ns.data.None? && s.ns.staging.Some? && s.ns.staging.value !in s.broken
    ensures var (t, r) := s.Activated(f);
            && Ready(t) && t.up == s.up && t.broken == s.broken && t.steps <= s.steps && (r.Swapped? ==> t.past == [])
            && (t.steps > 0 ==>
                  if f.activate then
                    && t.ns == s.ns.Moved(Staging, Data) && !r.Unrecoverable?
                    && (r.Swapped? <==> f.syncActive) && (Settled(t) <==> f.syncActive)
                  else
                    && Settled(t) && !r.Swapped? && (r.Unrecoverable? <==> !f.undoActivate)
                    && t.ns == if f.undoActivate then s.ns.Moved(Backup, Data) else s.ns)
  {
    hide State.Undone;
    var (a, ok) := s.Renamed(Staging, Data, f.activate);
    if ok {
      assert Ready(a) && (a.steps > 0 ==> !Settled(a)) by {
        SafeWrite(s, a.ns);
        assert a.past == [s.ns];
        assert s.ns in a.past;
      }
      hide Good, Reconciled, Tidy, Safe, Settled;
      SyncKeeps(a, f.syncActive);
      SettledSame(a, a.Synced(false).0);
    } else {
      UndoKeeps(s, f.undoActivate, f.syncUndoActivate);
    }
  }

  /** Once the backup is out of the way no activation is in doubt, and the original can be
      moved aside. */
  lemma MoveAsideKeeps(s: State, works: bool)
    requires Ready(s) && OnProven(s)
    ensures var (t, moved) := s.Renamed(Data, Backup, works);
            && Ready(t) && t == s.(ns := t.ns, past := t.past, steps := t.steps) && t.steps <= s.steps
            && (moved ==> Settled(s) && Settled(t) && t.ns == s.ns.Moved(Data, Backup))
            && (!moved ==> t == s)
            && (s.steps > 0 ==> (moved <==> works && s.Free(Backup)))
            && (!Settled(s) ==> s.ns.backup.Some? && !s.Free(Backup))
  {
    var (t, moved) := s.Renamed(Data, Backup, works);
    if !Settled(s) {
      var n :| n in s.past && n.Home() != s.ns.Home();
      assert Good(n, s.up, s.broken);
    }
    if moved {
      assert Safe(t) by { SafeWrite(s, t.ns); }
    }
  }

  /** The swap from where nothing is in doubt, or with the backup left alone. A process that
      survives it is told exactly whether a database is in place; an ordinary failure leaves the
      original, except that when only the last sync fails the restored database is already
      active, and its activation is then in doubt. */
  lemma SwapOutcome(s: State, f: SwapFaults)
    requires Ready(s) && OnProven(s) && (s.steps > 0 ==> s.ns.staging.Some? && s.ns.staging.value !in s.broken)
    requires Settled(s) || s.steps == 0 || f.clearBackup == Untouched
    ensures var (t, r) := s.Swap(f);
            && Ready(t) && t.up == s.up && t.steps <= s.steps && (r.Swapped? ==> t.past == [])
            && (!Settled(s) ==> t == s && r.Failed?)
            && (Settled(s) && t.steps > 0 ==>
                  && (r.Unrecoverable? <==> t.ns.data.None?) && (r.Unrecoverable? <==> Strands(s, f))
                  && (r.Unrecoverable? ==> t.ns.backup == s.ns.data && t.ns.staging == s.ns.staging)
                  && (r.Swapped? <==> ReachesActivation(s, f) && f.activate && f.syncActive)
                  && (r.Swapped? ==> InPlace(s.ns, t.ns))
                  && (r.Failed? ==> (InPlace(s.ns, t.ns) <==> ReachesActivation(s, f) && f.activate))
                  && (r.Failed? && !InPlace(s.ns, t.ns) ==> t.ns.data == s.ns.data)
                  && (Settled(t) <==> !(ReachesActivation(s, f) && f.activate && !f.syncActive)))
  {
    hide Safe, Tidy, Settled, Good, State.Removed, State.Activated, State.Undone, Reconciled;
    DropBackupSafeIff(s, f.clearBackup);
    var a := s.Removed(Backup, f.clearBackup);
    MoveAsideKeeps(a, f.moveAside);
    var (b, moved) := a.Renamed(Data, Backup, f.moveAside);
    if moved {
      SyncKeeps(b, f.syncAside);
      var (c, synced) := b.Synced(f.syncAside);
      if synced { ActivateKeeps(c, f); } else { SettledSame(b, c); UndoKeeps(c, f.undoAside, f.syncUndoAside); }
    }
  }

  lemma SwapKeeps(s: State, f: SwapFaults)
    requires Ready(s) && OnProven(s) && (s.steps > 0 ==> s.ns.staging.Some? && s.ns.staging.value !in s.broken)
    requires Settled(s) || s.steps == 0 || f.clearBackup == Untouched
    ensures Ready(s.Swap(f).0)
  {
    hide Ready, Settled, Proven, State.Swap;
    SwapOutcome(s, f);
  }

  /** What the error kinds of the swap mean to its caller. */
  lemma SwapMeans(s: State, f: SwapFaults)
    requires Ready(s) && OnProven(s) && Settled(s) && (s.steps > 0 ==> s.ns.staging.Some? && s.ns.staging.value !in s.broken)
    ensures var (t, r) := s.Swap(f);
            t.steps > 0 ==>
              && (r.Unrecoverable? <==> t.ns.data.None?)
              && (InPlace(s.ns, t.ns) <==> ReachesActivation(s, f) && f.activate)
              && (r.Swapped? <==> InPlace(s.ns, t.ns) && Settled(t))
              && (r.Failed? && Settled(t) ==> t.ns.data == s.ns.data)
  {
    hide Ready, Settled, Proven, State.Swap, State.Free;
    SwapOutcome(s, f);
    var (t, r) := s.Swap(f);
    if t.steps > 0 && r.Unrecoverable? { assert !InPlace(s.ns, t.ns); }
  }

  /** Otherwise there is a moment at which power loss is not survived: once the contents of the
      backup are gone, until the sync after the first rename. */
  lemma SwapLoses(s: State, f: SwapFaults)
    requires Ready(s) && OnProven(s) && s.steps > 0 && !Settled(s) && f.clearBackup != Untouched
    ensures !Safe(s.Capped(1).Swap(f).0)
  {
    hide Safe, Tidy, Settled, Good, Reconciled;
    var a := s.Capped(1);
    assert Ready(a) && !Settled(a) by { CappedSame(s, 1); }
    DropBackupSafeIff(a, f.clearBackup);
  }

  lemma CappedSame(s: State, m: nat)
    ensures (Ready(s.Capped(m)) <==> Ready(s)) && (Settled(s.Capped(m)) <==> Settled(s)) && (Safe(s.Capped(m)) <==> Safe(s))
  {
    hide Good, Fits;
  }

  /** The swap survives power loss at every moment exactly when no earlier activation is in
      doubt, or it does not get to touch the backup. */
  lemma SwapSafeIff(s: State, f: SwapFaults)
    requires Ready(s) && OnProven(s) && (s.steps > 0 ==> s.ns.staging.Some? && s.ns.staging.value !in s.broken)
    ensures (forall m: nat :: m <= s.steps ==> Safe(s.Capped(m).Swap(f).0)) <==> Settled(s) || s.steps == 0 || f.clearBackup == Untouched
  {
    hide Safe, Tidy, Settled, Good, State.Swap;
    if Settled(s) || s.steps == 0 || f.clearBackup == Untouched {
      forall m: nat | m <= s.steps ensures Safe(s.Capped(m).Swap(f).0) {
        CappedSame(s, m);
        SwapOutcome(s.Capped(m), f);
      }
    } else {
      SwapLoses(s, f);
    }
  }

  // ----- startup -----

  lemma WithoutDataSettled(s: State)
    requires Tidy(s) && s.ns.data.None?
    ensures Settled(s)
  {
  }

  lemma ReadyNow(s: State)
    requires Ready(s)
    ensures Good(s.ns, s.up, s.broken) && s.ns.Distinct()
  {
  }

  /** Reconciliation survives power loss at every moment, settles nothing and unsettles nothing,
      and ends with what the reference says unless a call it depends on fails. */
  lemma ReconcileOutcome(s: State, i: StartFaults)
    requires Ready(s)
    ensures var (t, ok) := s.ReconciledBy(i);
            && Ready(t) && (Settled(t) <==> Settled(s)) && t.up == s.up && t.steps <= s.steps
            && (t.steps > 0 && ok ==>
                  && t.ns.data == Reconciled(s.ns).data && t.ns.backup == Reconciled(s.ns).backup
                  && t.ns.data.Some? && t.ns.data.value !in t.broken)
            && (t.steps > 0 ==> (ok <==> i.statBackup && (s.ns.backup.None? || if s.ns.data.None? then i.rollBack && i.syncRollBack else i.statData)))
            && (!ok ==> t.ns.backup == s.ns.backup || t.ns.data == s.ns.backup)
  {
    hide Safe, Tidy, Settled, State.Removed;
    ReadyNow(s);
    if i.statBackup && s.ns.backup.Some? {
      if s.ns.data.None? {
        WithoutDataSettled(s);
        RollBackKeeps(s, i.rollBack);
        var (a, moved) := s.Renamed(Backup, Data, i.rollBack);
        SyncKeeps(a, i.syncRollBack);
        var (b, synced) := a.Synced(i.syncRollBack);
        if !synced { SettledSame(a, b); }
        DropStagingKeeps(b, i.dropStaging);
      } else {
        DropStagingKeeps(s, i.dropStaging);
      }
    }
  }

  /** Startup gets as far as deleting the backup. */
  predicate ConfirmsBackup(s: State, i: StartFaults) {
    var (a, ok) := s.ReconciledBy(i);
    ok && a.steps > 1 && i.comesUp && i.statConfirmed && i.dropBackup != Untouched
  }

  /** A node that is up runs on a proven database, and until it is up the backup stays. */
  lemma BootOutcome(s: State, i: StartFaults)
    requires Ready(s) && (Settled(s) || !ConfirmsBackup(s, i))
    ensures var (t, running) := s.Booted(i);
            && Ready(t) && (Settled(t) <==> Settled(s)) && s.up <= t.up && t.steps <= s.steps && (running ==> OnProven(t))
            && (t.steps > 0 && running ==> t.ns.data == Reconciled(s.ns).data)
            && (t.steps > 0 && running && i.statConfirmed && i.dropBackup == Gone ==> t.ns.backup == None)
            && (t.steps > 0 && !running ==> t.up == s.up && (t.ns.backup == s.ns.backup || t.ns.data == s.ns.backup))
  {
    hide Safe, Tidy, Settled, Good, State.ReconciledBy, State.Removed;
    ReconcileOutcome(s, i);
    var (a, ok) := s.ReconciledBy(i);
    StartKeeps(a, i.comesUp);
    var (b, running) := a.Started(i.comesUp);
    if ok && running {
      DropBackupSafeIff(b, i.dropBackup);
    }
  }

  /** Removal costs the same number of steps whatever comes after. */
  lemma RemovedCapped(s: State, d: Dir, r: Removal, k: nat)
    requires 0 < k <= s.Removed(d, r).steps
    ensures var t := s.Removed(d, r); t.steps <= s.steps && s.Capped(s.steps - t.steps + k).Removed(d, r) == t.Capped(k)
  {
  }

  /** Startup can also be what destroys the only way back: the process died between the second
      rename and its sync, the next one comes up and confirms. */
  lemma BootLoses(s: State, i: StartFaults) returns (m: nat)
    requires Ready(s) && !Settled(s) && ConfirmsBackup(s, i)
    ensures m <= s.steps && !Safe(s.Capped(m).Booted(i).0)
  {
    hide Safe, Tidy, Settled, Good, State.Removed, Reconciled;
    if s.ns.data.None? { WithoutDataSettled(s); }
    UnsettledHasBackup(s);
    var a := s.Removed(Staging, i.dropStaging);
    RemovedCapped(s, Staging, i.dropStaging, 2);
    m := s.steps - a.steps + 2;
    DropStagingKeeps(s, i.dropStaging);
    CappedSame(a, 2);
    StartKeeps(a.Capped(2), true);
    DropBackupSafeIff(a.Capped(2).Started(true).0, i.dropBackup);
  }

  lemma UnsettledHasBackup(s: State)
    requires Tidy(s) && !Settled(s)
    ensures s.ns.backup.Some? && s.ns.data.Some?
  {
  }

  lemma ConfirmsCapped(s: State, i: StartFaults, m: nat)
    requires m <= s.steps && ConfirmsBackup(s.Capped(m), i)
    ensures ConfirmsBackup(s, i)
  {
  }

  /** Startup survives power loss at every moment exactly when no activation is in doubt or the
      backup is left alone. */
  lemma BootSafeIff(s: State, i: StartFaults)
    requires Ready(s)
    ensures (forall m: nat :: m <= s.steps ==> Safe(s.Capped(m).Booted(i).0)) <==> Settled(s) || !ConfirmsBackup(s, i)
  {
    hide Safe, Tidy, Settled, Good, State.Booted, ConfirmsBackup;
    if Settled(s) || !ConfirmsBackup(s, i) {
      forall m: nat | m <= s.steps ensures Safe(s.Capped(m).Booted(i).0) {
        CappedSame(s, m);
        if !Settled(s) && ConfirmsBackup(s.Capped(m), i) { ConfirmsCapped(s, i, m); }
        BootOutcome(s.Capped(m), i);
      }
    } else {
      var m := BootLoses(s, i);
    }
  }

  // ----- a live restore -----

  predicate Succeeds(s: State, f: SwapFaults) {
    ReachesActivation(s, f) && f.activate && f.syncActive
  }

  lemma FinishOutcome(s: State, f: RestoreFaults)
    requires Ready(s) && OnProven(s) && (s.steps > 0 ==> s.ns.staging.Some? && s.ns.staging.value !in s.broken)
    requires Settled(s) || s.steps == 0 || f.swap.clearBackup == Untouched
    ensures var (t, running) := s.Finished(f);
            && Ready(t) && s.up <= t.up && t.steps <= s.steps && (running ==> OnProven(t))
            && (!Settled(s) ==> !Settled(t) && t.ns == s.ns)
            && (Settled(s) && t.steps > 0 ==>
                  && t.ns.data == (if ReachesActivation(s, f.swap) && f.swap.activate then s.ns.staging
                                   else if Strands(s, f.swap) then None else s.ns.data)
                  && (running <==> f.resume && (Succeeds(s, f.swap) || (f.remoteRollback && !Strands(s, f.swap))))
                  && (Settled(t) <==> !(ReachesActivation(s, f.swap) && f.swap.activate && !f.swap.syncActive)))
  {
    hide Safe, Tidy, Settled, Good, ReachesActivation, State.Swap, State.Removed, Reconciled;
    SwapOutcome(s, f.swap);
    var (a, r) := s.Swap(f.swap);
    StartKeeps(a, f.resume);
    var (b, running) := a.Started(f.resume);
    if r.Swapped? && running {
      SettledAlone(b);
      DropBackupSafeIff(b, f.dropBackup);
    }
  }

  lemma SettledAlone(s: State)
    requires s.past == []
    ensures Settled(s)
  {
  }

  /** The restore gets as far as the swap. */
  predicate Attempts(f: RestoreFaults) {
    f.clearStaging == Gone && f.quiesce == Drained && f.close == Drained && f.staged
  }

  /** The restore gets as far as deleting an earlier backup. */
  predicate ClearsBackup(s: State, f: RestoreFaults) {
    Attempts(f) && f.swap.clearBackup != Untouched && s.Removed(Staging, Gone).Staged(true).steps > 0
  }

  /** A live restore ends running on a proven database or down for a restart, with the candidate
      in place exactly when the second rename was made, and that activation in doubt exactly when
      the last sync failed. */
  lemma RestoreOutcome(s: State, f: RestoreFaults)
    requires Ready(s) && OnProven(s) && (Settled(s) || !ClearsBackup(s, f))
    ensures var (t, running) := s.Restored(f);
            && Ready(t) && s.up <= t.up && t.steps <= s.steps && (running ==> OnProven(t))
            && (!Settled(s) ==> !Settled(t) && t.ns.data == s.ns.data)
            && (Settled(s) && t.steps > 0 ==>
                  && t.ns.data == (if Attempts(f) && ReachesActivation(s, f.swap) && f.swap.activate then Some(s.next)
                                   else if Attempts(f) && Strands(s, f.swap) then None else s.ns.data)
                  && (Settled(t) <==> !(Attempts(f) && ReachesActivation(s, f.swap) && f.swap.activate && !f.swap.syncActive)))
            && (Settled(s) && t.steps > 0 && Attempts(f) && Succeeds(s, f.swap) && f.resume ==> running)
  {
    hide Safe, Tidy, Settled, Good, ReachesActivation, Strands, State.Finished, State.Removed, State.Staged, State.Started, Reconciled;
    DropStagingKeeps(s, f.clearStaging);
    var a := s.Removed(Staging, f.clearStaging);
    if Attempts(f) {
      StageKeeps(a, f.staged);
      SameBackup(s, a.Staged(f.staged), f.swap);
      FinishOutcome(a.Staged(f.staged), f);
    } else {
      AbortOutcome(a, f);
    }
  }

  /** Whether the node is running after a restore it survives, branch by branch: yes if nothing was
      begun, no if a drain could not be confirmed, and otherwise if what was in place came up and
      neither a remote rollback was left pending nor the swap left nothing in place. */
  lemma RestoreRunsIff(s: State, f: RestoreFaults)
    requires Ready(s) && OnProven(s) && Settled(s) && s.Restored(f).0.steps > 0
    ensures s.Restored(f).1 <==>
            || f.clearStaging != Gone
            || (&& f.quiesce != Unconfirmed && (f.quiesce == Drained ==> f.close != Unconfirmed) && f.resume
                && (|| f.quiesce == Errored || f.close == Errored
                    || (!f.staged && !f.rollbackPending)
                    || (f.staged && (Succeeds(s, f.swap) || (f.remoteRollback && !Strands(s, f.swap))))))
  {
    hide Safe, Tidy, Settled, Good, ReachesActivation, Strands, State.Finished, State.Removed, State.Staged, Reconciled;
    DropStagingKeeps(s, f.clearStaging);
    var a := s.Removed(Staging, f.clearStaging);
    StageKeeps(a, f.staged);
    if Attempts(f) {
      SameBackup(s, a.Staged(f.staged), f.swap);
      FinishOutcome(a.Staged(f.staged), f);
    }
  }

  /** What is cleaned up: a reconciliation that finds no backup touches nothing, one that does
      drops the staging directory if it can. */
  lemma ReconcileCleansUp(s: State, i: StartFaults)
    ensures var t := s.ReconciledBy(i).0;
            && (s.ns.backup.None? ==> t == s)
            && (s.ReconciledBy(i).1 && s.ns.backup.Some? && t.steps > 0 && i.dropStaging == Gone ==> t.ns.staging.None?)
  {
  }

  /** A restore first drops an old staging directory, and what it staged itself if it cannot go on. */
  lemma RestoreCleansUp(s: State, f: RestoreFaults)
    requires f.clearStaging == Gone && (f.quiesce == Drained && f.close == Drained ==> !f.staged && f.dropStaging == Gone)
    ensures s.Restored(f).0.steps > 0 ==> s.Restored(f).0.ns.staging.None?
  {
    hide State.Finished;
  }

  /** One that comes up drops the backup. */
  lemma FinishCleansUp(s: State, f: RestoreFaults)
    requires s.Swap(f.swap).1.Swapped? && s.Finished(f).1 && f.dropBackup == Gone
    ensures s.Finished(f).0.steps > 0 ==> s.Finished(f).0.ns.backup.None?
  {
    hide State.Swap;
  }

  /** A swap that is undone syncs the names it put back. */
  lemma UndoSyncs(s: State, works: bool)
    requires s.Undone(works, true).0.steps > 0 && s.Undone(works, true).1.Failed?
    ensures s.Undone(works, true).0.past == []
  {
  }

  /** A restore that does not reach the swap leaves the database alone. */
  lemma AbortOutcome(s: State, f: RestoreFaults)
    requires Ready(s) && OnProven(s)
    ensures var t := s.Started(f.resume).0;
            Ready(t) && (Settled(t) <==> Settled(s)) && s.up <= t.up && t.steps <= s.steps && t.ns == s.ns && OnProven(t)
    ensures var u := s.Staged(f.staged).Removed(Staging, f.dropStaging);
            && Ready(u) && (Settled(u) <==> Settled(s)) && s.up <= u.up && u.steps <= s.steps && u.ns.data == s.ns.data
            && var t := u.Started(f.resume).0;
               Ready(t) && (Settled(t) <==> Settled(s)) && s.up <= t.up && t.steps <= s.steps && t.ns.data == s.ns.data && OnProven(t)
  {
    hide Safe, Tidy, Settled, Good, State.Removed, State.Staged, Reconciled;
    StartKeeps(s, f.resume);
    StageKeeps(s, f.staged);
    var b := s.Staged(f.staged);
    DropStagingKeeps(b, f.dropStaging);
    StartKeeps(b.Removed(Staging, f.dropStaging), f.resume);
  }

  lemma SameBackup(s: State, t: State, f: SwapFaults)
    requires s.ns.backup == t.ns.backup && (s.ns.backup.Some? ==> (s.ns.backup.value in s.broken <==> s.ns.backup.value in t.broken))
    ensures ReachesActivation(s, f) == ReachesActivation(t, f) && Strands(s, f) == Strands(t, f)
  {
  }

  lemma StagedCapped(s: State, k: nat)
    requires 0 < k <= s.Staged(true).steps
    ensures var t := s.Staged(true); t.steps <= s.steps && s.Capped(s.steps - t.steps + k).Staged(true) == t.Capped(k)
  {
  }

  /** A second restore while an activation is in doubt destroys the only way back. */
  lemma RestoreLoses(s: State, f: RestoreFaults) returns (m: nat)
    requires Ready(s) && OnProven(s) && !Settled(s) && ClearsBackup(s, f)
    ensures m <= s.steps && !Safe(s.Capped(m).Restored(f).0)
  {
    hide Safe, Tidy, Settled, Good, State.Removed, State.Staged, Reconciled, State.Swap;
    var a := s.Removed(Staging, Gone);
    var b := a.Staged(true);
    DropStagingKeeps(s, Gone);
    StageKeeps(a, true);
    StagedCapped(a, 1);
    var k := a.steps - b.steps + 1;
    RemovedCapped(s, Staging, Gone, k);
    m := s.steps - a.steps + k;
    CappedSame(b, 1);
    SwapLoses(b.Capped(1), f.swap);
    UnsettledHasBackup(s);
    SwapEnds(b, f.swap);
  }

  lemma SwapEnds(s: State, f: SwapFaults)
    requires s.ns.backup.Some? && f.clearBackup != Untouched
    ensures s.Capped(1).Swap(f).0.steps == 0 && s.Capped(1).Swap(f).1.Failed?
  {
  }

  lemma ClearsCapped(s: State, f: RestoreFaults, m: nat)
    requires m <= s.steps && ClearsBackup(s.Capped(m), f)
    ensures ClearsBackup(s, f)
  {
  }

  /** A live restore survives power loss at every moment exactly when no earlier activation is
      in doubt or it does not get to the backup. */
  lemma RestoreSafeIff(s: State, f: RestoreFaults)
    requires Ready(s) && OnProven(s)
    ensures (forall m: nat :: m <= s.steps ==> Safe(s.Capped(m).Restored(f).0)) <==> Settled(s) || !ClearsBackup(s, f)
  {
    hide Safe, Tidy, Settled, Good, State.Restored, ClearsBackup;
    if Settled(s) || !ClearsBackup(s, f) {
      forall m: nat | m <= s.steps ensures Safe(s.Capped(m).Restored(f).0) {
        CappedSame(s, m);
        if !Settled(s) && ClearsBackup(s.Capped(m), f) { ClearsCapped(s, f, m); }
        RestoreOutcome(s.Capped(m), f);
      }
    } else {
      var m := RestoreLoses(s, f);
    }
  }

  // ----- whole runs -----

  /** What happens to a node: a start, a restore, a stop or kill, the system writing back its
      directories on its own, and a power failure after which the names of moment k are found. */
  datatype Act = Boot(start: StartFaults) | Restore(faults: RestoreFaults) | Stop | Flush | PowerLoss(k: nat)

  datatype Node = Node(disk: State, running: bool) {
    function Step(a: Act): Node {
      match a
      case Boot(i) =>
        if running then this else var (s, up) := disk.Capped(i.steps).Booted(i); Node(s, up)
      case Restore(f) =>
        if running then var (s, up) := disk.Restored(f); Node(s, up) else this
      case Stop => Node(disk.Capped(0), false)
      case Flush => this.(disk := disk.(past := []))
      case PowerLoss(k) => Node(disk.Rebooted(k).Capped(0), false)
    }

    function Run(acts: seq<Act>): Node {
      if acts == [] then this else Run(acts[..|acts|-1]).Step(acts[|acts|-1])
    }

    /** Power may go at every moment of the next act. */
    ghost predicate SafeDuring(a: Act) {
      match a
      case Boot(i) => !running ==> forall m: nat :: m <= i.steps ==> Safe(disk.Capped(i.steps).Capped(m).Booted(i).0)
      case Restore(f) => running ==> forall m: nat :: m <= disk.steps ==> Safe(disk.Capped(m).Restored(f).0)
      case Stop => Safe(Step(a).disk)
      case Flush => Safe(Step(a).disk)
      case PowerLoss(_) => Safe(Step(a).disk)
    }

    /** The act does not delete the backup while an activation is in doubt. */
    ghost predicate Careful(a: Act) {
      match a
      case Boot(i) => !running ==> Settled(disk) || !ConfirmsBackup(disk.Capped(i.steps), i)
      case Restore(f) => running ==> Settled(disk) || !ClearsBackup(disk, f)
      case Stop => true
      case Flush => true
      case PowerLoss(_) => true
    }

    ghost predicate Inv() {
      Ready(disk) && (running ==> OnProven(disk))
    }

    ghost predicate SafeThroughout(acts: seq<Act>) {
      forall k :: 0 <= k < |acts| ==> Run(acts[..k]).SafeDuring(acts[k])
    }

    ghost predicate CarefulThroughout(acts: seq<Act>) {
      forall k :: 0 <= k < |acts| ==> Run(acts[..k]).Careful(acts[k])
    }
  }

  lemma RebootKeeps(s: State, k: nat)
    requires Ready(s)
    ensures Ready(s.Rebooted(k)) && Settled(s.Rebooted(k))
  {
    hide Good;
    if k < |s.past| { assert s.past[k] in s.past; }
  }

  lemma StepSafeIff(n: Node, a: Act)
    requires n.Inv()
    ensures n.SafeDuring(a) <==> n.Careful(a)
    ensures n.Careful(a) ==> n.Step(a).Inv() && n.disk.up <= n.Step(a).disk.up
  {
    hide Safe, Tidy, Settled, Good, ConfirmsBackup, ClearsBackup, State.Booted, State.Restored;
    match a
    case Boot(i) =>
      if !n.running {
        var s := n.disk.Capped(i.steps);
        CappedSame(n.disk, i.steps);
        BootSafeIff(s, i);
        if Settled(s) || !ConfirmsBackup(s, i) { BootOutcome(s, i); }
      }
    case Restore(f) =>
      if n.running {
        RestoreSafeIff(n.disk, f);
        if Settled(n.disk) || !ClearsBackup(n.disk, f) { RestoreOutcome(n.disk, f); }
      }
    case Stop => CappedSame(n.disk, 0);
    case Flush => FlushKeeps(n.disk);
    case PowerLoss(k) => RebootKeeps(n.disk, k); CappedSame(n.disk.Rebooted(k), 0);
  }

  lemma FlushKeeps(s: State)
    requires Ready(s)
    ensures Ready(s.(past := []))
  {
  }

  /** Over every run of starts, restores, stops, deaths and power failures: power may go at every moment
      exactly when no backup is deleted while an activation is in doubt. As long as that is so,
      startup finds an intact database whatever the disk then holds, and one that has come up is
      still there. */
  lemma {:induction false} RunSafeIff(n: Node, acts: seq<Act>)
    requires n.Inv()
    ensures n.SafeThroughout(acts) <==> n.CarefulThroughout(acts)
    ensures n.CarefulThroughout(acts) ==> n.Run(acts).Inv() && n.disk.up <= n.Run(acts).disk.up
  {
    hide Node.Inv, Node.SafeDuring, Node.Careful, Node.Step, Node.SafeThroughout, Node.CarefulThroughout;
    if acts == [] {
      ThroughoutNothing(n);
    } else {
      var init, last := acts[..|acts|-1], acts[|acts|-1];
      RunSafeIff(n, init);
      ThroughoutSnoc(n, init, last);
      assert acts == init + [last];
      if n.CarefulThroughout(init) { StepSafeIff(n.Run(init), last); }
    }
  }

  lemma ThroughoutNothing(n: Node)
    ensures n.SafeThroughout([]) && n.CarefulThroughout([])
  {
  }

  lemma ThroughoutSnoc(n: Node, init: seq<Act>, last: Act)
    ensures n.SafeThroughout(init + [last]) <==> n.SafeThroughout(init) && n.Run(init).SafeDuring(last)
    ensures n.CarefulThroughout(init + [last]) <==> n.CarefulThroughout(init) && n.Run(init).Careful(last)
  {
    hide Node.SafeDuring, Node.Careful, Node.Run;
    var acts := init + [last];
    assert acts[..|init|] == init && acts[|init|] == last;
    assert forall k :: 0 <= k < |init| ==> acts[..k] == init[..k] && acts[k] == init[k];
  }

  // ----- two runs that lose every database -----

  /** A node installed on directory 0, which has come up. */
  function Installed(): Node {
    Node(State(Namespace(Some(0), None, None), [], {}, {0}, 0, 1), false)
  }

  function Start(steps: nat): Act {
    Boot(StartFaults(steps, true, true, true, true, Gone, true, true, Gone))
  }

  /** A restore in which every call succeeds, but for the sync after the second rename. */
  function Attempt(syncActive: bool): Act {
    Restore(RestoreFaults(Gone, Drained, Drained, true, Gone, false,
                          SwapFaults(Gone, true, true, true, true, true, true, true, syncActive), true, true, Gone))
  }

  /** Every database that ever came up is damaged, and one of those is what the node runs on. */
  predicate AllLost(n: Node) {
    n.disk.up <= n.disk.broken && n.disk.ns.data.Some? && n.disk.ns.data.value in n.disk.broken
  }

  lemma InstalledIsSafe()
    ensures Installed().Inv() && Settled(Installed().disk)
  {
  }

  function Unsynced(up: set<Id>, steps: nat): State {
    State(Namespace(Some(1), Some(0), None), [Namespace(None, Some(0), Some(1))], {}, up, steps, 2)
  }

  lemma FailedSyncLeaves()
    ensures Installed().Step(Start(12)).Step(Attempt(false)) == Node(Unsynced({0, 1}, 4), true)
  {
    var n := Installed().Step(Start(12));
    assert n == Node(Installed().disk.Capped(11), true);
  }

  lemma RestoreDestroys()
    ensures var n := Node(Unsynced({0, 1}, 4), true).Step(Attempt(true));
            |n.disk.past| > 0 && n.disk.past[0] == Namespace(None, Some(0), Some(1)) && n.disk.broken == {0} && n.disk.up == {0, 1}
  {
  }

  /** Startup puts the emptied backup in place and deletes the restored database. */
  lemma StartupAfterLoss(n: Node)
    requires |n.disk.past| > 0 && n.disk.past[0] == Namespace(None, Some(0), Some(1)) && n.disk.broken == {0} && n.disk.up == {0, 1}
    ensures AllLost(n.Step(PowerLoss(0)).Step(Start(9)))
  {
  }

  /** The last sync of a restore fails and the node resumes on the restored data; a second
      restore deletes the backup and power goes. */
  lemma SecondRestoreLosesAll()
    ensures AllLost(Installed().Step(Start(12)).Step(Attempt(false)).Step(Attempt(true)).Step(PowerLoss(0)).Step(Start(9)))
  {
    hide Node.Step, Unsynced, AllLost;
    FailedSyncLeaves();
    RestoreDestroys();
    StartupAfterLoss(Node(Unsynced({0, 1}, 4), true).Step(Attempt(true)));
  }

  /** The process is killed between the second rename and its sync; the next one comes up,
      confirms the restore, deletes the backup, and power goes. */
  lemma ConfirmedRestoreLosesAll()
    ensures AllLost(Installed().Step(Start(6)).Step(Attempt(true)).Step(Start(9)).Step(PowerLoss(0)).Step(Start(9)))
  {
    hide Node.Step, Unsynced, AllLost;
    KillLeaves();
    ConfirmDestroys();
    StartupAfterLoss(Node(Unsynced({0}, 0), false).Step(Start(9)));
  }

  lemma KillLeaves()
    ensures Installed().Step(Start(6)).Step(Attempt(true)) == Node(Unsynced({0}, 0), false)
  {
    var n := Installed().Step(Start(6));
    assert n == Node(Installed().disk.Capped(5), true);
  }

  lemma ConfirmDestroys()
    ensures var n := Node(Unsynced({0}, 0), false).Step(Start(9));
            |n.disk.past| > 0 && n.disk.past[0] == Namespace(None, Some(0), Some(1)) && n.disk.broken == {0} && n.disk.up == {0, 1}
  {
  }

  // ----- the node's own steps over the disk -----

  class Disk {
    var ns: Namespace
    var past: seq<Namespace>
    var broken: set<Id>
    var up: set<Id>
    var steps: nat
    var next: Id

    function S(): State
      reads this
    {
      State(ns, past, broken, up, steps, next)
    }

    method Rename(src: Dir, dst: Dir, works: bool) returns (ok: bool)
      modifies this`ns, this`past, this`steps
      ensures (S(), ok) == old(S()).Renamed(src, dst, works)
    {
      ok := steps > 0 && works && ns.At(src).Some? && S().Free(dst);
      if ok {
        past, ns, steps := past + [ns], ns.Moved(src, dst), steps - 1;
      }
    }

    method Sync(works: bool) returns (ok: bool)
      modifies this`past, this`steps
      ensures (S(), ok) == old(S()).Synced(works)
    {
      ok := steps > 0 && works;
      if ok {
        past := [];
      }
      steps := if steps > 0 then steps - 1 else 0;
    }

    method RemoveAll(d: Dir, r: Removal)
      modifies this`ns, this`past, this`steps, this`broken
      ensures S() == old(S()).Removed(d, r)
    {
      if steps > 0 && ns.At(d).Some? && r != Untouched {
        broken, steps := broken + {ns.At(d).value}, steps - 1;
        if steps > 0 && r == Gone {
          past, ns, steps := past + [ns], ns.With(d, None), steps - 1;
        }
      }
    }

    /** Starting proves the database in place, if it is one. */
    method Start(works: bool) returns (ok: bool)
      modifies this`up, this`steps
      ensures (S(), ok) == old(S()).Started(works)
    {
      ok := steps > 0 && works;
      if ok && ns.data.Some? && ns.data.value !in broken {
        up := up + {ns.data.value};
      }
      steps := if steps > 0 then steps - 1 else 0;
    }

    method Stage(completes: bool)
      modifies this`ns, this`past, this`steps, this`broken, this`next
      ensures S() == old(S()).Staged(completes)
    {
      if steps == 0 {
        return;
      }
      past, ns, steps := past + [ns], ns.With(Staging, Some(next)), steps - 1;
      if steps > 0 && completes {
        steps := steps - 1;
      } else {
        broken := broken + {next};
      }
      next := next + 1;
    }

    /** The error kinds of the swap mean what its caller takes them for, except that an ordinary
        failure may leave the restored database active, its activation in doubt. */
    method SwapInRestored(f: SwapFaults) returns (r: SwapResult)
      requires Ready(S()) && OnProven(S()) && (steps > 0 ==> ns.staging.Some? && ns.staging.value !in broken)
      modifies this`ns, this`past, this`steps, this`broken
      ensures (S(), r) == old(S()).Swap(f)
      ensures old(Settled(S())) || f.clearBackup == Untouched ==> Ready(S())
      ensures old(Settled(S())) && steps > 0 ==>
                && (r.Unrecoverable? <==> ns.data.None?)
                && (InPlace(old(ns), ns) <==> ReachesActivation(old(S()), f) && f.activate)
                && (r.Swapped? <==> InPlace(old(ns), ns) && Settled(S()))
                && (r.Failed? && Settled(S()) ==> ns.data == old(ns.data))
    {
      hide State.Synced, State.SetAside, State.Activated, State.Undone, Ready, Settled, OnProven, InPlace, ReachesActivation;
      if old(Settled(S())) || f.clearBackup == Untouched { SwapKeeps(S(), f); }
      if old(Settled(S())) { SwapMeans(S(), f); }
      var moved := SetAside(f);
      if !moved {
        return Failed;
      }
      var synced := Sync(f.syncAside);
      if !synced {
        r := Undo(f.undoAside, f.syncUndoAside);
      } else {
        r := Activate(f);
      }
    }

    /** Make room for the backup and move the original there. */
    method SetAside(f: SwapFaults) returns (moved: bool)
      modifies this`ns, this`past, this`steps, this`broken
      ensures (S(), moved) == old(S()).SetAside(f)
    {
      hide State.Removed, State.Renamed;
      RemoveAll(Backup, f.clearBackup);
      moved := Rename(Data, Backup, f.moveAside);
    }

    /** Put the original back. */
    method Undo(works: bool, sync: bool) returns (r: SwapResult)
      modifies this`ns, this`past, this`steps
      ensures (S(), r) == old(S()).Undone(works, sync)
    {
      hide State.Renamed, State.Synced;
      var undone := Rename(Backup, Data, works);
      if !undone {
        return Unrecoverable;
      }
      var _ := Sync(sync);
      return Failed;
    }

    method Activate(f: SwapFaults) returns (r: SwapResult)
      modifies this`ns, this`past, this`steps
      ensures (S(), r) == old(S()).Activated(f)
    {
      hide State.Renamed, State.Synced, State.Undone;
      var active := Rename(Staging, Data, f.activate);
      if !active {
        r := Undo(f.undoActivate, f.syncUndoActivate);
        return;
      }
      var synced := Sync(f.syncActive);
      return if synced then Swapped else Failed;
    }

    /** Resolve whatever an interrupted swap left behind, before anything opens the directory. */
    method Reconcile(i: StartFaults) returns (ok: bool)
      requires Ready(S())
      modifies this`ns, this`past, this`steps, this`broken
      ensures (S(), ok) == old(S()).ReconciledBy(i)
      ensures Ready(S()) && (Settled(S()) <==> old(Settled(S())))
      ensures steps > 0 && ok ==> ns.data == old(ns).Home() && ns.data.Some? && ns.data.value !in broken
    {
      hide State.Renamed, State.Synced, State.Removed, Ready, Settled;
      ReconcileOutcome(S(), i);
      if !i.statBackup {
        return false;
      }
      if ns.backup.None? {
        return true;
      }
      if ns.data.None? {
        var moved := Rename(Backup, Data, i.rollBack);
        if !moved {
          return false;
        }
        var synced := Sync(i.syncRollBack);
        if !synced {
          return false;
        }
      } else if !i.statData {
        return false;
      }
      RemoveAll(Staging, i.dropStaging);
      return true;
    }

    /** A node that is up runs on a database startup found and proved. */
    method Startup(i: StartFaults) returns (running: bool)
      requires Ready(S())
      modifies this
      ensures (S(), running) == old(S()).Booted(i)
      ensures old(Settled(S())) || !ConfirmsBackup(old(S()), i) ==>
                && Ready(S()) && (running ==> OnProven(S()))
                && (steps > 0 && running ==> ns.data == old(ns).Home())
                && (steps > 0 && !running ==> ns.backup == old(ns.backup) || ns.data == old(ns.backup))
    {
      hide State.ReconciledBy, State.Started, State.Removed, Ready, Settled;
      if old(Settled(S())) || !ConfirmsBackup(old(S()), i) { BootOutcome(S(), i); }
      ReconcileOutcome(S(), i);
      running := Reconcile(i);
      if running {
        running := Start(i.comesUp);
        if running && i.statConfirmed {
          RemoveAll(Backup, i.dropBackup);
        }
      }
    }

    /** Replace the running node's database. */
    method Restore(f: RestoreFaults) returns (running: bool)
      requires Ready(S()) && OnProven(S())
      modifies this
      ensures (S(), running) == old(S()).Restored(f)
      ensures old(Settled(S())) || !ClearsBackup(old(S()), f) ==> Ready(S()) && (running ==> OnProven(S()))
      ensures old(Settled(S())) && steps > 0 ==>
                && ns.data == (if Attempts(f) && ReachesActivation(old(S()), f.swap) && f.swap.activate then Some(old(next))
                               else if Attempts(f) && Strands(old(S()), f.swap) then None else old(ns.data))
                && (Settled(S()) <==> !(Attempts(f) && ReachesActivation(old(S()), f.swap) && f.swap.activate && !f.swap.syncActive))
    {
      hide Tidy, Reconciled;
      hide State.Started, State.Removed, State.Staged, State.Finished, Safe, Good, Settled, ReachesActivation, Strands;
      if old(Settled(S())) || !ClearsBackup(old(S()), f) { RestoreOutcome(S(), f); }
      DropStagingKeeps(S(), f.clearStaging);
      RemoveAll(Staging, f.clearStaging);
      if f.clearStaging != Gone {
        return true;
      }
      if f.quiesce == Unconfirmed || (f.quiesce == Drained && f.close == Unconfirmed) {
        return false;
      }
      if f.quiesce == Errored || f.close == Errored {
        running := Start(f.resume);
        return;
      }
      StageKeeps(S(), f.staged);
      Stage(f.staged);
      if !f.staged {
        DropStagingKeeps(S(), f.dropStaging);
        RemoveAll(Staging, f.dropStaging);
        if f.rollbackPending {
          return false;
        }
        running := Start(f.resume);
        return;
      }
      running := Finish(f);
    }

    method Finish(f: RestoreFaults) returns (running: bool)
      requires Ready(S()) && OnProven(S()) && (steps > 0 ==> ns.staging.Some? && ns.staging.value !in broken)
      modifies this
      ensures (S(), running) == old(S()).Finished(f)
    {
      hide State.Started, State.Removed, State.Swap, Safe, Good, Settled;
      var swapped := SwapInRestored(f.swap);
      if !swapped.Swapped? {
        if !f.remoteRollback || swapped.Unrecoverable? {
          return false;
        }
        running := Start(f.resume);
        return;
      }
      running := Start(f.resume);
      if running {
        RemoveAll(Backup, f.dropBackup);
      }
    }
  }
}
