/** What every run of installers, activators, rollbacks, daemons and crashes keeps. */
module InstallSafety {
  import opened Bytes
  import opened Numerals
  import opened Options
  import opened ReleaseName
  import opened TreeDigest
  import opened InstallProtocol
  import opened InstallInvariant

  datatype Event = Event(pid: Pid, action: Action)

  /** The state after a sequence of events, or None if one of them is not possible. */
  function Run(dg: Identity, s: State, events: seq<Event>): Option<State>
    decreases |events|
  {
    if events == [] then Some(s)
    else
      match Step(dg, s, events[0].pid, events[0].action)
      case None => None
      case Some(next) => Run(dg, next, events[1..])
  }

  /** A store no installer is working on: any releases, stale links and abandoned stages, and any daemons. */
  ghost predicate Quiet(s: State) {
    && s.procs == map[] && s.storeLock == None && s.base == s.current && Selection(s.releases, s.current)
    && forall d :: d in s.dataLocks ==> s.dataLocks[d] == Daemon
  }

  ghost predicate Reachable(dg: Identity, s: State) {
    exists start, events :: Quiet(start) && Run(dg, start, events) == Some(s)
  }

  // ----- Steps -----

  predicate DaemonStep(a: Action) {
    a.DaemonStart? || a.DaemonStop?
  }

  lemma StepEffect(dg: Identity, s: State, p: Pid, a: Action)
    requires Step(dg, s, p, a).Some?
    ensures var t := Step(dg, s, p, a).value;
            if DaemonStep(a) then t == s.(dataLocks := t.dataLocks) else Effect(s, t, p)
  {
    hide DoSpawn, DoCreateStage, DoFillStage, DoTakeData, DoTakeStore, DoCheck, DoReadSource, DoCreateCopy, DoFillCopy;
    hide DoPublishStage, DoPublishCopy, DoSweep, DoLaunchers, DoLink, DoMove, DoConfirm, DoHandle;
    hide DoRestore, DoUnlock, DoClean, DoFault, DoKill;
    hide Effect;
  }

  /** In no state does any step by anyone change or remove a published tree. */
  lemma StepKeepsReleases(dg: Identity, s: State, p: Pid, a: Action)
    requires Step(dg, s, p, a).Some?
    ensures Grows(s.releases, Step(dg, s, p, a).value.releases)
  {
    hide Step;
    StepEffect(dg, s, p, a);
  }

  lemma {:induction false} RunKeeps(dg: Identity, s: State, events: seq<Event>)
    requires Inv(dg, s) && Run(dg, s, events).Some?
    ensures Inv(dg, Run(dg, s, events).value)
    decreases |events|
  {
    hide Inv, Step;
    if events != [] {
      StepKeeps(dg, s, events[0].pid, events[0].action);
      RunKeeps(dg, Step(dg, s, events[0].pid, events[0].action).value, events[1..]);
    }
  }

  lemma ReachableInv(dg: Identity, s: State)
    requires Reachable(dg, s)
    ensures Inv(dg, s)
  {
    hide Step, Story;
    var start, events :| Quiet(start) && Run(dg, start, events) == Some(s);
    assert Inv(dg, start);
    RunKeeps(dg, start, events);
  }

  // ----- Publication only adds -----

  /** A tree once under releases is there, unchanged, after every run. */
  lemma {:induction false} RunKeepsReleases(dg: Identity, s: State, events: seq<Event>)
    requires Run(dg, s, events).Some?
    ensures Grows(s.releases, Run(dg, s, events).value.releases)
    decreases |events|
  {
    hide Step;
    if events != [] {
      StepKeepsReleases(dg, s, events[0].pid, events[0].action);
      RunKeepsReleases(dg, Step(dg, s, events[0].pid, events[0].action).value, events[1..]);
    }
  }

  /** Whatever crashed where, the current link is absent or names a whole published generation. */
  lemma CurrentAlwaysWhole(dg: Identity, s: State)
    requires Reachable(dg, s) && s.current.Some?
    ensures s.current.value in s.releases && ReleaseParts(s.current.value).Some?
  {
    hide Story, LocksOk, StagesOk;
    ReachableInv(dg, s);
  }

  // ----- Leases -----

  /** Only the one holder of the store lease publishes, links or selects; while it does, no other process is inside
      the lease and no daemon holds the data directory it named. */
  lemma OnlyHolderChangesStore(dg: Identity, s: State, p: Pid, a: Action)
    requires Reachable(dg, s) && Step(dg, s, p, a).Some?
    requires var t := Step(dg, s, p, a).value; t.releases != s.releases || t.current != s.current || t.links != s.links
    ensures p in s.procs && s.storeLock == Some(p) && UnderLease(s.procs[p].phase)
    ensures forall q :: q in s.procs && UnderLease(s.procs[q].phase) ==> q == p
    ensures var data := s.procs[p].args.data;
            data.Some? ==> data.value in s.dataLocks && s.dataLocks[data.value] == Process(p)
  {
    hide Story, StagesOk, Step, CurrentOk, UnderLease;
    ReachableInv(dg, s);
    StepEffect(dg, s, p, a);
  }

  /** What the holder of the lease may have found when it took it, before it changes anything. */
  lemma HolderCaptured(dg: Identity, s: State, p: Pid, a: Action)
    requires Inv(dg, s) && Step(dg, s, p, a).Some? && p in s.procs && UnderLease(s.procs[p].phase)
    requires var t := Step(dg, s, p, a).value; t.releases != s.releases || t.current != s.current || t.links != s.links
    ensures Captured(dg, s, s.procs[p])
  {
    hide Inv, Captured, Asked, Former, Goal, Unmoved, Source, Undone, Step;
    Mine(dg, s, p);
    if s.procs[p].phase.Locked? || s.procs[p].phase.Unlocking? {
      QuietPhases(dg, s, p, a);
    }
  }

  lemma QuietPhases(dg: Identity, s: State, p: Pid, a: Action)
    requires Step(dg, s, p, a).Some? && p in s.procs && (s.procs[p].phase.Locked? || s.procs[p].phase.Unlocking?)
    ensures var t := Step(dg, s, p, a).value;
            t.releases == s.releases && t.current == s.current && t.links == s.links
  {
    hide Effect, ReleaseParts, Generation, NotOlder;
  }

  /** Without --force an installer publishes, links and selects nothing in a store that had a selection. */
  lemma UnforcedChangesNothing(dg: Identity, s: State, p: Pid, a: Action)
    requires Reachable(dg, s) && Step(dg, s, p, a).Some?
    requires p in s.procs && s.procs[p].args.Install? && !s.procs[p].args.force && s.base.Some?
    ensures var t := Step(dg, s, p, a).value;
            UnderLease(s.procs[p].phase) ==> t.releases == s.releases && t.current == s.current && t.links == s.links
  {
    hide Inv, Step, ReleaseParts, NotOlder;
    ReachableInv(dg, s);
    var t := Step(dg, s, p, a).value;
    if UnderLease(s.procs[p].phase) && (t.releases != s.releases || t.current != s.current || t.links != s.links) {
      HolderCaptured(dg, s, p, a);
    }
  }

  lemma EarlyActions(dg: Identity, s: State, p: Pid, a: Action)
    requires Step(dg, s, p, a).Some? && !DaemonStep(a) && (At(s, p, Started) || At(s, p, Prepared))
    ensures a.CreateStage? || a.TakeData? || a.Fault? || a.Kill?
    ensures a.CreateStage? ==> At(s, p, Started)
  {
    hide Effect, ReleaseParts, NotOlder, Generation, DoTakeData, DoFault, DoKill;
  }

  lemma EarlySteps(dg: Identity, s: State, p: Pid, a: Action)
    ensures a.CreateStage? ==> Step(dg, s, p, a) == DoCreateStage(s, p, a.partial)
    ensures a.TakeData? ==> Step(dg, s, p, a) == DoTakeData(s, p)
    ensures a.Fault? ==> Step(dg, s, p, a) == DoFault(s, p)
    ensures a.Kill? ==> Step(dg, s, p, a) == DoKill(s, p)
  {
    hide DoCreateStage, DoTakeData, DoFault, DoKill, ReleaseParts;
    hide Effect, DoSpawn, DoFillStage, DoTakeStore, DoCheck, DoReadSource, DoCreateCopy, DoFillCopy, DoPublishStage;
    hide DoPublishCopy, DoSweep, DoLaunchers, DoLink, DoMove, DoConfirm, DoHandle, DoRestore, DoUnlock, DoClean;
  }

  /** Nothing but the process itself has changed, and that only ends. */
  predicate OnlyEnds(s: State, t: State, p: Pid) {
    && p in t.procs && t.procs[p].phase in {Cleaning(false), Done(false), Dead}
    && t.releases == s.releases && t.current == s.current && t.links == s.links
  }

  lemma EndsEarly(s: State, p: Pid)
    requires At(s, p, Started) || At(s, p, Prepared)
    ensures DoFault(s, p).Some? ==> OnlyEnds(s, DoFault(s, p).value, p)
    ensures DoKill(s, p).Some? ==> OnlyEnds(s, DoKill(s, p).value, p)
    ensures At(s, p, Started) && s.procs[p].copy.None? && DoFault(s, p).Some? ==> DoFault(s, p).value.stages == s.stages
    ensures DoKill(s, p).Some? ==> DoKill(s, p).value.stages == s.stages
  {
    hide Effect;
  }

  /** An installer that is asked for an older version than the selected one, or for a name without a version, can only
      end: it makes no private directory and changes nothing. */
  lemma OlderInstallStops(dg: Identity, s: State, p: Pid, a: Action)
    requires Inv(dg, s) && Step(dg, s, p, a).Some? && !DaemonStep(a) && At(s, p, Started) && s.procs[p].args.Install?
    requires ReleaseParts(s.procs[p].args.name).None? || !NotOlder(s.current, Some(s.procs[p].args.name))
    ensures OnlyEnds(s, Step(dg, s, p, a).value, p) && Step(dg, s, p, a).value.stages == s.stages
  {
    EarlyActions(dg, s, p, a);
    EarlySteps(dg, s, p, a);
    EndsEarly(s, p);
    NoCopyYet(dg, s, p);
    CannotPrepare(s, p, if a.CreateStage? then a.partial else map[]);
    hide OnlyEnds, Inv, Step, DoFault, DoKill, DoCreateStage, DoTakeData, Effect, ReleaseParts, NotOlder;
  }

  lemma CannotPrepare(s: State, p: Pid, partial: Tree)
    requires At(s, p, Started) && s.procs[p].args.Install?
    requires ReleaseParts(s.procs[p].args.name).None? || !NotOlder(s.current, Some(s.procs[p].args.name))
    ensures DoCreateStage(s, p, partial).None? && DoTakeData(s, p).None?
  {
    hide Effect, ReleaseParts, NotOlder;
  }

  lemma NoCopyYet(dg: Identity, s: State, p: Pid)
    requires Inv(dg, s) && At(s, p, Started)
    ensures s.procs[p].copy.None?
  {
    hide Inv, Story;
    Mine(dg, s, p);
  }

  /** Without a data directory where something is selected, or with one that someone holds, no process gets a lease. */
  lemma LeaseRefused(dg: Identity, s: State, p: Pid, a: Action)
    requires Step(dg, s, p, a).Some? && !DaemonStep(a)
    requires At(s, p, Prepared) || (At(s, p, Started) && s.procs[p].args.Activate?)
    requires var data := s.procs[p].args.data; if data.None? then s.current.Some? else data.value in s.dataLocks
    ensures OnlyEnds(s, Step(dg, s, p, a).value, p)
  {
    EarlyActions(dg, s, p, a);
    EarlySteps(dg, s, p, a);
    EndsEarly(s, p);
    hide OnlyEnds, Step, DoFault, DoKill, Effect, ReleaseParts, NotOlder;
  }

  // ----- The selected version never goes down -----

  /** The selection as last seen with the store lease free. */
  function Visible(s: State): Option<Name> {
    if s.storeLock.None? then s.current else s.base
  }

  /** A rollback that named exactly the generation still selected, and selected the tree with the promised digest. */
  ghost predicate Authorised(dg: Identity, s: State, proc: Proc) {
    && Rollback(proc.args) && s.base == proc.args.rollbackFrom && proc.args.expected.Some?
    && s.current.Some? && Whole(s.releases, s.current.value)
    && ReleaseParts(s.current.value) == ReleaseParts(proc.args.name)
    && dg(s.releases[s.current.value]) == proc.args.expected.value
  }

  /** "Not older" in numbers: a name that prints the first numbers is not newer than one that prints the second exactly
      when the second begin with the first, or are larger in the first number where they differ. */
  lemma NotOlderIs(a: seq<nat>, q: string, s: string, b: seq<nat>, r: string, t: string)
    requires Writable(a, q, s) && Writable(b, r, t)
    ensures NotOlder(Some(NameOf(a, q, s)), Some(NameOf(b, r, t))) <==> a <= b || exists i :: SmallerAt(a, b, i)
    ensures NotOlder(None, Some(NameOf(b, r, t))) && !NotOlder(Some(NameOf(a, q, s)), None)
  {
    hide Writable, NameOf, ReleaseParts, VersionLe, VersionOf;
    VersionPrinted(a, q, s);
    VersionPrinted(b, r, t);
    VersionLeIs(a, b);
  }

  /** Of full versions: major, then minor, then patch. */
  lemma NotOlderThree(a: nat, b: nat, c: nat, q: string, s: string, d: nat, e: nat, f: nat, r: string, t: string)
    requires Writable([a, b, c], q, s) && Writable([d, e, f], r, t)
    ensures NotOlder(Some(NameOf([a, b, c], q, s)), Some(NameOf([d, e, f], r, t))) <==>
              a < d || (a == d && (b < e || (b == e && c <= f)))
  {
    hide Writable, NameOf, NotOlder;
    NotOlderIs([a, b, c], q, s, [d, e, f], r, t);
    ThreeNumbers(a, b, c, d, e, f);
  }

  lemma ThreeNumbers(a: nat, b: nat, c: nat, d: nat, e: nat, f: nat)
    ensures ([a, b, c] <= [d, e, f] || exists i :: SmallerAt([a, b, c], [d, e, f], i)) <==>
              a < d || (a == d && (b < e || (b == e && c <= f)))
  {
    var x, y := [a, b, c], [d, e, f];
    assert x[..0] == y[..0] == [] && x[..1] == [a] && y[..1] == [d] && x[..2] == [a, b] && y[..2] == [d, e];
    if a < d {
      assert SmallerAt(x, y, 0);
    } else if a == d && b < e {
      assert SmallerAt(x, y, 1);
    } else if a == d && b == e && c < f {
      assert SmallerAt(x, y, 2);
    }
    if i :| SmallerAt(x, y, i) {
      assert i == 0 || i == 1 || i == 2;
    }
    assert x <= y <==> x == y;
  }

  lemma NotOlderSelf(n: Option<Name>, m: Option<Name>)
    requires n.Some? <==> m.Some?
    requires n.Some? ==> ReleaseParts(n.value).Some? && ReleaseParts(n.value) == ReleaseParts(m.value)
    ensures NotOlder(n, m)
  {
    hide ReleaseParts;
    if n.Some? {
      VersionRefl(VersionOf(n.value));
    }
  }

  lemma NotOlderSame(o: Option<Name>, n: Name, m: Name)
    requires NotOlder(o, Some(n)) && ReleaseParts(n) == ReleaseParts(m)
    ensures NotOlder(o, Some(m))
  {
    hide ReleaseParts;
  }

  lemma NotOlderTrans(a: Option<Name>, b: Option<Name>, c: Option<Name>)
    requires NotOlder(a, b) && NotOlder(b, c)
    ensures NotOlder(a, c)
  {
    hide ReleaseParts;
    if a.Some? {
      VersionTrans(VersionOf(a.value), VersionOf(b.value), VersionOf(c.value));
    }
  }

  /** The generation a run asked for is no older than the selection it replaces, unless that is the rollback. */
  lemma AskedNotOlder(dg: Identity, s: State, proc: Proc, n: Name)
    requires Captured(dg, s, proc) && Asked(dg, s, proc, n) && s.current == Some(n)
    ensures NotOlder(s.base, s.current) || Authorised(dg, s, proc)
  {
    hide ReleaseParts, VersionOf;
    if !Rollback(proc.args) {
      NotOlderSame(s.base, proc.args.name, n);
    }
  }

  lemma FormerNotOlder(dg: Identity, s: State, proc: Proc, n: Name)
    requires Captured(dg, s, proc) && Former(dg, s, proc, n) && s.current == Some(n)
    ensures NotOlder(s.base, s.current)
  {
    hide ReleaseParts, NotOlder;
    NotOlderSelf(s.base, s.current);
  }

  lemma StoryNotOlder(dg: Identity, s: State, p: Pid, proc: Proc)
    requires CurrentOk(s) && UnderLease(proc.phase) && Story(dg, s, p, proc)
    ensures NotOlder(s.base, s.current) || Authorised(dg, s, proc)
  {
    hide ReleaseParts, NotOlder, Authorised;
    if s.current == s.base || Undone(dg, s) {
      NotOlderSelf(s.base, s.current);
    } else {
      var n := s.current.value;
      assert Captured(dg, s, proc);
      if Former(dg, s, proc, n) {
        FormerNotOlder(dg, s, proc, n);
      } else {
        AskedNotOlder(dg, s, proc, n);
      }
    }
  }

  /** At every point inside the lease, even between the move and the end of a failed restoration, the selection is no
      older than when the lease was taken, unless that is an authorised rollback. */
  lemma HolderNotOlder(dg: Identity, s: State, p: Pid)
    requires Reachable(dg, s) && s.storeLock == Some(p)
    ensures p in s.procs && (NotOlder(s.base, s.current) || Authorised(dg, s, s.procs[p]))
  {
    hide NotOlder, Authorised, Story, StagesOk, UnderLease;
    ReachableInv(dg, s);
    StoryNotOlder(dg, s, p, s.procs[p]);
  }

  /** The lease is released at the end of an authorised rollback. */
  ghost predicate RollsBack(dg: Identity, s: State, t: State, p: Pid) {
    s.storeLock == Some(p) && t.storeLock.None? && p in s.procs && Authorised(dg, s, s.procs[p])
  }

  lemma VisibleStep(dg: Identity, s: State, p: Pid, a: Action)
    requires Inv(dg, s) && Step(dg, s, p, a).Some?
    ensures var t := Step(dg, s, p, a).value; NotOlder(Visible(s), Visible(t)) || RollsBack(dg, s, t, p)
  {
    hide Step, Story, NotOlder, Authorised, ReleaseParts, StagesOk, UnderLease, Grows;
    var t := Step(dg, s, p, a).value;
    StepEffect(dg, s, p, a);
    if Visible(s) == Visible(t) {
      NotOlderSelf(Visible(s), Visible(t));
    } else {
      StoryNotOlder(dg, s, p, s.procs[p]);
    }
  }

  ghost predicate NoRollback(dg: Identity, s: State, events: seq<Event>)
    requires Run(dg, s, events).Some?
    decreases |events|
  {
    events == []
    || (var t := Step(dg, s, events[0].pid, events[0].action).value;
        !RollsBack(dg, s, t, events[0].pid) && NoRollback(dg, t, events[1..]))
  }

  /** In every interleaving, the selection seen with the lease free never gets older, except by an authorised
      rollback. */
  lemma {:induction false} VersionNeverDecreases(dg: Identity, s: State, events: seq<Event>)
    requires Inv(dg, s) && Run(dg, s, events).Some? && NoRollback(dg, s, events)
    ensures NotOlder(Visible(s), Visible(Run(dg, s, events).value))
    decreases |events|
  {
    hide Step, NotOlder, Inv, RollsBack, Visible, ReleaseParts;
    if events == [] {
      VisibleWhole(dg, s);
      NotOlderSelf(Visible(s), Visible(s));
    } else {
      var t := Step(dg, s, events[0].pid, events[0].action).value;
      VisibleStep(dg, s, events[0].pid, events[0].action);
      StepKeeps(dg, s, events[0].pid, events[0].action);
      VersionNeverDecreases(dg, t, events[1..]);
      NotOlderTrans(Visible(s), Visible(t), Visible(Run(dg, s, events).value));
    }
  }

  /** The same, between two moments when nobody holds the lease. */
  lemma FreeSelectionNeverOlder(dg: Identity, s: State, events: seq<Event>)
    requires Reachable(dg, s) && s.storeLock.None? && Run(dg, s, events).Some? && NoRollback(dg, s, events)
    requires Run(dg, s, events).value.storeLock.None?
    ensures NotOlder(s.current, Run(dg, s, events).value.current)
  {
    hide Step, NotOlder, Inv, Run;
    ReachableInv(dg, s);
    VersionNeverDecreases(dg, s, events);
  }

  /** So the numbers of the selected version have not gone down either. */
  lemma SelectedNumbersNeverDrop(dg: Identity, s: State, events: seq<Event>, a: seq<nat>, q: string, x: string,
                                 b: seq<nat>, r: string, y: string)
    requires Reachable(dg, s) && s.storeLock.None? && Run(dg, s, events).Some? && NoRollback(dg, s, events)
    requires Run(dg, s, events).value.storeLock.None? && Writable(a, q, x) && Writable(b, r, y)
    requires s.current == Some(NameOf(a, q, x)) && Run(dg, s, events).value.current == Some(NameOf(b, r, y))
    ensures a <= b || exists i :: SmallerAt(a, b, i)
  {
    hide Step, NotOlder, Reachable, Run, NoRollback, Writable, NameOf, SmallerAt;
    FreeSelectionNeverOlder(dg, s, events);
    NotOlderIs(a, q, x, b, r, y);
  }

  lemma VisibleWhole(dg: Identity, s: State)
    requires Inv(dg, s)
    ensures Visible(s).Some? ==> ReleaseParts(Visible(s).value).Some?
  {
    hide Story, LocksOk, StagesOk, ReleaseParts;
  }

  // ----- How a run ends -----

  /** On success the current link names an immutable generation of what was asked for, with the digest that was captured
      and, if one was promised, promised; when only staging, it has not moved. */
  lemma SuccessSelects(dg: Identity, s: State, p: Pid)
    requires Reachable(dg, s) && At(s, p, Unlocking(true))
    ensures var proc := s.procs[p];
            && Whole(s.releases, proc.goal) && '+' in proc.goal
            && ReleaseParts(proc.goal) == ReleaseParts(proc.args.name)
            && dg(s.releases[proc.goal]) == proc.digest
            && (proc.args.Activate? && proc.args.expected.Some? ==> proc.digest == proc.args.expected.value)
            && (Rollback(proc.args) ==> s.base == proc.args.rollbackFrom)
            && (proc.args.Install? ==> s.base.None? || proc.args.force)
            && s.current == (if proc.args.Install? && proc.args.stageOnly then s.base else Some(proc.goal))
  {
    hide ReleaseParts, NotOlder, Inv;
    ReachableInv(dg, s);
    Mine(dg, s, p);
  }

  /** A run that fails leaves the tree that was selected when it took the lease: the same name, a new generation of
      the same version and target with the same digest, or no selection where there was none. Only when the
      restoration itself was refused or failed may another whole generation stay selected: the one asked for, or the
      former one. */
  lemma FailureRestores(dg: Identity, s: State, p: Pid)
    requires Reachable(dg, s) && At(s, p, Unlocking(false))
    ensures var proc := s.procs[p];
            || s.current == s.base
            || (s.current.Some? && Whole(s.releases, s.current.value) && s.base.Some? && Whole(s.releases, s.base.value)
                && ReleaseParts(s.current.value) == ReleaseParts(s.base.value)
                && dg(s.releases[s.current.value]) == dg(s.releases[s.base.value]))
            || (proc.faulted && s.current.Some? && Whole(s.releases, s.current.value)
                && ReleaseParts(s.current.value) == ReleaseParts(proc.args.name)
                && dg(s.releases[s.current.value]) == proc.digest)
  {
    hide ReleaseParts, NotOlder, Inv;
    ReachableInv(dg, s);
    Mine(dg, s, p);
  }

  /** Published trees never change, so the digest checks around the move always pass: linking can only be stopped by a
      staging link left behind, and confirming by nothing. */
  lemma RechecksPass(dg: Identity, s: State, p: Pid)
    requires Reachable(dg, s) && p in s.procs
    ensures At(s, p, Linking) ==> (DoLink(dg, s, p).Some? <==> p !in s.links)
    ensures At(s, p, Linked) ==> DoMove(s, p).Some? && s.links[p] == s.procs[p].goal
    ensures At(s, p, Moved) ==> DoConfirm(dg, s, p).Some?
  {
    hide Inv, Effect, ReleaseParts, NotOlder, Captured, Unmoved;
    ReachableInv(dg, s);
    Mine(dg, s, p);
  }

  /** However a run ends by itself, no private directory it created is left. */
  lemma NoStageSurvives(dg: Identity, s: State, p: Pid)
    requires Reachable(dg, s) && p in s.procs && s.procs[p].phase.Done?
    ensures s.procs[p].created !! s.stages.Keys
  {
    hide Inv, Story, CurrentOk;
    ReachableInv(dg, s);
    Mine(dg, s, p);
  }

  /** The supervisor's rollback: it captured the previous release's digest before activating a successor. Whatever ran
      in between, the digest still matches, and if the rollback succeeds the selected tree has it. */
  lemma SupervisorRollback(dg: Identity, s: State, events: seq<Event>, p: Pid, previous: Name, data: Dir,
                           selected: Name)
    requires Inv(dg, s) && previous in s.releases && Run(dg, s, events).Some?
    requires var t := Run(dg, s, events).value;
             p in t.procs && t.procs[p].args == Activate(previous, Some(data), Some(selected),
                                                         Some(dg(s.releases[previous])))
    ensures var t := Run(dg, s, events).value;
            && previous in t.releases && dg(t.releases[previous]) == dg(s.releases[previous])
            && (t.procs[p].phase == Unlocking(true) ==>
                  && t.base == Some(selected)
                  && t.current.Some? && Whole(t.releases, t.current.value)
                  && ReleaseParts(t.current.value) == ReleaseParts(previous)
                  && dg(t.releases[t.current.value]) == dg(s.releases[previous]))
  {
    hide ReleaseParts, NotOlder, Inv, Run;
    RunKeeps(dg, s, events);
    RunKeepsReleases(dg, s, events);
    Mine(dg, Run(dg, s, events).value, p);
  }
}
