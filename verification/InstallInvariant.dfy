/** The invariant of the install protocol, and the proof that every action keeps it. */
module InstallInvariant {
  import opened Bytes
  import opened Options
  import opened ReleaseName
  import opened TreeDigest
  import opened InstallProtocol

  // ----- The invariant -----

  /** A whole published generation. */
  predicate Whole(releases: map<Name, Tree>, n: Name) {
    n in releases && ReleaseParts(n).Some?
  }

  /** A selection is absent or names a published generation. */
  predicate Selection(releases: map<Name, Tree>, selected: Option<Name>) {
    selected.Some? ==> Whole(releases, selected.value)
  }

  ghost predicate CurrentOk(s: State) {
    Selection(s.releases, s.current) && Selection(s.releases, s.base)
  }

  ghost predicate LocksOk(s: State) {
    && (s.storeLock.Some? ==> s.storeLock.value in s.procs && UnderLease(s.procs[s.storeLock.value].phase))
    && (forall p :: p in s.procs && UnderLease(s.procs[p].phase) ==> s.storeLock == Some(p))
    && (forall p :: p in s.procs && UnderData(s.procs[p].phase) && s.procs[p].args.data.Some? ==>
          s.procs[p].args.data.value in s.dataLocks && s.dataLocks[s.procs[p].args.data.value] == Process(p))
  }

  predicate Copied(phase: Phase) {
    phase.Staging? || phase.Staged? || phase.Sweeping? || phase.Dead?
  }

  predicate BeforeLease(phase: Phase) {
    phase.Started? || phase.Preparing? || phase.Prepared? || phase.DataHeld?
  }

  /** A process accounts for every private directory it made that still exists. */
  ghost predicate ProcOk(s: State, proc: Proc) {
    && (forall i :: i in proc.created && i in s.stages ==> proc.stage == Some(i) || proc.copy == Some(i))
    && (forall i :: i in proc.created ==> i < s.nextStage)
    && (proc.stage.Some? ==> proc.stage.value in proc.created && !proc.phase.Done? && !proc.phase.Started?)
    && (proc.copy.Some? ==> proc.copy.value in proc.created && Copied(proc.phase))
    && (proc.phase.Started? ==> proc.created == {})
    && (BeforeLease(proc.phase) ==> !proc.restoring && !proc.faulted)
  }

  ghost predicate StagesOk(s: State) {
    && (forall p :: p in s.procs ==> ProcOk(s, s.procs[p]))
    && (forall p, q :: p in s.procs && q in s.procs && p != q ==> s.procs[p].created !! s.procs[q].created)
  }

  /** The generation a run asked for: its version and target, the captured digest, the digest it was promised. */
  ghost predicate Asked(dg: Identity, s: State, proc: Proc, n: Name) {
    && Whole(s.releases, n) && '+' in n
    && ReleaseParts(n) == ReleaseParts(proc.args.name) && dg(s.releases[n]) == proc.digest
    && (proc.args.Activate? && proc.args.expected.Some? ==> proc.digest == proc.args.expected.value)
  }

  /** The previous selection again, possibly under a new generation name. */
  ghost predicate Former(dg: Identity, s: State, proc: Proc, n: Name) {
    && Whole(s.releases, n) && '+' in n
    && proc.prev.Some? && ReleaseParts(n) == ReleaseParts(proc.prev.value)
    && proc.prevDigest == Some(dg(s.releases[n]))
  }

  ghost predicate Goal(dg: Identity, s: State, proc: Proc) {
    if proc.restoring then Former(dg, s, proc, proc.goal) else Asked(dg, s, proc, proc.goal)
  }

  /** What was captured under the leases, and the version rule. */
  ghost predicate Captured(dg: Identity, s: State, proc: Proc) {
    && proc.prev == s.base
    && Selection(s.releases, s.base)
    && (proc.prevDigest.Some? ==> proc.prev.Some? && proc.prevDigest.value == dg(s.releases[proc.prev.value]))
    && ReleaseParts(proc.args.name).Some?
    && (if Rollback(proc.args) then s.base == proc.args.rollbackFrom && proc.args.expected.Some?
        else NotOlder(s.base, Some(proc.args.name)))
    && (proc.args.Install? ==> s.base.None? || proc.args.force)
  }

  /** The current link before this selection's own move. */
  ghost predicate Unmoved(dg: Identity, s: State, proc: Proc) {
    if proc.restoring then
      && s.current == Some(proc.changed) && Asked(dg, s, proc, proc.changed)
      && proc.prev.Some? && proc.prevDigest.Some?
    else s.current == s.base
  }

  /** The digest of an unqualified release about to be copied. */
  ghost predicate Source(dg: Identity, s: State, proc: Proc) {
    proc.restoring
    || (proc.args.Activate? && proc.args.name in s.releases && proc.digest == dg(s.releases[proc.args.name])
        && (proc.args.expected.Some? ==> proc.digest == proc.args.expected.value))
  }

  /** The selection is what it was when the lease was taken, up to a new generation name for the same tree. */
  ghost predicate Undone(dg: Identity, s: State) {
    || s.current == s.base
    || (s.current.Some? && s.base.Some? && Whole(s.releases, s.current.value) && Whole(s.releases, s.base.value)
        && ReleaseParts(s.current.value) == ReleaseParts(s.base.value)
        && dg(s.releases[s.current.value]) == dg(s.releases[s.base.value]))
  }

  /** The run is to move the current link. */
  predicate Selecting(args: Args) {
    args.Install? ==> !args.stageOnly
  }

  ghost predicate Going(dg: Identity, s: State, proc: Proc) {
    !proc.faulted && Captured(dg, s, proc) && Selecting(proc.args)
  }

  /** Where the holder of the store lease stands. */
  ghost predicate Story(dg: Identity, s: State, p: Pid, proc: Proc) {
    match proc.phase
    case Locked => !proc.restoring && !proc.faulted && s.current == s.base
    case Checked => !proc.restoring && !proc.faulted && s.current == s.base && Captured(dg, s, proc)
    case Copying => Going(dg, s, proc) && Unmoved(dg, s, proc) && Source(dg, s, proc)
    case Staging => Going(dg, s, proc) && Unmoved(dg, s, proc) && Source(dg, s, proc)
    case Staged => Going(dg, s, proc) && Unmoved(dg, s, proc) && Source(dg, s, proc)
    case Published =>
      !proc.restoring && !proc.faulted && s.current == s.base && Captured(dg, s, proc) && Asked(dg, s, proc, proc.goal)
    case Sweeping => Going(dg, s, proc) && Unmoved(dg, s, proc) && Goal(dg, s, proc)
    case Linking => Going(dg, s, proc) && Unmoved(dg, s, proc) && Goal(dg, s, proc)
    case Linked =>
      Going(dg, s, proc) && Unmoved(dg, s, proc) && Goal(dg, s, proc) && p in s.links && s.links[p] == proc.goal
    case Moved => Going(dg, s, proc) && Goal(dg, s, proc) && s.current == Some(proc.goal)
    case Handling =>
      Going(dg, s, proc) && !proc.restoring && Goal(dg, s, proc)
      && (s.current == s.base || s.current == Some(proc.goal))
    case Restoring =>
      Going(dg, s, proc) && proc.restoring && s.current == Some(proc.changed) && Asked(dg, s, proc, proc.changed)
    case Unlocking(ok) => if ok then Succeeded(dg, s, proc) else Undone(dg, s) || Refused(dg, s, proc)
    case _ => true
  }

  ghost predicate Succeeded(dg: Identity, s: State, proc: Proc) {
    && Captured(dg, s, proc) && Asked(dg, s, proc, proc.goal)
    && s.current == (if Selecting(proc.args) then Some(proc.goal) else s.base)
  }

  /** The restoration was refused or failed: the current link still names one whole generation. */
  ghost predicate Refused(dg: Identity, s: State, proc: Proc) {
    && proc.faulted && Captured(dg, s, proc) && s.current.Some?
    && (Asked(dg, s, proc, s.current.value) || Former(dg, s, proc, s.current.value))
  }

  ghost predicate HolderOk(dg: Identity, s: State) {
    (s.storeLock.Some? && s.storeLock.value in s.procs ==>
          Story(dg, s, s.storeLock.value, s.procs[s.storeLock.value]))
  }

  ghost predicate Inv(dg: Identity, s: State) {
    CurrentOk(s) && LocksOk(s) && StagesOk(s) && HolderOk(dg, s)
  }

  /** A generation made for a name keeps its version and target. */
  lemma Made(name: Name, digest: Digest, identifier: string)
    requires ReleaseParts(name).Some? && |identifier| == 8 && Hex(identifier)
    ensures ReleaseParts(Generation(name, digest, identifier)) == ReleaseParts(name)
    ensures '+' in Generation(name, digest, identifier)
  {
    hide ReleaseParts, Generation;
    assert Hex(digest[..16]);
    GenerationKeepsParts(name, digest, identifier);
  }

  // ----- Every action keeps the invariant -----

  ghost predicate LocksStep(s: State, t: State, p: Pid, proc: Proc) {
    && (t.storeLock == Some(p) <==> UnderLease(proc.phase))
    && (t.storeLock == s.storeLock
        || ((s.storeLock == None || s.storeLock == Some(p)) && (t.storeLock == None || t.storeLock == Some(p))))
    && (forall d :: d in s.dataLocks && s.dataLocks[d] != Process(p) ==>
          d in t.dataLocks && t.dataLocks[d] == s.dataLocks[d])
    && (UnderData(proc.phase) && proc.args.data.Some? ==>
          proc.args.data.value in t.dataLocks && t.dataLocks[proc.args.data.value] == Process(p))
  }

  ghost predicate StagesStep(s: State, t: State, p: Pid, proc: Proc) {
    && ProcOk(t, proc)
    && s.nextStage <= t.nextStage
    && (forall i :: i in proc.created ==> i >= s.nextStage || (p in s.procs && i in s.procs[p].created))
    && (forall i :: i in t.stages ==> i in s.stages || i in proc.created)
  }

  predicate SameStore(s: State, t: State) {
    t.releases == s.releases && t.current == s.current && t.base == s.base && t.links == s.links
  }

  lemma LocksKept(s: State, t: State, p: Pid, proc: Proc)
    requires LocksOk(s) && LocksStep(s, t, p, proc) && t.procs == s.procs[p := proc]
    ensures LocksOk(t)
  {
  }

  lemma StagesKept(s: State, t: State, p: Pid, proc: Proc)
    requires StagesOk(s) && StagesStep(s, t, p, proc) && t.procs == s.procs[p := proc]
    ensures StagesOk(t)
  {
    hide UnderLease;
    forall q | q in t.procs
      ensures ProcOk(t, t.procs[q])
    {
      if q != p {
        assert ProcOk(s, s.procs[q]);
        assert p in s.procs ==> s.procs[p].created !! s.procs[q].created;
      }
    }
    forall q, r | q in t.procs && r in t.procs && q != r
      ensures t.procs[q].created !! t.procs[r].created
    {
      assert q in s.procs ==> ProcOk(s, s.procs[q]);
      assert r in s.procs ==> ProcOk(s, s.procs[r]);
    }
  }

  /** What the invariant says of one process. */
  lemma Mine(dg: Identity, s: State, p: Pid)
    requires Inv(dg, s) && p in s.procs
    ensures CurrentOk(s) && ProcOk(s, s.procs[p])
    ensures UnderLease(s.procs[p].phase) <==> s.storeLock == Some(p)
    ensures UnderLease(s.procs[p].phase) ==> Story(dg, s, p, s.procs[p])
    ensures var data := s.procs[p].args.data;
            UnderData(s.procs[p].phase) && data.Some? ==>
              data.value in s.dataLocks && s.dataLocks[data.value] == Process(p)
  {
    hide Story, ProcOk, Whole;
  }

  lemma StoryKept(dg: Identity, s: State, t: State, q: Pid, proc: Proc)
    requires SameStore(s, t) && Story(dg, s, q, proc)
    ensures Story(dg, t, q, proc)
  {
    hide ReleaseParts, Generation, NotOlder;
  }

  /** One process acts: what it must establish for itself is enough. */
  lemma Kept(dg: Identity, s: State, t: State, p: Pid, proc: Proc)
    requires Inv(dg, s) && t.procs == s.procs[p := proc]
    requires LocksStep(s, t, p, proc) && StagesStep(s, t, p, proc)
    requires CurrentOk(t)
    requires UnderLease(proc.phase) ==> Story(dg, t, p, proc)
    requires (s.storeLock.Some? && s.storeLock != Some(p)) ==> SameStore(s, t)
    ensures Inv(dg, t)
  {
    hide Story, ProcOk, Whole, StagesOk, StagesStep, UnderLease;
    LocksKept(s, t, p, proc);
    StagesKept(s, t, p, proc);
    if t.storeLock.Some? && t.storeLock != Some(p) {
      StoryKept(dg, s, t, t.storeLock.value, s.procs[t.storeLock.value]);
    }
  }

  /** The same, for an action inside the lease that leaves the locks alone. */
  lemma KeptInside(dg: Identity, s: State, t: State, p: Pid, proc: Proc)
    requires Inv(dg, s) && p in s.procs && t.procs == s.procs[p := proc] && proc.args == s.procs[p].args
    requires UnderLease(s.procs[p].phase) && UnderLease(proc.phase)
    requires t.storeLock == s.storeLock && t.dataLocks == s.dataLocks
    requires StagesStep(s, t, p, proc)
    requires CurrentOk(t) && Story(dg, t, p, proc)
    ensures Inv(dg, t)
  {
    hide Story, ProcOk, Whole, StagesOk, StagesStep, Inv, CurrentOk;
    Mine(dg, s, p);
    Kept(dg, s, t, p, proc);
  }

  /** The same, where the private directories are left alone too. */
  lemma KeptAlone(dg: Identity, s: State, t: State, p: Pid, proc: Proc)
    requires Inv(dg, s) && p in s.procs && t.procs == s.procs[p := proc] && proc.args == s.procs[p].args
    requires UnderLease(s.procs[p].phase) && UnderLease(proc.phase)
    requires t.storeLock == s.storeLock && t.dataLocks == s.dataLocks
    requires t.stages == s.stages && t.nextStage == s.nextStage
    requires proc.created == s.procs[p].created && proc.stage == s.procs[p].stage && proc.copy == s.procs[p].copy
    requires Copied(s.procs[p].phase) ==> Copied(proc.phase)
    requires CurrentOk(t) && Story(dg, t, p, proc)
    ensures Inv(dg, t)
  {
    assert StagesStep(s, t, p, proc) by {
      hide Story, Whole, StagesOk, Inv, CurrentOk;
      Mine(dg, s, p);
    }
    hide Story, ProcOk, Whole, StagesOk, StagesStep, Inv, CurrentOk;
    KeptInside(dg, s, t, p, proc);
  }

  lemma NotHolder(dg: Identity, s: State, p: Pid)
    requires Inv(dg, s) && !Live(s, p)
    ensures s.storeLock != Some(p)
    ensures CurrentOk(s)
  {
    hide ProcOk, Story, Selection;
  }

  lemma KeepSpawn(dg: Identity, s: State, p: Pid, args: Args)
    requires Inv(dg, s) && DoSpawn(s, p, args).Some?
    ensures Inv(dg, DoSpawn(s, p, args).value)
  {
    hide ReleaseParts, Generation, NotOlder, Inv, Story, Whole, Selection, Hex, Pow256, Effect;
    var t := DoSpawn(s, p, args).value;
    NotHolder(dg, s, p);
    Kept(dg, s, t, p, t.procs[p]);
  }

  lemma KeepCreateStage(dg: Identity, s: State, p: Pid, partial: Tree)
    requires Inv(dg, s) && DoCreateStage(s, p, partial).Some?
    ensures Inv(dg, DoCreateStage(s, p, partial).value)
  {
    hide ReleaseParts, Generation, NotOlder, Inv, Story, Whole, Selection, Hex, Pow256, Effect;
    var t := DoCreateStage(s, p, partial).value;
    Mine(dg, s, p);
    Kept(dg, s, t, p, t.procs[p]);
  }

  lemma KeepFillStage(dg: Identity, s: State, p: Pid, tree: Tree)
    requires Inv(dg, s) && DoFillStage(dg, s, p, tree).Some?
    ensures Inv(dg, DoFillStage(dg, s, p, tree).value)
  {
    hide ReleaseParts, Generation, NotOlder, Inv, Story, Whole, Selection, Hex, Pow256, Effect;
    var t := DoFillStage(dg, s, p, tree).value;
    Mine(dg, s, p);
    Kept(dg, s, t, p, t.procs[p]);
  }

  lemma KeepTakeData(dg: Identity, s: State, p: Pid)
    requires Inv(dg, s) && DoTakeData(s, p).Some?
    ensures Inv(dg, DoTakeData(s, p).value)
  {
    hide ReleaseParts, Generation, NotOlder, Inv, Story, Whole, Selection, Hex, Pow256, Effect;
    var t := DoTakeData(s, p).value;
    Mine(dg, s, p);
    Kept(dg, s, t, p, t.procs[p]);
  }

  lemma KeepTakeStore(dg: Identity, s: State, p: Pid)
    requires Inv(dg, s) && DoTakeStore(s, p).Some?
    ensures Inv(dg, DoTakeStore(s, p).value)
  {
    hide ReleaseParts, Generation, NotOlder, Inv, Whole, Selection, Hex, Pow256, Effect;
    var t := DoTakeStore(s, p).value;
    Mine(dg, s, p);
    Kept(dg, s, t, p, t.procs[p]);
  }

  lemma KeepUnlock(dg: Identity, s: State, p: Pid)
    requires Inv(dg, s) && DoUnlock(s, p).Some?
    ensures Inv(dg, DoUnlock(s, p).value)
  {
    hide ReleaseParts, Generation, NotOlder, Inv, Story, Whole, Selection, Hex, Pow256, Effect;
    var t := DoUnlock(s, p).value;
    Mine(dg, s, p);
    Kept(dg, s, t, p, t.procs[p]);
  }

  lemma KeepClean(dg: Identity, s: State, p: Pid)
    requires Inv(dg, s) && DoClean(s, p).Some?
    ensures Inv(dg, DoClean(s, p).value)
  {
    hide ReleaseParts, Generation, NotOlder, Inv, Story, Whole, Selection, Hex, Pow256, Effect;
    var t := DoClean(s, p).value;
    Mine(dg, s, p);
    Kept(dg, s, t, p, t.procs[p]);
  }

  lemma KeepKill(dg: Identity, s: State, p: Pid)
    requires Inv(dg, s) && DoKill(s, p).Some?
    ensures Inv(dg, DoKill(s, p).value)
  {
    hide ReleaseParts, Generation, NotOlder, Inv, Story, Whole, Selection, Hex, Pow256, Effect;
    var t := DoKill(s, p).value;
    Mine(dg, s, p);
    Kept(dg, s, t, p, t.procs[p]);
  }

  lemma CheckStory(dg: Identity, s: State, p: Pid, readable: bool)
    requires DoCheck(dg, s, p, readable).Some? && CurrentOk(s) && Story(dg, s, p, s.procs[p])
    ensures var t := DoCheck(dg, s, p, readable).value;
            CurrentOk(t) && Story(dg, t, p, t.procs[p])
  {
    hide Generation, NotOlder, ReleaseParts, Hex, Pow256, Effect;
  }

  lemma KeepCheck(dg: Identity, s: State, p: Pid, readable: bool)
    requires Inv(dg, s) && DoCheck(dg, s, p, readable).Some?
    ensures Inv(dg, DoCheck(dg, s, p, readable).value)
  {
    hide ReleaseParts, Generation, NotOlder, Inv, Story, Whole, Selection, Hex, Pow256, CurrentOk, ProcOk;
    var t := DoCheck(dg, s, p, readable).value;
    Mine(dg, s, p);
    CheckStory(dg, s, p, readable);
    KeptAlone(dg, s, t, p, t.procs[p]);
  }

  lemma ReadSourceStory(dg: Identity, s: State, p: Pid)
    requires DoReadSource(dg, s, p).Some? && CurrentOk(s) && Story(dg, s, p, s.procs[p])
    ensures var t := DoReadSource(dg, s, p).value;
            CurrentOk(t) && Story(dg, t, p, t.procs[p])
  {
    hide Generation, NotOlder, ReleaseParts, Hex, Pow256, Effect;
  }

  lemma KeepReadSource(dg: Identity, s: State, p: Pid)
    requires Inv(dg, s) && DoReadSource(dg, s, p).Some?
    ensures Inv(dg, DoReadSource(dg, s, p).value)
  {
    hide ReleaseParts, Generation, NotOlder, Inv, Story, Whole, Selection, Hex, Pow256, CurrentOk, ProcOk;
    var t := DoReadSource(dg, s, p).value;
    Mine(dg, s, p);
    ReadSourceStory(dg, s, p);
    KeptAlone(dg, s, t, p, t.procs[p]);
  }

  lemma LaunchersStory(dg: Identity, s: State, p: Pid)
    requires DoLaunchers(s, p).Some? && CurrentOk(s) && Story(dg, s, p, s.procs[p])
    ensures var t := DoLaunchers(s, p).value;
            CurrentOk(t) && Story(dg, t, p, t.procs[p])
  {
    hide Generation, NotOlder, ReleaseParts, Hex, Pow256, Effect;
  }

  lemma KeepLaunchers(dg: Identity, s: State, p: Pid)
    requires Inv(dg, s) && DoLaunchers(s, p).Some?
    ensures Inv(dg, DoLaunchers(s, p).value)
  {
    hide ReleaseParts, Generation, NotOlder, Inv, Story, Whole, Selection, Hex, Pow256, CurrentOk, ProcOk;
    var t := DoLaunchers(s, p).value;
    Mine(dg, s, p);
    LaunchersStory(dg, s, p);
    KeptAlone(dg, s, t, p, t.procs[p]);
  }

  lemma LinkStory(dg: Identity, s: State, p: Pid)
    requires DoLink(dg, s, p).Some? && CurrentOk(s) && Story(dg, s, p, s.procs[p])
    ensures var t := DoLink(dg, s, p).value;
            CurrentOk(t) && Story(dg, t, p, t.procs[p])
  {
    hide Generation, NotOlder, ReleaseParts, Hex, Pow256, Effect;
  }

  lemma KeepLink(dg: Identity, s: State, p: Pid)
    requires Inv(dg, s) && DoLink(dg, s, p).Some?
    ensures Inv(dg, DoLink(dg, s, p).value)
  {
    hide ReleaseParts, Generation, NotOlder, Inv, Story, Whole, Selection, Hex, Pow256, CurrentOk, ProcOk;
    var t := DoLink(dg, s, p).value;
    Mine(dg, s, p);
    LinkStory(dg, s, p);
    KeptAlone(dg, s, t, p, t.procs[p]);
  }

  lemma MoveStory(dg: Identity, s: State, p: Pid)
    requires DoMove(s, p).Some? && CurrentOk(s) && Story(dg, s, p, s.procs[p])
    ensures var t := DoMove(s, p).value;
            CurrentOk(t) && Story(dg, t, p, t.procs[p])
  {
    hide Generation, NotOlder, ReleaseParts, Hex, Pow256, Effect;
  }

  lemma KeepMove(dg: Identity, s: State, p: Pid)
    requires Inv(dg, s) && DoMove(s, p).Some?
    ensures Inv(dg, DoMove(s, p).value)
  {
    hide ReleaseParts, Generation, NotOlder, Inv, Story, Whole, Selection, Hex, Pow256, CurrentOk, ProcOk;
    var t := DoMove(s, p).value;
    Mine(dg, s, p);
    MoveStory(dg, s, p);
    KeptAlone(dg, s, t, p, t.procs[p]);
  }

  lemma ConfirmStory(dg: Identity, s: State, p: Pid)
    requires DoConfirm(dg, s, p).Some? && CurrentOk(s) && Story(dg, s, p, s.procs[p])
    ensures var t := DoConfirm(dg, s, p).value;
            CurrentOk(t) && Story(dg, t, p, t.procs[p])
  {
    hide Generation, NotOlder, ReleaseParts, Hex, Pow256, Effect;
  }

  lemma KeepConfirm(dg: Identity, s: State, p: Pid)
    requires Inv(dg, s) && DoConfirm(dg, s, p).Some?
    ensures Inv(dg, DoConfirm(dg, s, p).value)
  {
    hide ReleaseParts, Generation, NotOlder, Inv, Story, Whole, Selection, Hex, Pow256, CurrentOk, ProcOk;
    var t := DoConfirm(dg, s, p).value;
    Mine(dg, s, p);
    ConfirmStory(dg, s, p);
    KeptAlone(dg, s, t, p, t.procs[p]);
  }

  lemma HandleStory(dg: Identity, s: State, p: Pid)
    requires DoHandle(s, p).Some? && CurrentOk(s) && Story(dg, s, p, s.procs[p])
    ensures var t := DoHandle(s, p).value;
            CurrentOk(t) && Story(dg, t, p, t.procs[p])
  {
    hide Generation, NotOlder, ReleaseParts, Hex, Pow256, Effect;
  }

  lemma KeepHandle(dg: Identity, s: State, p: Pid)
    requires Inv(dg, s) && DoHandle(s, p).Some?
    ensures Inv(dg, DoHandle(s, p).value)
  {
    hide ReleaseParts, Generation, NotOlder, Inv, Story, Whole, Selection, Hex, Pow256, CurrentOk, ProcOk;
    var t := DoHandle(s, p).value;
    Mine(dg, s, p);
    HandleStory(dg, s, p);
    if t.procs[p].phase.Restoring? {
      KeptAlone(dg, s, t, p, t.procs[p]);
    } else {
      KeptAlone(dg, s, t, p, t.procs[p]);
    }
  }

  lemma RestoreStory(dg: Identity, s: State, p: Pid)
    requires DoRestore(dg, s, p).Some? && CurrentOk(s) && Story(dg, s, p, s.procs[p])
    ensures var t := DoRestore(dg, s, p).value;
            CurrentOk(t) && Story(dg, t, p, t.procs[p])
  {
    hide Generation, NotOlder, ReleaseParts, Hex, Pow256, Effect;
  }

  lemma KeepRestore(dg: Identity, s: State, p: Pid)
    requires Inv(dg, s) && DoRestore(dg, s, p).Some?
    ensures Inv(dg, DoRestore(dg, s, p).value)
  {
    hide ReleaseParts, Generation, NotOlder, Inv, Story, Whole, Selection, Hex, Pow256, CurrentOk, ProcOk;
    var t := DoRestore(dg, s, p).value;
    Mine(dg, s, p);
    RestoreStory(dg, s, p);
    if s.procs[p].prev.None? {
      KeptAlone(dg, s, t, p, t.procs[p]);
    } else {
      KeptAlone(dg, s, t, p, t.procs[p]);
    }
  }

  lemma CreateCopyStory(dg: Identity, s: State, p: Pid, partial: Tree)
    requires DoCreateCopy(s, p, partial).Some? && CurrentOk(s) && Story(dg, s, p, s.procs[p])
    ensures var t := DoCreateCopy(s, p, partial).value;
            CurrentOk(t) && Story(dg, t, p, t.procs[p])
  {
    hide Generation, NotOlder, ReleaseParts, Hex, Pow256, Effect;
  }

  lemma KeepCreateCopy(dg: Identity, s: State, p: Pid, partial: Tree)
    requires Inv(dg, s) && DoCreateCopy(s, p, partial).Some?
    ensures Inv(dg, DoCreateCopy(s, p, partial).value)
  {
    hide ReleaseParts, Generation, NotOlder, Inv, Story, Whole, Selection, Hex, Pow256, Effect;
    var t := DoCreateCopy(s, p, partial).value;
    Mine(dg, s, p);
    CreateCopyStory(dg, s, p, partial);
    KeptInside(dg, s, t, p, t.procs[p]);
  }

  lemma FillCopyStory(dg: Identity, s: State, p: Pid, tree: Tree)
    requires DoFillCopy(dg, s, p, tree).Some? && CurrentOk(s) && Story(dg, s, p, s.procs[p])
    ensures var t := DoFillCopy(dg, s, p, tree).value;
            CurrentOk(t) && Story(dg, t, p, t.procs[p])
  {
    hide Generation, NotOlder, ReleaseParts, Hex, Pow256, Effect;
  }

  lemma KeepFillCopy(dg: Identity, s: State, p: Pid, tree: Tree)
    requires Inv(dg, s) && DoFillCopy(dg, s, p, tree).Some?
    ensures Inv(dg, DoFillCopy(dg, s, p, tree).value)
  {
    hide ReleaseParts, Generation, NotOlder, Inv, Story, Whole, Selection, Hex, Pow256, Effect;
    var t := DoFillCopy(dg, s, p, tree).value;
    Mine(dg, s, p);
    FillCopyStory(dg, s, p, tree);
    KeptInside(dg, s, t, p, t.procs[p]);
  }

  lemma SweepStory(dg: Identity, s: State, p: Pid)
    requires DoSweep(s, p).Some? && CurrentOk(s) && Story(dg, s, p, s.procs[p])
    ensures var t := DoSweep(s, p).value;
            CurrentOk(t) && Story(dg, t, p, t.procs[p])
  {
    hide Generation, NotOlder, ReleaseParts, Hex, Pow256, Effect;
  }

  lemma KeepSweep(dg: Identity, s: State, p: Pid)
    requires Inv(dg, s) && DoSweep(s, p).Some?
    ensures Inv(dg, DoSweep(s, p).value)
  {
    hide ReleaseParts, Generation, NotOlder, Inv, Story, Whole, Selection, Hex, Pow256, Effect;
    var t := DoSweep(s, p).value;
    Mine(dg, s, p);
    SweepStory(dg, s, p);
    KeptInside(dg, s, t, p, t.procs[p]);
  }

  lemma PublishStageStory(dg: Identity, s: State, p: Pid, identifier: string)
    requires DoPublishStage(dg, s, p, identifier).Some? && CurrentOk(s) && Story(dg, s, p, s.procs[p])
    ensures var t := DoPublishStage(dg, s, p, identifier).value;
            CurrentOk(t) && Story(dg, t, p, t.procs[p])
  {
    hide Generation, NotOlder, ReleaseParts, Hex, Pow256, Effect;
    var proc := s.procs[p];
    var name := proc.args.name;
    if !Reusable(dg, s, name, proc.digest) { Made(name, proc.digest, identifier); }
  }

  lemma KeepPublishStage(dg: Identity, s: State, p: Pid, identifier: string)
    requires Inv(dg, s) && DoPublishStage(dg, s, p, identifier).Some?
    ensures Inv(dg, DoPublishStage(dg, s, p, identifier).value)
  {
    hide ReleaseParts, Generation, NotOlder, Inv, Story, Whole, Selection, Hex, Pow256, Effect;
    var t := DoPublishStage(dg, s, p, identifier).value;
    Mine(dg, s, p);
    PublishStageStory(dg, s, p, identifier);
    KeptInside(dg, s, t, p, t.procs[p]);
  }

  lemma PublishCopyStory(dg: Identity, s: State, p: Pid, identifier: string)
    requires DoPublishCopy(dg, s, p, identifier).Some? && CurrentOk(s) && Story(dg, s, p, s.procs[p])
    ensures var t := DoPublishCopy(dg, s, p, identifier).value;
            CurrentOk(t) && Story(dg, t, p, t.procs[p])
  {
    hide Generation, NotOlder, ReleaseParts, Hex, Pow256, Effect;
    var proc := s.procs[p];
    var name := Request(proc);
    var digest := dg(s.stages[proc.copy.value]);
    if !Reusable(dg, s, name, digest) { Made(name, digest, identifier); }
  }

  lemma KeepPublishCopy(dg: Identity, s: State, p: Pid, identifier: string)
    requires Inv(dg, s) && DoPublishCopy(dg, s, p, identifier).Some?
    ensures Inv(dg, DoPublishCopy(dg, s, p, identifier).value)
  {
    hide ReleaseParts, Generation, NotOlder, Inv, Story, Whole, Selection, Hex, Pow256, Effect;
    var t := DoPublishCopy(dg, s, p, identifier).value;
    Mine(dg, s, p);
    PublishCopyStory(dg, s, p, identifier);
    KeptInside(dg, s, t, p, t.procs[p]);
  }

  lemma FaultStory(dg: Identity, s: State, p: Pid)
    requires DoFault(s, p).Some? && CurrentOk(s) && Story(dg, s, p, s.procs[p])
    requires UnderLease(s.procs[p].phase)
    ensures var t := DoFault(s, p).value;
            CurrentOk(t) && Story(dg, t, p, t.procs[p])
  {
    hide Generation, NotOlder, ReleaseParts, Hex, Pow256, Effect;
  }

  lemma KeepFaultInside(dg: Identity, s: State, p: Pid)
    requires Inv(dg, s) && DoFault(s, p).Some? && UnderLease(s.procs[p].phase)
    ensures Inv(dg, DoFault(s, p).value)
  {
    hide ReleaseParts, Generation, NotOlder, Inv, Story, Whole, Selection, Hex, Pow256, Effect, CurrentOk;
    var t := DoFault(s, p).value;
    Mine(dg, s, p);
    FaultStory(dg, s, p);
    KeptInside(dg, s, t, p, t.procs[p]);
  }

  lemma KeepFaultOutside(dg: Identity, s: State, p: Pid)
    requires Inv(dg, s) && DoFault(s, p).Some? && !UnderLease(s.procs[p].phase)
    ensures Inv(dg, DoFault(s, p).value)
  {
    hide ReleaseParts, Generation, NotOlder, Inv, Story, Whole, Selection, Hex, Pow256, Effect;
    var t := DoFault(s, p).value;
    Mine(dg, s, p);
    Kept(dg, s, t, p, t.procs[p]);
  }

  lemma KeepFault(dg: Identity, s: State, p: Pid)
    requires Inv(dg, s) && DoFault(s, p).Some?
    ensures Inv(dg, DoFault(s, p).value)
  {
    hide Inv;
    if UnderLease(s.procs[p].phase) {
      KeepFaultInside(dg, s, p);
    } else {
      KeepFaultOutside(dg, s, p);
    }
  }

  lemma SameProcOk(s: State, t: State, proc: Proc)
    requires ProcOk(s, proc) && s.stages == t.stages && s.nextStage == t.nextStage
    ensures ProcOk(t, proc)
  {
  }

  lemma StagesSame(s: State, t: State)
    requires StagesOk(s) && t.procs == s.procs && t.stages == s.stages && t.nextStage == s.nextStage
    ensures StagesOk(t)
  {
    hide ProcOk;
    forall q | q in t.procs
      ensures ProcOk(t, t.procs[q])
    {
      SameProcOk(s, t, s.procs[q]);
    }
  }

  /** A daemon taking or leaving a data directory touches no process's lock. */
  lemma LocksBeside(s: State, t: State)
    requires LocksOk(s) && t.procs == s.procs && t.storeLock == s.storeLock
    requires forall d :: d in s.dataLocks && s.dataLocks[d] != Daemon ==>
               d in t.dataLocks && t.dataLocks[d] == s.dataLocks[d]
    ensures LocksOk(t)
  {
    hide UnderLease;
  }

  lemma Beside(dg: Identity, s: State, locks: map<Dir, Owner>)
    requires Inv(dg, s)
    requires forall d :: d in s.dataLocks && s.dataLocks[d] != Daemon ==> d in locks && locks[d] == s.dataLocks[d]
    ensures Inv(dg, s.(dataLocks := locks))
  {
    hide LocksOk, StagesOk, Story, Selection;
    var t := s.(dataLocks := locks);
    LocksBeside(s, t);
    StagesSame(s, t);
    if s.storeLock.Some? && s.storeLock.value in s.procs {
      StoryKept(dg, s, t, s.storeLock.value, s.procs[s.storeLock.value]);
    }
  }

  lemma KeepDaemon(dg: Identity, s: State, p: Pid, a: Action)
    requires a.DaemonStart? || a.DaemonStop?
    requires Inv(dg, s) && Step(dg, s, p, a).Some?
    ensures Inv(dg, Step(dg, s, p, a).value)
  {
    hide Inv;
    hide DoSpawn, DoCreateStage, DoFillStage, DoTakeData, DoTakeStore, DoCheck, DoReadSource, DoCreateCopy;
    hide DoFillCopy, DoPublishStage, DoPublishCopy, DoSweep, DoLaunchers, DoLink, DoMove, DoConfirm, DoHandle;
    hide DoRestore, DoUnlock, DoClean, DoFault, DoKill;
    Beside(dg, s, Step(dg, s, p, a).value.dataLocks);
  }

  /** Every step of every process keeps the invariant. */
  lemma StepKeeps(dg: Identity, s: State, p: Pid, a: Action)
    requires Inv(dg, s) && Step(dg, s, p, a).Some?
    ensures Inv(dg, Step(dg, s, p, a).value)
  {
    hide Inv, DoSpawn, DoCreateStage, DoFillStage, DoTakeData, DoTakeStore, DoCheck, DoReadSource, DoCreateCopy;
    hide DoFillCopy, DoPublishStage, DoPublishCopy, DoSweep, DoLaunchers, DoLink, DoMove, DoConfirm, DoHandle;
    hide DoRestore, DoUnlock, DoClean, DoFault, DoKill;
    match a
    case Spawn(args) => KeepSpawn(dg, s, p, args);
    case CreateStage(partial) => KeepCreateStage(dg, s, p, partial);
    case FillStage(tree) => KeepFillStage(dg, s, p, tree);
    case TakeData => KeepTakeData(dg, s, p);
    case TakeStore => KeepTakeStore(dg, s, p);
    case Check(readable) => KeepCheck(dg, s, p, readable);
    case ReadSource => KeepReadSource(dg, s, p);
    case CreateCopy(partial) => KeepCreateCopy(dg, s, p, partial);
    case FillCopy(tree) => KeepFillCopy(dg, s, p, tree);
    case PublishStage(identifier) => KeepPublishStage(dg, s, p, identifier);
    case PublishCopy(identifier) => KeepPublishCopy(dg, s, p, identifier);
    case Sweep => KeepSweep(dg, s, p);
    case Launchers => KeepLaunchers(dg, s, p);
    case Link => KeepLink(dg, s, p);
    case Move => KeepMove(dg, s, p);
    case Confirm => KeepConfirm(dg, s, p);
    case Handle => KeepHandle(dg, s, p);
    case Restore => KeepRestore(dg, s, p);
    case Unlock => KeepUnlock(dg, s, p);
    case Clean => KeepClean(dg, s, p);
    case Fault => KeepFault(dg, s, p);
    case Kill => KeepKill(dg, s, p);
    case DaemonStart(dir) => KeepDaemon(dg, s, p, a);
    case DaemonStop(dir) => KeepDaemon(dg, s, p, a);
  }
}
