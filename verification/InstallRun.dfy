/** What the protocol is for: an installation, a rollback and a restoration that nothing disturbs all succeed. */
module InstallRun {
  import opened Bytes
  import opened Options
  import opened ReleaseName
  import opened TreeDigest
  import opened InstallProtocol
  import opened InstallInvariant
  import opened InstallSafety

  // ----- Composing runs -----

  lemma RunTwo(dg: Identity, s: State, p: Pid, a: Action, b: Action, s1: State, s2: State)
    requires Step(dg, s, p, a) == Some(s1) && Step(dg, s1, p, b) == Some(s2)
    ensures Run(dg, s, [Event(p, a), Event(p, b)]) == Some(s2)
  {
    hide Step;
    var events := [Event(p, a), Event(p, b)];
    assert events[1..] == [Event(p, b)] && [Event(p, b)][1..] == [];
    assert Run(dg, s2, []) == Some(s2);
    assert Run(dg, s1, [Event(p, b)]) == Some(s2);
  }

  lemma RunThree(dg: Identity, s: State, p: Pid, a: Action, b: Action, c: Action, s1: State, s2: State, s3: State)
    requires Step(dg, s, p, a) == Some(s1) && Step(dg, s1, p, b) == Some(s2) && Step(dg, s2, p, c) == Some(s3)
    ensures Run(dg, s, [Event(p, a), Event(p, b), Event(p, c)]) == Some(s3)
  {
    hide Step;
    RunTwo(dg, s1, p, b, c, s2, s3);
    assert [Event(p, a), Event(p, b), Event(p, c)][1..] == [Event(p, b), Event(p, c)];
  }

  lemma RunOne(dg: Identity, s: State, p: Pid, a: Action, t: State)
    requires Step(dg, s, p, a) == Some(t)
    ensures Run(dg, s, [Event(p, a)]) == Some(t)
  {
    hide Step;
    assert [Event(p, a)][1..] == [];
    assert Run(dg, t, []) == Some(t);
  }

  lemma {:induction false} RunAppend(dg: Identity, s: State, first: seq<Event>, rest: seq<Event>)
    requires Run(dg, s, first).Some?
    ensures Run(dg, s, first + rest) == Run(dg, Run(dg, s, first).value, rest)
    decreases |first|
  {
    hide Step;
    if first == [] {
      assert first + rest == rest;
    } else {
      assert (first + rest)[1..] == first[1..] + rest;
      RunAppend(dg, Step(dg, s, first[0].pid, first[0].action).value, first[1..], rest);
    }
  }

  /** The process stands here; its own part of the state is this. */
  predicate Is(s: State, p: Pid, proc: Proc) {
    p in s.procs && s.procs[p] == proc
  }

  predicate SameLocks(s: State, t: State) {
    t.storeLock == s.storeLock && t.dataLocks == s.dataLocks
  }

  // Each action by its name.

  lemma EnterActs(dg: Identity, s: State, p: Pid)
    ensures Step(dg, s, p, TakeData) == DoTakeData(s, p)
    ensures Step(dg, s, p, TakeStore) == DoTakeStore(s, p)
    ensures Step(dg, s, p, Check(true)) == DoCheck(dg, s, p, true)
  {
    hide DoCheck, DoTakeData, DoTakeStore, Effect;
  }

  lemma SelectActs(dg: Identity, s: State, p: Pid)
    ensures Step(dg, s, p, Link) == DoLink(dg, s, p)
    ensures Step(dg, s, p, Move) == DoMove(s, p)
    ensures Step(dg, s, p, Confirm) == DoConfirm(dg, s, p)
  {
    hide DoConfirm, DoLink, DoMove, Effect;
  }

  lemma LeaveActs(dg: Identity, s: State, p: Pid)
    ensures Step(dg, s, p, Unlock) == DoUnlock(s, p)
    ensures Step(dg, s, p, Clean) == DoClean(s, p)
  {
    hide DoClean, DoUnlock, Effect;
  }

  lemma RestoreActs(dg: Identity, s: State, p: Pid)
    ensures Step(dg, s, p, Handle) == DoHandle(s, p)
    ensures Step(dg, s, p, Restore) == DoRestore(dg, s, p)
    ensures Step(dg, s, p, ReadSource) == DoReadSource(dg, s, p)
  {
    hide DoHandle, DoReadSource, DoRestore, Effect;
  }

  lemma FillActs(dg: Identity, s: State, p: Pid, args: Args, tree: Tree)
    ensures Step(dg, s, p, Spawn(args)) == DoSpawn(s, p, args)
    ensures Step(dg, s, p, CreateStage(tree)) == DoCreateStage(s, p, tree)
    ensures Step(dg, s, p, FillStage(tree)) == DoFillStage(dg, s, p, tree)
  {
    hide DoCreateStage, DoFillStage, DoSpawn, Effect;
  }

  lemma PlaceActs(dg: Identity, s: State, p: Pid, identifier: string)
    ensures Step(dg, s, p, PublishStage(identifier)) == DoPublishStage(dg, s, p, identifier)
    ensures Step(dg, s, p, Launchers) == DoLaunchers(s, p)
  {
    hide DoLaunchers, DoPublishStage, Effect;
  }

  lemma CopyActs(dg: Identity, s: State, p: Pid, tree: Tree)
    ensures Step(dg, s, p, CreateCopy(tree)) == DoCreateCopy(s, p, tree)
    ensures Step(dg, s, p, FillCopy(tree)) == DoFillCopy(dg, s, p, tree)
  {
    hide DoCreateCopy, DoFillCopy, Effect;
  }

  lemma SweepActs(dg: Identity, s: State, p: Pid, identifier: string)
    ensures Step(dg, s, p, PublishCopy(identifier)) == DoPublishCopy(dg, s, p, identifier)
    ensures Step(dg, s, p, Sweep) == DoSweep(s, p)
  {
    hide DoPublishCopy, DoSweep, Effect;
  }

  // ----- Selecting a generation -----

  /** A published generation with the wanted digest can be selected. */
  predicate Selectable(dg: Identity, s: State, p: Pid) {
    && At(s, p, Linking) && p !in s.links
    && s.procs[p].goal in s.releases && Wanted(s.procs[p], dg(s.releases[s.procs[p].goal]))
  }

  /** Everything but the current link and the process's phase is as it was. */
  predicate Selects(s: State, t: State, p: Pid) {
    && At(s, p, Linking) && Is(t, p, s.procs[p].(phase := Unlocking(!s.procs[p].restoring)))
    && SameLocks(s, t) && t.releases == s.releases && t.base == s.base && t.links == s.links && t.stages == s.stages
    && t.current == Some(s.procs[p].goal)
  }

  lemma MoveStates(dg: Identity, s: State, p: Pid) returns (s1: State, t: State)
    requires Selectable(dg, s, p)
    ensures DoLink(dg, s, p) == Some(s1) && DoMove(s1, p) == Some(t) && Is(t, p, s.procs[p].(phase := Moved))
    ensures SameLocks(s, t) && t.releases == s.releases && t.base == s.base && t.links == s.links
    ensures t.stages == s.stages && t.current == Some(s.procs[p].goal)
  {
    hide Effect, Hex, Pow256, Wanted;
    s1 := DoLink(dg, s, p).value;
    t := DoMove(s1, p).value;
  }

  lemma SelectStates(dg: Identity, s: State, p: Pid) returns (s1: State, s2: State, t: State)
    requires Selectable(dg, s, p)
    ensures DoLink(dg, s, p) == Some(s1) && DoMove(s1, p) == Some(s2) && DoConfirm(dg, s2, p) == Some(t)
    ensures Selects(s, t, p)
  {
    hide Effect, Hex, Pow256, DoLink, DoMove;
    s1, s2 := MoveStates(dg, s, p);
    t := DoConfirm(dg, s2, p).value;
  }

  lemma Select(dg: Identity, s: State, p: Pid) returns (events: seq<Event>, t: State)
    requires Selectable(dg, s, p)
    ensures Run(dg, s, events) == Some(t) && Selects(s, t, p)
  {
    hide Step, Run, DoSpawn, DoCreateStage, DoFillStage, DoTakeData, DoTakeStore, DoCheck, DoReadSource, DoCreateCopy;
    hide DoFillCopy, DoPublishStage, DoPublishCopy, DoSweep, DoLaunchers, DoLink, DoMove, DoConfirm, DoHandle;
    hide DoRestore, DoUnlock, DoClean;
    hide Selects, Selectable;
    var s1, s2;
    s1, s2, t := SelectStates(dg, s, p);
    SelectActs(dg, s, p);
    SelectActs(dg, s1, p);
    SelectActs(dg, s2, p);
    RunThree(dg, s, p, Link, Move, Confirm, s1, s2, t);
    events := [Event(p, Link), Event(p, Move), Event(p, Confirm)];
  }

  // ----- Leaving -----

  predicate Leaves(s: State, t: State, p: Pid) {
    && p in s.procs && s.procs[p].phase.Unlocking?
    && Is(t, p, s.procs[p].(phase := Done(s.procs[p].phase.ok), stage := None))
    && t.releases == s.releases && t.current == s.current && t.links == s.links
    && t.storeLock == (if s.storeLock == Some(p) then None else s.storeLock)
    && t.dataLocks == (map d | d in s.dataLocks && s.dataLocks[d] != Process(p) :: s.dataLocks[d])
    && t.stages == FreeStages(s.stages, s.procs[p].stage)
  }

  lemma LeaveStates(dg: Identity, s: State, p: Pid) returns (s1: State, t: State)
    requires p in s.procs && s.procs[p].phase.Unlocking?
    ensures DoUnlock(s, p) == Some(s1) && DoClean(s1, p) == Some(t) && Leaves(s, t, p)
  {
    hide Effect, Hex, Pow256;
    s1 := DoUnlock(s, p).value;
    t := DoClean(s1, p).value;
  }

  lemma Leave(dg: Identity, s: State, p: Pid) returns (events: seq<Event>, t: State)
    requires p in s.procs && s.procs[p].phase.Unlocking?
    ensures Run(dg, s, events) == Some(t) && Leaves(s, t, p)
  {
    hide Step, Run, DoSpawn, DoCreateStage, DoFillStage, DoTakeData, DoTakeStore, DoCheck, DoReadSource, DoCreateCopy;
    hide DoFillCopy, DoPublishStage, DoPublishCopy, DoSweep, DoLaunchers, DoLink, DoMove, DoConfirm, DoHandle;
    hide DoRestore, DoUnlock, DoClean;
    hide Leaves;
    var s1;
    s1, t := LeaveStates(dg, s, p);
    LeaveActs(dg, s, p);
    LeaveActs(dg, s1, p);
    RunTwo(dg, s, p, Unlock, Clean, s1, t);
    events := [Event(p, Unlock), Event(p, Clean)];
  }

  // ----- Entering the leases -----

  function Held(locks: map<Dir, Owner>, p: Pid, data: Option<Dir>): map<Dir, Owner> {
    if data.Some? then locks[data.value := Process(p)] else locks
  }

  function Seen(dg: Identity, s: State): Option<Digest> {
    if s.current.Some? && s.current.value in s.releases then Some(dg(s.releases[s.current.value])) else None
  }

  /** The leases are free and the version rule passes. */
  predicate Admitted(s: State, p: Pid) {
    && (At(s, p, Prepared) || (At(s, p, Started) && s.procs[p].args.Activate?))
    && Free(s, s.procs[p].args.data) && CheckPasses(s, s.procs[p].args)
  }

  predicate Free(s: State, data: Option<Dir>) {
    s.storeLock.None? && (if data.Some? then data.value !in s.dataLocks else s.current.None?)
  }

  predicate Enters(dg: Identity, s: State, t: State, p: Pid) {
    && p in s.procs && Is(t, p, s.procs[p].(phase := Checked, prev := s.current, prevDigest := Seen(dg, s)))
    && t.releases == s.releases && t.current == s.current && t.links == s.links && t.stages == s.stages
    && t.storeLock == Some(p) && t.dataLocks == Held(s.dataLocks, p, s.procs[p].args.data) && t.base == s.current
  }

  lemma LeaseStates(s: State, p: Pid) returns (s1: State, t: State)
    requires Admitted(s, p)
    ensures DoTakeData(s, p) == Some(s1) && DoTakeStore(s1, p) == Some(t) && Is(t, p, s.procs[p].(phase := Locked))
    ensures t.releases == s.releases && t.current == s.current && t.links == s.links && t.stages == s.stages
    ensures t.storeLock == Some(p) && t.dataLocks == Held(s.dataLocks, p, s.procs[p].args.data) && t.base == s.current
  {
    hide Effect, Hex, Pow256, CheckPasses;
    s1 := DoTakeData(s, p).value;
    t := DoTakeStore(s1, p).value;
  }

  lemma EnterStates(dg: Identity, s: State, p: Pid) returns (s1: State, s2: State, t: State)
    requires Admitted(s, p)
    ensures DoTakeData(s, p) == Some(s1) && DoTakeStore(s1, p) == Some(s2) && DoCheck(dg, s2, p, true) == Some(t)
    ensures Enters(dg, s, t, p)
  {
    hide Effect, Hex, Pow256, ReleaseParts, NotOlder, DoTakeData, DoTakeStore, Free;
    s1, s2 := LeaseStates(s, p);
    t := DoCheck(dg, s2, p, true).value;
  }

  lemma Enter(dg: Identity, s: State, p: Pid) returns (events: seq<Event>, t: State)
    requires Admitted(s, p)
    ensures Run(dg, s, events) == Some(t) && Enters(dg, s, t, p)
  {
    hide Step, Run, DoSpawn, DoCreateStage, DoFillStage, DoTakeData, DoTakeStore, DoCheck, DoReadSource, DoCreateCopy;
    hide DoFillCopy, DoPublishStage, DoPublishCopy, DoSweep, DoLaunchers, DoLink, DoMove, DoConfirm, DoHandle;
    hide DoRestore, DoUnlock, DoClean;
    hide Enters, Admitted;
    var s1, s2;
    s1, s2, t := EnterStates(dg, s, p);
    EnterActs(dg, s, p);
    EnterActs(dg, s1, p);
    EnterActs(dg, s2, p);
    RunThree(dg, s, p, TakeData, TakeStore, Check(true), s1, s2, t);
    events := [Event(p, TakeData), Event(p, TakeStore), Event(p, Check(true))];
  }

  // ----- Copying an unqualified release to a generation of its own -----

  /** A fresh name can be made for a digest. */
  predicate Nameable(s: State, name: Name, digest: Digest, identifier: string) {
    && ReleaseParts(name).Some? && |identifier| == 8 && Hex(identifier)
    && Generation(name, digest, identifier) !in s.releases
  }

  predicate Copyable(dg: Identity, s: State, p: Pid, identifier: string) {
    && At(s, p, Copying)
    && var proc := s.procs[p];
       && (proc.restoring ==> proc.prev.Some?)
       && Request(proc) in s.releases
       && (proc.restoring ==> proc.prevDigest == Some(dg(s.releases[Request(proc)])))
       && Nameable(s, Request(proc), dg(s.releases[Request(proc)]), identifier)
  }

  function WithCopy(proc: Proc, id: nat, digest: Digest): Proc {
    proc.(created := proc.created + {id}, digest := if proc.restoring then proc.digest else digest)
  }

  /** A private copy of what was asked for, and nothing else. */
  predicate Stages(dg: Identity, s: State, t: State, p: Pid) {
    && p in s.procs && var proc := s.procs[p];
       && (proc.restoring ==> proc.prev.Some?) && Request(proc) in s.releases
       && var tree := s.releases[Request(proc)];
          && Is(t, p, WithCopy(proc, s.nextStage, dg(tree)).(phase := Staged, copy := Some(s.nextStage)))
          && SameStore(s, t) && SameLocks(s, t) && t.stages == s.stages[s.nextStage := tree]
  }

  lemma StageStates(dg: Identity, s: State, p: Pid, identifier: string) returns (s1: State, t: State)
    requires Copyable(dg, s, p, identifier)
    ensures DoCreateCopy(s, p, s.releases[Request(s.procs[p])]) == Some(s1)
    ensures DoFillCopy(dg, s1, p, s.releases[Request(s.procs[p])]) == Some(t) && Stages(dg, s, t, p)
  {
    hide Effect, Hex, Pow256, ReleaseParts, Generation;
    var tree := s.releases[Request(s.procs[p])];
    s1 := DoCreateCopy(s, p, tree).value;
    t := DoFillCopy(dg, s1, p, tree).value;
  }

  /** The copy was published, or the selected generation already was the same, and no copy is left. */
  predicate Copies(dg: Identity, s: State, t: State, p: Pid) {
    && p in s.procs && p in t.procs && var proc, goal := s.procs[p], t.procs[p].goal;
       && (proc.restoring ==> proc.prev.Some?) && Request(proc) in s.releases
       && var digest := dg(s.releases[Request(proc)]);
          && t.procs[p] == WithCopy(proc, s.nextStage, digest).(phase := Linking, copy := None, goal := goal)
          && Grows(s.releases, t.releases) && goal in t.releases && dg(t.releases[goal]) == digest
          && ReleaseParts(goal).Some? && ReleaseParts(goal) == ReleaseParts(Request(proc))
          && t.current == s.current && t.links == s.links && SameLocks(s, t) && t.base == s.base
          && t.stages == s.stages - {s.nextStage}
  }

  /** A staged copy ready for publication. */
  predicate Publishable(dg: Identity, s: State, p: Pid, identifier: string) {
    && At(s, p, Staged)
    && var proc := s.procs[p];
       && (proc.restoring ==> proc.prev.Some?)
       && proc.copy.Some? && proc.copy.value in s.stages
       && Wanted(proc, dg(s.stages[proc.copy.value]))
       && Nameable(s, Request(proc), dg(s.stages[proc.copy.value]), identifier)
  }

  /** The generation a copy was published as, or which already was the same. */
  predicate Publishes(dg: Identity, s: State, t: State, p: Pid) {
    && At(s, p, Staged) && p in t.procs
    && var proc, goal, copy := s.procs[p], t.procs[p].goal, t.procs[p].copy;
       && (proc.restoring ==> proc.prev.Some?) && proc.copy.Some? && proc.copy.value in s.stages
       && var digest := dg(s.stages[proc.copy.value]);
          && t.procs[p] == proc.(phase := Sweeping, copy := copy, goal := goal)
          && Grows(s.releases, t.releases) && goal in t.releases && dg(t.releases[goal]) == digest
          && ReleaseParts(goal).Some? && ReleaseParts(goal) == ReleaseParts(Request(proc))
          && t.current == s.current && t.links == s.links && SameLocks(s, t) && t.base == s.base
          && FreeStages(t.stages, copy) == s.stages - {proc.copy.value}
  }

  lemma PublishState(dg: Identity, s: State, p: Pid, identifier: string) returns (t: State)
    requires Publishable(dg, s, p, identifier)
    ensures DoPublishCopy(dg, s, p, identifier) == Some(t) && Publishes(dg, s, t, p)
  {
    hide Effect, Hex, Pow256, ReleaseParts, Generation, Wanted;
    var name, digest := Request(s.procs[p]), dg(s.stages[s.procs[p].copy.value]);
    t := DoPublishCopy(dg, s, p, identifier).value;
    if !Reusable(dg, s, name, digest) {
      hide Reusable;
      Made(name, digest, identifier);
      assert t.stages == s.stages - {s.procs[p].copy.value};
    }
  }

  lemma SweepState(s: State, p: Pid) returns (t: State)
    requires At(s, p, Sweeping)
    ensures DoSweep(s, p) == Some(t) && Is(t, p, s.procs[p].(phase := Linking, copy := None))
    ensures SameStore(s, t) && SameLocks(s, t) && t.stages == FreeStages(s.stages, s.procs[p].copy)
  {
    hide Effect, Hex, Pow256;
    t := DoSweep(s, p).value;
  }

  lemma StagedPublishable(dg: Identity, s: State, s2: State, p: Pid, identifier: string)
    requires Copyable(dg, s, p, identifier) && Stages(dg, s, s2, p)
    ensures Publishable(dg, s2, p, identifier)
  {
    hide Hex, Pow256, ReleaseParts, Generation;
  }

  lemma PublishStates(dg: Identity, s: State, s2: State, p: Pid, identifier: string) returns (s3: State, t: State)
    requires Copyable(dg, s, p, identifier) && Stages(dg, s, s2, p)
    ensures DoPublishCopy(dg, s2, p, identifier) == Some(s3) && DoSweep(s3, p) == Some(t) && Copies(dg, s, t, p)
  {
    hide Effect, Hex, Pow256, ReleaseParts, Generation, DoPublishCopy, DoSweep, Publishable, Grows, Nameable;
    StagedPublishable(dg, s, s2, p, identifier);
    s3 := PublishState(dg, s2, p, identifier);
    t := SweepState(s3, p);
    assert s2.stages[s.nextStage] == s.releases[Request(s.procs[p])];
    assert s2.stages - {s.nextStage} == s.stages - {s.nextStage};
  }

  lemma Copy(dg: Identity, s: State, p: Pid, identifier: string) returns (events: seq<Event>, t: State)
    requires Copyable(dg, s, p, identifier)
    ensures Run(dg, s, events) == Some(t) && Copies(dg, s, t, p)
  {
    var tree := s.releases[Request(s.procs[p])];
    hide Step, Run, DoSpawn, DoCreateStage, DoFillStage, DoTakeData, DoTakeStore, DoCheck, DoReadSource, DoCreateCopy;
    hide DoFillCopy, DoPublishStage, DoPublishCopy, DoSweep, DoLaunchers, DoLink, DoMove, DoConfirm, DoHandle;
    hide DoRestore, DoUnlock, DoClean;
    hide Copies, Copyable, Stages;
    var s1, s2, s3;
    s1, s2 := StageStates(dg, s, p, identifier);
    s3, t := PublishStates(dg, s, s2, p, identifier);
    CopyActs(dg, s, p, tree);
    CopyActs(dg, s1, p, tree);
    SweepActs(dg, s2, p, identifier);
    SweepActs(dg, s3, p, identifier);
    RunTwo(dg, s, p, CreateCopy(tree), FillCopy(tree), s1, s2);
    RunTwo(dg, s2, p, PublishCopy(identifier), Sweep, s3, t);
    RunAppend(dg, s, [Event(p, CreateCopy(tree)), Event(p, FillCopy(tree))],
              [Event(p, PublishCopy(identifier)), Event(p, Sweep)]);
    events := [Event(p, CreateCopy(tree)), Event(p, FillCopy(tree))]
              + [Event(p, PublishCopy(identifier)), Event(p, Sweep)];
  }

  lemma Then(dg: Identity, s: State, first: seq<Event>, t: State, rest: seq<Event>, u: State)
    requires Run(dg, s, first) == Some(t) && Run(dg, t, rest) == Some(u)
    ensures Run(dg, s, first + rest) == Some(u)
  {
    hide Run;
    RunAppend(dg, s, first, rest);
  }

  // ----- From a chosen release to the end -----

  /** A generation to select, or an unqualified release to copy first. */
  predicate Choosable(dg: Identity, s: State, p: Pid, identifier: string) {
    && p !in s.links && (Selectable(dg, s, p) || Copyable(dg, s, p, identifier))
  }

  /** The release that was chosen. */
  function Choice(s: State, p: Pid): Name
    requires p in s.procs && (s.procs[p].restoring ==> s.procs[p].prev.Some?)
  {
    if s.procs[p].phase == Linking then s.procs[p].goal else Request(s.procs[p])
  }

  /** The run has ended with a tree of this digest selected, for the same version and target, and its locks dropped. */
  predicate Settled(dg: Identity, s: State, t: State, p: Pid, name: Name, digest: Digest) {
    && p in s.procs && p in t.procs && t.procs[p].phase == Done(!s.procs[p].restoring)
    && t.procs[p].faulted == s.procs[p].faulted
    && t.current.Some? && t.current.value in t.releases
    && ReleaseParts(t.current.value) == ReleaseParts(name) && dg(t.releases[t.current.value]) == digest
    && Grows(s.releases, t.releases) && t.links == s.links
    && t.storeLock == (if s.storeLock == Some(p) then None else s.storeLock)
    && t.dataLocks == (map d | d in s.dataLocks && s.dataLocks[d] != Process(p) :: s.dataLocks[d])
  }

  lemma SettleLinked(dg: Identity, s: State, p: Pid) returns (events: seq<Event>, t: State)
    requires Selectable(dg, s, p)
    ensures Run(dg, s, events) == Some(t)
    ensures Settled(dg, s, t, p, s.procs[p].goal, dg(s.releases[s.procs[p].goal]))
  {
    hide Run, ReleaseParts, Wanted, Hex, Pow256;
    var first, s1 := Select(dg, s, p);
    var rest, s2 := Leave(dg, s1, p);
    Then(dg, s, first, s1, rest, s2);
    events, t := first + rest, s2;
  }

  lemma CopiedSelectable(dg: Identity, s: State, t: State, p: Pid, identifier: string)
    requires Copyable(dg, s, p, identifier) && Copies(dg, s, t, p) && p !in s.links
    ensures Selectable(dg, t, p)
    ensures t.procs[p].faulted == s.procs[p].faulted && t.procs[p].restoring == s.procs[p].restoring
  {
    hide ReleaseParts, Hex, Pow256, Generation;
  }

  lemma SettleCopied(dg: Identity, s: State, p: Pid, identifier: string) returns (events: seq<Event>, t: State)
    requires Copyable(dg, s, p, identifier) && p !in s.links
    ensures Run(dg, s, events) == Some(t)
    ensures Settled(dg, s, t, p, Request(s.procs[p]), dg(s.releases[Request(s.procs[p])]))
  {
    hide Run, ReleaseParts, Selectable, Nameable, Hex, Pow256;
    var first, s1 := Copy(dg, s, p, identifier);
    CopiedSelectable(dg, s, s1, p, identifier);
    assert s1.procs[p].goal in s1.releases;
    var rest, s2 := SettleLinked(dg, s1, p);
    Then(dg, s, first, s1, rest, s2);
    events, t := first + rest, s2;
  }

  lemma Settle(dg: Identity, s: State, p: Pid, identifier: string) returns (events: seq<Event>, t: State)
    requires Choosable(dg, s, p, identifier) && (s.procs[p].restoring ==> s.procs[p].prev.Some?)
    ensures Choice(s, p) in s.releases
    ensures Run(dg, s, events) == Some(t) && Settled(dg, s, t, p, Choice(s, p), dg(s.releases[Choice(s, p)]))
  {
    hide Run, Settled, Wanted, Nameable;
    if s.procs[p].phase == Linking {
      events, t := SettleLinked(dg, s, p);
    } else {
      events, t := SettleCopied(dg, s, p, identifier);
    }
  }

  // ----- An installation -----

  /** Nothing stands in the way of this installation. */
  predicate Clear(dg: Identity, s: State, p: Pid, args: Args, tree: Tree, identifier: string) {
    && args.Install? && !args.stageOnly && ReleaseParts(args.name).Some?
    && NotOlder(s.current, Some(args.name)) && (s.current.Some? ==> args.force)
    && Free(s, args.data) && !Live(s, p) && p !in s.links && s.nextStage !in s.stages
    && (forall d :: d in s.dataLocks ==> s.dataLocks[d] != Process(p))
    && Nameable(s, args.name, dg(tree), identifier) && !Reusable(dg, s, args.name, dg(tree))
  }

  function NewName(dg: Identity, args: Args, tree: Tree, identifier: string): Name
    requires ReleaseParts(args.name).Some?
  {
    Generation(args.name, dg(tree), identifier)
  }

  /** A complete private stage, and nothing else. */
  predicate Fills(dg: Identity, s: State, t: State, p: Pid, args: Args, tree: Tree) {
    && Is(t, p, Proc(args, Prepared, Some(s.nextStage), None, {s.nextStage}, None, None, dg(tree), "", "", false,
                     false))
    && SameStore(s, t) && SameLocks(s, t) && t.stages == s.stages[s.nextStage := tree]
  }

  function Newborn(args: Args): Proc {
    Proc(args, Started, None, None, {}, None, None, seq(64, _ => '0'), "", "", false, false)
  }

  lemma SpawnState(s: State, p: Pid, args: Args) returns (t: State)
    requires !Live(s, p)
    ensures DoSpawn(s, p, args) == Some(t) && Is(t, p, Newborn(args))
    ensures SameStore(s, t) && SameLocks(s, t) && t.stages == s.stages && t.nextStage == s.nextStage
  {
    hide Effect, Hex, Pow256, Live;
    t := DoSpawn(s, p, args).value;
  }

  lemma StageState(dg: Identity, s: State, p: Pid, args: Args, tree: Tree) returns (s2: State, t: State)
    requires Is(s, p, Newborn(args))
    requires args.Install? && ReleaseParts(args.name).Some? && NotOlder(s.current, Some(args.name))
    ensures DoCreateStage(s, p, tree) == Some(s2) && DoFillStage(dg, s2, p, tree) == Some(t)
    ensures Fills(dg, s, t, p, args, tree)
  {
    hide Effect, Hex, Pow256, ReleaseParts, NotOlder;
    s2 := DoCreateStage(s, p, tree).value;
    t := DoFillStage(dg, s2, p, tree).value;
    assert {} + {s.nextStage} == {s.nextStage};
  }

  lemma FillStates(dg: Identity, s: State, p: Pid, args: Args, tree: Tree) returns (s1: State, s2: State, t: State)
    requires args.Install? && ReleaseParts(args.name).Some? && NotOlder(s.current, Some(args.name)) && !Live(s, p)
    ensures DoSpawn(s, p, args) == Some(s1) && DoCreateStage(s1, p, tree) == Some(s2)
    ensures DoFillStage(dg, s2, p, tree) == Some(t)
    ensures Fills(dg, s, t, p, args, tree)
  {
    hide Effect, Hex, Pow256, ReleaseParts, NotOlder, DoSpawn, DoCreateStage, DoFillStage;
    s1 := SpawnState(s, p, args);
    s2, t := StageState(dg, s1, p, args, tree);
  }

  lemma Fill(dg: Identity, s: State, p: Pid, args: Args, tree: Tree) returns (events: seq<Event>, t: State)
    requires args.Install? && ReleaseParts(args.name).Some? && NotOlder(s.current, Some(args.name)) && !Live(s, p)
    ensures Run(dg, s, events) == Some(t) && Fills(dg, s, t, p, args, tree)
  {
    hide Step, Run, DoSpawn, DoCreateStage, DoFillStage, DoTakeData, DoTakeStore, DoCheck, DoReadSource, DoCreateCopy;
    hide DoFillCopy, DoPublishStage, DoPublishCopy, DoSweep, DoLaunchers, DoLink, DoMove, DoConfirm, DoHandle;
    hide DoRestore, DoUnlock, DoClean;
    hide Fills, ReleaseParts, NotOlder, Live;
    var s1, s2;
    s1, s2, t := FillStates(dg, s, p, args, tree);
    FillActs(dg, s, p, args, tree);
    FillActs(dg, s1, p, args, tree);
    FillActs(dg, s2, p, args, tree);
    RunThree(dg, s, p, Spawn(args), CreateStage(tree), FillStage(tree), s1, s2, t);
    events := [Event(p, Spawn(args)), Event(p, CreateStage(tree)), Event(p, FillStage(tree))];
  }

  /** A private stage that can be published under a fresh name. */
  predicate Placeable(dg: Identity, s: State, p: Pid, identifier: string) {
    && At(s, p, Checked)
    && var proc := s.procs[p];
       && proc.args.Install? && !proc.args.stageOnly && proc.stage.Some? && proc.stage.value in s.stages
       && dg(s.stages[proc.stage.value]) == proc.digest
       && Nameable(s, proc.args.name, proc.digest, identifier) && !Reusable(dg, s, proc.args.name, proc.digest)
  }

  predicate Places(s: State, t: State, p: Pid, made: Name) {
    && p in s.procs && s.procs[p].stage.Some? && s.procs[p].stage.value in s.stages
    && var id := s.procs[p].stage.value;
       && Is(t, p, s.procs[p].(phase := Linking, stage := None, goal := made))
       && t.releases == s.releases[made := s.stages[id]] && t.stages == s.stages - {id}
       && t.current == s.current && t.links == s.links && SameLocks(s, t) && t.base == s.base
  }

  lemma PlaceStates(dg: Identity, s: State, p: Pid, identifier: string) returns (s1: State, t: State)
    requires Placeable(dg, s, p, identifier)
    ensures DoPublishStage(dg, s, p, identifier) == Some(s1) && DoLaunchers(s1, p) == Some(t)
    ensures Places(s, t, p, Generation(s.procs[p].args.name, s.procs[p].digest, identifier))
  {
    hide Effect, Hex, Pow256, ReleaseParts, Generation, Reusable;
    s1 := DoPublishStage(dg, s, p, identifier).value;
    t := DoLaunchers(s1, p).value;
  }

  lemma Place(dg: Identity, s: State, p: Pid, identifier: string) returns (events: seq<Event>, t: State)
    requires Placeable(dg, s, p, identifier)
    ensures Run(dg, s, events) == Some(t)
    ensures Places(s, t, p, Generation(s.procs[p].args.name, s.procs[p].digest, identifier))
  {
    hide Step, Run, DoSpawn, DoCreateStage, DoFillStage, DoTakeData, DoTakeStore, DoCheck, DoReadSource, DoCreateCopy;
    hide DoFillCopy, DoPublishStage, DoPublishCopy, DoSweep, DoLaunchers, DoLink, DoMove, DoConfirm, DoHandle;
    hide DoRestore, DoUnlock, DoClean;
    hide Places, Reusable, Generation;
    var s1;
    s1, t := PlaceStates(dg, s, p, identifier);
    PlaceActs(dg, s, p, identifier);
    PlaceActs(dg, s1, p, identifier);
    RunTwo(dg, s, p, PublishStage(identifier), Launchers, s1, t);
    events := [Event(p, PublishStage(identifier)), Event(p, Launchers)];
  }

  /** Up to the leases. */
  lemma Arrive(dg: Identity, s: State, p: Pid, args: Args, tree: Tree, identifier: string)
    returns (events: seq<Event>, s1: State, t: State)
    requires Clear(dg, s, p, args, tree, identifier)
    ensures Run(dg, s, events) == Some(t) && Fills(dg, s, s1, p, args, tree) && Enters(dg, s1, t, p)
  {
    hide Run, ReleaseParts, NotOlder, Nameable, Reusable, Hex, Pow256;
    var first, rest;
    first, s1 := Fill(dg, s, p, args, tree);
    assert Admitted(s1, p);
    rest, t := Enter(dg, s1, p);
    Then(dg, s, first, s1, rest, t);
    events := first + rest;
  }

  lemma ArrivedPlaceable(dg: Identity, s: State, s1: State, t: State, p: Pid, args: Args, tree: Tree,
                         identifier: string)
    requires Clear(dg, s, p, args, tree, identifier) && Fills(dg, s, s1, p, args, tree) && Enters(dg, s1, t, p)
    ensures Placeable(dg, t, p, identifier) && t.procs[p].args == args && t.procs[p].digest == dg(tree)
  {
    hide ReleaseParts, NotOlder, Generation, Hex, Pow256;
  }

  lemma PlacedSelectable(dg: Identity, s: State, t: State, p: Pid, made: Name)
    requires Places(s, t, p, made) && p !in s.links && !s.procs[p].restoring
    requires dg(s.stages[s.procs[p].stage.value]) == s.procs[p].digest
    ensures Selectable(dg, t, p) && t.procs[p].goal == made
  {
    hide Hex, Pow256;
  }

  /** From inside the leases to the end. */
  lemma Complete(dg: Identity, s: State, p: Pid, identifier: string) returns (events: seq<Event>, t: State)
    requires Placeable(dg, s, p, identifier) && p !in s.links && !s.procs[p].restoring && s.storeLock == Some(p)
    ensures Run(dg, s, events) == Some(t)
    ensures var proc := s.procs[p];
            var made := Generation(proc.args.name, proc.digest, identifier);
            && At(t, p, Done(true)) && t.current == Some(made)
            && t.releases == s.releases[made := s.stages[proc.stage.value]] && t.stages == s.stages - {proc.stage.value}
            && t.storeLock == None && t.links == s.links
            && t.dataLocks == map d | d in s.dataLocks && s.dataLocks[d] != Process(p) :: s.dataLocks[d]
  {
    hide Run, ReleaseParts, Generation, Reusable, Wanted, Hex, Pow256, Selectable;
    var e1, s1 := Place(dg, s, p, identifier);
    PlacedSelectable(dg, s, s1, p, Generation(s.procs[p].args.name, s.procs[p].digest, identifier));
    var e2, s2 := Select(dg, s1, p);
    Then(dg, s, e1, s1, e2, s2);
    var e3, s3 := Leave(dg, s2, p);
    Then(dg, s, e1 + e2, s2, e3, s3);
    events, t := e1 + e2 + e3, s3;
  }

  /** An installation nothing stands in the way of succeeds: the tree is published under a fresh name and selected, the
      locks are free again, and the store is otherwise as it was. */
  lemma UndisturbedInstall(dg: Identity, s: State, p: Pid, args: Args, tree: Tree, identifier: string)
    returns (events: seq<Event>)
    requires Clear(dg, s, p, args, tree, identifier)
    ensures Run(dg, s, events).Some?
    ensures var made, t := NewName(dg, args, tree, identifier), Run(dg, s, events).value;
            && At(t, p, Done(true)) && t.current == Some(made) && t.releases == s.releases[made := tree]
            && t.storeLock == None && t.dataLocks == s.dataLocks && t.links == s.links && t.stages == s.stages
  {
    hide Run, ReleaseParts, Generation, NotOlder, Nameable, Reusable, Hex, Pow256, Placeable;
    var first, s1, s2 := Arrive(dg, s, p, args, tree, identifier);
    ArrivedPlaceable(dg, s, s1, s2, p, args, tree, identifier);
    var rest, s3 := Complete(dg, s2, p, identifier);
    Then(dg, s, first, s2, rest, s3);
    events := first + rest;
    assert s3.dataLocks == s.dataLocks;
    assert s3.stages == s.stages;
  }

  // ----- A rollback -----

  /** The supervisor's rollback: the successor is still selected, and the previous release still has its digest. */
  predicate Revertible(dg: Identity, s: State, p: Pid, args: Args, identifier: string) {
    && Rollback(args) && args.rollbackFrom == s.current && args.name in s.releases && ReleaseParts(args.name).Some?
    && args.expected == Some(dg(s.releases[args.name]))
    && args.data.Some? && Free(s, args.data) && !Live(s, p) && p !in s.links
    && (forall d :: d in s.dataLocks ==> s.dataLocks[d] != Process(p))
    && (LooksQualified(args.name) || Nameable(s, args.name, dg(s.releases[args.name]), identifier))
  }

  /** The release to select was found. */
  predicate Finds(dg: Identity, s: State, t: State, p: Pid) {
    && p in s.procs && s.procs[p].args.name in s.releases
    && var proc, name, digest := s.procs[p], s.procs[p].args.name, dg(s.releases[s.procs[p].args.name]);
       && Is(t, p, if LooksQualified(name) then proc.(phase := Linking, digest := digest, goal := name)
                   else proc.(phase := Copying, digest := digest))
       && SameStore(s, t) && SameLocks(s, t)
  }

  lemma FindState(dg: Identity, s: State, p: Pid) returns (t: State)
    requires At(s, p, Checked) && s.procs[p].args.Activate? && s.procs[p].args.name in s.releases
    requires s.procs[p].args.expected.Some? ==> s.procs[p].args.expected.value == dg(s.releases[s.procs[p].args.name])
    ensures DoReadSource(dg, s, p) == Some(t) && Finds(dg, s, t, p)
  {
    hide Effect, Hex, Pow256, LooksQualified;
    t := DoReadSource(dg, s, p).value;
  }

  /** Up to the chosen release. */
  lemma Approach(dg: Identity, s: State, p: Pid, args: Args, identifier: string)
    returns (events: seq<Event>, s1: State, s2: State, t: State)
    requires Revertible(dg, s, p, args, identifier)
    ensures Run(dg, s, events) == Some(t) && Is(s1, p, Newborn(args)) && SameStore(s, s1) && SameLocks(s, s1)
    ensures Enters(dg, s1, s2, p) && Finds(dg, s2, t, p)
  {
    hide Step, Run, DoSpawn, DoCreateStage, DoFillStage, DoTakeData, DoTakeStore, DoCheck, DoReadSource, DoCreateCopy;
    hide DoFillCopy, DoPublishStage, DoPublishCopy, DoSweep, DoLaunchers, DoLink, DoMove, DoConfirm, DoHandle;
    hide DoRestore, DoUnlock, DoClean;
    hide ReleaseParts, NotOlder, LooksQualified, Nameable, Hex, Pow256, Live;
    s1 := SpawnState(s, p, args);
    FillActs(dg, s, p, args, map[]);
    RunOne(dg, s, p, Spawn(args), s1);
    assert Admitted(s1, p);
    var rest;
    rest, s2 := Enter(dg, s1, p);
    Then(dg, s, [Event(p, Spawn(args))], s1, rest, s2);
    t := FindState(dg, s2, p);
    RestoreActs(dg, s2, p);
    RunOne(dg, s2, p, ReadSource, t);
    Then(dg, s, [Event(p, Spawn(args))] + rest, s2, [Event(p, ReadSource)], t);
    events := [Event(p, Spawn(args))] + rest + [Event(p, ReadSource)];
  }

  lemma FoundChoosable(dg: Identity, s: State, s1: State, s2: State, t: State, p: Pid, args: Args, identifier: string)
    requires Revertible(dg, s, p, args, identifier) && Is(s1, p, Newborn(args)) && SameStore(s, s1) && SameLocks(s, s1)
    requires Enters(dg, s1, s2, p) && Finds(dg, s2, t, p)
    ensures Choosable(dg, t, p, identifier) && !t.procs[p].restoring && Choice(t, p) == args.name
    ensures t.releases == s.releases && t.links == s.links && t.storeLock == Some(p)
    ensures t.dataLocks == Held(s.dataLocks, p, args.data)
  {
    hide ReleaseParts, LooksQualified, Generation, NotOlder, Hex, Pow256, Live;
  }

  /** A supervisor's rollback that nothing disturbs succeeds: a tree with the promised digest is selected, for the
      version and target of the previous release, and the locks are free again. */
  lemma UndisturbedRollback(dg: Identity, s: State, p: Pid, args: Args, identifier: string) returns (events: seq<Event>)
    requires Revertible(dg, s, p, args, identifier)
    ensures Run(dg, s, events).Some?
    ensures var t := Run(dg, s, events).value;
            && At(t, p, Done(true)) && t.current.Some? && t.current.value in t.releases
            && ReleaseParts(t.current.value) == ReleaseParts(args.name)
            && Some(dg(t.releases[t.current.value])) == args.expected
            && Grows(s.releases, t.releases) && t.links == s.links && t.storeLock == None && t.dataLocks == s.dataLocks
  {
    hide Run, ReleaseParts, Generation, NotOlder, Nameable, LooksQualified, Choosable, Choice, Finds, Enters, Hex;
    hide Pow256, Live;
    var first, s1, s2, s3 := Approach(dg, s, p, args, identifier);
    FoundChoosable(dg, s, s1, s2, s3, p, args, identifier);
    var rest, s4 := Settle(dg, s3, p, identifier);
    Then(dg, s, first, s3, rest, s4);
    events := first + rest;
    assert s4.dataLocks == s.dataLocks;
  }

  // ----- A restoration -----

  /** The former selection can be read, and copied if it needs a name of its own. */
  predicate Restorable(dg: Identity, s: State, p: Pid, identifier: string) {
    && At(s, p, Handling) && p !in s.links
    && (s.base.Some? ==>
          && s.procs[p].prevDigest.Some? && s.base.value in s.releases
          && (LooksQualified(s.base.value) || Nameable(s, s.base.value, dg(s.releases[s.base.value]), identifier)))
  }

  /** The selection is what it was when the lease was taken, by version, target and digest, or none where there was
      none. */
  predicate Restored(dg: Identity, s: State, t: State) {
    if s.base.None? then t.current.None?
    else
      && s.base.value in s.releases && t.current.Some? && t.current.value in t.releases
      && ReleaseParts(t.current.value) == ReleaseParts(s.base.value)
      && dg(t.releases[t.current.value]) == dg(s.releases[s.base.value])
  }

  /** The former selection was chosen to be selected again. */
  predicate Returns(dg: Identity, s: State, t: State, p: Pid) {
    && s.base.Some? && s.base.value in s.releases && p in t.procs
    && t.procs[p].restoring && t.procs[p].prev == s.base && t.procs[p].prevDigest == Some(dg(s.releases[s.base.value]))
    && if LooksQualified(s.base.value) then t.procs[p].phase == Linking && t.procs[p].goal == s.base.value
       else t.procs[p].phase == Copying
  }

  /** The handler and, where the current link had moved, the decision on how to restore. */
  predicate Begins(dg: Identity, s: State, t: State, p: Pid) {
    && p in t.procs && t.releases == s.releases && t.links == s.links && SameLocks(s, t) && t.base == s.base
    && !t.procs[p].faulted
    && if t.procs[p].phase.Unlocking? then t.procs[p].phase == Unlocking(false) && t.current == s.base
       else Returns(dg, s, t, p)
  }

  lemma HandleState(dg: Identity, s: State, p: Pid) returns (t: State)
    requires At(s, p, Handling)
    ensures DoHandle(s, p) == Some(t) && SameStore(s, t) && SameLocks(s, t) && t.stages == s.stages
    ensures var proc, goal := s.procs[p], s.procs[p].goal;
            Is(t, p, if s.current == Some(goal) && proc.prev != Some(goal)
                     then proc.(phase := Restoring, restoring := true, changed := goal)
                     else proc.(phase := Unlocking(false)))
  {
    hide Effect, Hex, Pow256;
    t := DoHandle(s, p).value;
  }

  lemma RestoreState(dg: Identity, s: State, p: Pid) returns (t: State)
    requires At(s, p, Restoring) && s.current == Some(s.procs[p].changed)
    requires var prev := s.procs[p].prev;
             prev.Some? ==> prev.value in s.releases && Some(dg(s.releases[prev.value])) == s.procs[p].prevDigest
    ensures DoRestore(dg, s, p) == Some(t) && t.releases == s.releases && t.links == s.links
    ensures SameLocks(s, t) && t.base == s.base
    ensures var proc, prev := s.procs[p], s.procs[p].prev;
            if prev.None? then t.current == None && Is(t, p, proc.(phase := Unlocking(false)))
            else Is(t, p, if LooksQualified(prev.value) then proc.(phase := Linking, goal := prev.value)
                          else proc.(phase := Copying))
  {
    hide Effect, Hex, Pow256, LooksQualified;
    t := DoRestore(dg, s, p).value;
  }

  lemma HandlerStands(dg: Identity, s: State, p: Pid)
    requires Inv(dg, s) && At(s, p, Handling)
    ensures var proc := s.procs[p];
            && proc.prev == s.base && !proc.faulted && !proc.restoring
            && (s.current == s.base || s.current == Some(proc.goal))
            && (s.base.Some? ==> s.base.value in s.releases && ReleaseParts(s.base.value).Some?)
            && (proc.prevDigest.Some? ==> s.base.Some? && proc.prevDigest.value == dg(s.releases[s.base.value]))
            && s.storeLock == Some(p)
  {
    hide Inv, ReleaseParts, NotOlder;
    Mine(dg, s, p);
  }

  lemma Begin(dg: Identity, s: State, p: Pid, identifier: string) returns (events: seq<Event>, t: State)
    requires Inv(dg, s) && Restorable(dg, s, p, identifier)
    ensures Run(dg, s, events) == Some(t) && Begins(dg, s, t, p)
  {
    hide Step, Run, DoSpawn, DoCreateStage, DoFillStage, DoTakeData, DoTakeStore, DoCheck, DoReadSource, DoCreateCopy;
    hide DoFillCopy, DoPublishStage, DoPublishCopy, DoSweep, DoLaunchers, DoLink, DoMove, DoConfirm, DoHandle;
    hide DoRestore, DoUnlock, DoClean;
    hide Inv, ReleaseParts, Nameable, LooksQualified, Hex, Pow256;
    HandlerStands(dg, s, p);
    var s1 := HandleState(dg, s, p);
    RestoreActs(dg, s, p);
    RunOne(dg, s, p, Handle, s1);
    events, t := [Event(p, Handle)], s1;
    if s1.procs[p].phase == Restoring {
      t := RestoreState(dg, s1, p);
      RestoreActs(dg, s1, p);
      RunOne(dg, s1, p, Restore, t);
      Then(dg, s, [Event(p, Handle)], s1, [Event(p, Restore)], t);
      events := [Event(p, Handle)] + [Event(p, Restore)];
    }
  }

  lemma BegunChoosable(dg: Identity, s: State, t: State, p: Pid, identifier: string)
    requires Restorable(dg, s, p, identifier) && Begins(dg, s, t, p) && !t.procs[p].phase.Unlocking?
    ensures Choosable(dg, t, p, identifier) && t.procs[p].restoring && t.procs[p].prev.Some?
    ensures Some(Choice(t, p)) == s.base
  {
    hide ReleaseParts, LooksQualified, Generation, Hex, Pow256;
  }

  lemma RestoreFrom(dg: Identity, s: State, p: Pid, identifier: string) returns (events: seq<Event>, t: State)
    requires Inv(dg, s) && Restorable(dg, s, p, identifier)
    ensures Run(dg, s, events) == Some(t)
    ensures At(t, p, Done(false)) && !t.procs[p].faulted && t.storeLock == None && Restored(dg, s, t)
  {
    hide Run, Inv, ReleaseParts, Generation, Nameable, LooksQualified, Choosable, Choice, Hex, Pow256, Returns;
    HandlerStands(dg, s, p);
    var first, s1 := Begin(dg, s, p, identifier);
    var rest;
    if s1.procs[p].phase.Unlocking? {
      rest, t := Leave(dg, s1, p);
    } else {
      BegunChoosable(dg, s, s1, p, identifier);
      rest, t := Settle(dg, s1, p, identifier);
    }
    Then(dg, s, first, s1, rest, t);
    events := first + rest;
  }

  /** A selection that failed is undone when nothing disturbs it: from whatever reachable state the handler is entered,
      the run ends with the former tree selected, reports its failure, and never fails to restore. */
  lemma UndisturbedRestoration(dg: Identity, s: State, p: Pid, identifier: string) returns (events: seq<Event>)
    requires Reachable(dg, s) && Restorable(dg, s, p, identifier)
    ensures Run(dg, s, events).Some?
    ensures var t := Run(dg, s, events).value;
            At(t, p, Done(false)) && !t.procs[p].faulted && t.storeLock == None && Restored(dg, s, t)
  {
    hide Run, Inv, Restorable, Restored;
    ReachableInv(dg, s);
    var t;
    events, t := RestoreFrom(dg, s, p, identifier);
  }

  /** A guarded selection, at whatever point of it. */
  predicate Guarded(s: State, p: Pid) {
    && p in s.procs && !s.procs[p].restoring
    && (s.procs[p].phase.Linking? || s.procs[p].phase.Linked? || s.procs[p].phase.Moved?)
  }

  lemma FaultState(s: State, p: Pid) returns (t: State)
    requires Guarded(s, p)
    ensures DoFault(s, p) == Some(t) && At(t, p, Handling) && t.procs[p].prevDigest == s.procs[p].prevDigest
    ensures t.releases == s.releases && t.base == s.base
    ensures t.links == if s.procs[p].phase.Linked? then s.links - {p} else s.links
  {
    hide Effect, Hex, Pow256;
    t := DoFault(s, p).value;
  }

  lemma FaultActs(dg: Identity, s: State, p: Pid)
    ensures Step(dg, s, p, Fault) == DoFault(s, p)
  {
    hide DoFault, Effect;
  }

  /** A selection that fails once, before, between or after its two effects, ends with the former tree selected. */
  lemma FailedSelection(dg: Identity, s: State, p: Pid, identifier: string) returns (rest: seq<Event>)
    requires Reachable(dg, s) && Guarded(s, p) && (s.procs[p].phase.Linked? || p !in s.links)
    requires s.base.Some? ==>
               && s.procs[p].prevDigest.Some? && s.base.value in s.releases
               && (LooksQualified(s.base.value) || Nameable(s, s.base.value, dg(s.releases[s.base.value]), identifier))
    ensures Run(dg, s, [Event(p, Fault)] + rest).Some?
    ensures var t := Run(dg, s, [Event(p, Fault)] + rest).value;
            At(t, p, Done(false)) && !t.procs[p].faulted && t.storeLock == None && Restored(dg, s, t)
  {
    hide Step, Run, Inv, DoFault, Hex, Pow256, ReleaseParts, LooksQualified;
    ReachableInv(dg, s);
    var s1 := FaultState(s, p);
    FaultActs(dg, s, p);
    StepKeeps(dg, s, p, Fault);
    RunOne(dg, s, p, Fault, s1);
    var t;
    rest, t := RestoreFrom(dg, s1, p, identifier);
    Then(dg, s, [Event(p, Fault)], s1, rest, t);
  }
}
