/** Installing, activating and rolling back runtime generations: any number of processes over one release store.
    Each action is one file-system effect or one decision of a running installer; a process may also die between
    any two of them. Digests are a parameter: nothing here depends on how trees are hashed. */
module InstallProtocol {
  import opened Options
  import opened ReleaseName
  import opened TreeDigest

  type Pid = nat

  type Dir = string

  type Digest = s: string | |s| == 64 && Hex(s) witness seq(64, _ => '0')

  type Identity = Tree -> Digest

  /** One command line. `Install` publishes a prepared source; `Activate` selects what is already published, and
      with `rollbackFrom` is the supervisor's rollback. */
  datatype Args =
    | Install(name: Name, data: Option<Dir>, force: bool, stageOnly: bool)
    | Activate(name: Name, data: Option<Dir>, rollbackFrom: Option<Name>, expected: Option<Digest>)

  datatype Phase =
    | Started                // nothing done yet
    | Preparing              // private stage created, being filled
    | Prepared               // private stage complete, its digest captured
    | DataHeld               // first lease taken
    | Locked                 // both leases taken
    | Checked                // current selection captured, version rule passed
    | Copying                // about to copy an unqualified release
    | Staging                // copy created, being filled
    | Staged                 // copy complete
    | Sweeping               // published from the copy, which is about to be removed
    | Published              // install: generation published
    | Linking                // about to create the staging link
    | Linked                 // staging link created
    | Moved                  // current link replaced
    | Handling               // an exception was raised inside the guarded selection
    | Restoring              // the current link had moved; restoring the previous selection
    | Unlocking(ok: bool)    // leaving the leases
    | Cleaning(ok: bool)     // leases released; the private stage remains
    | Done(ok: bool)
    | Dead                   // killed; whatever it had created stays

  datatype Proc = Proc(
    args: Args,
    phase: Phase,
    stage: Option<nat>,           // the install's private stage
    copy: Option<nat>,            // a private copy of a published release
    created: set<nat>,            // every private directory this process made
    prev: Option<Name>,           // selection captured under the leases
    prevDigest: Option<Digest>,   // its digest, if it could be read
    digest: Digest,               // the digest captured for the release to select
    goal: Name,                   // the release being selected
    changed: Name,                // what the current link was moved to before restoring
    restoring: bool,
    faulted: bool)                // restoring was refused or failed

  datatype Owner = Process(pid: Pid) | Daemon

  datatype State = State(
    releases: map<Name, Tree>,
    current: Option<Name>,
    links: map<Pid, Name>,        // .current-<pid>
    stages: map<nat, Tree>,       // .gent-stage-*
    nextStage: nat,
    storeLock: Option<Pid>,
    dataLocks: map<Dir, Owner>,
    procs: map<Pid, Proc>,
    base: Option<Name>)           // history: the selection when the store lease was last taken

  datatype Action =
    | Spawn(args: Args)
    | CreateStage(partial: Tree)
    | FillStage(tree: Tree)
    | TakeData
    | TakeStore
    | Check(readable: bool)
    | ReadSource
    | CreateCopy(partial: Tree)
    | FillCopy(tree: Tree)
    | PublishStage(identifier: string)
    | PublishCopy(identifier: string)
    | Sweep
    | Launchers
    | Link
    | Move
    | Confirm
    | Handle
    | Restore
    | Unlock
    | Clean
    | Fault
    | Kill
    | DaemonStart(dir: Dir)
    | DaemonStop(dir: Dir)

  // ----- Reading the state -----

  predicate Live(s: State, p: Pid) {
    p in s.procs && !s.procs[p].phase.Done? && !s.procs[p].phase.Dead?
  }

  predicate At(s: State, p: Pid, phase: Phase) {
    p in s.procs && s.procs[p].phase == phase
  }

  function With(s: State, p: Pid, proc: Proc): State {
    s.(procs := s.procs[p := proc])
  }

  /** Inside the store lease. */
  predicate UnderLease(phase: Phase) {
    match phase
    case Locked | Checked | Copying | Staging | Staged | Sweeping | Published => true
    case Linking | Linked | Moved | Handling | Restoring | Unlocking(_) => true
    case _ => false
  }

  predicate UnderData(phase: Phase) {
    phase == DataHeld || UnderLease(phase)
  }

  /** No selection is older than any selection. */
  predicate NotOlder(older: Option<Name>, newer: Option<Name>) {
    match older
    case None => true
    case Some(m) =>
      match newer
      case None => false
      case Some(n) =>
        ReleaseParts(m).Some? && ReleaseParts(n).Some? && VersionLe(VersionOf(m), VersionOf(n))
  }

  /** `"+" in name`: how the installers tell immutable generations from plain names. */
  predicate LooksQualified(name: Name) {
    '+' in name
  }

  predicate Rollback(args: Args) {
    args.Activate? && args.rollbackFrom.Some?
  }

  /** The name a copied release is published under. */
  function Request(proc: Proc): Name
    requires proc.restoring ==> proc.prev.Some?
  {
    if proc.restoring then proc.prev.value else proc.args.name
  }

  /** The digest the selected tree must have. */
  predicate Wanted(proc: Proc, d: Digest) {
    if proc.restoring then proc.prevDigest == Some(d) else proc.digest == d
  }

  function FreeStages(stages: map<nat, Tree>, id: Option<nat>): map<nat, Tree> {
    if id.Some? then stages - {id.value} else stages
  }

  /** publish_release returns the selected generation itself when it already is what was asked for. */
  predicate Reusable(dg: Identity, s: State, request: Name, digest: Digest) {
    && s.current.Some? && LooksQualified(s.current.value)
    && ReleaseParts(s.current.value).Some? && ReleaseParts(s.current.value) == ReleaseParts(request)
    && s.current.value in s.releases && dg(s.releases[s.current.value]) == digest
  }

  // ----- Actions -----

  predicate Grows(before: map<Name, Tree>, after: map<Name, Tree>) {
    forall n :: n in before ==> n in after && after[n] == before[n]
  }

  predicate Released(s: State, t: State, p: Pid) {
    s.storeLock == Some(p) && t.storeLock.None? && t.releases == s.releases && t.current == s.current
  }

  /** What any one action of a process may change: published trees stay as they are; outside the store lease the
      store does not change at all; the history variable moves only when the lease is taken. */
  predicate Effect(s: State, t: State, p: Pid) {
    && Grows(s.releases, t.releases)
    && p in t.procs && t.procs == s.procs[p := t.procs[p]]
    && ((p in s.procs && UnderLease(s.procs[p].phase))
        || (t.releases == s.releases && t.current == s.current && t.links == s.links))
    && (s.storeLock.None? ==> t.storeLock.None? || t.base == s.current)
    && (s.storeLock.Some? ==> t.base == s.base && (t.storeLock == s.storeLock || Released(s, t, p)))
  }

  function DoSpawn(s: State, p: Pid, args: Args): (r: Option<State>)
    ensures r.Some? ==> Effect(s, r.value, p)
  {
    if Live(s, p) then None
    else
      var blank := seq(64, _ => '0');
      Some(With(s, p, Proc(args, Started, None, None, {}, None, None, blank, "", "", false, false)))
  }

  /** install: release_parts, the unlocked reject_newer, and mkdtemp. */
  function DoCreateStage(s: State, p: Pid, partial: Tree): (r: Option<State>)
    ensures r.Some? ==> Effect(s, r.value, p)
  {
    if !At(s, p, Started) then None
    else
      var proc := s.procs[p];
      if !proc.args.Install? || ReleaseParts(proc.args.name).None? then None
      else if !NotOlder(s.current, Some(proc.args.name)) then None
      else
        var id := s.nextStage;
        Some(With(s.(stages := s.stages[id := partial], nextStage := id + 1), p,
                  proc.(phase := Preparing, stage := Some(id), created := proc.created + {id})))
  }

  function DoFillStage(dg: Identity, s: State, p: Pid, tree: Tree): (r: Option<State>)
    ensures r.Some? ==> Effect(s, r.value, p)
  {
    if !At(s, p, Preparing) || s.procs[p].stage.None? then None
    else
      var proc := s.procs[p];
      Some(With(s.(stages := s.stages[proc.stage.value := tree]), p, proc.(phase := Prepared, digest := dg(tree))))
  }

  /** The first lease: exclusive per data directory. Without one, nothing may be selected yet. */
  function DoTakeData(s: State, p: Pid): (r: Option<State>)
    ensures r.Some? ==> Effect(s, r.value, p)
  {
    if !(At(s, p, Prepared) || (At(s, p, Started) && s.procs[p].args.Activate?)) then None
    else
      var proc := s.procs[p];
      var data := proc.args.data;
      if (if data.None? then s.current.Some? else data.value in s.dataLocks) then None
      else
        var held := if data.None? then s.dataLocks else s.dataLocks[data.value := Process(p)];
        Some(With(s.(dataLocks := held), p, proc.(phase := DataHeld)))
  }

  function DoTakeStore(s: State, p: Pid): (r: Option<State>)
    ensures r.Some? ==> Effect(s, r.value, p)
  {
    if !At(s, p, DataHeld) || s.storeLock.Some? then None
    else Some(With(s.(storeLock := Some(p), base := s.current), p, s.procs[p].(phase := Locked)))
  }

  predicate CheckPasses(s: State, args: Args) {
    && ReleaseParts(args.name).Some?
    && (if Rollback(args) then s.current == args.rollbackFrom && args.expected.Some?
        else NotOlder(s.current, Some(args.name)))
    && (args.Install? ==> s.current.None? || args.force)
  }

  function DoCheck(dg: Identity, s: State, p: Pid, readable: bool): (r: Option<State>)
    ensures r.Some? ==> Effect(s, r.value, p)
  {
    if !At(s, p, Locked) || !CheckPasses(s, s.procs[p].args) then None
    else
      var digest :=
        if readable && s.current.Some? && s.current.value in s.releases then Some(dg(s.releases[s.current.value]))
        else None;
      Some(With(s, p, s.procs[p].(phase := Checked, prev := s.current, prevDigest := digest)))
  }

  /** activate_existing: the release to select, and its digest against the expected one. */
  function DoReadSource(dg: Identity, s: State, p: Pid): (r: Option<State>)
    ensures r.Some? ==> Effect(s, r.value, p)
  {
    if !At(s, p, Checked) then None
    else
      var proc := s.procs[p];
      var name := proc.args.name;
      if !proc.args.Activate? || name !in s.releases then None
      else
        var digest := dg(s.releases[name]);
        if proc.args.expected.Some? && proc.args.expected.value != digest then None
        else if LooksQualified(name) then Some(With(s, p, proc.(phase := Linking, digest := digest, goal := name)))
        else Some(With(s, p, proc.(phase := Copying, digest := digest)))
  }

  function DoCreateCopy(s: State, p: Pid, partial: Tree): (r: Option<State>)
    ensures r.Some? ==> Effect(s, r.value, p)
  {
    if !At(s, p, Copying) then None
    else
      var id := s.nextStage;
      var proc := s.procs[p];
      Some(With(s.(stages := s.stages[id := partial], nextStage := id + 1), p,
                proc.(phase := Staging, copy := Some(id), created := proc.created + {id})))
  }

  /** prepare_release of a published release: the copy must have the digest of what it was copied from. */
  function DoFillCopy(dg: Identity, s: State, p: Pid, tree: Tree): (r: Option<State>)
    ensures r.Some? ==> Effect(s, r.value, p)
  {
    if !At(s, p, Staging) then None
    else
      var proc := s.procs[p];
      if proc.copy.None? || (proc.restoring && proc.prev.None?) then None
      else
        var source := Request(proc);
        if source !in s.releases || dg(tree) != dg(s.releases[source]) then None
        else Some(With(s.(stages := s.stages[proc.copy.value := tree]), p,
                       if proc.restoring then proc.(phase := Staged) else proc.(phase := Staged, digest := dg(tree))))
  }

  function DoPublishStage(dg: Identity, s: State, p: Pid, identifier: string): (r: Option<State>)
    ensures r.Some? ==> Effect(s, r.value, p)
  {
    if !At(s, p, Checked) then None
    else
      var proc := s.procs[p];
      var name := proc.args.name;
      if !proc.args.Install? || ReleaseParts(name).None? || proc.stage.None? || proc.stage.value !in s.stages
         || dg(s.stages[proc.stage.value]) != proc.digest then None
      else if Reusable(dg, s, name, proc.digest) then
        Some(With(s, p, proc.(phase := Published, goal := s.current.value)))
      else
        var made := Generation(name, proc.digest, identifier);
        if made in s.releases || |identifier| != 8 || !Hex(identifier) then None
        else
          var id := proc.stage.value;
          Some(With(s.(releases := s.releases[made := s.stages[id]], stages := s.stages - {id}), p,
                    proc.(phase := Published, stage := None, goal := made)))
  }

  function DoPublishCopy(dg: Identity, s: State, p: Pid, identifier: string): (r: Option<State>)
    ensures r.Some? ==> Effect(s, r.value, p)
  {
    if !At(s, p, Staged) then None
    else
      var proc := s.procs[p];
      if proc.copy.None? || proc.copy.value !in s.stages || (proc.restoring && proc.prev.None?) then None
      else
        var name := Request(proc);
        var id := proc.copy.value;
        var digest := dg(s.stages[id]);
        if ReleaseParts(name).None? || !Wanted(proc, digest) then None
        else if Reusable(dg, s, name, digest) then
          Some(With(s, p, proc.(phase := Sweeping, goal := s.current.value)))
        else
          var made := Generation(name, digest, identifier);
          if made in s.releases || |identifier| != 8 || !Hex(identifier) then None
          else
            Some(With(s.(releases := s.releases[made := s.stages[id]], stages := s.stages - {id}), p,
                      proc.(phase := Sweeping, copy := None, goal := made)))
  }

  function DoSweep(s: State, p: Pid): (r: Option<State>)
    ensures r.Some? ==> Effect(s, r.value, p)
  {
    if !At(s, p, Sweeping) then None
    else
      var proc := s.procs[p];
      Some(With(s.(stages := FreeStages(s.stages, proc.copy)), p, proc.(phase := Linking, copy := None)))
  }

  /** After publication: stop here when only staging, else write the launchers. */
  function DoLaunchers(s: State, p: Pid): (r: Option<State>)
    ensures r.Some? ==> Effect(s, r.value, p)
  {
    if !At(s, p, Published) then None
    else
      var proc := s.procs[p];
      if !proc.args.Install? then None
      else Some(With(s, p, proc.(phase := if proc.args.stageOnly then Unlocking(true) else Linking)))
  }

  function DoLink(dg: Identity, s: State, p: Pid): (r: Option<State>)
    ensures r.Some? ==> Effect(s, r.value, p)
  {
    if !At(s, p, Linking) then None
    else
      var proc := s.procs[p];
      if proc.goal !in s.releases || !Wanted(proc, dg(s.releases[proc.goal])) || p in s.links then None
      else Some(With(s.(links := s.links[p := proc.goal]), p, proc.(phase := Linked)))
  }

  function DoMove(s: State, p: Pid): (r: Option<State>)
    ensures r.Some? ==> Effect(s, r.value, p)
  {
    if !At(s, p, Linked) || p !in s.links then None
    else Some(With(s.(current := Some(s.links[p]), links := s.links - {p}), p, s.procs[p].(phase := Moved)))
  }

  /** The selection and the updater refresh both succeeded. A finished restoration still reports failure. */
  function DoConfirm(dg: Identity, s: State, p: Pid): (r: Option<State>)
    ensures r.Some? ==> Effect(s, r.value, p)
  {
    if !At(s, p, Moved) then None
    else
      var proc := s.procs[p];
      if s.current != Some(proc.goal) || proc.goal !in s.releases || !Wanted(proc, dg(s.releases[proc.goal])) then None
      else Some(With(s, p, proc.(phase := Unlocking(!proc.restoring))))
  }

  function DoHandle(s: State, p: Pid): (r: Option<State>)
    ensures r.Some? ==> Effect(s, r.value, p)
  {
    if !At(s, p, Handling) then None
    else
      var proc := s.procs[p];
      if s.current == Some(proc.goal) && proc.prev != Some(proc.goal) then
        Some(With(s, p, proc.(phase := Restoring, restoring := true, changed := proc.goal)))
      else Some(With(s, p, proc.(phase := Unlocking(false))))
  }

  function DoRestore(dg: Identity, s: State, p: Pid): (r: Option<State>)
    ensures r.Some? ==> Effect(s, r.value, p)
  {
    if !At(s, p, Restoring) then None
    else
      var proc := s.procs[p];
      if s.current != Some(proc.changed) then None
      else if proc.prev.None? then Some(With(s.(current := None), p, proc.(phase := Unlocking(false))))
      else
        var prev := proc.prev.value;
        if prev !in s.releases || Some(dg(s.releases[prev])) != proc.prevDigest then None
        else Some(With(s, p, if LooksQualified(prev) then proc.(phase := Linking, goal := prev)
                             else proc.(phase := Copying)))
  }

  /** Every lock a process holds is dropped, on leaving the leases and by the kernel when it dies. */
  function DropLocks(s: State, p: Pid): State {
    s.(storeLock := if s.storeLock == Some(p) then None else s.storeLock,
       dataLocks := map d | d in s.dataLocks && s.dataLocks[d] != Process(p) :: s.dataLocks[d])
  }

  function DoUnlock(s: State, p: Pid): (r: Option<State>)
    ensures r.Some? ==> Effect(s, r.value, p)
  {
    if p in s.procs && s.procs[p].phase.Unlocking? then
      Some(With(DropLocks(s, p), p, s.procs[p].(phase := Cleaning(s.procs[p].phase.ok))))
    else None
  }

  function DoClean(s: State, p: Pid): (r: Option<State>)
    ensures r.Some? ==> Effect(s, r.value, p)
  {
    if p in s.procs && s.procs[p].phase.Cleaning? then
      var proc := s.procs[p];
      Some(With(s.(stages := FreeStages(s.stages, proc.stage)), p, proc.(phase := Done(proc.phase.ok), stage := None)))
    else None
  }

  /** Where an error leads: out through the surrounding try blocks, or into the handler of the guarded selection. */
  function AfterFault(proc: Proc): Phase {
    match proc.phase
    case Started => Done(false)
    case Preparing | Prepared | DataHeld => Cleaning(false)
    case Linking | Linked | Moved => if proc.restoring then Unlocking(false) else Handling
    case _ => Unlocking(false)
  }

  /** An error at this point, with the clean-up on the way out: a staging link and a private copy are removed by
      their own finally blocks. An error while restoring, or in the handler itself, ends the restoration. */
  function DoFault(s: State, p: Pid): (r: Option<State>)
    ensures r.Some? ==> Effect(s, r.value, p)
  {
    if !Live(s, p) || s.procs[p].phase.Unlocking? || s.procs[p].phase.Cleaning? then None
    else
      var proc := s.procs[p];
      var t := if proc.phase.DataHeld? then DropLocks(s, p) else s;
      Some(With(t.(stages := FreeStages(s.stages, proc.copy),
                   links := if proc.phase.Linked? then s.links - {p} else s.links),
                p, proc.(phase := AfterFault(proc), copy := None, faulted := proc.restoring || proc.phase.Handling?)))
  }

  function DoKill(s: State, p: Pid): (r: Option<State>)
    ensures r.Some? ==> Effect(s, r.value, p)
  {
    if Live(s, p) then Some(With(DropLocks(s, p), p, s.procs[p].(phase := Dead))) else None
  }

  /** The next state, or None where the action is not possible. The daemon's actions ignore the process. */
  function Step(dg: Identity, s: State, p: Pid, a: Action): Option<State> {
    match a
    case Spawn(args) => DoSpawn(s, p, args)
    case CreateStage(partial) => DoCreateStage(s, p, partial)
    case FillStage(tree) => DoFillStage(dg, s, p, tree)
    case TakeData => DoTakeData(s, p)
    case TakeStore => DoTakeStore(s, p)
    case Check(readable) => DoCheck(dg, s, p, readable)
    case ReadSource => DoReadSource(dg, s, p)
    case CreateCopy(partial) => DoCreateCopy(s, p, partial)
    case FillCopy(tree) => DoFillCopy(dg, s, p, tree)
    case PublishStage(identifier) => DoPublishStage(dg, s, p, identifier)
    case PublishCopy(identifier) => DoPublishCopy(dg, s, p, identifier)
    case Sweep => DoSweep(s, p)
    case Launchers => DoLaunchers(s, p)
    case Link => DoLink(dg, s, p)
    case Move => DoMove(s, p)
    case Confirm => DoConfirm(dg, s, p)
    case Handle => DoHandle(s, p)
    case Restore => DoRestore(dg, s, p)
    case Unlock => DoUnlock(s, p)
    case Clean => DoClean(s, p)
    case Fault => DoFault(s, p)
    case Kill => DoKill(s, p)
    case DaemonStart(dir) => if dir in s.dataLocks then None else Some(s.(dataLocks := s.dataLocks[dir := Daemon]))
    case DaemonStop(dir) =>
      if dir in s.dataLocks && s.dataLocks[dir] == Daemon then Some(s.(dataLocks := s.dataLocks - {dir})) else None
  }
}
