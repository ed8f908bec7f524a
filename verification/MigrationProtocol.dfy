/** The server-to-server migration protocol of cmd/server/migration*.go as a step machine.

    Every instance can play the source of one migration and the target of another; any
    number of migrations run at once. What an instance keeps on disk (the persisted state
    and the account keys in its database), what it keeps in memory (the `blocked` flag, live
    connections, the holder of opMu, the position of its job) and the HTTP requests and
    replies ever sent make up the world. One step is one persisted write, one change of the
    in-memory flags, or one message; an instance may restart between any two steps.

    Messages are never removed from `msgs`, and no step is obliged to read one: a message
    may therefore be lost, delayed, repeated or overtaken. */
module MigrationProtocol {

  type HostId = nat
  type MigId = nat
  type Key = nat

  datatype Option<+T> = None | Some(value: T)

  datatype Role = NoRole | Source | Target

  datatype Phase =
    | Idle
    | Locked | Unlocked | Committed
    | Preparing | Imported | Connecting | Committing | RollingBack | Done | Aborted | Failed

  /** What the snapshot of the source holds: its account keys and the digest of the file. */
  datatype Manifest = Manifest(keys: set<Key>, sha: nat)

  /** The row of the table migration_state. */
  datatype State = State(role: Role, id: MigId, phase: Phase, peer: HostId, manifest: Option<Manifest>)

  /** While true no account connects here. */
  predicate BlocksSessions(st: State) {
    match st.role
    case Source => st.phase == Locked || st.phase == Committed
    case Target => st.phase == Preparing || st.phase == RollingBack
    case NoRole => false
  }

  /** The instance has an import job that still has to finish. */
  predicate TargetBusy(st: State) {
    st.role == Target && !(st.phase.Done? || st.phase.Aborted? || st.phase.Failed? || st.phase.Idle?)
  }

  /** Where the operation that holds opMu stands. */
  datatype Op =
    | Free
    | Starting                        // startImport: phase preparing saved
    | LockSaved                       // lockSource: phase locked saved
    | LockBlocked                     // ... and `blocked` set
    | LockStopped                     // ... and every connection stopped
    | Unlocking(forAbort: bool)       // about to save phase unlocked
    | UnlockSaved(forAbort: bool)     // saved; `blocked` still set
    | Wiped                           // commitSource: keys deleted, phase committed not saved yet

  /** Where the import job of a target stands. */
  datatype Pc =
    | AskLock | WaitLock | SaveManifest | Download | Import | Unblock
    | SaveConnecting | WaitConnect
    | SaveCommitting | AskCommit | WaitCommit | SaveDone | SaveRefused
    | SaveRolling | RollBlock | RollStop | RollCheck | RollKeep | RollRestore
    | FailBefore | AskAbort | WaitAbort | SaveAborted | SaveFailed

  datatype Job = NoJob | Job(pc: Pc, id: MigId, src: HostId, manifest: Option<Manifest>, attempt: nat)

  /** On disk: st, keys, backup. In memory: the rest. */
  datatype Host = Host(
    st: State,
    keys: set<Key>,
    backup: Option<set<Key>>,    // before.db in the folder of the import
    blocked: bool,
    live: bool,                  // some account is connected
    ever: bool,                  // some paired account connected since it was loaded
    op: Op,
    job: Job)

  datatype Msg =
    | LockReq(id: MigId, to: HostId, from: HostId)
    | LockOk(id: MigId, manifest: Manifest)
    | CommitReq(id: MigId, to: HostId, sha: nat)
    | CommitOk(id: MigId)
    | CommitConflict(id: MigId)
    | AbortReq(id: MigId, to: HostId)
    | AbortOk(id: MigId)
    | AbortConflict(id: MigId)

  datatype Migration = Migration(target: HostId, source: HostId)

  datatype World = World(
    hosts: map<HostId, Host>,
    msgs: set<Msg>,
    issued: map<MigId, Migration>)

  /** What happens next at one instance. The parameters are the choices the environment makes. */
  datatype Event =
    | StartImport(src: HostId, id: MigId)
    | HandleLock(id: MigId, from: HostId, refuse: bool)
    | HandleCommit(id: MigId, sha: nat)
    | HandleAbort(id: MigId)
    | OpStep(ok: bool, sha: nat)
    | JobGo
    | JobFail
    | JobLockOk(manifest: Manifest)
    | JobCommitOk
    | JobCommitConflict
    | JobAbortOk
    | JobAbortConflict
    | Connect
    | Disconnect
    | LoseBackup
    | Restart

  datatype Effect = Stuck | Effect(host: Host, out: set<Msg>)

  const ABORT_ATTEMPTS: nat := 6

  /** startImport up to the save of phase preparing. */
  function DoStartImport(x: Host, src: HostId, id: MigId): Effect {
    if x.op != Free || x.job != NoJob || TargetBusy(x.st)
       || (x.st.role == Source && BlocksSessions(x.st))
       || x.keys != {}
    then Stuck
    else Effect(x.(st := State(Target, id, Preparing, src, None), op := Starting), {})
  }

  /** The first part of lockSource: answer at once, or save phase locked. */
  function DoHandleLock(x: Host, id: MigId, from: HostId, refuse: bool): Effect {
    if x.op != Free then Stuck
    else if x.st.role == Source && x.st.phase == Locked && x.st.id == id && x.st.manifest.Some? then
      Effect(x, {LockOk(id, x.st.manifest.value)})
    else if (x.st.role == Source && (x.st.phase.Locked? || x.st.phase.Committed?)) || TargetBusy(x.st) || refuse then
      Effect(x, {})   // 409; the caller treats it like any other failure
    else
      Effect(x.(st := State(Source, id, Locked, from, None), op := LockSaved), {})
  }

  /** commitSource up to the transaction that deletes the keys. */
  function DoHandleCommit(x: Host, id: MigId, sha: nat): Effect {
    if x.op != Free then Stuck
    else if x.st.role == Source && x.st.phase == Committed && x.st.id == id then Effect(x, {CommitOk(id)})
    else if x.st.role != Source || x.st.id != id then Effect(x, {CommitConflict(id)})
    else if x.st.phase != Locked then Effect(x, {CommitConflict(id)})
    else if x.st.manifest == None || x.st.manifest.value.sha != sha then Effect(x, {CommitConflict(id)})
    else Effect(x.(keys := {}, live := false, ever := false, op := Wiped), {})
  }

  /** abortSource up to the start of unlockSourceLocked. */
  function DoHandleAbort(x: Host, id: MigId): Effect {
    if x.op != Free then Stuck
    else if x.st.role != Source || x.st.id != id || x.st.phase == Unlocked then Effect(x, {AbortOk(id)})
    else if x.st.phase == Committed then Effect(x, {AbortConflict(id)})
    else Effect(x.(op := Unlocking(true)), {})
  }

  /** One step of the operation that holds opMu. */
  function DoOpStep(x: Host, ok: bool, sha: nat): Effect {
    match x.op
    case Free => Stuck
    case Starting =>
      Effect(x.(blocked := true, op := Free, job := Job(AskLock, x.st.id, x.st.peer, None, 0)), {})
    case LockSaved => Effect(x.(blocked := true, op := LockBlocked), {})
    case LockBlocked =>
      if ok then Effect(x.(live := false, op := LockStopped), {})
      else Effect(x.(op := Unlocking(false)), {})
    case LockStopped =>
      if ok then
        var mf := Manifest(x.keys, sha);
        Effect(x.(st := x.st.(manifest := Some(mf)), op := Free), {LockOk(x.st.id, mf)})
      else Effect(x.(op := Unlocking(false)), {})
    case Unlocking(forAbort) =>
      Effect(x.(st := x.st.(phase := Unlocked), op := UnlockSaved(forAbort)), {})
    case UnlockSaved(forAbort) =>
      Effect(x.(blocked := false, op := Free), if forAbort then {AbortOk(x.st.id)} else {})
    case Wiped =>
      Effect(x.(st := x.st.(phase := Committed), op := Free), {CommitOk(x.st.id)})
  }

  function At(x: Host, pc: Pc): Host
    requires x.job.Job?
  {
    x.(job := x.job.(pc := pc))
  }

  /** The job goes on: its next write, flag or request. */
  function DoJobGo(h: HostId, x: Host): Effect {
    if x.job == NoJob then Stuck
    else match x.job.pc
    case AskLock => Effect(At(x, WaitLock), {LockReq(x.job.id, x.job.src, h)})
    case SaveManifest => Effect(At(x.(st := x.st.(manifest := x.job.manifest)), Download), {})
    case Download => Effect(At(x, Import), {})
    case Import =>
      if x.job.manifest == None then Stuck
      else Effect(At(x.(keys := x.job.manifest.value.keys, backup := Some(x.keys), live := false, ever := false,
                        st := x.st.(phase := Imported)), Unblock), {})
    case Unblock => Effect(At(x.(blocked := false), SaveConnecting), {})
    case SaveConnecting => Effect(At(x.(st := x.st.(phase := Connecting)), WaitConnect), {})
    case WaitConnect => Effect(At(x, if x.keys != {} && !x.ever then SaveRolling else SaveCommitting), {})
    case SaveCommitting => Effect(At(x.(st := x.st.(phase := Committing)), AskCommit), {})
    case AskCommit =>
      if x.job.manifest == None then Stuck
      else Effect(At(x, WaitCommit), {CommitReq(x.job.id, x.job.src, x.job.manifest.value.sha)})
    case SaveDone => Effect(x.(st := x.st.(phase := Done), backup := None, job := NoJob), {})
    case SaveRefused => Effect(x.(st := x.st.(phase := Failed), job := NoJob), {})
    case SaveRolling => Effect(At(x.(st := x.st.(phase := RollingBack)), RollBlock), {})
    case RollBlock => Effect(At(x.(blocked := true), RollStop), {})
    case RollStop => Effect(At(x.(live := false), RollCheck), {})
    case RollCheck => Effect(At(x, if x.ever then RollKeep else RollRestore), {})
    case RollKeep => Effect(At(x.(blocked := false, job := x.job.(manifest := x.st.manifest)), SaveCommitting), {})
    case RollRestore =>
      Effect(At(x.(keys := if x.backup.Some? then x.backup.value else {}, live := false, ever := false), AskAbort), {})
    case FailBefore => Effect(At(x.(blocked := false), AskAbort), {})
    case AskAbort => Effect(At(x, WaitAbort), {AbortReq(x.job.id, x.job.src)})
    case SaveAborted => Effect(x.(st := x.st.(phase := Aborted), backup := None, job := NoJob), {})
    case SaveFailed => Effect(x.(st := x.st.(phase := Failed), backup := None, job := NoJob), {})
    case _ => Stuck
  }

  /** The job meets an error, a timeout or a lost reply. */
  function DoJobFail(x: Host): Effect {
    if x.job == NoJob then Stuck
    else match x.job.pc
    case AskLock => Effect(At(x, FailBefore), {})
    case WaitLock => Effect(At(x, FailBefore), {})
    case SaveManifest => Effect(At(x, FailBefore), {})
    case Download => Effect(At(x, FailBefore), {})
    case Import => Effect(At(x, FailBefore), {})
    case WaitCommit => Effect(At(x, AskCommit), {})
    case RollRestore => Effect(x.(job := NoJob), {})   // stays in rolling_back until a restart
    case WaitAbort =>
      if x.job.attempt + 1 < ABORT_ATTEMPTS
      then Effect(At(x.(job := x.job.(attempt := x.job.attempt + 1)), AskAbort), {})
      else Effect(At(x, SaveFailed), {})
    case _ => Stuck
  }

  /** The job reads a reply it waits for. */
  function DoJobReply(x: Host, waiting: Pc, next: Pc, manifest: Option<Manifest>): Effect {
    if x.job == NoJob || x.job.pc != waiting then Stuck
    else Effect(At(x.(job := x.job.(manifest := manifest)), next), {})
  }

  /** boot, Restore and resumeJobs: memory is rebuilt from what was persisted. */
  function Reboot(x: Host): Host {
    x.(blocked := BlocksSessions(x.st), live := false, ever := false, op := Free, job := ResumedJob(x.st))
  }

  function ResumedJob(st: State): Job {
    if st.role != Target then NoJob
    else if st.phase == Preparing then Job(FailBefore, st.id, st.peer, None, 0)
    else if (st.phase.Imported? || st.phase.Connecting? || st.phase.Committing?) then Job(SaveCommitting, st.id, st.peer, st.manifest, 0)
    else if st.phase == RollingBack then Job(SaveRolling, st.id, st.peer, st.manifest, 0)
    else NoJob
  }

  function Act(h: HostId, x: Host, e: Event): Effect {
    match e
    case StartImport(src, id) => DoStartImport(x, src, id)
    case HandleLock(id, from, refuse) => DoHandleLock(x, id, from, refuse)
    case HandleCommit(id, sha) => DoHandleCommit(x, id, sha)
    case HandleAbort(id) => DoHandleAbort(x, id)
    case OpStep(ok, sha) => DoOpStep(x, ok, sha)
    case JobGo => DoJobGo(h, x)
    case JobFail => DoJobFail(x)
    case JobLockOk(mf) => DoJobReply(x, WaitLock, SaveManifest, Some(mf))
    case JobCommitOk => if x.job.Job? then DoJobReply(x, WaitCommit, SaveDone, x.job.manifest) else Stuck
    case JobCommitConflict => if x.job.Job? then DoJobReply(x, WaitCommit, SaveRefused, x.job.manifest) else Stuck
    case JobAbortOk => if x.job.Job? then DoJobReply(x, WaitAbort, SaveAborted, x.job.manifest) else Stuck
    case JobAbortConflict => if x.job.Job? then DoJobReply(x, WaitAbort, SaveFailed, x.job.manifest) else Stuck
    case Connect => if x.blocked || x.keys == {} then Stuck else Effect(x.(live := true, ever := true), {})
    case Disconnect => Effect(x.(live := false), {})
    case LoseBackup => Effect(x.(backup := None), {})   // the import folder is gone
    case Restart => Effect(Reboot(x), {})
  }

  /** The message the event reads has been sent, and a new migration id is fresh. */
  predicate Justified(w: World, h: HostId, e: Event)
    requires h in w.hosts
  {
    var job := w.hosts[h].job;
    match e
    case StartImport(src, id) => src in w.hosts && id !in w.issued
    case HandleLock(id, from, _) => LockReq(id, h, from) in w.msgs
    case HandleCommit(id, sha) => CommitReq(id, h, sha) in w.msgs
    case HandleAbort(id) => AbortReq(id, h) in w.msgs
    case JobLockOk(mf) => job.Job? && LockOk(job.id, mf) in w.msgs
    case JobCommitOk => job.Job? && CommitOk(job.id) in w.msgs
    case JobCommitConflict => job.Job? && CommitConflict(job.id) in w.msgs
    case JobAbortOk => job.Job? && AbortOk(job.id) in w.msgs
    case JobAbortConflict => job.Job? && AbortConflict(job.id) in w.msgs
    case _ => true
  }

  predicate Enabled(w: World, h: HostId, e: Event) {
    h in w.hosts && Justified(w, h, e) && Act(h, w.hosts[h], e).Effect?
  }

  function Step(w: World, h: HostId, e: Event): World
    requires Enabled(w, h, e)
  {
    var r := Act(h, w.hosts[h], e);
    World(
      w.hosts[h := r.host],
      w.msgs + r.out,
      if e.StartImport? then w.issued[e.id := Migration(h, e.src)] else w.issued)
  }

  ghost predicate Next(w: World, w': World) {
    exists h, e :: Enabled(w, h, e) && w' == Step(w, h, e)
  }

  /** A run: any finite sequence of worlds, each one step after the one before. */
  ghost predicate IsRun(ws: seq<World>) {
    && |ws| > 0
    && Initial(ws[0])
    && forall i :: 0 <= i < |ws| - 1 ==> Next(ws[i], ws[i + 1])
  }

  /** At first no migration has ever been asked for and no two instances share a key. */
  ghost predicate Initial(w: World) {
    && w.msgs == {}
    && w.issued == map[]
    && (forall h :: h in w.hosts ==> Fresh(w.hosts[h]))
    && (forall a, b :: a in w.hosts && b in w.hosts && a != b ==> w.hosts[a].keys !! w.hosts[b].keys)
  }

  predicate Fresh(x: Host) {
    && x.st.role == NoRole
    && x.backup == None
    && !x.blocked && !x.live && !x.ever && x.op == Free && x.job == NoJob
  }

  /** The instance may run the account: it has the keys and is not held back, or is connected. */
  predicate Runs(x: Host, k: Key) {
    k in x.keys && (!x.blocked || x.live)
  }
}
