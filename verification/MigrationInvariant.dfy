/** The invariant of the migration protocol, and the proof that every step keeps it. */
module MigrationInvariant {
  import opened MigrationProtocol

  /** After the lock was granted and before the job may give the migration up. */
  predicate BeforeImport(pc: Pc) {
    (pc.SaveManifest? || pc.Download? || pc.Import?)
  }

  predicate SourceLocked(x: Host) {
    x.st.role == Source && x.st.phase == Locked && x.st.manifest.Some?
  }

  /** The database of the target is the clone of its current migration. */
  predicate HoldsClone(x: Host) {
    x.st.role == Target && x.st.manifest.Some? && x.keys == x.st.manifest.value.keys
    && ((x.st.phase.Imported? || x.st.phase.Connecting? || x.st.phase.Committing?) || (x.st.phase == RollingBack && x.keys != {}))
  }

  predicate SameManifest(x: Host)
    requires x.job.Job?
  {
    x.job.manifest.Some? && x.job.manifest == x.st.manifest
  }

  /** What holds of the target at each position of its job. */
  predicate AtPc(x: Host)
    requires x.job.Job?
  {
    match x.job.pc
    case AskLock | WaitLock | FailBefore => x.st.phase == Preparing
    case SaveManifest => x.st.phase == Preparing && x.job.manifest.Some?
    case Download | Import => x.st.phase == Preparing && SameManifest(x)
    case Unblock | SaveConnecting => x.st.phase == Imported && SameManifest(x)
    case WaitConnect => x.st.phase == Connecting && SameManifest(x)
    case SaveCommitting => HoldsClone(x) && SameManifest(x)
    case AskCommit | WaitCommit | SaveDone => x.st.phase == Committing && SameManifest(x)
    case SaveRolling => (x.st.phase == Connecting && x.keys != {}) || x.st.phase == RollingBack
    case RollBlock | RollStop | RollCheck | RollRestore => x.st.phase == RollingBack
    case RollKeep => x.st.phase == RollingBack && HoldsClone(x)
    case AskAbort | WaitAbort | SaveAborted | SaveFailed =>
      (x.st.phase == Preparing || x.st.phase == RollingBack) && x.keys == {}
    case SaveRefused => false
  }

  predicate JobSane(x: Host) {
    x.job.Job? ==>
      x.st.role == Target && x.job.id == x.st.id && x.job.src == x.st.peer && x.op == Free && AtPc(x)
  }

  predicate OpSane(x: Host) {
    match x.op
    case Free => true
    case Starting => x.st.role == Target && x.st.phase == Preparing && x.job == NoJob
    case LockSaved | LockBlocked => x.st.role == Source && x.st.phase == Locked && x.st.manifest == None
    case LockStopped => x.st.role == Source && x.st.phase == Locked && x.st.manifest == None && !x.live
    case Unlocking(_) => x.st.role == Source && x.st.phase == Locked
    case UnlockSaved(_) => x.st.role == Source && x.st.phase == Unlocked
    case Wiped => SourceLocked(x) && x.keys == {}
  }

  predicate StateSane(x: Host) {
    && (x.live || x.ever ==> x.keys != {})
    && (x.backup.Some? ==> x.backup.value == {})
    && (x.st.role == Source ==>
          && ((x.st.phase.Locked? || x.st.phase.Unlocked? || x.st.phase.Committed?))
          && ((x.st.phase.Locked? || x.st.phase.Committed?) && x.op != LockSaved ==> x.blocked)
          && (x.st.phase == Committed ==> x.keys == {})
          && (SourceLocked(x) ==> !x.live && (x.keys == x.st.manifest.value.keys || x.keys == {})))
    && (x.st.role == Target ==>
          && (x.st.phase.Preparing? || x.st.phase.Imported? || x.st.phase.Connecting? || x.st.phase.Committing? || x.st.phase.RollingBack? || x.st.phase.Done? || x.st.phase.Aborted? || x.st.phase.Failed?)
          && (x.st.phase == Preparing ==> x.keys == {})
          && ((x.st.phase.Imported? || x.st.phase.Connecting? || x.st.phase.Committing?) ==> HoldsClone(x))
          && (x.st.phase == RollingBack ==>
                x.st.manifest.Some? && x.st.manifest.value.keys != {} && (x.keys == {} || HoldsClone(x))))
    && (TargetBusy(x.st) && x.job == NoJob ==> x.op == Starting || x.st.phase == RollingBack)
  }

  predicate Sane(x: Host) {
    JobSane(x) && OpSane(x) && StateSane(x)
  }

  ghost predicate AllSane(w: World) {
    forall h :: h in w.hosts ==> Sane(w.hosts[h])
  }

  /** Every id names one target and one source, and states and messages agree with that. */
  ghost predicate Addressed(w: World) {
    && (forall id :: id in w.issued ==> w.issued[id].target in w.hosts && w.issued[id].source in w.hosts)
    && (forall h :: h in w.hosts && w.hosts[h].st.role == Target ==>
          w.hosts[h].st.id in w.issued && w.issued[w.hosts[h].st.id] == Migration(h, w.hosts[h].st.peer))
    && (forall h :: h in w.hosts && w.hosts[h].st.role == Source ==>
          w.hosts[h].st.id in w.issued && w.issued[w.hosts[h].st.id].source == h)
    && (forall m :: m in w.msgs ==> MsgAddressed(w, m))
  }

  predicate MsgAddressed(w: World, m: Msg) {
    && m.id in w.issued
    && (m.LockReq? || m.CommitReq? || m.AbortReq? ==> m.to == w.issued[m.id].source)
    && !m.CommitConflict?
  }

  predicate AbortSent(w: World, id: MigId) {
    id in w.issued && AbortReq(id, w.issued[id].source) in w.msgs
  }

  predicate CommitSent(w: World, id: MigId, mf: Manifest) {
    id in w.issued && CommitReq(id, w.issued[id].source, mf.sha) in w.msgs
  }

  /** The source of `id` is stopped for `id` with snapshot `mf`, or has already given its keys up. */
  predicate SourceHeld(w: World, id: MigId, mf: Manifest) {
    && id in w.issued
    && w.issued[id].source in w.hosts
    && var a := w.hosts[w.issued[id].source];
       && a.st.role == Source
       && a.st.id == id
       && (a.st.phase == Committed
           || (a.st.phase == Locked && a.st.manifest == Some(mf) && !a.op.Unlocking?
               && (a.keys == mf.keys || CommitSent(w, id, mf))))
  }

  /** Once the lock was granted, the source stays held unless an abort is asked for. */
  ghost predicate LockGranted(w: World) {
    forall id, mf :: LockOk(id, mf) in w.msgs && !AbortSent(w, id) ==> SourceHeld(w, id, mf)
  }

  /** A target that may import, or has imported, was granted the lock and has not asked to abort. */
  predicate Depends(w: World, h: HostId)
    requires h in w.hosts
  {
    var x := w.hosts[h];
    && (HoldsClone(x) ==> LockOk(x.st.id, x.st.manifest.value) in w.msgs && !AbortSent(w, x.st.id))
    && (x.job.Job? && BeforeImport(x.job.pc) && x.job.manifest.Some? ==>
          LockOk(x.job.id, x.job.manifest.value) in w.msgs && !AbortSent(w, x.job.id))
    && (x.st.role == Target && x.op == Starting ==> !AbortSent(w, x.st.id))
    && (x.job.Job? && (x.job.pc.AskLock? || x.job.pc.WaitLock?) ==> !AbortSent(w, x.job.id))
  }

  ghost predicate AllDepend(w: World) {
    forall h :: h in w.hosts ==> Depends(w, h)
  }

  /** The target of `id` has the clone of `mf` for good. */
  predicate Keeps(w: World, id: MigId, mf: Manifest) {
    && id in w.issued
    && w.issued[id].target in w.hosts
    && var b := w.hosts[w.issued[id].target];
       && b.st.role == Target && b.st.id == id && b.st.phase == Committing
       && b.st.manifest == Some(mf) && b.keys == mf.keys
  }

  predicate SourceDone(w: World, id: MigId) {
    && id in w.issued
    && w.issued[id].source in w.hosts
    && var a := w.hosts[w.issued[id].source];
       a.st.role == Source && a.st.id == id && a.st.phase == Committed
  }

  /** What a request to commit says about its target, and an answer about its source. */
  ghost predicate CommitTrue(w: World, m: Msg) {
    && (m.CommitReq? ==>
          SourceDone(w, m.id) || exists mf :: LockOk(m.id, mf) in w.msgs && mf.sha == m.sha && Keeps(w, m.id, mf))
    && (m.CommitOk? ==> SourceDone(w, m.id))
  }

  ghost predicate CommitsTrue(w: World) {
    forall m :: m in w.msgs ==> CommitTrue(w, m)
  }

  /** a is the stopped source of the clone that b holds. */
  predicate Paired(a: Host, b: Host) {
    && SourceLocked(a) && HoldsClone(b)
    && a.st.id == b.st.id && a.st.manifest == b.st.manifest
  }

  /** Two instances share a key only as the stopped source and the target of one migration. */
  ghost predicate SharedOnlyInPairs(w: World) {
    forall a, b :: a in w.hosts && b in w.hosts && a != b && w.hosts[a].keys * w.hosts[b].keys != {} ==>
      Paired(w.hosts[a], w.hosts[b]) || Paired(w.hosts[b], w.hosts[a])
  }

  /** An unlock in progress was asked for by an abort, or no snapshot was ever handed out. */
  ghost predicate UnlocksAsked(w: World) {
    forall h :: h in w.hosts && w.hosts[h].op.Unlocking? && w.hosts[h].st.manifest.Some? ==>
      AbortSent(w, w.hosts[h].st.id)
  }

  predicate Wiping(x: Host) {
    SourceLocked(x) && (x.keys != x.st.manifest.value.keys || x.op == Wiped)
  }

  /** A locked source whose keys are gone was asked to commit. */
  ghost predicate WipesAsked(w: World) {
    forall h :: h in w.hosts && Wiping(w.hosts[h]) ==>
      CommitSent(w, w.hosts[h].st.id, w.hosts[h].st.manifest.value)
  }

  ghost predicate WaitsForCommit(w: World) {
    forall h :: h in w.hosts && w.hosts[h].job.Job? && w.hosts[h].job.pc == SaveDone ==>
      SourceDone(w, w.hosts[h].job.id)
  }

  /** After the source committed, its target can only be confirming that or be done. */
  ghost predicate DonePast(w: World) {
    forall id :: SourceDone(w, id) ==> TargetPast(w, id)
  }

  predicate TargetPast(w: World, id: MigId) {
    id in w.issued && w.issued[id].target in w.hosts &&
    var b := w.hosts[w.issued[id].target];
    b.st.role == Target && b.st.id == id ==> b.st.phase == Committing || b.st.phase == Done
  }

  ghost predicate LocalInv(w: World) {
    AllSane(w) && Addressed(w) && AllDepend(w) && UnlocksAsked(w) && WipesAsked(w)
  }

  ghost predicate GlobalInv(w: World) {
    LockGranted(w) && CommitsTrue(w) && WaitsForCommit(w) && DonePast(w)
  }

  ghost predicate Inv(w: World) {
    LocalInv(w) && GlobalInv(w) && SharedOnlyInPairs(w)
  }

  lemma InitialInv(w: World)
    requires Initial(w)
    ensures Inv(w)
  {
  }

  // ---- each step keeps the local part ----

  predicate Locking(op: Op) {
    op.LockSaved? || op.LockBlocked? || op.LockStopped?
  }

  lemma LockSteps(x: Host, ok: bool, sha: nat)
    requires Sane(x) && DoOpStep(x, ok, sha).Effect? && Locking(x.op)
    ensures Sane(DoOpStep(x, ok, sha).host)
  {
  }

  lemma UnlockSteps(x: Host, ok: bool, sha: nat)
    requires Sane(x) && DoOpStep(x, ok, sha).Effect? && !Locking(x.op)
    ensures Sane(DoOpStep(x, ok, sha).host)
  {
  }

  lemma OpSteps(x: Host, ok: bool, sha: nat)
    requires Sane(x) && DoOpStep(x, ok, sha).Effect?
    ensures Sane(DoOpStep(x, ok, sha).host)
  {
    hide Sane, DoOpStep;
    if Locking(x.op) { LockSteps(x, ok, sha); } else { UnlockSteps(x, ok, sha); }
  }

  lemma Requests(h: HostId, x: Host, e: Event)
    requires Sane(x) && Act(h, x, e).Effect?
    requires e.StartImport? || e.HandleLock? || e.HandleCommit? || e.HandleAbort?
    ensures Sane(Act(h, x, e).host)
  {
  }

  predicate PreparesOrAborts(pc: Pc) {
    pc.AskLock? || pc.SaveManifest? || pc.Download? || pc.Import? || pc.FailBefore? || pc.AskAbort?
    || pc.SaveAborted? || pc.SaveFailed?
  }

  lemma JobPrepares(h: HostId, x: Host)
    requires Sane(x) && DoJobGo(h, x).Effect? && PreparesOrAborts(x.job.pc)
    ensures Sane(DoJobGo(h, x).host)
  {
  }

  predicate RollsBack(pc: Pc) {
    pc.SaveRolling? || pc.RollBlock? || pc.RollStop? || pc.RollCheck? || pc.RollKeep? || pc.RollRestore?
  }

  lemma JobRollsBack(h: HostId, x: Host)
    requires Sane(x) && DoJobGo(h, x).Effect? && RollsBack(x.job.pc)
    ensures Sane(DoJobGo(h, x).host)
  {
  }

  lemma JobCommits(h: HostId, x: Host)
    requires Sane(x) && DoJobGo(h, x).Effect?
    requires x.job.pc.Unblock? || x.job.pc.SaveConnecting? || x.job.pc.WaitConnect? || x.job.pc.SaveRefused?
    ensures Sane(DoJobGo(h, x).host)
  {
  }

  lemma JobConfirms(h: HostId, x: Host)
    requires Sane(x) && DoJobGo(h, x).Effect?
    requires x.job.pc.SaveCommitting? || x.job.pc.AskCommit? || x.job.pc.SaveDone?
    ensures Sane(DoJobGo(h, x).host)
  {
  }

  lemma PrepareFails(x: Host)
    requires Sane(x) && DoJobFail(x).Effect? && PreparesOrAborts(x.job.pc)
    ensures Sane(DoJobFail(x).host)
  {
  }

  lemma ReplyFails(x: Host)
    requires Sane(x) && DoJobFail(x).Effect? && x.job.Job? && (x.job.pc.WaitCommit? || x.job.pc.WaitAbort?)
    ensures Sane(DoJobFail(x).host)
  {
  }

  lemma OtherFails(x: Host)
    requires Sane(x) && DoJobFail(x).Effect? && !PreparesOrAborts(x.job.pc) && !x.job.pc.WaitCommit? && !x.job.pc.WaitAbort?
    ensures Sane(DoJobFail(x).host)
  {
  }

  lemma WaitFails(x: Host)
    requires Sane(x) && DoJobFail(x).Effect? && x.job.Job? && !PreparesOrAborts(x.job.pc)
    ensures Sane(DoJobFail(x).host)
  {
    hide Sane, DoJobFail;
    if x.job.pc.WaitCommit? || x.job.pc.WaitAbort? { ReplyFails(x); } else { OtherFails(x); }
  }

  lemma JobFails(x: Host)
    requires Sane(x) && DoJobFail(x).Effect?
    ensures Sane(DoJobFail(x).host)
  {
    hide Sane, DoJobFail;
    if x.job.Job? && PreparesOrAborts(x.job.pc) { PrepareFails(x); } else { WaitFailsToo(x); }
  }

  lemma WaitFailsToo(x: Host)
    requires Sane(x) && DoJobFail(x).Effect? && (x.job.Job? ==> !PreparesOrAborts(x.job.pc))
    ensures Sane(DoJobFail(x).host)
  {
    if x.job.Job? { WaitFails(x); }
  }

  lemma JobReplies(h: HostId, x: Host, e: Event)
    requires Sane(x) && Act(h, x, e).Effect?
    requires e.JobLockOk? || e.JobCommitOk? || e.JobAbortOk? || e.JobAbortConflict?
    ensures Sane(Act(h, x, e).host)
  {
  }

  lemma Environment(h: HostId, x: Host, e: Event)
    requires Sane(x) && Act(h, x, e).Effect?
    requires e.Connect? || e.Disconnect? || e.LoseBackup? || e.Restart?
    ensures Sane(Act(h, x, e).host)
  {
  }


  lemma ActSane(h: HostId, x: Host, e: Event)
    requires Sane(x) && Act(h, x, e).Effect? && !e.JobCommitConflict?
    ensures Sane(Act(h, x, e).host)
  {
    match e
    case OpStep(ok, sha) => OpSteps(x, ok, sha);
    case JobGo =>
      if PreparesOrAborts(x.job.pc) { JobPrepares(h, x); }
      else if RollsBack(x.job.pc) { JobRollsBack(h, x); }
      else if x.job.pc.SaveCommitting? || x.job.pc.AskCommit? || x.job.pc.SaveDone? { JobConfirms(h, x); }
      else { JobCommits(h, x); }
    case StartImport(_, _) => Requests(h, x, e);
    case HandleLock(_, _, _) => Requests(h, x, e);
    case HandleCommit(_, _) => Requests(h, x, e);
    case HandleAbort(_) => Requests(h, x, e);
    case Connect => Environment(h, x, e);
    case Disconnect => Environment(h, x, e);
    case LoseBackup => Environment(h, x, e);
    case Restart => Environment(h, x, e);
    case JobFail => JobFails(x);
    case _ => JobReplies(h, x, e);
  }

  // ---- changing one instance ----

  function Put(w: World, h: HostId, x': Host): World
    requires h in w.hosts
  {
    w.(hosts := w.hosts[h := x'])
  }

  function Say(w: World, m: Msg): World {
    w.(msgs := w.msgs + {m})
  }

  /** x' differs from x in nothing that other instances rely on. */
  predicate Similar(x: Host, x': Host) {
    && x'.keys == x.keys
    && x'.st.role == x.st.role && x'.st.id == x.st.id && x'.st.peer == x.st.peer
    && (x.st.role != Target ==> x'.st == x.st)
    && (HoldsClone(x') ==> HoldsClone(x) && x'.st.manifest == x.st.manifest)
    && (HoldsClone(x) && x.st.phase == Committing ==> HoldsClone(x') && x'.st.phase == Committing)
    && (HoldsClone(x) && x.keys != {} ==> HoldsClone(x'))
    && (x'.op.Unlocking? ==> x.op.Unlocking?)
    && (x'.job.Job? ==>
          && (BeforeImport(x'.job.pc) ==>
                x.job.Job? && BeforeImport(x.job.pc) && x'.job.manifest == x.job.manifest && x'.job.id == x.job.id)
          && (x'.job.pc.AskLock? || x'.job.pc.WaitLock? ==>
                (x.st.role == Target && x.op == Starting && x'.job.id == x.st.id)
                || (x.job.Job? && (x.job.pc.AskLock? || x.job.pc.WaitLock?) && x'.job.id == x.job.id))
          && (x'.job.pc == SaveDone ==> x.job.Job? && x.job.pc == SaveDone && x'.job.id == x.job.id))
    && (x'.op == Starting ==> x.op == Starting)
    && (x'.op == Wiped ==> x.op == Wiped)
    && (x.st.phase == Done ==> x'.st.phase == Done)
  }

  lemma SimilarSane(w: World, h: HostId, x': Host)
    requires AllSane(w) && h in w.hosts && Sane(x') && Similar(w.hosts[h], x')
    ensures AllSane(Put(w, h, x'))
  {
  }

  lemma SimilarAddressed(w: World, h: HostId, x': Host)
    requires Addressed(w) && h in w.hosts && Sane(x') && Similar(w.hosts[h], x')
    ensures Addressed(Put(w, h, x'))
  {
  }

  lemma SimilarLockGranted(w: World, h: HostId, x': Host)
    requires Addressed(w) && LockGranted(w) && h in w.hosts && Sane(x') && Similar(w.hosts[h], x')
    ensures LockGranted(Put(w, h, x'))
  {
  }

  lemma SimilarDepend(w: World, h: HostId, x': Host)
    requires AllDepend(w) && h in w.hosts && Sane(x') && Similar(w.hosts[h], x')
    ensures AllDepend(Put(w, h, x'))
  {
  }

  lemma SimilarCommits(w: World, h: HostId, x': Host)
    requires CommitsTrue(w) && h in w.hosts && Sane(x') && Similar(w.hosts[h], x')
    ensures CommitsTrue(Put(w, h, x'))
  {
  }

  lemma SimilarShared(w: World, h: HostId, x': Host)
    requires SharedOnlyInPairs(w) && h in w.hosts && Sane(x') && Similar(w.hosts[h], x')
    ensures SharedOnlyInPairs(Put(w, h, x'))
  {
    var hosts' := Put(w, h, x').hosts;
    forall a, b | a in hosts' && b in hosts' && a != b && hosts'[a].keys * hosts'[b].keys != {}
      ensures Paired(hosts'[a], hosts'[b]) || Paired(hosts'[b], hosts'[a])
    {
      assert w.hosts[a].keys * w.hosts[b].keys != {};
    }
  }

  lemma SimilarUnlocks(w: World, h: HostId, x': Host)
    requires UnlocksAsked(w) && h in w.hosts && Sane(x') && Similar(w.hosts[h], x')
    ensures UnlocksAsked(Put(w, h, x'))
  {
  }

  lemma SimilarWipes(w: World, h: HostId, x': Host)
    requires WipesAsked(w) && h in w.hosts && Sane(x') && Similar(w.hosts[h], x')
    ensures WipesAsked(Put(w, h, x'))
  {
  }

  lemma SimilarPast(w: World, h: HostId, x': Host)
    requires AllSane(w) && DonePast(w) && h in w.hosts && Sane(x') && Similar(w.hosts[h], x')
    ensures DonePast(Put(w, h, x'))
  {
    var w' := Put(w, h, x');
    forall id | SourceDone(w', id) ensures TargetPast(w', id) {
      assert SourceDone(w, id);
    }
  }

  lemma SimilarWaits(w: World, h: HostId, x': Host)
    requires WaitsForCommit(w) && h in w.hosts && Sane(x') && Similar(w.hosts[h], x')
    ensures WaitsForCommit(Put(w, h, x'))
  {
  }

  lemma PutSimilar(w: World, h: HostId, x': Host)
    requires Inv(w) && h in w.hosts && Sane(x') && Similar(w.hosts[h], x')
    ensures Inv(Put(w, h, x'))
  {
    SimilarSane(w, h, x');
    SimilarAddressed(w, h, x');
    SimilarLockGranted(w, h, x');
    SimilarDepend(w, h, x');
    SimilarCommits(w, h, x');
    SimilarShared(w, h, x');
    SimilarUnlocks(w, h, x');
    SimilarWipes(w, h, x');
    SimilarPast(w, h, x');
    SimilarWaits(w, h, x');
  }

  // ---- sending a message ----

  lemma SayKeepsCommits(w: World, m: Msg)
    requires CommitsTrue(w) && CommitTrue(Say(w, m), m)
    ensures CommitsTrue(Say(w, m))
  {
  }

  lemma SayKeepsLockGranted(w: World, m: Msg)
    requires LockGranted(w)
    requires m.LockOk? && !AbortSent(Say(w, m), m.id) ==> SourceHeld(Say(w, m), m.id, m.manifest)
    ensures LockGranted(Say(w, m))
  {
  }

  lemma SayKeepsDepend(w: World, m: Msg)
    requires AllDepend(w)
    requires m.AbortReq? ==> forall b :: b in w.hosts ==> Depends(Say(w, m), b)
    ensures AllDepend(Say(w, m))
  {
  }

  lemma SayKeepsRest(w: World, m: Msg)
    requires AllSane(w) && Addressed(w) && SharedOnlyInPairs(w) && UnlocksAsked(w) && WipesAsked(w)
    requires WaitsForCommit(w) && DonePast(w)
    requires MsgAddressed(w, m)
    ensures
      var w' := Say(w, m);
      && AllSane(w') && Addressed(w') && SharedOnlyInPairs(w') && UnlocksAsked(w') && WipesAsked(w')
      && WaitsForCommit(w') && DonePast(w')
  {
    var w' := Say(w, m);
    forall c | c in w'.msgs ensures MsgAddressed(w', c) {
      if c in w.msgs { assert MsgAddressed(w, c); }
    }
    forall h | h in w'.hosts && w'.hosts[h].job.Job? && w'.hosts[h].job.pc == SaveDone
      ensures SourceDone(w', w'.hosts[h].job.id)
    {
      assert SourceDone(w, w.hosts[h].job.id);
    }
    forall id | SourceDone(w', id) ensures TargetPast(w', id) {
      assert SourceDone(w, id) && TargetPast(w, id);
    }
  }

  lemma SayKeeps(w: World, m: Msg)
    requires Inv(w) && MsgAddressed(w, m) && CommitTrue(Say(w, m), m)
    requires m.LockOk? && !AbortSent(Say(w, m), m.id) ==> SourceHeld(Say(w, m), m.id, m.manifest)
    requires m.AbortReq? ==> forall b :: b in w.hosts ==> Depends(Say(w, m), b)
    ensures Inv(Say(w, m))
  {
    SayKeepsCommits(w, m);
    SayKeepsLockGranted(w, m);
    SayKeepsDepend(w, m);
    SayKeepsRest(w, m);
  }

  lemma SayLockOk(w: World, h: HostId)
    requires Inv(w) && h in w.hosts && SourceLocked(w.hosts[h]) && w.hosts[h].op == Free
    ensures Inv(Say(w, LockOk(w.hosts[h].st.id, w.hosts[h].st.manifest.value)))
  {
    var m := LockOk(w.hosts[h].st.id, w.hosts[h].st.manifest.value);
    assert Sane(w.hosts[h]);
    assert SourceHeld(Say(w, m), m.id, m.manifest);
    SayKeeps(w, m);
  }

  lemma SayAbortReq(w: World, h: HostId)
    requires Inv(w) && h in w.hosts && w.hosts[h].job.Job? && w.hosts[h].job.pc == WaitAbort
    ensures Inv(Say(w, AbortReq(w.hosts[h].job.id, w.hosts[h].job.src)))
  {
    var m := AbortReq(w.hosts[h].job.id, w.hosts[h].job.src);
    assert Sane(w.hosts[h]);
    assert w.issued[m.id] == Migration(h, m.to);
    forall b | b in w.hosts ensures Depends(Say(w, m), b) {
      assert Depends(w, b) && Sane(w.hosts[b]);
    }
    SayKeeps(w, m);
  }

  /** A waiting job asks for the commit of a snapshot that it was granted and holds. */
  lemma CommitReqTrue(w: World, h: HostId)
    requires AllSane(w) && Addressed(w) && AllDepend(w) && h in w.hosts && w.hosts[h].job.Job? && w.hosts[h].job.pc == WaitCommit
    ensures w.hosts[h].job.manifest.Some?
    ensures var x := w.hosts[h];
            var m := CommitReq(x.job.id, x.job.src, x.job.manifest.value.sha);
            MsgAddressed(w, m) && CommitTrue(Say(w, m), m)
  {
  }

  lemma SayCommitReq(w: World, h: HostId)
    requires Inv(w) && h in w.hosts && w.hosts[h].job.Job? && w.hosts[h].job.pc == WaitCommit
    ensures w.hosts[h].job.manifest.Some?
    ensures Inv(Say(w, CommitReq(w.hosts[h].job.id, w.hosts[h].job.src, w.hosts[h].job.manifest.value.sha)))
  {
    hide MsgAddressed, CommitTrue, AllSane, Addressed, AllDepend, GlobalInv, SharedOnlyInPairs;
    CommitReqTrue(w, h);
    hide Inv;
    SayKeeps(w, CommitReq(w.hosts[h].job.id, w.hosts[h].job.src, w.hosts[h].job.manifest.value.sha));
  }

  // ---- an instance on which nothing depends yet ----

  predicate Unrelied(x: Host) {
    !SourceLocked(x) && !(x.st.role == Source && x.st.phase == Committed) && !HoldsClone(x)
  }

  predicate NewlyPlaced(w: World, h: HostId, x': Host) {
    && !(x'.st.role == Source && x'.st.phase == Committed) && !HoldsClone(x')
    && (x'.st.role == Target ==> x'.st.id in w.issued && w.issued[x'.st.id] == Migration(h, x'.st.peer))
    && (x'.st.role == Source ==> x'.st.id in w.issued && w.issued[x'.st.id].source == h)
    && (SourceLocked(x') ==> x'.keys == x'.st.manifest.value.keys)
    && (x'.op.Unlocking? ==> x'.st.manifest == None)
    && x'.op != Wiped
    && x'.job == NoJob
    && (x'.op == Starting ==> !AbortSent(w, x'.st.id))
  }

  lemma CommitsCarry(w: World, w': World)
    requires CommitsTrue(w) && w'.msgs == w.msgs
    requires forall id :: SourceDone(w, id) ==> SourceDone(w', id)
    requires forall id, mf :: Keeps(w, id, mf) ==> Keeps(w', id, mf) || SourceDone(w', id)
    ensures CommitsTrue(w')
  {
  }

  lemma WaitsCarry(w: World, h: HostId, x': Host)
    requires WaitsForCommit(w) && h in w.hosts
    requires forall id :: SourceDone(w, id) ==> SourceDone(Put(w, h, x'), id)
    requires x'.job.Job? && x'.job.pc == SaveDone ==> SourceDone(Put(w, h, x'), x'.job.id)
    ensures WaitsForCommit(Put(w, h, x'))
  {
  }

  lemma DependCarry(w: World, h: HostId, x': Host)
    requires AllDepend(w) && h in w.hosts && Depends(Put(w, h, x'), h)
    ensures AllDepend(Put(w, h, x'))
  {
  }

  lemma AddressedCarry(w: World, h: HostId, x': Host)
    requires Addressed(w) && h in w.hosts
    requires x'.st.role == Target ==> x'.st.id in w.issued && w.issued[x'.st.id] == Migration(h, x'.st.peer)
    requires x'.st.role == Source ==> x'.st.id in w.issued && w.issued[x'.st.id].source == h
    ensures Addressed(Put(w, h, x'))
  {
    forall m | m in w.msgs ensures MsgAddressed(Put(w, h, x'), m) {
      assert MsgAddressed(w, m);
    }
  }

  lemma LocalCarry(w: World, h: HostId, x': Host)
    requires LocalInv(w) && h in w.hosts && Sane(x')
    requires x'.st.role == Target ==> x'.st.id in w.issued && w.issued[x'.st.id] == Migration(h, x'.st.peer)
    requires x'.st.role == Source ==> x'.st.id in w.issued && w.issued[x'.st.id].source == h
    requires Depends(Put(w, h, x'), h)
    requires x'.op.Unlocking? && x'.st.manifest.Some? ==> AbortSent(w, x'.st.id)
    requires Wiping(x') ==> CommitSent(w, x'.st.id, x'.st.manifest.value)
    ensures LocalInv(Put(w, h, x'))
  {
    AddressedCarry(w, h, x');
    DependCarry(w, h, x');
    FlagsCarry(w, h, x');
  }

  lemma FlagsCarry(w: World, h: HostId, x': Host)
    requires AllSane(w) && UnlocksAsked(w) && WipesAsked(w) && h in w.hosts && Sane(x')
    requires x'.op.Unlocking? && x'.st.manifest.Some? ==> AbortSent(w, x'.st.id)
    requires Wiping(x') ==> CommitSent(w, x'.st.id, x'.st.manifest.value)
    ensures AllSane(Put(w, h, x')) && UnlocksAsked(Put(w, h, x')) && WipesAsked(Put(w, h, x'))
  {
  }

  lemma UnreliedGlobal(w: World, h: HostId, x': Host)
    requires LockGranted(w) && CommitsTrue(w) && WaitsForCommit(w)
    requires h in w.hosts && Unrelied(w.hosts[h]) && x'.job == NoJob
    ensures
      var w' := Put(w, h, x');
      LockGranted(w') && CommitsTrue(w') && WaitsForCommit(w')
  {
    var w' := Put(w, h, x');
    forall id, mf | LockOk(id, mf) in w'.msgs && !AbortSent(w', id) ensures SourceHeld(w', id, mf) {
      assert SourceHeld(w, id, mf);
    }
    CommitsCarry(w, w');
    WaitsCarry(w, h, x');
  }

  lemma UnreliedPast(w: World, h: HostId, x': Host)
    requires DonePast(w) && h in w.hosts && Sane(w.hosts[h]) && NewlyPlaced(w, h, x')
    requires x'.st.role == Target ==> !SourceDone(Put(w, h, x'), x'.st.id)
    ensures DonePast(Put(w, h, x'))
  {
    var w' := Put(w, h, x');
    forall id | SourceDone(w', id) ensures TargetPast(w', id) {
      assert SourceDone(w, id) && TargetPast(w, id);
    }
  }

  lemma UnreliedShared(w: World, h: HostId, x': Host)
    requires SharedOnlyInPairs(w) && h in w.hosts && Unrelied(w.hosts[h]) && x'.keys == w.hosts[h].keys
    ensures SharedOnlyInPairs(Put(w, h, x'))
  {
  }

  lemma PutUnrelied(w: World, h: HostId, x': Host)
    requires Inv(w) && h in w.hosts && Unrelied(w.hosts[h])
    requires Sane(x') && NewlyPlaced(w, h, x') && x'.keys == w.hosts[h].keys
    requires x'.st.role == Target ==> !SourceDone(Put(w, h, x'), x'.st.id)
    ensures Inv(Put(w, h, x'))
  {
    LocalCarry(w, h, x');
    UnreliedGlobal(w, h, x');
    UnreliedPast(w, h, x');
    UnreliedShared(w, h, x');
  }

  /** A fresh migration id. */
  lemma Issue(w: World, id: MigId, mig: Migration)
    requires Inv(w) && id !in w.issued && mig.target in w.hosts && mig.source in w.hosts
    ensures
      var w' := w.(issued := w.issued[id := mig]);
      Inv(w') && !AbortSent(w', id) && !SourceDone(w', id)
  {
    IssueAddressed(w, id, mig);
    IssueLocal(w, id, mig);
    IssueGlobal(w, id, mig);
    IssuePast(w, id, mig);
  }

  lemma IssueAddressed(w: World, id: MigId, mig: Migration)
    requires Addressed(w) && id !in w.issued && mig.target in w.hosts && mig.source in w.hosts
    ensures
      var w' := w.(issued := w.issued[id := mig]);
      Addressed(w') && !AbortSent(w', id) && !SourceDone(w', id)
  {
  }

  lemma IssueDepends(w: World, id: MigId, mig: Migration, b: HostId)
    requires Addressed(w) && b in w.hosts && Depends(w, b) && id !in w.issued
    ensures Depends(w.(issued := w.issued[id := mig]), b)
  {
  }

  lemma IssueFlags(w: World, id: MigId, mig: Migration)
    requires Addressed(w) && UnlocksAsked(w) && WipesAsked(w) && id !in w.issued
    ensures UnlocksAsked(w.(issued := w.issued[id := mig])) && WipesAsked(w.(issued := w.issued[id := mig]))
  {
  }

  lemma IssueLocal(w: World, id: MigId, mig: Migration)
    requires Addressed(w) && AllDepend(w) && UnlocksAsked(w) && WipesAsked(w) && id !in w.issued
    ensures
      var w' := w.(issued := w.issued[id := mig]);
      AllDepend(w') && UnlocksAsked(w') && WipesAsked(w')
  {
    IssueFlags(w, id, mig);
    hide Depends, Addressed, UnlocksAsked, WipesAsked;
    var w' := w.(issued := w.issued[id := mig]);
    forall b | b in w'.hosts ensures Depends(w', b) {
      IssueDepends(w, id, mig, b);
    }
  }

  lemma IssueGlobal(w: World, id: MigId, mig: Migration)
    requires Addressed(w) && LockGranted(w) && CommitsTrue(w) && WaitsForCommit(w) && id !in w.issued
    ensures
      var w' := w.(issued := w.issued[id := mig]);
      LockGranted(w') && CommitsTrue(w') && WaitsForCommit(w')
  {
  }

  lemma IssuePast(w: World, id: MigId, mig: Migration)
    requires Addressed(w) && DonePast(w) && id !in w.issued
    ensures DonePast(w.(issued := w.issued[id := mig]))
  {
    var w' := w.(issued := w.issued[id := mig]);
    forall i | SourceDone(w', i) ensures TargetPast(w', i) {
      assert SourceDone(w, i) && TargetPast(w, i);
    }
  }

  // ---- the transitions others rely on ----

  lemma GlobalCarry(w: World, h: HostId, x': Host)
    requires GlobalInv(w) && h in w.hosts
    requires forall id, mf :: SourceHeld(w, id, mf) && !AbortSent(w, id) ==> SourceHeld(Put(w, h, x'), id, mf)
    requires forall id :: SourceDone(w, id) ==> SourceDone(Put(w, h, x'), id)
    requires forall id, mf :: Keeps(w, id, mf) ==> Keeps(Put(w, h, x'), id, mf) || SourceDone(Put(w, h, x'), id)
    requires x'.job.Job? && x'.job.pc == SaveDone ==> SourceDone(Put(w, h, x'), x'.job.id)
    requires forall id :: SourceDone(Put(w, h, x'), id) && !SourceDone(w, id) ==> TargetPast(Put(w, h, x'), id)
    requires forall id :: TargetPast(w, id) ==> TargetPast(Put(w, h, x'), id)
    ensures GlobalInv(Put(w, h, x'))
  {
  }

  /** A target changes within its migration. */
  lemma TargetMoves(w: World, h: HostId, x': Host)
    requires GlobalInv(w) && h in w.hosts
    requires var x := w.hosts[h];
      && x.st.role == Target && x'.st.role == Target && x'.st.id == x.st.id
      && (x.st.phase == Committing ==>
            (x'.st.phase == Committing && x'.st.manifest == x.st.manifest && x'.keys == x.keys)
            || (x'.st.phase == Done && SourceDone(w, x.st.id)))
      && (x.st.phase == Done ==> x'.st.phase == Done)
    requires x'.job.Job? && x'.job.pc == SaveDone ==> SourceDone(w, x'.job.id)
    ensures GlobalInv(Put(w, h, x'))
  {
    GlobalCarry(w, h, x');
  }

  /** A locked source changes within its migration. */
  lemma SourceMoves(w: World, h: HostId, x': Host)
    requires GlobalInv(w) && h in w.hosts
    requires var x := w.hosts[h];
      && x.st.role == Source && x.st.phase == Locked && x'.st.role == Source && x'.st.id == x.st.id && x'.job == NoJob
      && (AbortSent(w, x.st.id)
          || (x'.st == x.st && x'.st.manifest.Some? && !x'.op.Unlocking? && CommitSent(w, x.st.id, x.st.manifest.value))
          || x'.st.phase == Committed)
      && (x'.st.phase == Committed ==> TargetPast(w, x.st.id))
    ensures GlobalInv(Put(w, h, x'))
  {
    GlobalCarry(w, h, x');
  }

  lemma SharedCarry(w: World, h: HostId, x': Host)
    requires SharedOnlyInPairs(w) && h in w.hosts
    requires x'.keys == {}
    ensures SharedOnlyInPairs(Put(w, h, x'))
  {
  }

  /** An abort that was asked for ends the lock. */
  lemma PutUnlock(w: World, h: HostId, x': Host)
    requires Inv(w) && h in w.hosts
    requires var x := w.hosts[h];
      && x.st.role == Source && x.st.phase == Locked && AbortSent(w, x.st.id)
      && x'.keys == x.keys && x'.job == NoJob
      && ((x'.st == x.st && x'.op.Unlocking?)
          || (x'.st == x.st.(phase := Unlocked) && x'.op.UnlockSaved?))
      && (Wiping(x') ==> Wiping(x))
    requires Sane(x')
    ensures Inv(Put(w, h, x'))
  {
    LocalCarry(w, h, x');
    SourceMoves(w, h, x');
    UnlockShared(w, h, x');
  }

  lemma UnlockShared(w: World, h: HostId, x': Host)
    requires AllDepend(w) && SharedOnlyInPairs(w) && h in w.hosts
    requires var x := w.hosts[h];
      x.st.role == Source && AbortSent(w, x.st.id) && x'.keys == x.keys
    ensures SharedOnlyInPairs(Put(w, h, x'))
  {
  }

  /** The keys of a locked source go once its target asked to commit. */
  lemma PutWipe(w: World, h: HostId, x': Host)
    requires Inv(w) && h in w.hosts
    requires var x := w.hosts[h];
      && SourceLocked(x) && CommitSent(w, x.st.id, x.st.manifest.value)
      && x'.st == x.st && x'.keys == {} && x'.op == Wiped && x'.job == NoJob
    requires Sane(x')
    ensures Inv(Put(w, h, x'))
  {
    LocalCarry(w, h, x');
    SourceMoves(w, h, x');
    SharedCarry(w, h, x');
  }

  lemma WipedIsKept(w: World, h: HostId)
    requires LocalInv(w) && CommitsTrue(w) && h in w.hosts && Wiping(w.hosts[h])
    ensures exists mf :: LockOk(w.hosts[h].st.id, mf) in w.msgs && Keeps(w, w.hosts[h].st.id, mf)
    ensures TargetPast(w, w.hosts[h].st.id)
  {
  }

  lemma PutCommitted(w: World, h: HostId, x': Host)
    requires Inv(w) && h in w.hosts
    requires var x := w.hosts[h];
      && x.op == Wiped && x.st.role == Source && x.st.phase == Locked
      && x'.st == x.st.(phase := Committed) && x'.op == Free && x'.job == NoJob && x'.keys == {}
    requires Sane(x')
    ensures Inv(Put(w, h, x')) && SourceDone(Put(w, h, x'), w.hosts[h].st.id)
  {
    assert Sane(w.hosts[h]) && Wiping(w.hosts[h]);
    WipedIsKept(w, h);
    LocalCarry(w, h, x');
    SourceMoves(w, h, x');
    SharedCarry(w, h, x');
  }

  /** When a target imports, its source is stopped and holds exactly the keys it handed out. */
  lemma ImportsFromHeldSource(w: World, h: HostId)
    requires LocalInv(w) && GlobalInv(w) && h in w.hosts && w.hosts[h].job.Job? && w.hosts[h].job.pc == Import
    ensures
      var x := w.hosts[h];
      && x.job.src in w.hosts && x.job.manifest.Some? && x.job.src != h
      && SourceLocked(w.hosts[x.job.src])
      && w.hosts[x.job.src].st.id == x.st.id && w.hosts[x.job.src].st.manifest == x.job.manifest
      && w.hosts[x.job.src].keys == x.job.manifest.value.keys
  {
    var x := w.hosts[h];
    assert Sane(x) && Depends(w, h);
    var mf := x.job.manifest.value;
    assert SourceHeld(w, x.st.id, mf);
    assert !TargetPast(w, x.st.id);
    assert CommitReq(x.st.id, x.st.peer, mf.sha) in w.msgs ==> CommitTrue(w, CommitReq(x.st.id, x.st.peer, mf.sha));
  }

  lemma ImportShared(w: World, h: HostId, x': Host)
    requires Addressed(w) && SharedOnlyInPairs(w) && h in w.hosts && w.hosts[h].st.role == Target
    requires w.hosts[h].st.phase == Preparing && x'.st == w.hosts[h].st.(phase := Imported) && HoldsClone(x')
    requires var a := w.hosts[h].st.peer;
      && a in w.hosts && a != h && SourceLocked(w.hosts[a]) && w.hosts[a].st.id == x'.st.id
      && w.hosts[a].st.manifest == x'.st.manifest && w.hosts[a].keys == x'.keys
    ensures SharedOnlyInPairs(Put(w, h, x'))
  {
    var hosts', src := Put(w, h, x').hosts, w.hosts[h].st.peer;
    forall a, b | a in hosts' && b in hosts' && a != b && hosts'[a].keys * hosts'[b].keys != {}
      ensures Paired(hosts'[a], hosts'[b]) || Paired(hosts'[b], hosts'[a])
    {
      if a != h && b != h {
        assert w.hosts[a].keys * w.hosts[b].keys != {};
      } else {
        var c := if a == h then b else a;
        if c != src { assert false; }
      }
    }
  }

  lemma PutImport(w: World, h: HostId, x': Host)
    requires Inv(w) && h in w.hosts
    requires var x := w.hosts[h];
      && x.job.Job? && x.job.pc == Import && x.job.manifest.Some?
      && x'.st == x.st.(phase := Imported) && x'.keys == x.job.manifest.value.keys
      && x'.op == Free && x'.job.Job? && x'.job.pc == Unblock
    requires Sane(x')
    ensures Inv(Put(w, h, x'))
  {
    assert Sane(w.hosts[h]) && Depends(w, h);
    ImportsFromHeldSource(w, h);
    LocalCarry(w, h, x');
    TargetMoves(w, h, x');
    ImportShared(w, h, x');
  }

  lemma PutRestore(w: World, h: HostId, x': Host)
    requires Inv(w) && h in w.hosts
    requires var x := w.hosts[h];
      x.st.role == Target && x.st.phase == RollingBack && x'.st == x.st && x'.keys == {}
    requires x'.op == Free && x'.job.Job? && x'.job.pc == AskAbort
    requires Sane(x')
    ensures Inv(Put(w, h, x'))
  {
    LocalCarry(w, h, x');
    TargetMoves(w, h, x');
    SharedCarry(w, h, x');
  }

  /** The source has committed, so the clone is the only copy. */
  lemma PutDone(w: World, h: HostId, x': Host)
    requires Inv(w) && h in w.hosts
    requires var x := w.hosts[h];
      && x.job.Job? && x.job.pc == SaveDone && x'.st == x.st.(phase := Done) && x'.keys == x.keys
      && x'.op == Free && x'.job == NoJob
    requires Sane(x')
    ensures Inv(Put(w, h, x'))
  {
    assert Sane(w.hosts[h]);
    LocalCarry(w, h, x');
    TargetMoves(w, h, x');
    DoneShared(w, h, x');
  }

  lemma DoneShared(w: World, h: HostId, x': Host)
    requires Addressed(w) && SharedOnlyInPairs(w) && h in w.hosts
    requires w.hosts[h].st.role == Target && SourceDone(w, w.hosts[h].st.id) && x'.keys == w.hosts[h].keys
    ensures SharedOnlyInPairs(Put(w, h, x'))
  {
    var hosts' := Put(w, h, x').hosts;
    forall a, b | a in hosts' && b in hosts' && a != b && hosts'[a].keys * hosts'[b].keys != {}
      ensures Paired(hosts'[a], hosts'[b]) || Paired(hosts'[b], hosts'[a])
    {
      assert w.hosts[a].keys * w.hosts[b].keys != {};
    }
  }

  lemma PutReadLockOk(w: World, h: HostId, mf: Manifest)
    requires Inv(w) && h in w.hosts && w.hosts[h].job.Job? && w.hosts[h].job.pc == WaitLock
    requires LockOk(w.hosts[h].job.id, mf) in w.msgs
    requires Sane(At(w.hosts[h].(job := w.hosts[h].job.(manifest := Some(mf))), SaveManifest))
    ensures Inv(Put(w, h, At(w.hosts[h].(job := w.hosts[h].job.(manifest := Some(mf))), SaveManifest)))
  {
    var x := w.hosts[h];
    var x' := At(x.(job := x.job.(manifest := Some(mf))), SaveManifest);
    assert Sane(x) && Depends(w, h);
    LocalCarry(w, h, x');
    TargetMoves(w, h, x');
    ReadShared(w, h, x');
  }

  lemma ReadShared(w: World, h: HostId, x': Host)
    requires SharedOnlyInPairs(w) && h in w.hosts
    requires x'.st == w.hosts[h].st && x'.keys == w.hosts[h].keys
    ensures SharedOnlyInPairs(Put(w, h, x'))
  {
  }

  lemma PutReadCommitOk(w: World, h: HostId)
    requires Inv(w) && h in w.hosts && w.hosts[h].job.Job? && w.hosts[h].job.pc == WaitCommit
    requires CommitOk(w.hosts[h].job.id) in w.msgs
    requires Sane(At(w.hosts[h], SaveDone))
    ensures Inv(Put(w, h, At(w.hosts[h], SaveDone)))
  {
    var x, x' := w.hosts[h], At(w.hosts[h], SaveDone);
    assert Sane(x) && Depends(w, h);
    assert CommitTrue(w, CommitOk(x.job.id));
    LocalCarry(w, h, x');
    TargetMoves(w, h, x');
    ReadShared(w, h, x');
  }
}
