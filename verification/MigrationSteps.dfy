/** Every step of the protocol keeps the invariant. */
module MigrationSteps {
  import opened MigrationProtocol
  import opened MigrationInvariant

  /** A request to commit finds its source committed, or locked with the snapshot it names; at most the save of
      phase committed is under way there. */
  lemma CommitNeverRefused(w: World, h: HostId, id: MigId, sha: nat)
    requires Inv(w) && h in w.hosts && CommitReq(id, h, sha) in w.msgs
    ensures
      var x := w.hosts[h];
      && x.st.role == Source && x.st.id == id && (x.op == Free || x.op == Wiped)
      && (x.st.phase == Committed || (SourceLocked(x) && x.st.manifest.value.sha == sha))
  {
    assert Sane(w.hosts[h]);
    assert CommitTrue(w, CommitReq(id, h, sha)) && MsgAddressed(w, CommitReq(id, h, sha));
    if !SourceDone(w, id) {
      var mf :| LockOk(id, mf) in w.msgs && mf.sha == sha && Keeps(w, id, mf);
      assert Depends(w, w.issued[id].target);
      assert SourceHeld(w, id, mf);
    }
  }

  /** What the invariant says of one instance. */
  lemma Here(w: World, h: HostId)
    requires Inv(w) && h in w.hosts
    ensures Sane(w.hosts[h]) && Depends(w, h)
    ensures
      var st := w.hosts[h].st;
      && (st.role == Target ==> st.id in w.issued && w.issued[st.id] == Migration(h, st.peer))
      && (st.role == Source ==> st.id in w.issued && w.issued[st.id].source == h)
    ensures w.hosts[h].op.Unlocking? && w.hosts[h].st.manifest.Some? ==> AbortSent(w, w.hosts[h].st.id)
  {
  }

  lemma Message(w: World, m: Msg)
    requires Inv(w) && m in w.msgs
    ensures MsgAddressed(w, m)
  {
  }

  lemma StartImportKeeps(w: World, h: HostId, src: HostId, id: MigId)
    requires Inv(w) && Enabled(w, h, StartImport(src, id))
    ensures Inv(Step(w, h, StartImport(src, id)))
  {
    hide Inv;
    var x := w.hosts[h];
    var x' := DoStartImport(x, src, id).host;
    Here(w, h);
    ActSane(h, x, StartImport(src, id));
    var w1 := w.(issued := w.issued[id := Migration(h, src)]);
    Issue(w, id, Migration(h, src));
    assert !SourceDone(Put(w1, h, x'), id);
    PutUnrelied(w1, h, x');
    assert Step(w, h, StartImport(src, id)) == Put(w1, h, x');
  }

  lemma HandleLockKeeps(w: World, h: HostId, id: MigId, from: HostId, refuse: bool)
    requires Inv(w) && Enabled(w, h, HandleLock(id, from, refuse))
    ensures Inv(Step(w, h, HandleLock(id, from, refuse)))
  {
    hide Inv;
    var x := w.hosts[h];
    var e := HandleLock(id, from, refuse);
    var r := DoHandleLock(x, id, from, refuse);
    Here(w, h);
    ActSane(h, x, e);
    Message(w, LockReq(id, h, from));
    if r.out != {} {
      SayLockOk(w, h);
      assert Step(w, h, e) == Say(w, LockOk(id, x.st.manifest.value));
    } else if r.host == x {
      assert Step(w, h, e) == w;
    } else {
      PutUnrelied(w, h, r.host);
      assert Step(w, h, e) == Put(w, h, r.host);
    }
  }

  lemma HandleCommitKeeps(w: World, h: HostId, id: MigId, sha: nat)
    requires Inv(w) && Enabled(w, h, HandleCommit(id, sha))
    ensures Inv(Step(w, h, HandleCommit(id, sha)))
  {
    hide Inv;
    var x := w.hosts[h];
    var e := HandleCommit(id, sha);
    var r := DoHandleCommit(x, id, sha);
    Here(w, h);
    ActSane(h, x, e);
    Message(w, CommitReq(id, h, sha));
    CommitNeverRefused(w, h, id, sha);
    if x.st.phase == Committed {
      SayKeeps(w, CommitOk(id));
      assert Step(w, h, e) == Say(w, CommitOk(id));
    } else {
      PutWipe(w, h, r.host);
      assert Step(w, h, e) == Put(w, h, r.host);
    }
  }

  lemma HandleAbortKeeps(w: World, h: HostId, id: MigId)
    requires Inv(w) && Enabled(w, h, HandleAbort(id))
    ensures Inv(Step(w, h, HandleAbort(id)))
  {
    hide Inv;
    var x := w.hosts[h];
    var r := DoHandleAbort(x, id);
    Here(w, h);
    ActSane(h, x, HandleAbort(id));
    Message(w, AbortReq(id, h));
    if r.out != {} {
      var m := if x.st.role != Source || x.st.id != id || x.st.phase == Unlocked then AbortOk(id) else AbortConflict(id);
      SayKeeps(w, m);
      assert Step(w, h, HandleAbort(id)) == Say(w, m);
    } else {
      PutUnlock(w, h, r.host);
      assert Step(w, h, HandleAbort(id)) == Put(w, h, r.host);
    }
  }

  predicate Unlocks(op: Op) {
    op.Unlocking? || op.UnlockSaved?
  }

  lemma UnlockStepKeeps(w: World, h: HostId, ok: bool, sha: nat)
    requires Inv(w) && Enabled(w, h, OpStep(ok, sha)) && Unlocks(w.hosts[h].op)
    ensures Inv(Step(w, h, OpStep(ok, sha)))
  {
    hide Inv;
    var x := w.hosts[h];
    var e := OpStep(ok, sha);
    var r := DoOpStep(x, ok, sha);
    Here(w, h);
    ActSane(h, x, e);
    match x.op
    case Unlocking(f) =>
      if x.st.manifest.Some? { PutUnlock(w, h, r.host); } else { PutUnrelied(w, h, r.host); }
      assert Step(w, h, e) == Put(w, h, r.host);
    case UnlockSaved(f) =>
      PutSimilar(w, h, r.host);
      if f {
        SayKeeps(Put(w, h, r.host), AbortOk(x.st.id));
        assert Step(w, h, e) == Say(Put(w, h, r.host), AbortOk(x.st.id));
      } else {
        assert Step(w, h, e) == Put(w, h, r.host);
      }
  }

  lemma LockStepKeeps(w: World, h: HostId, ok: bool, sha: nat)
    requires Inv(w) && Enabled(w, h, OpStep(ok, sha)) && !Unlocks(w.hosts[h].op)
    ensures Inv(Step(w, h, OpStep(ok, sha)))
  {
    hide Inv;
    var x := w.hosts[h];
    var e := OpStep(ok, sha);
    var r := DoOpStep(x, ok, sha);
    Here(w, h);
    ActSane(h, x, e);
    match x.op
    case Starting =>
      PutSimilar(w, h, r.host);
      assert Step(w, h, e) == Put(w, h, r.host);
    case LockSaved =>
      PutSimilar(w, h, r.host);
      assert Step(w, h, e) == Put(w, h, r.host);
    case LockBlocked =>
      PutUnrelied(w, h, r.host);
      assert Step(w, h, e) == Put(w, h, r.host);
    case LockStopped =>
      PutUnrelied(w, h, r.host);
      if ok {
        SayLockOk(Put(w, h, r.host), h);
        assert Step(w, h, e) == Say(Put(w, h, r.host), LockOk(x.st.id, Manifest(x.keys, sha)));
      } else {
        assert Step(w, h, e) == Put(w, h, r.host);
      }
    case Wiped =>
      PutCommitted(w, h, r.host);
      SayKeeps(Put(w, h, r.host), CommitOk(x.st.id));
      assert Step(w, h, e) == Say(Put(w, h, r.host), CommitOk(x.st.id));
  }

  lemma OpStepKeeps(w: World, h: HostId, ok: bool, sha: nat)
    requires Inv(w) && Enabled(w, h, OpStep(ok, sha))
    ensures Inv(Step(w, h, OpStep(ok, sha)))
  {
    hide Inv;
    if Unlocks(w.hosts[h].op) { UnlockStepKeeps(w, h, ok, sha); } else { LockStepKeeps(w, h, ok, sha); }
  }

  /** The step sends a request. */
  predicate Speaks(pc: Pc) {
    pc.AskLock? || pc.AskCommit? || pc.AskAbort?
  }

  /** The step writes the key tables, or ends the import. */
  predicate Writes(pc: Pc) {
    pc.Import? || pc.RollRestore? || pc.SaveDone?
  }

  lemma JobSaysKeeps(w: World, h: HostId)
    requires Inv(w) && Enabled(w, h, JobGo)
    requires Speaks(w.hosts[h].job.pc)
    ensures Inv(Step(w, h, JobGo))
  {
    hide Inv;
    var x := w.hosts[h];
    var r := DoJobGo(h, x);
    var w1 := Put(w, h, r.host);
    Here(w, h);
    ActSane(h, x, JobGo);
    PutSimilar(w, h, r.host);
    if x.job.pc == AskLock {
      SayKeeps(w1, LockReq(x.job.id, x.job.src, h));
      assert Step(w, h, JobGo) == Say(w1, LockReq(x.job.id, x.job.src, h));
    } else if x.job.pc == AskCommit {
      SayCommitReq(w1, h);
      assert Step(w, h, JobGo) == Say(w1, CommitReq(x.job.id, x.job.src, x.job.manifest.value.sha));
    } else {
      SayAbortReq(w1, h);
      assert Step(w, h, JobGo) == Say(w1, AbortReq(x.job.id, x.job.src));
    }
  }

  lemma JobMovesKeeps(w: World, h: HostId)
    requires Inv(w) && Enabled(w, h, JobGo)
    requires Writes(w.hosts[h].job.pc)
    ensures Inv(Step(w, h, JobGo))
  {
    hide Inv;
    var x := w.hosts[h];
    var r := DoJobGo(h, x);
    Here(w, h);
    ActSane(h, x, JobGo);
    if x.job.pc == Import { PutImport(w, h, r.host); }
    else if x.job.pc == RollRestore { PutRestore(w, h, r.host); }
    else { PutDone(w, h, r.host); }
    assert Step(w, h, JobGo) == Put(w, h, r.host);
  }

  lemma PrepareIsSimilar(h: HostId, x: Host)
    requires Sane(x) && DoJobGo(h, x).Effect?
    requires x.job.pc.SaveManifest? || x.job.pc.Download? || x.job.pc.FailBefore? || x.job.pc.SaveAborted? || x.job.pc.SaveFailed?
    ensures Similar(x, DoJobGo(h, x).host) && DoJobGo(h, x).out == {}
  {
  }

  lemma RollIsSimilar(h: HostId, x: Host)
    requires Sane(x) && DoJobGo(h, x).Effect? && RollsBack(x.job.pc) && !x.job.pc.RollRestore?
    ensures Similar(x, DoJobGo(h, x).host) && DoJobGo(h, x).out == {}
  {
  }

  lemma ConfirmIsSimilar(h: HostId, x: Host)
    requires Sane(x) && DoJobGo(h, x).Effect?
    requires x.job.pc.Unblock? || x.job.pc.SaveConnecting? || x.job.pc.WaitConnect? || x.job.pc.SaveCommitting? || x.job.pc.SaveRefused?
    ensures Similar(x, DoJobGo(h, x).host) && DoJobGo(h, x).out == {}
  {
  }

  lemma NoStepWhileWaiting(h: HostId, x: Host)
    requires DoJobGo(h, x).Effect?
    ensures x.job.Job? && !x.job.pc.WaitLock? && !x.job.pc.WaitCommit? && !x.job.pc.WaitAbort?
  {
  }

  lemma JobGoesOnSimilar(h: HostId, x: Host)
    requires Sane(x) && DoJobGo(h, x).Effect?
    requires !Speaks(x.job.pc) && !Writes(x.job.pc)
    ensures Similar(x, DoJobGo(h, x).host) && DoJobGo(h, x).out == {}
  {
    hide DoJobGo, Sane, Similar;
    NoStepWhileWaiting(h, x);
    if RollsBack(x.job.pc) { RollIsSimilar(h, x); }
    else if PreparesOrAborts(x.job.pc) { PrepareIsSimilar(h, x); }
    else { ConfirmIsSimilar(h, x); }
  }

  lemma JobGoKeeps(w: World, h: HostId)
    requires Inv(w) && Enabled(w, h, JobGo)
    ensures Inv(Step(w, h, JobGo))
  {
    hide Inv;
    var x := w.hosts[h];
    if Speaks(x.job.pc) {
      JobSaysKeeps(w, h);
    } else if Writes(x.job.pc) {
      JobMovesKeeps(w, h);
    } else {
      JobQuietKeeps(w, h);
    }
  }

  lemma JobQuietKeeps(w: World, h: HostId)
    requires Inv(w) && Enabled(w, h, JobGo)
    requires !Speaks(w.hosts[h].job.pc) && !Writes(w.hosts[h].job.pc)
    ensures Inv(Step(w, h, JobGo))
  {
    hide Inv, DoJobGo, Sane, Similar;
    var x := w.hosts[h];
    Here(w, h);
    ActSane(h, x, JobGo);
    JobGoesOnSimilar(h, x);
    PutSimilar(w, h, DoJobGo(h, x).host);
    assert Step(w, h, JobGo) == Put(w, h, DoJobGo(h, x).host);
  }

  lemma FailIsSimilar(x: Host)
    requires Sane(x) && DoJobFail(x).Effect?
    ensures Similar(x, DoJobFail(x).host) && DoJobFail(x).out == {}
  {
  }

  lemma JobFailKeeps(w: World, h: HostId)
    requires Inv(w) && Enabled(w, h, JobFail)
    ensures Inv(Step(w, h, JobFail))
  {
    hide Inv, Sane, Similar, DoJobFail;
    var x := w.hosts[h];
    Here(w, h);
    ActSane(h, x, JobFail);
    FailIsSimilar(x);
    PutSimilar(w, h, DoJobFail(x).host);
    assert Step(w, h, JobFail) == Put(w, h, DoJobFail(x).host);
  }

  lemma AbortReplyIsSimilar(h: HostId, x: Host, e: Event)
    requires Sane(x) && Act(h, x, e).Effect? && (e.JobAbortOk? || e.JobAbortConflict?)
    ensures Similar(x, Act(h, x, e).host) && Act(h, x, e).out == {}
  {
  }

  lemma AbortReplyKeeps(w: World, h: HostId, e: Event)
    requires Inv(w) && Enabled(w, h, e) && (e.JobAbortOk? || e.JobAbortConflict?)
    ensures Inv(Step(w, h, e))
  {
    hide Inv, Act, Sane, Similar;
    var x := w.hosts[h];
    Here(w, h);
    ActSane(h, x, e);
    AbortReplyIsSimilar(h, x, e);
    PutSimilar(w, h, Act(h, x, e).host);
    assert Step(w, h, e) == Put(w, h, Act(h, x, e).host);
  }

  lemma JobReplyKeeps(w: World, h: HostId, e: Event)
    requires Inv(w) && Enabled(w, h, e)
    requires e.JobLockOk? || e.JobCommitOk? || e.JobCommitConflict? || e.JobAbortOk? || e.JobAbortConflict?
    ensures !e.JobCommitConflict? && Inv(Step(w, h, e))
  {
    hide Inv;
    var x := w.hosts[h];
    if e.JobCommitConflict? {
      Message(w, CommitConflict(x.job.id));
      assert false;
    } else {
      var x' := Act(h, x, e).host;
      Here(w, h);
      if e.JobLockOk? { PutReadLockOk(w, h, e.manifest); }
      else if e.JobCommitOk? { PutReadCommitOk(w, h); }
      else { AbortReplyKeeps(w, h, e); }
      assert Step(w, h, e) == Put(w, h, x');
    }
  }

  lemma EnvironmentKeeps(w: World, h: HostId, e: Event)
    requires Inv(w) && Enabled(w, h, e)
    requires e.Connect? || e.Disconnect? || e.LoseBackup? || e.Restart?
    ensures Inv(Step(w, h, e))
  {
    hide Inv;
    var x := w.hosts[h];
    var x' := Act(h, x, e).host;
    Here(w, h);
    ActSane(h, x, e);
    PutSimilar(w, h, x');
    assert Step(w, h, e) == Put(w, h, x');
  }

  lemma StepKeeps(w: World, h: HostId, e: Event)
    requires Inv(w) && Enabled(w, h, e)
    ensures Inv(Step(w, h, e)) && !e.JobCommitConflict?
  {
    hide Inv, Act;
    match e
    case StartImport(src, id) => StartImportKeeps(w, h, src, id);
    case HandleLock(id, from, refuse) => HandleLockKeeps(w, h, id, from, refuse);
    case HandleCommit(id, sha) => HandleCommitKeeps(w, h, id, sha);
    case HandleAbort(id) => HandleAbortKeeps(w, h, id);
    case OpStep(ok, sha) => OpStepKeeps(w, h, ok, sha);
    case JobGo => JobGoKeeps(w, h);
    case JobFail => JobFailKeeps(w, h);
    case Connect => EnvironmentKeeps(w, h, e);
    case Disconnect => EnvironmentKeeps(w, h, e);
    case LoseBackup => EnvironmentKeeps(w, h, e);
    case Restart => EnvironmentKeeps(w, h, e);
    case _ => JobReplyKeeps(w, h, e);
  }
}
