/** The operations of one instance, statement by statement, traced against the step machine.

    Each method performs the writes of its Go counterpart in their order. `Traced` says that
    the writes so far are exactly the steps `es` of the machine from `start`, so whatever holds
    of every run of the machine holds of these operations, interrupted anywhere. */
module MigrationCode {
  import opened MigrationProtocol
  import opened MigrationUse

  datatype Reply = Accepted | Refused | Lost

  /** The first answer that arrives decides. */
  function Verdict(answers: seq<Reply>): Reply {
    if answers == [] then Lost
    else if answers[0] == Lost then Verdict(answers[1..])
    else answers[0]
  }

  lemma VerdictOfNone()
    ensures Verdict([]) == Lost
  {
  }

  lemma LostGoesOn(answers: seq<Reply>, i: nat)
    requires i < |answers|
    ensures Verdict(answers[i..]) == if answers[i] == Lost then Verdict(answers[i + 1..]) else answers[i]
  {
  }

  lemma LocalSnoc(h: HostId, x: Host, es: seq<Event>, e: Event)
    requires Local(h, x, es).Effect? && Act(h, Local(h, x, es).host, e).Effect?
    ensures
      var y, z := Local(h, x, es), Act(h, Local(h, x, es).host, e);
      Local(h, x, es + [e]) == Effect(z.host, y.out + z.out)
    decreases |es|
  {
    if es == [] {
      assert [e][1..] == [];
    } else {
      var r := Act(h, x, es[0]);
      LocalSnoc(h, r.host, es[1..], e);
      assert (es + [e])[1..] == es[1..] + [e];
    }
  }

  class Instance {
    const me: HostId
    var x: Host
    ghost var start: Host
    ghost var es: seq<Event>
    ghost var sent: set<Msg>

    ghost predicate Traced()
      reads this
    {
      Local(me, start, es) == Effect(x, sent)
    }

    constructor (me: HostId, x: Host)
      ensures Traced() && this.me == me && this.x == x && start == x && es == [] && sent == {}
    {
      this.me, this.x, start, es, sent := me, x, x, [], {};
    }

    /** One write: from the current state to `new`, which is the step e of the machine. */
    method Write(next: Host, ghost e: Event)
      requires Traced() && Act(me, x, e).Effect? && Act(me, x, e).host == next
      modifies this
      ensures Traced() && start == old(start) && x == next
      ensures es == old(es) + [e] && sent == old(sent) + Act(me, old(x), e).out
    {
      LocalSnoc(me, start, es, e);
      es := es + [e];
      sent := sent + Act(me, x, e).out;
      x := next;
    }

    /** unlockSourceLocked: state, then accounts. The caller holds opMu. */
    method UnlockSourceLocked(forAbort: bool)
      requires Traced() && x.op == Unlocking(forAbort)
      modifies this
      ensures Traced() && start == old(start) && es == old(es) + [OpStep(true, 0), OpStep(true, 0)]
      ensures x == old(x).(st := old(x).st.(phase := Unlocked), blocked := false, op := Free)
      ensures sent == old(sent) + if forAbort then {AbortOk(x.st.id)} else {}
    {
      Write(x.(st := x.st.(phase := Unlocked), op := UnlockSaved(forAbort)), OpStep(true, 0));
      Write(x.(blocked := false, op := Free), OpStep(true, 0));
    }

    /** lockSource: nothing is touched before the lock is saved, and the snapshot is answered only
        once every connection is down. `busy` stands for active calls or recordings. */
    method LockSource(id: MigId, target: HostId, busy: bool, paused: bool, copied: bool, sha: nat)
        returns (r: Option<Manifest>)
      requires Traced() && x.op == Free
      modifies this
      ensures Traced() && start == old(start) && x.op == Free
      ensures |es| > |old(es)| && es[..|old(es)|] == old(es) && es[|old(es)|] == HandleLock(id, target, busy)
      ensures r.Some? ==>
        LockOk(id, r.value) in sent && x.st.role == Source && x.st.phase == Locked && x.st.id == id && x.st.manifest == r
      ensures r.Some? && x != old(x) ==> x.blocked && !x.live && r.value == Manifest(x.keys, sha)
      ensures r == None ==> x == old(x) || (x.st.phase == Unlocked && !x.blocked)
      ensures x.keys == old(x).keys && x.job == old(x).job
    {
      if x.st.role == Source && x.st.phase == Locked && x.st.id == id && x.st.manifest.Some? {
        Write(x, HandleLock(id, target, busy));
        return x.st.manifest;
      }
      if x.st.role == Source && x.st.phase == Locked {
        Write(x, HandleLock(id, target, busy));
        return None;
      }
      if x.st.role == Source && x.st.phase == Committed {
        Write(x, HandleLock(id, target, busy));
        return None;
      }
      if TargetBusy(x.st) || busy {
        Write(x, HandleLock(id, target, busy));
        return None;
      }
      Write(x.(st := State(Source, id, Locked, target, None), op := LockSaved), HandleLock(id, target, busy));
      r := StopAndSnapshot(paused, copied, sha);
    }

    /** Pausing or copying failed: lockSource undoes its own lock. */
    method LockFailed()
      requires Traced() && (x.op == LockBlocked || x.op == LockStopped)
      modifies this
      ensures Traced() && start == old(start) && old(es) <= es
      ensures x == old(x).(st := old(x).st.(phase := Unlocked), blocked := false, op := Free)
    {
      hide Local;
      Write(x.(op := Unlocking(false)), OpStep(false, 0));
      UnlockSourceLocked(false);
    }

    /** The part of lockSource after phase locked was saved. */
    method StopAndSnapshot(paused: bool, copied: bool, sha: nat) returns (r: Option<Manifest>)
      requires Traced() && x.op == LockSaved
      modifies this
      ensures Traced() && start == old(start) && x.op == Free && x.keys == old(x).keys && x.job == old(x).job
      ensures old(es) <= es
      ensures r.Some? <==> paused && copied
      ensures r.Some? ==>
        && r.value == Manifest(x.keys, sha) && LockOk(x.st.id, r.value) in sent
        && x.st == old(x).st.(manifest := r) && x.blocked && !x.live
      ensures r == None ==> x.st == old(x).st.(phase := Unlocked) && !x.blocked
    {
      hide Local;
      Write(x.(blocked := true, op := LockBlocked), OpStep(true, 0));

      if !paused {
        LockFailed();
        return None;
      }
      Write(x.(live := false, op := LockStopped), OpStep(true, 0));

      if !copied {
        LockFailed();
        return None;
      }
      var mf := Manifest(x.keys, sha);
      Write(x.(st := x.st.(manifest := Some(mf)), op := Free), OpStep(true, sha));
      return Some(mf);
    }

    /** commitSource: the keys go before the phase is saved. */
    method CommitSource(id: MigId, sha: nat) returns (r: Reply)
      requires Traced() && x.op == Free
      modifies this
      ensures Traced() && start == old(start) && x.op == Free
      ensures |es| > |old(es)| && es[..|old(es)|] == old(es) && es[|old(es)|] == HandleCommit(id, sha)
      ensures r == Accepted <==> (old(x).st.role == Source && old(x).st.id == id &&
        (old(x).st.phase == Committed ||
         (old(x).st.phase == Locked && old(x).st.manifest.Some? && old(x).st.manifest.value.sha == sha)))
      ensures r == Accepted ==> x.st == old(x).st.(phase := Committed) && (old(x).st.phase == Locked ==> x.keys == {} && !x.live)
      ensures r != Accepted ==> r == Refused && x == old(x)
      ensures if r == Accepted then CommitOk(id) in sent else CommitConflict(id) in sent
    {
      if x.st.role == Source && x.st.phase == Committed && x.st.id == id {
        Write(x, HandleCommit(id, sha));
        return Accepted;
      }
      if x.st.role != Source || x.st.id != id || x.st.phase != Locked
         || x.st.manifest == None || x.st.manifest.value.sha != sha {
        Write(x, HandleCommit(id, sha));
        return Refused;
      }
      Write(x.(keys := {}, live := false, ever := false, op := Wiped), HandleCommit(id, sha));
      Write(x.(st := x.st.(phase := Committed), op := Free), OpStep(true, 0));
      return Accepted;
    }

    method AbortSource(id: MigId) returns (r: Reply)
      requires Traced() && x.op == Free
      modifies this
      ensures Traced() && start == old(start) && x.op == Free
      ensures |es| > |old(es)| && es[..|old(es)|] == old(es) && es[|old(es)|] == HandleAbort(id)
      ensures r == Refused <==> old(x).st.role == Source && old(x).st.id == id && old(x).st.phase == Committed
      ensures r == Accepted || r == Refused
      ensures old(x).st.role == Source && old(x).st.id == id && old(x).st.phase == Locked ==>
        x.st == old(x).st.(phase := Unlocked) && !x.blocked
      ensures x.keys == old(x).keys
      ensures if r == Accepted then AbortOk(id) in sent else AbortConflict(id) in sent
    {
      if x.st.role != Source || x.st.id != id || x.st.phase == Unlocked {
        Write(x, HandleAbort(id));
        return Accepted;
      }
      if x.st.phase == Committed {
        Write(x, HandleAbort(id));
        return Refused;
      }
      Write(x.(op := Unlocking(true)), HandleAbort(id));
      UnlockSourceLocked(true);
      return Accepted;
    }

    // ---- the job of a target ----

    /** commitLoop, with the answers A gives to the successive requests: repeated until A answers. */
    method CommitLoop(answers: seq<Reply>)
      requires Traced() && x.job.Job? && x.job.pc == SaveCommitting && x.job.manifest.Some?
      modifies this
      ensures Traced() && start == old(start)
      ensures
        var v := Verdict(answers);
        && x.st == old(x).st.(phase := match v case Accepted => Done case Refused => Failed case Lost => Committing)
        && x == old(x).(st := x.st, backup := if v == Accepted then None else old(x).backup, job := x.job)
        && (v != Lost ==> x.job == NoJob)
      ensures |answers| > 0 ==> CommitReq(old(x).job.id, old(x).job.src, old(x).job.manifest.value.sha) in sent
    {
      hide Local, Verdict;
      VerdictOfNone();
      assert answers[0..] == answers && answers[|answers|..] == [];
      Write(x.(st := x.st.(phase := Committing), job := x.job.(pc := AskCommit)), JobGo);
      var i := 0;
      while i < |answers|
        invariant 0 <= i <= |answers|
        invariant Traced() && start == old(start)
        invariant x == old(x).(st := old(x).st.(phase := Committing), job := old(x).job.(pc := AskCommit))
        invariant Verdict(answers) == Verdict(answers[i..])
        invariant i > 0 ==> CommitReq(x.job.id, x.job.src, x.job.manifest.value.sha) in sent
      {
        Write(x.(job := x.job.(pc := WaitCommit)), JobGo);
        LostGoesOn(answers, i);
        match answers[i]
        case Accepted =>
          ConfirmAccepted();
          return;
        case Refused =>
          ConfirmRefused();
          return;
        case Lost =>
          Write(x.(job := x.job.(pc := AskCommit)), JobFail);
        i := i + 1;
      }
    }

    method ConfirmAccepted()
      requires Traced() && x.job.Job? && x.job.pc == WaitCommit
      modifies this
      ensures Traced() && start == old(start) && sent == old(sent)
      ensures x == old(x).(st := old(x).st.(phase := Done), backup := None, job := NoJob)
    {
      hide Local;
      Write(x.(job := x.job.(pc := SaveDone)), JobCommitOk);
      Write(x.(st := x.st.(phase := Done), backup := None, job := NoJob), JobGo);
    }

    method ConfirmRefused()
      requires Traced() && x.job.Job? && x.job.pc == WaitCommit
      modifies this
      ensures Traced() && start == old(start) && sent == old(sent)
      ensures x == old(x).(st := old(x).st.(phase := Failed), job := NoJob)
    {
      hide Local;
      Write(x.(job := x.job.(pc := SaveRefused)), JobCommitConflict);
      Write(x.(st := x.st.(phase := Failed), job := NoJob), JobGo);
    }

    /** One request to abort, and what the job makes of its answer. */
    method AbortOnce(answer: Reply)
      requires Traced() && x.job.Job? && x.job.pc == AskAbort && x.job.attempt < ABORT_ATTEMPTS
      modifies this
      ensures Traced() && start == old(start) && sent == old(sent) + {AbortReq(old(x).job.id, old(x).job.src)}
      ensures answer == Accepted ==> x == old(x).(job := old(x).job.(pc := SaveAborted))
      ensures answer == Refused || (answer == Lost && old(x).job.attempt + 1 == ABORT_ATTEMPTS) ==>
        x == old(x).(job := old(x).job.(pc := SaveFailed))
      ensures answer == Lost && old(x).job.attempt + 1 < ABORT_ATTEMPTS ==>
        x == old(x).(job := old(x).job.(attempt := old(x).job.attempt + 1))
    {
      hide Local;
      Write(x.(job := x.job.(pc := WaitAbort)), JobGo);
      match answer
      case Accepted => Write(x.(job := x.job.(pc := SaveAborted)), JobAbortOk);
      case Refused => Write(x.(job := x.job.(pc := SaveFailed)), JobAbortConflict);
      case Lost =>
        if x.job.attempt + 1 < ABORT_ATTEMPTS {
          Write(x.(job := x.job.(pc := AskAbort, attempt := x.job.attempt + 1)), JobFail);
        } else {
          Write(x.(job := x.job.(pc := SaveFailed)), JobFail);
        }
    }

    /** abortWithRetry: at most six requests; an answer ends the loop. */
    method AbortWithRetry(answers: seq<Reply>) returns (confirmed: bool)
      requires Traced() && x.job.Job? && x.job.pc == AskAbort && x.job.attempt == 0
      requires |answers| == 6
      modifies this
      ensures Traced() && start == old(start)
      ensures confirmed <==> Verdict(answers) == Accepted
      ensures x.job.Job? && x.job.pc == (if confirmed then SaveAborted else SaveFailed)
      ensures x == old(x).(job := x.job) && sent == old(sent) + {AbortReq(old(x).job.id, old(x).job.src)}
    {
      hide Local, Verdict, Act, Traced;
      VerdictOfNone();
      assert answers[0..] == answers && answers[ABORT_ATTEMPTS..] == [];
      var i := 0;
      while true
        invariant 0 <= i < ABORT_ATTEMPTS
        invariant Traced() && start == old(start) && x == old(x).(job := old(x).job.(attempt := i))
        invariant sent == old(sent) + if i == 0 then {} else {AbortReq(old(x).job.id, old(x).job.src)}
        invariant Verdict(answers) == Verdict(answers[i..])
        decreases ABORT_ATTEMPTS - i
      {
        AbortOnce(answers[i]);
        LostGoesOn(answers, i);
        i := i + 1;
        if answers[i - 1] == Accepted { return true; }
        if answers[i - 1] == Refused || i == ABORT_ATTEMPTS { return false; }
      }
    }

    /** finishAborted: the job is closed whether or not A answered. */
    method FinishAborted(answers: seq<Reply>)
      requires Traced() && x.job.Job? && x.job.pc == AskAbort && x.job.attempt == 0
      requires |answers| == 6
      modifies this
      ensures Traced() && start == old(start)
      ensures x == old(x).(st := old(x).st.(phase := if Verdict(answers) == Accepted then Aborted else Failed), backup := None, job := NoJob)
      ensures AbortReq(old(x).job.id, old(x).job.src) in sent
    {
      hide Local;
      var confirmed := AbortWithRetry(answers);
      Write(x.(st := x.st.(phase := if confirmed then Aborted else Failed), backup := None, job := NoJob), JobGo);
    }

    /** Another account connects here, unless it is held back or there is none. */
    method Connects()
      requires Traced() && !x.blocked && x.keys != {}
      modifies this
      ensures Traced() && start == old(start) && sent == old(sent)
      ensures x == old(x).(live := true, ever := true)
    {
      Write(x.(live := true, ever := true), Connect);
    }

    /** The first part of rollback: phase saved, accounts held back and stopped. `late` stands for an account that
        connects between the two. */
    method StopForRollback(late: bool)
      requires Traced() && x.job.Job? && x.job.pc == SaveRolling
      modifies this
      ensures Traced() && start == old(start) && sent == old(sent)
      ensures x == old(x).(st := old(x).st.(phase := RollingBack), blocked := true, live := false,
                                   ever := old(x).ever || ConnectsLate(old(x), late),
                                   job := old(x).job.(pc := RollCheck))
    {
      hide Local;
      Write(x.(st := x.st.(phase := RollingBack), job := x.job.(pc := RollBlock)), JobGo);
      if late && !x.blocked && x.keys != {} { Connects(); }
      Write(x.(blocked := true, job := x.job.(pc := RollStop)), JobGo);
      Write(x.(live := false, job := x.job.(pc := RollCheck)), JobGo);
    }

    /** An account connected at the last moment: the clone stays. */
    method KeepClone(answers: seq<Reply>)
      requires Traced() && x.job.Job? && x.job.pc == RollCheck && x.ever && x.st.manifest.Some?
      modifies this
      ensures Traced() && start == old(start) && x.keys == old(x).keys && !x.blocked
      ensures x.st.phase == (match Verdict(answers) case Accepted => Done case Refused => Failed case Lost => Committing)
    {
      hide Local;
      Write(x.(job := x.job.(pc := RollKeep)), JobGo);
      Write(x.(blocked := false, job := x.job.(pc := SaveCommitting, manifest := x.st.manifest)), JobGo);
      CommitLoop(answers);
    }

    /** rollback: delete the clone before A is released, unless an account connected after all. */
    method Rollback(restored: bool, late: bool, aborts: seq<Reply>, commits: seq<Reply>)
      requires Traced() && x.job.Job? && x.job.pc == SaveRolling && x.job.attempt == 0 && x.st.manifest.Some?
      requires |aborts| == 6
      requires x.backup.Some? ==> x.backup.value == {}
      modifies this
      ensures Traced() && start == old(start)
      ensures old(x).ever || ConnectsLate(old(x), late) ==>
        && x.keys == old(x).keys && !x.blocked
        && x.st.phase == (match Verdict(commits) case Accepted => Done case Refused => Failed case Lost => Committing)
      ensures !old(x).ever && !ConnectsLate(old(x), late) && restored ==>
        x.keys == {} && x.st.phase == (if Verdict(aborts) == Accepted then Aborted else Failed) && x.job == NoJob
      ensures !old(x).ever && !ConnectsLate(old(x), late) && !restored ==>
        x.keys == old(x).keys && x.st.phase == RollingBack && x.blocked && x.job == NoJob && sent == old(sent)
    {
      hide Local, Verdict;
      StopForRollback(late);
      if x.ever {
        KeepClone(commits);
        return;
      }
      Write(x.(job := x.job.(pc := RollRestore)), JobGo);
      if !restored {
        Write(x.(job := NoJob), JobFail);
        return;
      }
      Write(x.(keys := if x.backup.Some? then x.backup.value else {}, live := false, ever := false, job := x.job.(pc := AskAbort)), JobGo);
      FinishAborted(aborts);
    }

    // ---- an import from its start ----

    /** startImport: refused while anything is under way here or there are accounts or calls. */
    method StartImport(src: HostId, id: MigId, calls: bool) returns (ok: bool)
      requires Traced() && x.op == Free
      modifies this
      ensures Traced() && start == old(start) && sent == old(sent)
      ensures ok <==>
        && old(x).job == NoJob && old(x).keys == {} && !calls
        && (old(x).st.role == Target ==>
              old(x).st.phase == Done || old(x).st.phase == Aborted || old(x).st.phase == Failed || old(x).st.phase == Idle)
        && !(old(x).st.role == Source && (old(x).st.phase == Locked || old(x).st.phase == Committed))
      ensures !ok ==> x == old(x) && es == old(es)
      ensures ok ==> x == old(x).(st := State(Target, id, Preparing, src, None), blocked := true, job := Job(AskLock, id, src, None, 0))
    {
      if x.job != NoJob || TargetBusy(x.st) { return false; }
      if x.st.role == Source && BlocksSessions(x.st) { return false; }
      if x.keys != {} { return false; }
      if calls { return false; }
      Write(x.(st := State(Target, id, Preparing, src, None), op := Starting), Event.StartImport(src, id));
      Write(x.(blocked := true, op := Free, job := Job(AskLock, id, src, None, 0)), OpStep(true, 0));
      return true;
    }

    /** fetchAndVerify: lock the source, save what it answers, download and check the snapshot. `lock` is the answer, if it
        arrives and is valid. */
    method FetchAndVerify(lock: Option<Manifest>, saved: bool, downloaded: bool) returns (ok: bool)
      requires Traced() && x.job.Job? && x.job.pc == AskLock
      modifies this
      ensures Traced() && start == old(start) && sent == old(sent) + {LockReq(old(x).job.id, old(x).job.src, me)}
      ensures ok <==> lock.Some? && saved && downloaded
      ensures ok ==> x == old(x).(st := old(x).st.(manifest := lock), job := old(x).job.(pc := Import, manifest := lock))
      ensures !ok ==>
        && x.job.Job? && x.job.pc == FailBefore && x.job == old(x).job.(pc := FailBefore, manifest := x.job.manifest)
        && x == old(x).(st := old(x).st.(manifest := x.st.manifest), job := x.job)
    {
      hide Local;
      Write(x.(job := x.job.(pc := WaitLock)), JobGo);
      assert sent == old(sent) + {LockReq(old(x).job.id, old(x).job.src, me)};
      if lock == None {
        Write(x.(job := x.job.(pc := FailBefore)), JobFail);
        return false;
      }
      Write(x.(job := x.job.(pc := SaveManifest, manifest := lock)), JobLockOk(lock.value));
      if !saved {
        Write(x.(job := x.job.(pc := FailBefore)), JobFail);
        return false;
      }
      Write(x.(st := x.st.(manifest := lock), job := x.job.(pc := Download)), JobGo);
      if !downloaded {
        Write(x.(job := x.job.(pc := FailBefore)), JobFail);
        return false;
      }
      Write(x.(job := x.job.(pc := Import)), JobGo);
      return true;
    }

    /** importClone: the accounts of the snapshot and phase imported in one transaction, and only then may they connect.
        On failure nothing has changed. */
    method ImportClone(imported: bool) returns (ok: bool)
      requires Traced() && x.job.Job? && x.job.pc == Import && x.job.manifest.Some?
      modifies this
      ensures Traced() && start == old(start) && sent == old(sent) && ok == imported
      ensures !ok ==> x == old(x).(job := old(x).job.(pc := FailBefore))
      ensures ok ==>
        x == old(x).(keys := old(x).job.manifest.value.keys, backup := Some(old(x).keys), st := old(x).st.(phase := Imported),
                     blocked := false, live := false, ever := false, job := old(x).job.(pc := SaveConnecting))
    {
      hide Local;
      if !imported {
        Write(x.(job := x.job.(pc := FailBefore)), JobFail);
        return false;
      }
      Write(x.(keys := x.job.manifest.value.keys, backup := Some(x.keys), live := false, ever := false,
               st := x.st.(phase := Imported), job := x.job.(pc := Unblock)), JobGo);
      Write(x.(blocked := false, job := x.job.(pc := SaveConnecting)), JobGo);
      return true;
    }

    /** afterImport: wait for an account to connect, and confirm exactly if one did or there is none. `connects` tells whether
        one does while the job waits. */
    method AfterImport(connects: bool, restored: bool, late: bool, aborts: seq<Reply>, commits: seq<Reply>)
      requires Traced() && x.job.Job? && x.job.pc == SaveConnecting && x.job.attempt == 0
      requires x.job.manifest.Some? && x.st.manifest.Some? && x.backup.Some? && x.backup.value == {} && !x.blocked && !x.ever
      requires |aborts| == 6
      modifies this
      ensures Traced() && start == old(start)
      ensures
        var used := old(x).keys == {} || connects || late;
        && (used ==>
              && x.keys == old(x).keys
              && x.st.phase == (match Verdict(commits) case Accepted => Done case Refused => Failed case Lost => Committing))
        && (!used && restored ==> x.keys == {} && x.st.phase == (if Verdict(aborts) == Accepted then Aborted else Failed))
        && (!used && !restored ==> x.keys == old(x).keys && x.st.phase == RollingBack && x.blocked)
    {
      hide Local, Verdict;
      Write(x.(st := x.st.(phase := Connecting), job := x.job.(pc := WaitConnect)), JobGo);
      if connects && x.keys != {} { Connects(); }
      if x.keys != {} && !x.ever {
        Write(x.(job := x.job.(pc := SaveRolling)), JobGo);
        Rollback(restored, late, aborts, commits);
        return;
      }
      Write(x.(job := x.job.(pc := SaveCommitting)), JobGo);
      CommitLoop(commits);
    }

    /** failBeforeImport: this instance was not touched; it is freed, and then the source. */
    method FailBeforeImport(aborts: seq<Reply>)
      requires Traced() && x.job.Job? && x.job.pc == FailBefore && x.job.attempt == 0
      requires |aborts| == 6
      modifies this
      ensures Traced() && start == old(start) && x.keys == old(x).keys && !x.blocked && x.job == NoJob
      ensures x.st == old(x).st.(phase := if Verdict(aborts) == Accepted then Aborted else Failed)
      ensures AbortReq(old(x).job.id, old(x).job.src) in sent
    {
      hide Local, Verdict;
      Write(x.(blocked := false, job := x.job.(pc := AskAbort)), JobGo);
      FinishAborted(aborts);
    }

    /** runImport, from the first request to the end of the migration here. */
    method RunImport(lock: Option<Manifest>, saved: bool, downloaded: bool, imported: bool, connects: bool, restored: bool,
                     late: bool, aborts: seq<Reply>, commits: seq<Reply>)
      requires Traced() && x.job.Job? && x.job.pc == AskLock && x.job.attempt == 0 && x.keys == {}
      requires |aborts| == 6
      modifies this
      ensures Traced() && start == old(start)
      ensures !(lock.Some? && saved && downloaded && imported) ==>
        x.keys == {} && !x.blocked && x.job == NoJob && x.st.phase == (if Verdict(aborts) == Accepted then Aborted else Failed)
      ensures lock.Some? && saved && downloaded && imported ==>
        var used := lock.value.keys == {} || connects || late;
        && (used ==>
              && x.keys == lock.value.keys
              && x.st.phase == (match Verdict(commits) case Accepted => Done case Refused => Failed case Lost => Committing))
        && (!used && restored ==> x.keys == {} && x.st.phase == (if Verdict(aborts) == Accepted then Aborted else Failed))
        && (!used && !restored ==> x.keys == lock.value.keys && x.st.phase == RollingBack && x.blocked)
    {
      hide Local, Verdict;
      var ok := FetchAndVerify(lock, saved, downloaded);
      if !ok {
        FailBeforeImport(aborts);
        return;
      }
      ok := ImportClone(imported);
      if !ok {
        FailBeforeImport(aborts);
        return;
      }
      AfterImport(connects, restored, late, aborts, commits);
    }

    // ---- boot ----

    /** boot: the flag is set only for a phase that stops accounts; nothing of the old process is left. */
    method Boot()
      requires Traced()
      modifies this
      ensures Traced() && start == old(start) && sent == old(sent) && es == old(es) + [Restart]
      ensures x.st == old(x).st && x.keys == old(x).keys && x.backup == old(x).backup && !x.live && !x.ever && x.op == Free
      ensures x.blocked <==>
        || (x.st.role == Source && (x.st.phase == Locked || x.st.phase == Committed))
        || (x.st.role == Target && (x.st.phase == Preparing || x.st.phase == RollingBack))
      ensures x.job.Job? <==> x.st.role == Target && (x.st.phase == Preparing || x.st.phase == Imported || x.st.phase == Connecting
                                                      || x.st.phase == Committing || x.st.phase == RollingBack)
      ensures x.job == ResumedJob(x.st)
    {
      var held := false;
      if BlocksSessions(x.st) { held := true; }
      Write(x.(blocked := held, live := false, ever := false, op := Free, job := ResumedJob(x.st)), Restart);
    }

    /** resumeJobs: an import that was interrupted goes on where a restart leaves it. */
    method ResumeJobs(restored: bool, late: bool, aborts: seq<Reply>, commits: seq<Reply>)
      requires Traced() && x.job == ResumedJob(x.st) && |aborts| == 6
      requires x.st.role == Target && TargetBusy(x.st) && x.st.phase != Preparing ==> x.st.manifest.Some?
      requires x.backup.Some? ==> x.backup.value == {}
      requires x.blocked == BlocksSessions(x.st) && !x.ever
      modifies this
      ensures Traced() && start == old(start)
      ensures old(x).st.role != Target ==> x == old(x)
      ensures old(x).st.role == Target ==> match old(x).st.phase
        case Preparing => x.keys == old(x).keys && !x.blocked && x.st.phase == (if Verdict(aborts) == Accepted then Aborted else Failed)
        case Imported | Connecting | Committing =>
          x.keys == old(x).keys && x.st.phase == (match Verdict(commits) case Accepted => Done case Refused => Failed case Lost => Committing)
        case RollingBack =>
          if restored then x.keys == {} && x.st.phase == (if Verdict(aborts) == Accepted then Aborted else Failed)
          else x.keys == old(x).keys && x.st.phase == RollingBack && x.blocked
        case _ => x == old(x)
    {
      hide Local, Verdict;
      if x.st.role != Target { return; }
      match x.st.phase
      case Preparing => FailBeforeImport(aborts);
      case Imported | Connecting | Committing => CommitLoop(commits);
      case RollingBack => Rollback(restored, late, aborts, commits);
      case _ => return;
    }
  }

  /** An account that tries to connect after phase rolling_back was saved and before `blocked` is set. */
  predicate ConnectsLate(x: Host, late: bool) {
    late && !x.blocked && x.keys != {}
  }
}
