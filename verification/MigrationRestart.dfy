/** The in-memory flag `blocked` against the phase on disk: when they agree, when not, and what a restart makes of it. */
module MigrationRestart {
  import opened MigrationProtocol
  import opened MigrationInvariant
  import opened MigrationSteps
  import opened MigrationSafety
  import opened MigrationUse

  // ---- a restart ----

  /** A restarted instance with keys can connect exactly when its phase is not one that stops accounts. Nothing on disk
      changes, and nothing is connected. */
  lemma RestartFrees(h: HostId, x: Host)
    ensures Act(h, x, Restart).Effect? && Act(h, x, Restart).out == {}
    ensures
      var y := Act(h, x, Restart).host;
      && y.st == x.st && y.keys == x.keys && y.backup == x.backup && !y.live && !y.ever && y.op == Free
      && (Act(h, y, Connect).Effect? <==>
            && x.keys != {}
            && !(x.st.role == Source && (x.st.phase == Locked || x.st.phase == Committed))
            && !(x.st.role == Target && (x.st.phase == Preparing || x.st.phase == RollingBack)))
  {
  }

  /** What the restarted process still has to do: a target of an import that is not over goes on with it. */
  lemma RestartResumes(h: HostId, x: Host)
    ensures
      var y := Act(h, x, Restart).host;
      && (y.job == NoJob <==> !(x.st.role == Target && (x.st.phase == Preparing || x.st.phase == Imported || x.st.phase == Connecting
                                                        || x.st.phase == Committing || x.st.phase == RollingBack)))
      && (y.job.Job? ==> y.job.id == x.st.id && y.job.src == x.st.peer && y.job.attempt == 0)
  {
  }

  /** The accounts of this instance all run here. */
  predicate RunsAll(x: Host) {
    x.live && forall k :: k in x.keys ==> Runs(x, k)
  }

  /** From every reachable world: an instance with keys that is not locked, committed, preparing or rolling back runs
      them again after a restart, and one that is does not, whatever anybody does before its own next step. */
  lemma RestartRuns(ws: seq<World>, h: HostId) returns (all: seq<World>)
    requires IsRun(ws) && h in ws[|ws| - 1].hosts && ws[|ws| - 1].hosts[h].keys != {}
    ensures |all| == |ws| + 2 && ws <= all && h in all[|ws|].hosts && h in all[|ws| + 1].hosts
    ensures
      var x := ws[|ws| - 1].hosts[h];
      && Enabled(ws[|ws| - 1], h, Restart) && all[|ws|] == Step(ws[|ws| - 1], h, Restart)
      && !all[|ws|].hosts[h].live
      && ((x.st.role == NoRole
           || (x.st.role == Source && x.st.phase != Locked && x.st.phase != Committed)
           || (x.st.role == Target && x.st.phase != Preparing && x.st.phase != RollingBack))
          <==> IsRun(all) && RunsAll(all[|ws| + 1].hosts[h]) && all[|ws| + 1].hosts[h].keys == x.keys)
  {
    var w := ws[|ws| - 1];
    RestartFrees(h, w.hosts[h]);
    var w1 := Step(w, h, Restart);
    assert Next(w, w1);
    if Enabled(w1, h, Connect) {
      var w2 := Step(w1, h, Connect);
      assert Next(w1, w2);
      all := ws + [w1, w2];
    } else {
      all := ws + [w1, w1];
    }
  }

  // ---- the flag ----

  /** An abort is being asked for, or its outcome about to be saved. */
  predicate Aborting(pc: Pc) {
    pc.AskAbort? || pc.WaitAbort? || pc.SaveAborted? || pc.SaveFailed?
  }

  /** Set although the phase stops nobody: only while the flag is about to be cleared, or after a rollback. */
  predicate SetTooLong(x: Host) {
    x.op.UnlockSaved? || (x.job.Job? && x.job.pc.Unblock?) || (x.st.role == Target && (x.st.phase.Aborted? || x.st.phase.Failed?))
  }

  /** Clear although the phase stops everybody: only while it is about to be set, or on the way out of the phase. */
  predicate ClearTooLong(x: Host) {
    || x.op.Starting? || x.op.LockSaved?
    || (x.job.Job? && (x.job.pc.RollBlock? || x.job.pc.SaveCommitting? || (x.st.phase == Preparing && Aborting(x.job.pc))))
  }

  predicate FlagSane(x: Host) {
    && (x.blocked && !BlocksSessions(x.st) ==> SetTooLong(x))
    && (BlocksSessions(x.st) && !x.blocked ==> ClearTooLong(x))
    && (x.job.Job? && Aborting(x.job.pc) ==> (x.blocked <==> x.st.phase == RollingBack))
    && (x.job.Job? && x.job.pc.SaveCommitting? ==> !x.blocked)
  }

  lemma FlagGoes(h: HostId, x: Host)
    requires Sane(x) && RollSane(x) && FlagSane(x) && DoJobGo(h, x).Effect?
    ensures FlagSane(DoJobGo(h, x).host)
  {
  }

  lemma FlagWaits(h: HostId, x: Host, e: Event)
    requires Sane(x) && RollSane(x) && FlagSane(x) && Act(h, x, e).Effect? && !e.JobGo? && !e.JobCommitConflict?
    ensures FlagSane(Act(h, x, e).host)
  {
  }

  lemma FlagStep(h: HostId, x: Host, e: Event)
    requires Sane(x) && RollSane(x) && FlagSane(x) && Act(h, x, e).Effect? && !e.JobCommitConflict?
    ensures FlagSane(Act(h, x, e).host)
  {
    hide Sane, RollSane, FlagSane, DoJobGo;
    if e.JobGo? { FlagGoes(h, x); } else { FlagWaits(h, x, e); }
  }

  lemma FreshFlag(x: Host)
    requires Fresh(x)
    ensures FlagSane(x)
  {
  }

  /** In every reachable world the flag follows the phase but for these moments. */
  lemma {:induction false} FlagFollowsPhase(ws: seq<World>, i: nat, b: HostId)
    requires IsRun(ws) && i < |ws| && b in ws[i].hosts
    ensures FlagSane(ws[i].hosts[b])
  {
    hide Inv, Act, Sane, RollSane, FlagSane;
    if i == 0 {
      FreshFlag(ws[0].hosts[b]);
    } else {
      assert Next(ws[i - 1], ws[i - 1 + 1]);
      var h, e :| Enabled(ws[i - 1], h, e) && ws[i] == Step(ws[i - 1], h, e);
      StepLocal(ws[i - 1], h, e);
      FlagFollowsPhase(ws, i - 1, b);
      if h == b {
        RunKeepsInv(ws, i - 1);
        RunIsRollSane(ws, i - 1, b);
        Here(ws[i - 1], b);
        StepKeeps(ws[i - 1], h, e);
        FlagStep(b, ws[i - 1].hosts[b], e);
      }
    }
  }

  /** Nothing is under way at this instance. */
  predicate AtRest(x: Host) {
    x.op == Free && x.job == NoJob
  }

  lemma FlagDiffers(h: HostId, x: Host, e: Event)
    requires Sane(x) && RollSane(x) && FlagSane(x) && Act(h, x, e).Effect? && !e.JobCommitConflict?
    requires AtRest(Act(h, x, e).host)
    ensures
      var y := Act(h, x, e).host;
      y.blocked != BlocksSessions(y.st) <==>
        || (e.JobGo? && x.job.Job? && (x.job.pc.SaveAborted? || x.job.pc.SaveFailed?) && x.st.phase == RollingBack)
        || (AtRest(x) && x.blocked != BlocksSessions(x.st) && !e.Restart?)
  {
  }

  /** In every run, at an instance at rest: the flag comes to differ from its phase exactly when a migration that was
      rolled back is closed, and stays so until a restart or until the instance takes part in another migration. */
  lemma FlagDiffersExactly(ws: seq<World>, h: HostId, e: Event)
    requires IsRun(ws) && Enabled(ws[|ws| - 1], h, e) && AtRest(Step(ws[|ws| - 1], h, e).hosts[h])
    ensures
      var x, y := ws[|ws| - 1].hosts[h], Step(ws[|ws| - 1], h, e).hosts[h];
      y.blocked != BlocksSessions(y.st) <==>
        || (e.JobGo? && x.job.Job? && (x.job.pc.SaveAborted? || x.job.pc.SaveFailed?) && x.st.phase == RollingBack)
        || (AtRest(x) && x.blocked != BlocksSessions(x.st) && !e.Restart?)
  {
    hide Inv, Act, Sane, RollSane, FlagSane, IsRun;
    var i := |ws| - 1;
    assert IsRun(ws) ==> |ws| > 0 by { RunNotEmpty(ws); }
    RunKeepsInv(ws, i);
    RunIsRollSane(ws, i, h);
    FlagFollowsPhase(ws, i, h);
    Here(ws[i], h);
    StepKeeps(ws[i], h, e);
    FlagDiffers(h, ws[i].hosts[h], e);
  }

  lemma RunNotEmpty(ws: seq<World>)
    ensures IsRun(ws) ==> |ws| > 0
  {
  }
}
