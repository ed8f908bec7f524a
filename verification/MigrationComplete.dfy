/** A migration that nothing disturbs moves the accounts. */
module MigrationComplete {
  import opened MigrationProtocol
  import opened MigrationInvariant
  import opened MigrationSteps
  import opened MigrationUse

  /** The imported accounts are let go, one connects, and the target asks its source to commit. */
  lemma TargetConfirms(b: HostId, y: Host, id: MigId, a: HostId, mf: Manifest)
    requires y.keys != {}
    ensures Local(b, Importing(y, id, a, Imported, Unblock, Some(mf), Some(mf)),
                  [JobGo] + ([JobGo] + ([Connect] + ([JobGo] + ([JobGo] + ([JobGo] + []))))))
            == Effect(Importing(y.(blocked := false, live := true, ever := true), id, a, Committing, WaitCommit, Some(mf), Some(mf)),
                      {CommitReq(id, a, mf.sha)})
  {
    hide Local;
    var y0 := Importing(y, id, a, Imported, Unblock, Some(mf), Some(mf));
    var y1 := Act(b, y0, JobGo).host;
    var y2 := Act(b, y1, JobGo).host;
    var y3 := Act(b, y2, Connect).host;
    var y4 := Act(b, y3, JobGo).host;
    var y5 := Act(b, y4, JobGo).host;
    LocalNil(b, Act(b, y5, JobGo).host);
    LocalCons(b, y5, JobGo, []);
    LocalCons(b, y4, JobGo, [JobGo] + []);
    LocalCons(b, y3, JobGo, [JobGo] + ([JobGo] + []));
    LocalCons(b, y2, Connect, [JobGo] + ([JobGo] + ([JobGo] + [])));
    LocalCons(b, y1, JobGo, [Connect] + ([JobGo] + ([JobGo] + ([JobGo] + []))));
    LocalCons(b, y0, JobGo, [JobGo] + ([Connect] + ([JobGo] + ([JobGo] + ([JobGo] + [])))));
  }

  /** From the granted lock to the request to commit. */
  lemma CommitIsAsked(w: World, a: HostId, b: HostId, id: MigId, mf: Manifest, y: Host) returns (ms: seq<Move>)
    requires b in w.hosts && a in w.hosts && a != b && LockOk(id, mf) in w.msgs && mf.keys != {} && y.keys == {}
    requires w.hosts[b] == Importing(y, id, a, Preparing, WaitLock, None, None)
    ensures Path(w, ms) && b in End(w, ms).hosts && a in End(w, ms).hosts && End(w, ms).hosts[a] == w.hosts[a]
    ensures CommitReq(id, a, mf.sha) in End(w, ms).msgs
    ensures End(w, ms).hosts[b]
            == Importing(y.(keys := mf.keys, backup := Some({}), blocked := false, live := true, ever := true),
                         id, a, Committing, WaitCommit, Some(mf), Some(mf))
  {
    hide Local, Moves;
    var goes := [JobGo] + ([JobGo] + ([JobGo] + []));
    var confirms := [JobGo] + ([JobGo] + ([Connect] + ([JobGo] + ([JobGo] + ([JobGo] + [])))));
    ms := [];
    assert Path(w, ms) && End(w, ms) == w;
    hide Path, End;
    GrowsBy(w, ms, b, JobLockOk(mf));
    ms := ms + [Move(b, JobLockOk(mf))];
    var y1 := y.(keys := mf.keys, backup := Some({}), live := false, ever := false);
    TargetClones(b, y, id, a, mf);
    GrowsAlone(w, ms, b, goes);
    ms := ms + Moves(b, goes);
    TargetConfirms(b, y1, id, a, mf);
    GrowsAlone(w, ms, b, confirms);
    ms := ms + Moves(b, confirms);
  }

  /** The source that granted the lock gives its keys up and says so. */
  function GivenUp(x: Host, id: MigId, b: HostId): Host {
    Stopped(x, id, b).(st := State(Source, id, Committed, b, Some(Manifest(x.keys, 1))), keys := {}, live := false, ever := false)
  }

  lemma SourceCommits(a: HostId, x: Host, id: MigId, b: HostId)
    requires x.op == Free
    ensures var y := Stopped(x, id, b);
            && Act(a, y, HandleCommit(id, 1)).Effect?
            && Act(a, Act(a, y, HandleCommit(id, 1)).host, OpStep(true, 0)) == Effect(GivenUp(x, id, b), {CommitOk(id)})
  {
  }

  /** The target that was told so closes its migration. */
  lemma TargetFinishes(b: HostId, y: Host)
    requires y.job.Job? && y.job.pc == WaitCommit
    ensures Act(b, y, JobCommitOk).Effect?
    ensures Act(b, Act(b, y, JobCommitOk).host, JobGo) == Effect(y.(st := y.st.(phase := Done), backup := None, job := NoJob), {})
  {
  }

  /** From the request to commit to the end on both sides. */
  lemma CommitIsDone(w: World, a: HostId, b: HostId, id: MigId, x: Host) returns (ms: seq<Move>)
    requires a in w.hosts && b in w.hosts && a != b && CommitReq(id, a, 1) in w.msgs
    requires w.hosts[a] == Stopped(x, id, b) && x.op == Free
    requires w.hosts[b].job.Job? && w.hosts[b].job.pc == WaitCommit && w.hosts[b].job.id == id
    ensures Path(w, ms) && a in End(w, ms).hosts && b in End(w, ms).hosts
    ensures End(w, ms).hosts[a] == GivenUp(x, id, b)
    ensures var y := w.hosts[b]; End(w, ms).hosts[b] == y.(st := y.st.(phase := Done), backup := None, job := NoJob)
  {
    var y := w.hosts[b];
    SourceCommits(a, x, id, b);
    TargetFinishes(b, y);
    ms := [];
    assert Path(w, ms) && End(w, ms) == w;
    hide Path, End, Stopped, GivenUp;
    GrowsBy(w, ms, a, HandleCommit(id, 1));
    ms := ms + [Move(a, HandleCommit(id, 1))];
    GrowsBy(w, ms, a, OpStep(true, 0));
    ms := ms + [Move(a, OpStep(true, 0))];
    GrowsBy(w, ms, b, JobCommitOk);
    ms := ms + [Move(b, JobCommitOk)];
    GrowsBy(w, ms, b, JobGo);
    ms := ms + [Move(b, JobGo)];
  }

  /** From every beginning in which one instance has keys and another has none there is a run at whose end the source is
      committed and empty and the target runs exactly those keys with its migration done. */
  lemma KeysCanMove(w: World, a: HostId, b: HostId, id: MigId) returns (ws: seq<World>)
    requires Initial(w) && a in w.hosts && b in w.hosts && a != b
    requires w.hosts[a].keys != {} && w.hosts[b].keys == {}
    ensures IsRun(ws) && ws[0] == w
    ensures
      var v := ws[|ws| - 1];
      && a in v.hosts && b in v.hosts
      && v.hosts[a].st.role == Source && v.hosts[a].st.phase == Committed && v.hosts[a].keys == {} && v.hosts[a].op == Free
      && v.hosts[b].st.role == Target && v.hosts[b].st.phase == Done && v.hosts[b].job == NoJob
      && v.hosts[b].keys == w.hosts[a].keys && v.hosts[b].live && !v.hosts[b].blocked
  {
    FreshAtFirst(w);
    RunStarts(w);
    var x, y := w.hosts[a], w.hosts[b];
    assert Fresh(x) && Fresh(y) && x.op == Free && id !in w.issued;
    hide Path, End, Initial, Fresh, IsRun;
    var first := LockIsGranted(w, a, b, id);
    var w1 := End(w, first);
    var asked := CommitIsAsked(w1, a, b, id, Manifest(x.keys, 1), y.(blocked := true));
    PathJoins(w, first, asked);
    var w2 := End(w1, asked);
    var done := CommitIsDone(w2, a, b, id, x);
    PathJoins(w, first + asked, done);
    ws := PathIsRun([w], first + asked + done);
  }
}
