/** Which locked sources nobody will ever free, short of the manual unlock. */
module MigrationLock {
  import opened MigrationProtocol
  import opened MigrationInvariant
  import opened MigrationSteps
  import opened MigrationSafety
  import opened MigrationUse

  predicate LockedUnder(x: Host, id: MigId) {
    x.st.role == Source && x.st.phase == Locked && x.st.id == id
  }

  /** The same instances when everything in flight is lost. */
  function Quiet(w: World): World {
    w.(msgs := {})
  }

  /** From here on the lock of a may still end, without any message that was sent before. */
  ghost predicate MayBeFreed(w: World, a: HostId)
    requires a in w.hosts
  {
    exists ms :: Path(Quiet(w), ms) && a in End(Quiet(w), ms).hosts && !LockedUnder(End(Quiet(w), ms).hosts[a], w.hosts[a].st.id)
  }

  /** The target of the migration that a is locked for has still to finish it. */
  predicate Pursued(w: World, a: HostId)
    requires a in w.hosts
  {
    var id := w.hosts[a].st.id;
    && id in w.issued && w.issued[id].target in w.hosts
    && w.hosts[w.issued[id].target].st.id == id && TargetBusy(w.hosts[w.issued[id].target].st)
  }

  // ---- fewer messages allow fewer runs ----

  predicate Less(u: World, v: World) {
    u.hosts == v.hosts && u.issued == v.issued && u.msgs <= v.msgs
  }

  lemma LessStep(u: World, v: World, h: HostId, e: Event)
    requires Less(u, v) && Enabled(u, h, e)
    ensures Enabled(v, h, e) && Less(Step(u, h, e), Step(v, h, e))
  {
  }

  // ---- nobody asks any more ----

  predicate IsRequest(m: Msg) {
    m.LockReq? || m.CommitReq? || m.AbortReq?
  }

  /** a is locked and at rest, and nobody has or sends a request for its migration. */
  ghost predicate Orphan(u: World, a: HostId, id: MigId) {
    && id in u.issued && a in u.hosts && LockedUnder(u.hosts[a], id) && u.hosts[a].op == Free
    && (forall h :: h in u.hosts ==> NotOn(u.hosts[h], id))
    && forall m :: m in u.msgs && IsRequest(m) ==> m.id != id
  }

  predicate NotOn(x: Host, id: MigId) {
    TargetBusy(x.st) ==> x.st.id != id
  }

  /** What a locked source at rest does with anything that is not about its migration. */
  lemma RestStays(h: HostId, x: Host, e: Event, id: MigId)
    requires Sane(x) && LockedUnder(x, id) && x.op == Free && Act(h, x, e).Effect?
    requires (e.HandleLock? || e.HandleCommit? || e.HandleAbort? ==> e.id != id)
    ensures LockedUnder(Act(h, x, e).host, id) && Act(h, x, e).host.op == Free
  {
  }

  lemma JobMeansBusy(x: Host)
    requires Sane(x) && x.job.Job?
    ensures TargetBusy(x.st) && x.job.id == x.st.id
  {
  }

  lemma OutIsElsewhere(h: HostId, x: Host, e: Event, id: MigId, m: Msg)
    requires Sane(x) && NotOn(x, id) && Act(h, x, e).Effect? && m in Act(h, x, e).out && IsRequest(m)
    ensures m.id != id
  {
  }

  lemma StaysElsewhere(h: HostId, x: Host, e: Event, id: MigId)
    requires Sane(x) && NotOn(x, id) && Act(h, x, e).Effect? && (e.StartImport? ==> e.id != id)
    ensures NotOn(Act(h, x, e).host, id)
  {
    if x.job.Job? { JobMeansBusy(x); }
  }

  lemma OrphanStays(u: World, v: World, a: HostId, id: MigId, h: HostId, e: Event)
    requires Orphan(u, a, id) && Less(u, v) && Inv(v) && Enabled(u, h, e)
    ensures Orphan(Step(u, h, e), a, id)
  {
    hide Inv, Act, Sane, LockedUnder, NotOn;
    var x := u.hosts[h];
    Here(v, h);
    StaysElsewhere(h, x, e, id);
    if h == a { RestStays(h, x, e, id); }
    forall m | m in Act(h, x, e).out && IsRequest(m) ensures m.id != id { OutIsElsewhere(h, x, e, id, m); }
  }

  lemma {:induction false} NeverFreed(u: World, v: World, a: HostId, id: MigId, ms: seq<Move>)
    requires Orphan(u, a, id) && Less(u, v) && Inv(v) && Path(u, ms)
    ensures Orphan(End(u, ms), a, id)
    decreases |ms|
  {
    hide Inv, Orphan, Less, Enabled, Step;
    if ms != [] {
      var h, e := ms[0].host, ms[0].event;
      LessStep(u, v, h, e);
      OrphanStays(u, v, a, id, h, e);
      StepKeeps(v, h, e);
      NeverFreed(Step(u, h, e), Step(v, h, e), a, id, ms[1..]);
    }
  }

  lemma QuietIsOrphan(w: World, a: HostId)
    requires Inv(w) && a in w.hosts && LockedUnder(w.hosts[a], w.hosts[a].st.id) && w.hosts[a].op == Free && !Pursued(w, a)
    ensures Orphan(Quiet(w), a, w.hosts[a].st.id) && Less(Quiet(w), w)
  {
  }

  // ---- somebody does ----

  /** The steps with which an operation under way ends. */
  function Finish(op: Op): (es: seq<Event>)
    ensures forall i :: 0 <= i < |es| ==> Spontaneous(es[i])
  {
    match op
    case LockSaved => [OpStep(true, 0)] + ([OpStep(false, 0)] + ([OpStep(true, 0)] + []))
    case LockBlocked => [OpStep(false, 0)] + ([OpStep(true, 0)] + [])
    case LockStopped => [OpStep(false, 0)] + ([OpStep(true, 0)] + [])
    case _ => [OpStep(true, 0)] + []
  }

  lemma EndsItself(h: HostId, x: Host, id: MigId)
    requires Sane(x) && LockedUnder(x, id) && x.op != Free
    ensures Local(h, x, Finish(x.op)).Effect? && !LockedUnder(Local(h, x, Finish(x.op)).host, id)
  {
    hide Local;
    var last := [OpStep(true, 0)] + [];
    if x.op == LockSaved {
      var x1 := Act(h, x, OpStep(true, 0)).host;
      var x2 := Act(h, x1, OpStep(false, 0)).host;
      LocalNil(h, Act(h, x2, OpStep(true, 0)).host);
      LocalCons(h, x2, OpStep(true, 0), []);
      LocalCons(h, x1, OpStep(false, 0), last);
      LocalCons(h, x, OpStep(true, 0), [OpStep(false, 0)] + last);
    } else if x.op == LockBlocked || x.op == LockStopped {
      var x1 := Act(h, x, OpStep(false, 0)).host;
      LocalNil(h, Act(h, x1, OpStep(true, 0)).host);
      LocalCons(h, x1, OpStep(true, 0), []);
      LocalCons(h, x, OpStep(false, 0), last);
    } else {
      LocalNil(h, Act(h, x, OpStep(true, 0)).host);
      LocalCons(h, x, OpStep(true, 0), []);
    }
  }

  /** After a restart a busy target asks, in two steps of its job or in those of a rollback. */
  function Asks(phase: Phase): (es: seq<Event>)
    ensures forall i :: 0 <= i < |es| ==> Spontaneous(es[i])
  {
    if phase == RollingBack then [Restart] + RollBack() else [Restart] + ([JobGo] + ([JobGo] + []))
  }

  /** What it asks for. */
  function Request(st: State): Msg
    requires (st.phase.Imported? || st.phase.Connecting? || st.phase.Committing?) ==> st.manifest.Some?
  {
    if st.phase == Preparing || st.phase == RollingBack then AbortReq(st.id, st.peer)
    else if st.manifest.Some? then CommitReq(st.id, st.peer, st.manifest.value.sha)
    else AbortReq(st.id, st.peer)
  }

  lemma BusyAsks(h: HostId, x: Host)
    requires Sane(x) && TargetBusy(x.st)
    ensures (x.st.phase.Imported? || x.st.phase.Connecting? || x.st.phase.Committing?) ==> x.st.manifest.Some?
    ensures Request(x.st).CommitReq? ==> x.st.phase.Imported? || x.st.phase.Connecting? || x.st.phase.Committing?
    ensures Local(h, x, Asks(x.st.phase)).Effect? && Request(x.st) in Local(h, x, Asks(x.st.phase)).out
  {
    if x.st.phase == RollingBack {
      RollsBackAlone(h, x);
      hide Local, RollBack;
      LocalCons(h, x, Restart, RollBack());
    } else {
      hide Local;
      var x1 := Act(h, x, Restart).host;
      var x2 := Act(h, x1, JobGo).host;
      LocalNil(h, Act(h, x2, JobGo).host);
      LocalCons(h, x2, JobGo, []);
      LocalCons(h, x1, JobGo, [JobGo] + []);
      LocalCons(h, x, Restart, [JobGo] + ([JobGo] + []));
    }
  }

  /** The source takes the request, and one step later it is no longer locked. */
  function Taken(m: Msg): Event
    requires m.AbortReq? || m.CommitReq?
  {
    if m.AbortReq? then HandleAbort(m.id) else HandleCommit(m.id, m.sha)
  }

  lemma RequestEndsLock(h: HostId, x: Host, m: Msg)
    requires (m.AbortReq? || m.CommitReq?) && LockedUnder(x, m.id) && x.op == Free
    requires m.CommitReq? ==> x.st.manifest.Some? && x.st.manifest.value.sha == m.sha
    ensures Act(h, x, Taken(m)).Effect?
    ensures var y := Act(h, x, Taken(m)).host;
            Act(h, y, OpStep(true, 0)).Effect? && !LockedUnder(Act(h, y, OpStep(true, 0)).host, m.id)
  {
  }

  /** A target with the clone asks for the very snapshot its source is locked with. */
  lemma RequestFits(w: World, a: HostId)
    requires Inv(w) && a in w.hosts && LockedUnder(w.hosts[a], w.hosts[a].st.id) && Pursued(w, a)
    ensures
      var b := w.issued[w.hosts[a].st.id].target;
      var x := w.hosts[b];
      && b != a && Sane(x) && x.st.peer == a
      && ((x.st.phase.Imported? || x.st.phase.Connecting? || x.st.phase.Committing?) ==>
            x.st.manifest.Some? && w.hosts[a].st.manifest == x.st.manifest)
  {
  }

  lemma PursuedIsFreed(w: World, a: HostId)
    requires Inv(w) && a in w.hosts && LockedUnder(w.hosts[a], w.hosts[a].st.id) && Pursued(w, a) && w.hosts[a].op == Free
    ensures MayBeFreed(w, a)
  {
    hide Inv, Path, End, Local, Moves, Act, Asks, LockedUnder, TargetBusy, Sane;
    var id, u := w.hosts[a].st.id, Quiet(w);
    var b := w.issued[id].target;
    var x, y := w.hosts[b], w.hosts[a];
    RequestFits(w, a);
    BusyAsks(b, x);
    var m := Request(x.st);
    LocalIsPath(u, b, Asks(x.st.phase));
    var ms := Moves(b, Asks(x.st.phase));
    RequestEndsLock(a, y, m);
    GrowsBy(u, ms, a, Taken(m));
    GrowsBy(u, ms + [Move(a, Taken(m))], a, OpStep(true, 0));
    var all := ms + [Move(a, Taken(m))] + [Move(a, OpStep(true, 0))];
    assert Path(u, all) && !LockedUnder(End(u, all).hosts[a], id);
  }

  lemma OperatingIsFreed(w: World, a: HostId)
    requires Inv(w) && a in w.hosts && LockedUnder(w.hosts[a], w.hosts[a].st.id) && w.hosts[a].op != Free
    ensures MayBeFreed(w, a)
  {
    hide Inv, Path, End, Local, Moves, Finish, LockedUnder;
    var u, x := Quiet(w), w.hosts[a];
    Here(w, a);
    EndsItself(a, x, x.st.id);
    LocalIsPath(u, a, Finish(x.op));
    var ms := Moves(a, Finish(x.op));
    assert Path(u, ms) && !LockedUnder(End(u, ms).hosts[a], x.st.id);
  }

  /** In every reachable world, once everything in flight is lost: the lock of a source may still end exactly when
      its own operation is still under way, or the target of its migration has still to finish it. */
  lemma FreedExactly(ws: seq<World>, a: HostId)
    requires IsRun(ws) && a in ws[|ws| - 1].hosts
    requires ws[|ws| - 1].hosts[a].st.role == Source && ws[|ws| - 1].hosts[a].st.phase == Locked
    ensures
      var w := ws[|ws| - 1];
      MayBeFreed(w, a) <==> w.hosts[a].op != Free || Pursued(w, a)
  {
    assert |ws| > 0;
    hide IsRun, Inv, Pursued, Path, End;
    var w := ws[|ws| - 1];
    RunKeepsInv(ws, |ws| - 1);
    if w.hosts[a].op != Free {
      OperatingIsFreed(w, a);
    } else if Pursued(w, a) {
      PursuedIsFreed(w, a);
    } else {
      QuietIsOrphan(w, a);
      forall ms | Path(Quiet(w), ms)
        ensures a in End(Quiet(w), ms).hosts && LockedUnder(End(Quiet(w), ms).hosts[a], w.hosts[a].st.id)
      {
        NeverFreed(Quiet(w), w, a, w.hosts[a].st.id, ms);
      }
    }
  }

  // ---- such a lock ----

  /** The target gives up before it has the lock, asks for an abort and is told that there is nothing to abort. */
  lemma GivesUpEarly(b: HostId, y: Host, id: MigId, a: HostId)
    ensures Local(b, Importing(y, id, a, Preparing, FailBefore, None, None), [JobGo] + ([JobGo] + []))
            == Effect(Importing(y.(blocked := false), id, a, Preparing, WaitAbort, None, None), {AbortReq(id, a)})
  {
    hide Local;
    var y0 := Importing(y, id, a, Preparing, FailBefore, None, None);
    var y1 := Act(b, y0, JobGo).host;
    LocalNil(b, Act(b, y1, JobGo).host);
    LocalCons(b, y1, JobGo, []);
    LocalCons(b, y0, JobGo, [JobGo] + []);
  }

  /** The end of a target that got its answer. */
  function Aborts(y: Host, id: MigId, a: HostId): Host {
    y.(st := State(Target, id, Aborted, a, None), blocked := false, backup := None, op := Free, job := NoJob)
  }

  lemma AbortsHere(b: HostId, y: Host, id: MigId, a: HostId)
    ensures
      var y0 := Importing(y.(blocked := false), id, a, Preparing, WaitAbort, None, None);
      Act(b, y0, JobAbortOk).Effect? && Act(b, Act(b, y0, JobAbortOk).host, JobGo) == Effect(Aborts(y, id, a), {})
  {
  }

  lemma AbortAsked(w: World, a: HostId, b: HostId, id: MigId) returns (ms: seq<Move>)
    requires a in w.hosts && b in w.hosts && a != b && id !in w.issued && Fresh(w.hosts[b]) && w.hosts[b].keys == {}
    ensures Path(w, ms) && a in End(w, ms).hosts && b in End(w, ms).hosts && End(w, ms).hosts[a] == w.hosts[a]
    ensures End(w, ms).hosts[b] == Importing(w.hosts[b].(blocked := false), id, a, Preparing, WaitAbort, None, None)
    ensures LockReq(id, a, b) in End(w, ms).msgs && AbortReq(id, a) in End(w, ms).msgs
    ensures id in End(w, ms).issued && End(w, ms).issued[id].target == b
  {
    hide Local, Moves;
    var y := w.hosts[b];
    var asks := [OpStep(true, 0)] + ([JobGo] + []);
    var gives := [JobGo] + ([JobGo] + []);
    ms := [];
    assert Path(w, ms) && End(w, ms) == w;
    hide Path, End;
    GrowsBy(w, ms, b, StartImport(a, id));
    ms := ms + [Move(b, StartImport(a, id))];
    TargetAsks(b, End(w, ms).hosts[b], a, id);
    GrowsAlone(w, ms, b, asks);
    ms := ms + Moves(b, asks);
    GrowsBy(w, ms, b, JobFail);
    ms := ms + [Move(b, JobFail)];
    GivesUpEarly(b, y.(blocked := true), id, a);
    GrowsAlone(w, ms, b, gives);
    ms := ms + Moves(b, gives);
  }

  lemma NothingToAbort(h: HostId, x: Host, id: MigId)
    requires Fresh(x)
    ensures Act(h, x, HandleAbort(id)) == Effect(x, {AbortOk(id)})
  {
  }

  lemma AbortAnswered(w: World, a: HostId, b: HostId, id: MigId, y: Host) returns (ms: seq<Move>)
    requires a in w.hosts && b in w.hosts && a != b && Fresh(w.hosts[a]) && AbortReq(id, a) in w.msgs
    requires w.hosts[b] == Importing(y.(blocked := false), id, a, Preparing, WaitAbort, None, None)
    ensures Path(w, ms) && a in End(w, ms).hosts && b in End(w, ms).hosts
    ensures End(w, ms).hosts[a] == w.hosts[a] && End(w, ms).hosts[b] == Aborts(y, id, a)
    ensures w.msgs <= End(w, ms).msgs && End(w, ms).issued == w.issued
  {
    NothingToAbort(a, w.hosts[a], id);
    AbortsHere(b, y, id, a);
    ms := [];
    assert Path(w, ms) && End(w, ms) == w;
    var y0 := w.hosts[b];
    assert y0.job.Job? && y0.job.id == id;
    hide Path, End, Act, Fresh, Importing, Aborts;
    GrowsBy(w, ms, a, HandleAbort(id));
    ms := ms + [Move(a, HandleAbort(id))];
    GrowsBy(w, ms, b, JobAbortOk);
    ms := ms + [Move(b, JobAbortOk)];
    GrowsBy(w, ms, b, JobGo);
    ms := ms + [Move(b, JobGo)];
  }

  /** From fresh instances to a migration that is over while its first request is still on the way. */
  lemma LockOvertaken(w: World, a: HostId, b: HostId, id: MigId) returns (ms: seq<Move>)
    requires a in w.hosts && b in w.hosts && a != b && id !in w.issued
    requires Fresh(w.hosts[a]) && Fresh(w.hosts[b]) && w.hosts[b].keys == {}
    ensures Path(w, ms) && a in End(w, ms).hosts && b in End(w, ms).hosts
    ensures End(w, ms).hosts[a] == w.hosts[a] && End(w, ms).hosts[b] == Aborts(w.hosts[b], id, a)
    ensures LockReq(id, a, b) in End(w, ms).msgs && id in End(w, ms).issued && End(w, ms).issued[id].target == b
  {
    hide Path, End, Aborts, Importing;
    var first := AbortAsked(w, a, b, id);
    var second := AbortAnswered(End(w, first), a, b, id, w.hosts[b]);
    PathJoins(w, first, second);
    ms := first + second;
  }

  lemma LateLock(w: World, a: HostId, b: HostId, id: MigId) returns (ms: seq<Move>)
    requires a in w.hosts && w.hosts[a].op == Free && w.hosts[a].st.role == NoRole && LockReq(id, a, b) in w.msgs
    ensures Path(w, ms) && a in End(w, ms).hosts && LockedUnder(End(w, ms).hosts[a], id) && End(w, ms).hosts[a].op == Free
    ensures End(w, ms).issued == w.issued && forall h :: h in w.hosts && h != a ==> h in End(w, ms).hosts && End(w, ms).hosts[h] == w.hosts[h]
  {
    hide Local, Moves;
    var stops := [OpStep(true, 0)] + ([OpStep(true, 0)] + ([OpStep(true, 1)] + []));
    ms := [];
    assert Path(w, ms) && End(w, ms) == w;
    hide Path, End;
    GrowsBy(w, ms, a, HandleLock(id, b, false));
    ms := ms + [Move(a, HandleLock(id, b, false))];
    SourceStops(a, End(w, ms).hosts[a]);
    GrowsAlone(w, ms, a, stops);
    ms := ms + Moves(a, stops);
  }

  /** From every beginning there is a run in which the request to lock arrives after the abort: the source is locked,
      and, with nothing in flight, for good. */
  lemma LockedForGood(w: World, a: HostId, b: HostId, id: MigId) returns (ws: seq<World>)
    requires Initial(w) && a in w.hosts && b in w.hosts && a != b && w.hosts[b].keys == {}
    ensures IsRun(ws) && ws[0] == w && a in ws[|ws| - 1].hosts
    ensures LockedUnder(ws[|ws| - 1].hosts[a], id) && !MayBeFreed(ws[|ws| - 1], a)
  {
    hide Path, End, Inv, Initial, IsRun, Aborts, MayBeFreed;
    RunStarts(w);
    FreshAtFirst(w);
    var first := LockOvertaken(w, a, b, id);
    var w1 := End(w, first);
    var second := LateLock(w1, a, b, id);
    AbortsIsNotBusy(w.hosts[b], id, a);
    ws := PathIsRun([w], first);
    ws := PathIsRun(ws, second);
    FreedExactly(ws, a);
  }

  lemma AbortsIsNotBusy(y: Host, id: MigId, a: HostId)
    ensures !TargetBusy(Aborts(y, id, a).st)
  {
  }
}
