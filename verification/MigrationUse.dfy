/** Whether a target that used the keys may still give them back. */
module MigrationUse {
  import opened MigrationProtocol
  import opened MigrationInvariant
  import opened MigrationSteps
  import opened MigrationSafety

  // ---- several steps ----

  /** One instance under a list of events, whatever the other instances do. */
  function Local(h: HostId, x: Host, es: seq<Event>): Effect
    decreases |es|
  {
    if es == [] then Effect(x, {})
    else match Act(h, x, es[0])
      case Stuck => Stuck
      case Effect(x1, out) =>
        match Local(h, x1, es[1..])
        case Stuck => Stuck
        case Effect(x2, out2) => Effect(x2, out + out2)
  }

  datatype Move = Move(host: HostId, event: Event)

  /** The moves can be made from w, one after the other. */
  predicate Path(w: World, ms: seq<Move>)
    decreases |ms|
  {
    ms == [] || (Enabled(w, ms[0].host, ms[0].event) && Path(Step(w, ms[0].host, ms[0].event), ms[1..]))
  }

  function End(w: World, ms: seq<Move>): World
    requires Path(w, ms)
    decreases |ms|
  {
    if ms == [] then w else End(Step(w, ms[0].host, ms[0].event), ms[1..])
  }

  lemma {:induction false} PathJoins(w: World, a: seq<Move>, b: seq<Move>)
    requires Path(w, a) && Path(End(w, a), b)
    ensures Path(w, a + b) && End(w, a + b) == End(End(w, a), b)
    decreases |a|
  {
    hide Enabled, Step;
    if a == [] {
      assert a + b == b;
    } else {
      PathJoins(Step(w, a[0].host, a[0].event), a[1..], b);
      assert (a + b)[1..] == a[1..] + b;
    }
  }

  lemma PathOne(w: World, h: HostId, e: Event)
    requires Enabled(w, h, e)
    ensures Path(w, [Move(h, e)]) && End(w, [Move(h, e)]) == Step(w, h, e)
  {
  }

  lemma {:induction false} PathKeepsInv(w: World, ms: seq<Move>)
    requires Inv(w) && Path(w, ms)
    ensures Inv(End(w, ms))
    decreases |ms|
  {
    hide Inv, Enabled, Step;
    if ms != [] {
      StepKeeps(w, ms[0].host, ms[0].event);
      PathKeepsInv(Step(w, ms[0].host, ms[0].event), ms[1..]);
    }
  }

  /** The worlds along a path that starts at the beginning are a run. */
  lemma {:induction false} PathIsRun(ws: seq<World>, ms: seq<Move>) returns (all: seq<World>)
    requires IsRun(ws) && Path(ws[|ws| - 1], ms)
    ensures IsRun(all) && ws <= all && all[|all| - 1] == End(ws[|ws| - 1], ms)
    decreases |ms|
  {
    hide Enabled, Step, Initial;
    var w := ws[|ws| - 1];
    if ms == [] {
      all := ws;
    } else {
      var w1 := Step(w, ms[0].host, ms[0].event);
      assert Next(w, w1);
      all := PathIsRun(ws + [w1], ms[1..]);
    }
  }

  // ---- what the use of the clone depends on ----

  /** While rolling back the instance is blocked, and it restores only after it saw no connection. */
  predicate RollSane(x: Host) {
    x.job.Job? ==>
      && (x.job.pc.RollStop? || x.job.pc.RollCheck? || x.job.pc.RollRestore? ==> x.blocked)
      && (x.job.pc.RollRestore? ==> !x.ever)
  }

  lemma RollSaneGoes(h: HostId, x: Host)
    requires RollSane(x) && DoJobGo(h, x).Effect?
    ensures RollSane(DoJobGo(h, x).host)
  {
  }

  lemma RollSaneWaits(h: HostId, x: Host, e: Event)
    requires Sane(x) && RollSane(x) && Act(h, x, e).Effect? && !e.JobGo?
    ensures RollSane(Act(h, x, e).host)
  {
  }

  lemma RollSaneKeeps(h: HostId, x: Host, e: Event)
    requires Sane(x) && RollSane(x) && Act(h, x, e).Effect?
    ensures RollSane(Act(h, x, e).host)
  {
    hide Sane, RollSane, DoJobGo;
    if e.JobGo? { RollSaneGoes(h, x); } else { RollSaneWaits(h, x, e); }
  }

  /** The job confirms, and a restart would confirm again. */
  predicate Confirms(x: Host) {
    && x.job.Job? && x.st.phase != RollingBack
    && (x.job.pc.SaveCommitting? || x.job.pc.AskCommit? || x.job.pc.WaitCommit? || x.job.pc.SaveDone?)
  }

  /** The clone is in the database and the instance knows that it was used, or need not know. */
  predicate Secure(x: Host) {
    HoldsClone(x) && (x.ever || Confirms(x))
  }

  /** The clone of migration id with these keys stays until that migration is done. */
  predicate StillKept(id: MigId, keys: set<Key>, x: Host) {
    x.st.role == Target && x.st.id == id ==> x.keys == keys && (x.st.phase == Done || Secure(x))
  }

  /** A process that starts in phase rolling_back has forgotten every connection. */
  predicate Forgets(x: Host, e: Event) {
    e.Restart? && x.st.role == Target && x.st.phase == RollingBack
  }

  lemma JobNeverStarts(id: MigId, keys: set<Key>, x: Host)
    requires Sane(x) && RollSane(x) && StillKept(id, keys, x) && x.job.Job? && x.st.role == Target && x.st.id == id
    ensures !PreparesOrAborts(x.job.pc) && x.job.pc != WaitLock && x.job.pc != WaitAbort && x.job.pc != RollRestore
  {
  }

  lemma JobKeeps(h: HostId, id: MigId, keys: set<Key>, x: Host)
    requires Sane(x) && RollSane(x) && StillKept(id, keys, x) && DoJobGo(h, x).Effect? && x.st.id == id
    ensures StillKept(id, keys, DoJobGo(h, x).host)
  {
    JobNeverStarts(id, keys, x);
  }

  lemma JobElsewhere(h: HostId, id: MigId, keys: set<Key>, x: Host)
    requires DoJobGo(h, x).Effect? && x.st.id != id
    ensures StillKept(id, keys, DoJobGo(h, x).host)
  {
  }

  lemma OtherKeeps(h: HostId, id: MigId, keys: set<Key>, x: Host, e: Event)
    requires Sane(x) && RollSane(x) && StillKept(id, keys, x) && !Forgets(x, e) && Act(h, x, e).Effect?
    requires !e.JobGo? && !e.JobCommitConflict? && (e.StartImport? ==> e.id != id)
    ensures StillKept(id, keys, Act(h, x, e).host)
  {
  }

  lemma OneUse(h: HostId, id: MigId, keys: set<Key>, x: Host, e: Event)
    requires Sane(x) && RollSane(x) && StillKept(id, keys, x) && !Forgets(x, e) && Act(h, x, e).Effect?
    requires !e.JobCommitConflict? && (e.StartImport? ==> e.id != id)
    ensures StillKept(id, keys, Act(h, x, e).host)
  {
    hide Sane, RollSane, StillKept, DoJobGo;
    if e.JobGo? {
      if x.st.id != id { JobElsewhere(h, id, keys, x); } else { JobKeeps(h, id, keys, x); }
    } else {
      OtherKeeps(h, id, keys, x, e);
    }
  }

  /** No process of b forgets along the way. */
  predicate Remembers(w: World, b: HostId, ms: seq<Move>)
    requires Path(w, ms) && b in w.hosts
    decreases |ms|
  {
    ms == [] || (
      && !(ms[0].host == b && Forgets(w.hosts[b], ms[0].event))
      && Remembers(Step(w, ms[0].host, ms[0].event), b, ms[1..]))
  }

  /** The clone was deleted before its migration was over. */
  predicate Lost(x: Host, id: MigId) {
    x.st.role == Target && x.st.id == id && x.st.phase != Done && !HoldsClone(x)
  }

  ghost predicate Good(w: World, b: HostId, id: MigId, keys: set<Key>) {
    && Inv(w) && b in w.hosts && id in w.issued
    && RollSane(w.hosts[b]) && StillKept(id, keys, w.hosts[b])
  }

  lemma MoveKeeps(w: World, b: HostId, id: MigId, keys: set<Key>, m: Move)
    requires Good(w, b, id, keys) && Enabled(w, m.host, m.event) && !(m.host == b && Forgets(w.hosts[b], m.event))
    ensures Good(Step(w, m.host, m.event), b, id, keys)
  {
    hide Inv, Act, Sane, RollSane, StillKept;
    StepKeeps(w, m.host, m.event);
    if m.host == b {
      Here(w, b);
      RollSaneKeeps(b, w.hosts[b], m.event);
      OneUse(b, id, keys, w.hosts[b], m.event);
    }
  }

  lemma {:induction false} PathKeeps(w: World, b: HostId, id: MigId, keys: set<Key>, ms: seq<Move>)
    requires Good(w, b, id, keys) && Path(w, ms) && Remembers(w, b, ms)
    ensures Good(End(w, ms), b, id, keys)
    decreases |ms|
  {
    hide Enabled, Step, Inv, RollSane, StillKept, Forgets;
    if ms != [] {
      MoveKeeps(w, b, id, keys, ms[0]);
      PathKeeps(Step(w, ms[0].host, ms[0].event), b, id, keys, ms[1..]);
    }
  }

  lemma {:induction false} RunIsRollSane(ws: seq<World>, i: nat, b: HostId)
    requires IsRun(ws) && i < |ws| && b in ws[i].hosts
    ensures RollSane(ws[i].hosts[b])
  {
    hide Inv, Act, Sane, RollSane;
    if i == 0 {
      FreshRollSane(ws[0].hosts[b]);
    } else {
      assert Next(ws[i - 1], ws[i - 1 + 1]);
      var h, e :| Enabled(ws[i - 1], h, e) && ws[i] == Step(ws[i - 1], h, e);
      StepLocal(ws[i - 1], h, e);
      RunIsRollSane(ws, i - 1, b);
      if h == b {
        RunKeepsInv(ws, i - 1);
        Here(ws[i - 1], b);
        RollSaneKeeps(b, ws[i - 1].hosts[b], e);
      }
    }
  }

  lemma FreshRollSane(x: Host)
    requires Fresh(x)
    ensures RollSane(x)
  {
  }

  lemma SecureIsGood(ws: seq<World>, b: HostId)
    requires IsRun(ws) && b in ws[|ws| - 1].hosts && Secure(ws[|ws| - 1].hosts[b])
    ensures var w := ws[|ws| - 1]; Good(w, b, w.hosts[b].st.id, w.hosts[b].keys)
  {
    assert |ws| > 0;
    hide IsRun, Inv, RollSane;
    var w := ws[|ws| - 1];
    RunKeepsInv(ws, |ws| - 1);
    RunIsRollSane(ws, |ws| - 1, b);
    Here(w, b);
  }

  /** An account that connected with the clone keeps it, whatever happens anywhere, restarts included,
      short of a restart in phase rolling_back: the target never deletes those keys before its migration is over. */
  lemma UsedMeansKept(ws: seq<World>, b: HostId, ms: seq<Move>)
    requires IsRun(ws) && b in ws[|ws| - 1].hosts && Secure(ws[|ws| - 1].hosts[b])
    requires Path(ws[|ws| - 1], ms) && Remembers(ws[|ws| - 1], b, ms)
    ensures
      var w := ws[|ws| - 1];
      b in End(w, ms).hosts && StillKept(w.hosts[b].st.id, w.hosts[b].keys, End(w, ms).hosts[b])
  {
    assert |ws| > 0;
    hide IsRun, Inv, StillKept, Secure;
    var w := ws[|ws| - 1];
    SecureIsGood(ws, b);
    PathKeeps(w, b, w.hosts[b].st.id, w.hosts[b].keys, ms);
  }

  // ---- a restart in phase rolling_back ----

  /** Events that no message has to justify. */
  predicate Spontaneous(e: Event) {
    e.OpStep? || e.JobGo? || e.Connect? || e.Restart?
  }

  function Moves(h: HostId, es: seq<Event>): (ms: seq<Move>)
    ensures |ms| == |es| && forall i :: 0 <= i < |es| ==> ms[i] == Move(h, es[i])
  {
    seq(|es|, i requires 0 <= i < |es| => Move(h, es[i]))
  }

  function After(w: World, h: HostId, r: Effect): World
    requires r.Effect?
  {
    World(w.hosts[h := r.host], w.msgs + r.out, w.issued)
  }

  lemma {:induction false} LocalIsPath(w: World, h: HostId, es: seq<Event>)
    requires h in w.hosts && Local(h, w.hosts[h], es).Effect?
    requires forall i :: 0 <= i < |es| ==> Spontaneous(es[i])
    ensures Path(w, Moves(h, es)) && End(w, Moves(h, es)) == After(w, h, Local(h, w.hosts[h], es))
    decreases |es|
  {
    hide Act;
    if es == [] {
      assert w.hosts[h := w.hosts[h]] == w.hosts;
    } else {
      var w1 := Step(w, h, es[0]);
      LocalIsPath(w1, h, es[1..]);
      assert Moves(h, es)[1..] == Moves(h, es[1..]);
      assert w.hosts[h := Act(h, w.hosts[h], es[0]).host][h := Local(h, w.hosts[h], es).host] == w.hosts[h := Local(h, w.hosts[h], es).host];
    }
  }

  lemma LocalCons(h: HostId, x: Host, e: Event, es: seq<Event>)
    requires Act(h, x, e).Effect? && Local(h, Act(h, x, e).host, es).Effect?
    ensures Local(h, x, [e] + es).Effect?
    ensures Local(h, x, [e] + es).host == Local(h, Act(h, x, e).host, es).host
    ensures Local(h, x, [e] + es).out == Act(h, x, e).out + Local(h, Act(h, x, e).host, es).out
  {
  }

  lemma LocalNil(h: HostId, x: Host)
    ensures Local(h, x, []) == Effect(x, {})
  {
  }

  /** The process that started in phase rolling_back, at one point of its job. */
  function Rolling(x: Host, pc: Pc): Host {
    x.(blocked := true, live := false, ever := false, op := Free, job := Job(pc, x.st.id, x.st.peer, x.st.manifest, 0))
  }

  lemma RollingStops(h: HostId, x: Host)
    requires x.st.role == Target && x.st.phase == RollingBack
    ensures Reboot(x) == Rolling(x, SaveRolling)
    ensures Act(h, Rolling(x, SaveRolling), JobGo) == Effect(Rolling(x, RollBlock), {})
    ensures Act(h, Rolling(x, RollBlock), JobGo) == Effect(Rolling(x, RollStop), {})
    ensures Act(h, Rolling(x, RollStop), JobGo) == Effect(Rolling(x, RollCheck), {})
  {
  }

  lemma RollingRestores(h: HostId, x: Host)
    requires x.backup.Some? ==> x.backup.value == {}
    ensures Act(h, Rolling(x, RollCheck), JobGo) == Effect(Rolling(x, RollRestore), {})
    ensures Act(h, Rolling(x, RollRestore), JobGo) == Effect(Rolling(x.(keys := {}), AskAbort), {})
    ensures Act(h, Rolling(x.(keys := {}), AskAbort), JobGo)
            == Effect(Rolling(x.(keys := {}), WaitAbort), {AbortReq(x.st.id, x.st.peer)})
  {
  }

  /** It stops, sees no connection, restores and asks the source to go on. */
  function RollBack(): (es: seq<Event>)
    ensures forall i :: 0 <= i < |es| ==> es[i].JobGo?
  {
    [JobGo] + ([JobGo] + ([JobGo] + ([JobGo] + ([JobGo] + ([JobGo] + [])))))
  }

  lemma RollsBackAlone(h: HostId, x: Host)
    requires x.st.role == Target && x.st.phase == RollingBack && (x.backup.Some? ==> x.backup.value == {})
    ensures Local(h, Reboot(x), RollBack())
            == Effect(Rolling(x.(keys := {}), WaitAbort), {AbortReq(x.st.id, x.st.peer)})
  {
    RollingStops(h, x);
    RollingRestores(h, x);
    hide Local, Act, Reboot, Rolling;
    LocalNil(h, Rolling(x.(keys := {}), WaitAbort));
    LocalCons(h, Rolling(x.(keys := {}), AskAbort), JobGo, []);
    var r1 := [JobGo] + [];
    LocalCons(h, Rolling(x, RollRestore), JobGo, r1);
    var r2 := [JobGo] + r1;
    LocalCons(h, Rolling(x, RollCheck), JobGo, r2);
    var r3 := [JobGo] + r2;
    LocalCons(h, Rolling(x, RollStop), JobGo, r3);
    var r4 := [JobGo] + r3;
    LocalCons(h, Rolling(x, RollBlock), JobGo, r4);
    LocalCons(h, Rolling(x, SaveRolling), JobGo, [JobGo] + r4);
  }

  /** While a target that rolls back has the clone, its source is locked and at rest with the same keys. */
  lemma SourceWaits(w: World, b: HostId)
    requires Inv(w) && b in w.hosts && HoldsClone(w.hosts[b]) && w.hosts[b].st.phase == RollingBack
    ensures
      var a := w.hosts[b].st.peer;
      && a in w.hosts && a != b && SourceLocked(w.hosts[a]) && w.hosts[a].st.id == w.hosts[b].st.id
      && w.hosts[a].op == Free && w.hosts[a].keys == w.hosts[b].keys
  {
    var x := w.hosts[b];
    RestoreLeavesSource(w, b);
    assert Depends(w, b);
    assert SourceHeld(w, x.st.id, x.st.manifest.value);
    assert !TargetPast(w, x.st.id);
    assert Sane(w.hosts[x.st.peer]);
  }

  /** The source unlocks and runs again. */
  function Unlocks(): (es: seq<Event>)
    ensures forall i :: 0 <= i < |es| ==> es[i].OpStep?
  {
    [OpStep(true, 0)] + ([OpStep(true, 0)] + [])
  }

  function Unlocked(x: Host): Host {
    x.(st := x.st.(phase := Phase.Unlocked), blocked := false, op := Free)
  }

  lemma UnlocksAlone(h: HostId, x: Host)
    requires SourceLocked(x) && x.op == Unlocking(true)
    ensures Local(h, x, Unlocks()) == Effect(Unlocked(x), {AbortOk(x.st.id)})
  {
  }

  lemma GrowsBy(w: World, ms: seq<Move>, h: HostId, e: Event)
    requires Path(w, ms) && Enabled(End(w, ms), h, e)
    ensures Path(w, ms + [Move(h, e)]) && End(w, ms + [Move(h, e)]) == Step(End(w, ms), h, e)
  {
    hide Enabled, Step, Path, End;
    PathOne(End(w, ms), h, e);
    PathJoins(w, ms, [Move(h, e)]);
  }

  lemma GrowsAlone(w: World, ms: seq<Move>, h: HostId, es: seq<Event>)
    requires Path(w, ms) && h in End(w, ms).hosts && Local(h, End(w, ms).hosts[h], es).Effect?
    requires forall i :: 0 <= i < |es| ==> Spontaneous(es[i])
    ensures Path(w, ms + Moves(h, es)) && End(w, ms + Moves(h, es)) == After(End(w, ms), h, Local(h, End(w, ms).hosts[h], es))
  {
    hide Local, Path, End;
    LocalIsPath(End(w, ms), h, es);
    PathJoins(w, ms, Moves(h, es));
  }

  lemma HandlesAbort(h: HostId, x: Host)
    requires SourceLocked(x) && x.op == Free
    ensures Act(h, x, HandleAbort(x.st.id)) == Effect(x.(op := Unlocking(true)), {})
  {
  }

  /** A locked source that was asked to abort runs again in three moves. */
  lemma SourceUnlocks(w: World, ms: seq<Move>, a: HostId)
    requires Path(w, ms) && a in End(w, ms).hosts
    requires
      var x := End(w, ms).hosts[a];
      SourceLocked(x) && x.op == Free && AbortReq(x.st.id, a) in End(w, ms).msgs
    ensures
      var u := End(w, ms);
      var all := ms + [Move(a, HandleAbort(u.hosts[a].st.id))] + Moves(a, Unlocks());
      && Path(w, all) && AbortOk(u.hosts[a].st.id) in End(w, all).msgs
      && End(w, all).hosts == u.hosts[a := Unlocked(u.hosts[a])]
  {
    hide Local, Path, End, Act;
    var u := End(w, ms);
    var x := u.hosts[a];
    HandlesAbort(a, x);
    GrowsBy(w, ms, a, HandleAbort(x.st.id));
    UnlocksAlone(a, x.(op := Unlocking(true)));
    GrowsAlone(w, ms + [Move(a, HandleAbort(x.st.id))], a, Unlocks());
    assert u.hosts[a := x.(op := Unlocking(true))][a := Unlocked(x)] == u.hosts[a := Unlocked(x)];
  }

  /** The process forgot; nine moves later the source runs with the keys that the target had used. */
  function GivesBack(b: HostId, a: HostId, id: MigId): seq<Move> {
    Moves(b, RollBack()) + [Move(a, HandleAbort(id))] + Moves(a, Unlocks())
  }

  lemma Restarts(w: World, b: HostId)
    requires b in w.hosts
    ensures Enabled(w, b, Restart)
    ensures Step(w, b, Restart) == World(w.hosts[b := Reboot(w.hosts[b])], w.msgs, w.issued)
  {
  }

  lemma BackupIsEmpty(w: World, b: HostId)
    requires Inv(w) && b in w.hosts
    ensures w.hosts[b].backup.Some? ==> w.hosts[b].backup.value == {}
  {
  }

  lemma TargetRollsBack(w: World, b: HostId)
    requires Inv(w) && b in w.hosts && w.hosts[b].st.role == Target && w.hosts[b].st.phase == RollingBack
    ensures Enabled(w, b, Restart)
    ensures
      var v, x := Step(w, b, Restart), w.hosts[b];
      && Path(v, Moves(b, RollBack()))
      && End(v, Moves(b, RollBack())).hosts == w.hosts[b := Rolling(x.(keys := {}), WaitAbort)]
      && AbortReq(x.st.id, x.st.peer) in End(v, Moves(b, RollBack())).msgs
  {
    hide Local, Path, End, Moves, RollBack, Inv, Step, Enabled, Rolling, Reboot;
    Restarts(w, b);
    BackupIsEmpty(w, b);
    var v, x := Step(w, b, Restart), w.hosts[b];
    RollsBackAlone(b, x);
    LocalIsPath(v, b, RollBack());
    assert w.hosts[b := Reboot(x)][b := Rolling(x.(keys := {}), WaitAbort)] == w.hosts[b := Rolling(x.(keys := {}), WaitAbort)];
  }

  lemma ForgottenIsGivenBack(w: World, b: HostId)
    requires Inv(w) && b in w.hosts && HoldsClone(w.hosts[b]) && w.hosts[b].st.phase == RollingBack
    ensures Enabled(w, b, Restart)
    ensures
      var v, x := Step(w, b, Restart), w.hosts[b];
      var a := x.st.peer;
      var ms := GivesBack(b, a, x.st.id);
      && a in w.hosts && a != b && w.hosts[a].keys == x.keys
      && Path(v, ms)
      && End(v, ms).hosts == w.hosts[b := Rolling(x.(keys := {}), WaitAbort)][a := Unlocked(w.hosts[a])]
      && AbortOk(x.st.id) in End(v, ms).msgs
  {
    assert w.hosts[b].st.role == Target;
    hide Path, End, Moves, Unlocks, RollBack, HoldsClone, Inv, Step, Enabled, Rolling, Unlocked, Reboot, SourceLocked;
    SourceWaits(w, b);
    TargetRollsBack(w, b);
    SourceUnlocks(Step(w, b, Restart), Moves(b, RollBack()), w.hosts[b].st.peer);
  }

  lemma {:induction false} NoRestartRemembers(w: World, b: HostId, ms: seq<Move>)
    requires Path(w, ms) && b in w.hosts && forall i :: 0 <= i < |ms| ==> !ms[i].event.Restart?
    ensures Remembers(w, b, ms)
    decreases |ms|
  {
    hide Enabled, Act;
    if ms != [] {
      StepLocal(w, ms[0].host, ms[0].event);
      NoRestartRemembers(Step(w, ms[0].host, ms[0].event), b, ms[1..]);
    }
  }

  /** Some course of events, in which b forgets nothing any more, deletes the clone before its migration is over. */
  ghost predicate MayLose(w: World, b: HostId, id: MigId)
    requires b in w.hosts
  {
    exists ms :: Path(w, ms) && Remembers(w, b, ms) && b in End(w, ms).hosts && Lost(End(w, ms).hosts[b], id)
  }

  lemma ForgettingMayLose(w: World, b: HostId)
    requires Inv(w) && b in w.hosts && HoldsClone(w.hosts[b]) && w.hosts[b].st.phase == RollingBack
    ensures Enabled(w, b, Restart) && MayLose(Step(w, b, Restart), b, w.hosts[b].st.id)
  {
    hide Inv, Path, End, Remembers;
    ForgottenIsGivenBack(w, b);
    var v, ms := Step(w, b, Restart), GivesBack(b, w.hosts[b].st.peer, w.hosts[b].st.id);
    NoRestartRemembers(v, b, ms);
    assert Lost(End(v, ms).hosts[b], w.hosts[b].st.id);
  }

  lemma RememberingKeeps(w: World, b: HostId, id: MigId, keys: set<Key>)
    requires Good(w, b, id, keys)
    ensures !MayLose(w, b, id)
  {
    hide Inv, Path, End, Remembers, StillKept, RollSane, Lost;
    forall ms | Path(w, ms) && Remembers(w, b, ms) ensures b in End(w, ms).hosts && !Lost(End(w, ms).hosts[b], id) {
      PathKeeps(w, b, id, keys, ms);
      KeptIsNotLost(id, keys, End(w, ms).hosts[b]);
    }
  }

  /** In every reachable world: the next event lets a used clone be deleted exactly when it is a restart in phase
      rolling_back. The source may then come to run with those keys. */
  lemma UseLostExactly(ws: seq<World>, b: HostId, m: Move)
    requires IsRun(ws) && b in ws[|ws| - 1].hosts && Secure(ws[|ws| - 1].hosts[b])
    requires Enabled(ws[|ws| - 1], m.host, m.event)
    ensures
      var w := ws[|ws| - 1];
      && b in Step(w, m.host, m.event).hosts
      && (MayLose(Step(w, m.host, m.event), b, w.hosts[b].st.id) <==> m.host == b && Forgets(w.hosts[b], m.event))
  {
    assert |ws| > 0;
    hide IsRun, Inv, MayLose, Act, Good;
    var w := ws[|ws| - 1];
    SecureIsGood(ws, b);
    RunKeepsInv(ws, |ws| - 1);
    StepLocal(w, m.host, m.event);
    if m.host == b && Forgets(w.hosts[b], m.event) {
      ForgettingMayLose(w, b);
    } else {
      MoveKeeps(w, b, w.hosts[b].st.id, w.hosts[b].keys, m);
      RememberingKeeps(Step(w, m.host, m.event), b, w.hosts[b].st.id, w.hosts[b].keys);
    }
  }

  lemma KeptIsNotLost(id: MigId, keys: set<Key>, x: Host)
    requires StillKept(id, keys, x)
    ensures !Lost(x, id)
  {
  }

  // ---- such a run ----

  /** The target of migration id, at one point of its job. */
  function Importing(y: Host, id: MigId, a: HostId, phase: Phase, pc: Pc, st: Option<Manifest>, job: Option<Manifest>): Host {
    y.(st := State(Target, id, phase, a, st), op := Free, job := Job(pc, id, a, job, 0))
  }

  lemma TargetAsks(b: HostId, y: Host, a: HostId, id: MigId)
    requires y.op == Starting && y.st == State(Target, id, Preparing, a, None)
    ensures Local(b, y, [OpStep(true, 0)] + ([JobGo] + []))
            == Effect(Importing(y.(blocked := true), id, a, Preparing, WaitLock, None, None), {LockReq(id, a, b)})
  {
    hide Local;
    var y1 := Act(b, y, OpStep(true, 0)).host;
    LocalNil(b, Act(b, y1, JobGo).host);
    LocalCons(b, y1, JobGo, []);
    LocalCons(b, y, OpStep(true, 0), [JobGo] + []);
  }

  lemma SourceStops(a: HostId, x: Host)
    requires x.op == LockSaved && x.st.role == Source
    ensures Local(a, x, [OpStep(true, 0)] + ([OpStep(true, 0)] + ([OpStep(true, 1)] + [])))
            == Effect(x.(st := x.st.(manifest := Some(Manifest(x.keys, 1))), blocked := true, live := false, op := Free),
                      {LockOk(x.st.id, Manifest(x.keys, 1))})
  {
    hide Local;
    var x1 := Act(a, x, OpStep(true, 0)).host;
    var x2 := Act(a, x1, OpStep(true, 0)).host;
    LocalNil(a, Act(a, x2, OpStep(true, 1)).host);
    LocalCons(a, x2, OpStep(true, 1), []);
    LocalCons(a, x1, OpStep(true, 0), [OpStep(true, 1)] + []);
    LocalCons(a, x, OpStep(true, 0), [OpStep(true, 0)] + ([OpStep(true, 1)] + []));
  }

  lemma TargetClones(b: HostId, y: Host, id: MigId, a: HostId, mf: Manifest)
    requires y.keys == {}
    ensures Local(b, Importing(y, id, a, Preparing, SaveManifest, None, Some(mf)), [JobGo] + ([JobGo] + ([JobGo] + [])))
            == Effect(Importing(y.(keys := mf.keys, backup := Some({}), live := false, ever := false),
                                id, a, Imported, Unblock, Some(mf), Some(mf)), {})
  {
    hide Local;
    var y0 := Importing(y, id, a, Preparing, SaveManifest, None, Some(mf));
    var y1 := Act(b, y0, JobGo).host;
    var y2 := Act(b, y1, JobGo).host;
    LocalNil(b, Act(b, y2, JobGo).host);
    LocalCons(b, y2, JobGo, []);
    LocalCons(b, y1, JobGo, [JobGo] + []);
    LocalCons(b, y0, JobGo, [JobGo] + ([JobGo] + []));
  }

  /** The job waits and gives up. */
  lemma TargetGivesUp(b: HostId, y: Host, id: MigId, a: HostId, mf: Manifest)
    requires y.keys != {} && !y.ever
    ensures Local(b, Importing(y, id, a, Imported, Unblock, Some(mf), Some(mf)), [JobGo] + ([JobGo] + ([JobGo] + [])))
            == Effect(Importing(y.(blocked := false), id, a, Connecting, SaveRolling, Some(mf), Some(mf)), {})
  {
    hide Local;
    var y0 := Importing(y, id, a, Imported, Unblock, Some(mf), Some(mf));
    var y1 := Act(b, y0, JobGo).host;
    var y2 := Act(b, y1, JobGo).host;
    LocalNil(b, Act(b, y2, JobGo).host);
    LocalCons(b, y2, JobGo, []);
    LocalCons(b, y1, JobGo, [JobGo] + []);
    LocalCons(b, y0, JobGo, [JobGo] + ([JobGo] + []));
  }

  /** An account connects after all, and then phase rolling_back is saved. */
  lemma TargetConnects(b: HostId, y: Host, id: MigId, a: HostId, mf: Manifest)
    requires y.keys != {} && !y.blocked
    ensures Local(b, Importing(y, id, a, Connecting, SaveRolling, Some(mf), Some(mf)), [Connect] + ([JobGo] + []))
            == Effect(Importing(y.(live := true, ever := true), id, a, RollingBack, RollBlock, Some(mf), Some(mf)), {})
  {
    hide Local;
    var y0 := Importing(y, id, a, Connecting, SaveRolling, Some(mf), Some(mf));
    var y1 := Act(b, y0, Connect).host;
    LocalNil(b, Act(b, y1, JobGo).host);
    LocalCons(b, y1, JobGo, []);
    LocalCons(b, y0, Connect, [JobGo] + []);
  }

  function Stopped(x: Host, id: MigId, b: HostId): Host {
    x.(st := State(Source, id, Locked, b, Some(Manifest(x.keys, 1))), blocked := true)
  }

  /** From fresh instances to the granted lock. */
  lemma LockIsGranted(w: World, a: HostId, b: HostId, id: MigId) returns (ms: seq<Move>)
    requires a in w.hosts && b in w.hosts && a != b && id !in w.issued
    requires Fresh(w.hosts[a]) && Fresh(w.hosts[b]) && w.hosts[b].keys == {}
    ensures Path(w, ms) && a in End(w, ms).hosts && b in End(w, ms).hosts
    ensures End(w, ms).hosts[a] == Stopped(w.hosts[a], id, b)
    ensures End(w, ms).hosts[b] == Importing(w.hosts[b].(blocked := true), id, a, Preparing, WaitLock, None, None)
    ensures LockOk(id, Manifest(w.hosts[a].keys, 1)) in End(w, ms).msgs
  {
    hide Local, Moves;
    var x, y := w.hosts[a], w.hosts[b];
    var asks := [OpStep(true, 0)] + ([JobGo] + []);
    var stops := [OpStep(true, 0)] + ([OpStep(true, 0)] + ([OpStep(true, 1)] + []));
    ms := [];
    assert Path(w, ms) && End(w, ms) == w;
    hide Path, End;
    GrowsBy(w, ms, b, StartImport(a, id));
    ms := ms + [Move(b, StartImport(a, id))];
    TargetAsks(b, End(w, ms).hosts[b], a, id);
    GrowsAlone(w, ms, b, asks);
    ms := ms + Moves(b, asks);
    GrowsBy(w, ms, a, HandleLock(id, b, false));
    ms := ms + [Move(a, HandleLock(id, b, false))];
    SourceStops(a, End(w, ms).hosts[a]);
    GrowsAlone(w, ms, a, stops);
    ms := ms + Moves(a, stops);
  }

  /** From the granted lock to an account that runs with the clone, and phase rolling_back. */
  lemma CloneIsUsed(w: World, a: HostId, b: HostId, id: MigId, mf: Manifest, y: Host) returns (ms: seq<Move>)
    requires b in w.hosts && LockOk(id, mf) in w.msgs && mf.keys != {} && y.keys == {}
    requires w.hosts[b] == Importing(y, id, a, Preparing, WaitLock, None, None)
    ensures Path(w, ms) && b in End(w, ms).hosts
    ensures End(w, ms).hosts[b]
            == Importing(y.(keys := mf.keys, backup := Some({}), blocked := false, live := true, ever := true),
                         id, a, RollingBack, RollBlock, Some(mf), Some(mf))
  {
    hide Local, Moves;
    var goes := [JobGo] + ([JobGo] + ([JobGo] + []));
    var late := [Connect] + ([JobGo] + []);
    ms := [];
    assert Path(w, ms) && End(w, ms) == w;
    hide Path, End;
    GrowsBy(w, ms, b, JobLockOk(mf));
    ms := ms + [Move(b, JobLockOk(mf))];
    var y1 := y.(keys := mf.keys, backup := Some({}), live := false, ever := false);
    TargetClones(b, y, id, a, mf);
    GrowsAlone(w, ms, b, goes);
    ms := ms + Moves(b, goes);
    TargetGivesUp(b, y1, id, a, mf);
    GrowsAlone(w, ms, b, goes);
    ms := ms + Moves(b, goes);
    TargetConnects(b, y1.(blocked := false), id, a, mf);
    GrowsAlone(w, ms, b, late);
    ms := ms + Moves(b, late);
  }

  /** An account runs here with the clone of these keys. */
  predicate InUse(x: Host, keys: set<Key>) {
    x.live && x.ever && HoldsClone(x) && x.keys == keys
  }

  /** Source x runs again and target y is closed, with `blocked` set although its phase blocks nothing. */
  predicate GaveBack(x: Host, y: Host, keys: set<Key>) {
    && x.st.role == Source && x.st.phase == Phase.Unlocked && !x.blocked && x.keys == keys
    && y.st.role == Target && y.st.phase == Aborted && y.keys == {} && y.job == NoJob
    && y.st.id == x.st.id && y.blocked && !BlocksSessions(y.st)
  }

  lemma Closes(b: HostId, y: Host)
    requires y.job.Job? && y.job.pc == WaitAbort
    ensures Act(b, y, JobAbortOk).Effect? && Act(b, Act(b, y, JobAbortOk).host, JobGo).Effect?
    ensures Act(b, Act(b, y, JobAbortOk).host, JobGo).host == y.(st := y.st.(phase := Aborted), backup := None, job := NoJob)
  {
  }

  /** A target that was told that the source runs again closes its migration. */
  lemma TargetCloses(w: World, ms: seq<Move>, b: HostId)
    requires Path(w, ms) && b in End(w, ms).hosts
    requires var y := End(w, ms).hosts[b]; y.job.Job? && y.job.pc == WaitAbort && AbortOk(y.job.id) in End(w, ms).msgs
    ensures
      var all := ms + [Move(b, JobAbortOk)] + [Move(b, JobGo)];
      var u := End(w, ms);
      var y := u.hosts[b];
      && Path(w, all)
      && End(w, all).hosts == u.hosts[b := y.(st := y.st.(phase := Aborted), backup := None, job := NoJob)]
  {
    hide Path, End, Act;
    var u := End(w, ms);
    Closes(b, u.hosts[b]);
    GrowsBy(w, ms, b, JobAbortOk);
    GrowsBy(w, ms + [Move(b, JobAbortOk)], b, JobGo);
    assert u.hosts[b := Act(b, u.hosts[b], JobAbortOk).host].Keys == u.hosts.Keys;
  }

  lemma ClosedGaveBack(x: Host, y: Host)
    requires SourceLocked(x) && y.st.role == Target && x.st.id == y.st.id && x.keys == y.keys
    ensures
      var z := Rolling(y.(keys := {}), WaitAbort);
      GaveBack(Unlocked(x), z.(st := z.st.(phase := Aborted), backup := None, job := NoJob), y.keys)
  {
  }

  /** From the forgotten use to the closed migration. */
  lemma ForgottenIsClosed(w: World, b: HostId) returns (ms: seq<Move>)
    requires Inv(w) && b in w.hosts && HoldsClone(w.hosts[b]) && w.hosts[b].st.phase == RollingBack
    ensures Path(w, ms) && b in End(w, ms).hosts
    ensures
      var a := w.hosts[b].st.peer;
      a in End(w, ms).hosts && GaveBack(End(w, ms).hosts[a], End(w, ms).hosts[b], w.hosts[b].keys)
  {
    assert w.hosts[b].st.role == Target;
    var x := w.hosts[b];
    var gives := GivesBack(b, x.st.peer, x.st.id);
    assert Rolling(x.(keys := {}), WaitAbort).job == Job(WaitAbort, x.st.id, x.st.peer, x.st.manifest, 0);
    hide *;
    SourceWaits(w, b);
    ForgottenIsGivenBack(w, b);
    ClosedGaveBack(w.hosts[x.st.peer], x);
    PathOne(w, b, Restart);
    PathJoins(w, [Move(b, Restart)], gives);
    ms := [Move(b, Restart)] + gives;
    TargetCloses(w, ms, b);
    ms := ms + [Move(b, JobAbortOk)] + [Move(b, JobGo)];
  }

  function Used(y: Host, id: MigId, a: HostId, keys: set<Key>): Host {
    Importing(y.(keys := keys, backup := Some({}), blocked := false, live := true, ever := true),
              id, a, RollingBack, RollBlock, Some(Manifest(keys, 1)), Some(Manifest(keys, 1)))
  }

  lemma UsedHoldsClone(y: Host, id: MigId, a: HostId, keys: set<Key>)
    requires keys != {}
    ensures var x := Used(y, id, a, keys);
            InUse(x, keys) && HoldsClone(x) && x.st.phase == RollingBack && x.st.peer == a && x.keys == keys
  {
  }

  /** From any beginning to an account that runs with the clone. */
  lemma UseIsReached(w: World, a: HostId, b: HostId, id: MigId) returns (ms: seq<Move>)
    requires Initial(w) && a in w.hosts && b in w.hosts && a != b
    requires w.hosts[a].keys != {} && w.hosts[b].keys == {}
    ensures Path(w, ms) && Inv(End(w, ms)) && b in End(w, ms).hosts
    ensures End(w, ms).hosts[b] == Used(w.hosts[b], id, a, w.hosts[a].keys)
  {
    InitialInv(w);
    FreshAtFirst(w);
    hide Path, End, Inv, Initial, Fresh;
    var start := LockIsGranted(w, a, b, id);
    var w1 := End(w, start);
    var used := CloneIsUsed(w1, a, b, id, Manifest(w.hosts[a].keys, 1), w.hosts[b].(blocked := true));
    PathJoins(w, start, used);
    ms := start + used;
    PathKeepsInv(w, ms);
  }

  lemma RunStarts(w: World)
    requires Initial(w)
    ensures IsRun([w])
  {
  }

  lemma FreshAtFirst(w: World)
    requires Initial(w)
    ensures w.issued == map[] && forall h :: h in w.hosts ==> Fresh(w.hosts[h])
  {
  }

  /** The restart matters. From any beginning in which one instance has keys and another has none there is a run in
      which an account runs at the target with the clone, the process restarts, and at the end the clone is deleted
      and the source runs again; the migration is closed there with `blocked` set although its phase blocks nothing. */
  lemma ConnectedYetReleased(w: World, a: HostId, b: HostId, id: MigId) returns (ws: seq<World>, i: nat)
    requires Initial(w) && a in w.hosts && b in w.hosts && a != b
    requires w.hosts[a].keys != {} && w.hosts[b].keys == {}
    ensures IsRun(ws) && ws[0] == w && i < |ws| && b in ws[i].hosts
    ensures InUse(ws[i].hosts[b], w.hosts[a].keys)
    ensures
      var v := ws[|ws| - 1];
      a in v.hosts && b in v.hosts && GaveBack(v.hosts[a], v.hosts[b], w.hosts[a].keys)
  {
    hide *;
    RunStarts(w);
    var ms := UseIsReached(w, a, b, id);
    UsedHoldsClone(w.hosts[b], id, a, w.hosts[a].keys);
    var closed := ForgottenIsClosed(End(w, ms), b);
    ws := PathIsRun([w], ms);
    i := |ws| - 1;
    ws := PathIsRun(ws, closed);
  }
}
