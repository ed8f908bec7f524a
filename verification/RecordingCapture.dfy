/** Arming, answering and ending a recorded call: the critical sections of cmd/server/recording_ctl.go, interleaved. */
module RecordingCapture {

  type Call = string

  /** How far onAnswered has come for one armed entry. */
  datatype Phase =
    | Idle          // armed, not answered
    | Opening       // marked started, creating the recorder
    | OpenFailed    // no recorder, about to drop the entry
    | Dropped       // dropped, onAnswered has returned
    | Opened        // recorder running, row not yet written
    | Begun         // row written, about to publish the recorder
    | Running       // recorder published in the entry
    | SelfClosing   // the call ended meanwhile, onAnswered will finalize
    | Closed        // recorder finalized

  /** How far onCallEnded has come. */
  datatype End = NotEnded | Ending(started: bool) | Ended

  /** One liveRecording, and what has been done on its behalf. */
  datatype Entry = Entry(call: Call, phase: Phase, end: End, recorders: nat, finals: nat, skips: nat)

  datatype World = World(live: map<Call, nat>, entries: seq<Entry>)

  datatype Event =
    | Arm(call: Call)
    | Answer(call: Call)
    | Open(e: nat)
    | FailOpen(e: nat)
    | Drop(e: nat)
    | Begin(e: nat)
    | Publish(e: nat)
    | SelfFinalize(e: nat)
    | HangUp(call: Call)
    | Finish(e: nat)

  predicate At(w: World, e: nat, p: Phase) {
    e < |w.entries| && w.entries[e].phase == p
  }

  /** The call has a live entry and the map holds a real one. */
  predicate Has(w: World, c: Call) {
    c in w.live && w.live[c] < |w.entries|
  }

  predicate Enabled(w: World, ev: Event) {
    match ev
    case Arm(_) => true
    case Answer(_) => true
    case Open(e) => At(w, e, Opening)
    case FailOpen(e) => At(w, e, Opening)
    case Drop(e) => At(w, e, OpenFailed)
    case Begin(e) => At(w, e, Opened)
    case Publish(e) => At(w, e, Begun)
    case SelfFinalize(e) => At(w, e, SelfClosing)
    case HangUp(_) => true
    case Finish(e) => e < |w.entries| && w.entries[e].end.Ending?
  }

  function Set(w: World, e: nat, x: Entry): World
    requires e < |w.entries|
  {
    w.(entries := w.entries[e := x])
  }

  function Move(w: World, e: nat, p: Phase): World
    requires e < |w.entries|
  {
    Set(w, e, w.entries[e].(phase := p))
  }

  /** The body of stopOnce. */
  function FinishBody(x: Entry): Entry
    requires x.end.Ending?
  {
    if !x.end.started then x.(end := Ended, skips := x.skips + 1)
    else if x.phase.Running? then x.(end := Ended, phase := Closed, finals := x.finals + 1)
    else x.(end := Ended)
  }

  function Step(w: World, ev: Event): World
    requires Enabled(w, ev)
  {
    match ev
    case Arm(c) =>
      if c in w.live then w
      else World(w.live[c := |w.entries|], w.entries + [Entry(c, Idle, NotEnded, 0, 0, 0)])
    case Answer(c) =>
      if Has(w, c) && w.entries[w.live[c]].phase.Idle? then Move(w, w.live[c], Opening) else w
    case Open(e) => Set(w, e, w.entries[e].(phase := Opened, recorders := w.entries[e].recorders + 1))
    case FailOpen(e) => Move(w, e, OpenFailed)
    case Drop(e) => Move(w, e, Dropped).(live := w.live - {w.entries[e].call})
    case Begin(e) => Move(w, e, Begun)
    case Publish(e) =>
      var c := w.entries[e].call;
      if c in w.live && w.live[c] == e then Move(w, e, Running) else Move(w, e, SelfClosing)
    case SelfFinalize(e) => Set(w, e, w.entries[e].(phase := Closed, finals := w.entries[e].finals + 1))
    case HangUp(c) =>
      if Has(w, c) then
        var e := w.live[c];
        Set(w, e, w.entries[e].(end := Ending(!w.entries[e].phase.Idle?))).(live := w.live - {c})
      else w
    case Finish(e) => Set(w, e, FinishBody(w.entries[e]))
  }

  const START := World(map[], [])

  predicate IsRun(es: seq<Event>)
    decreases |es|, 0
  {
    es == [] || (IsRun(es[..|es| - 1]) && Enabled(After(es[..|es| - 1]), es[|es| - 1]))
  }

  function After(es: seq<Event>): World
    requires IsRun(es)
    decreases |es|, 1
  {
    if es == [] then START else Step(After(es[..|es| - 1]), es[|es| - 1])
  }

  /** A failed start drops whatever entry its call has now; the entry it drops when that is not its own. */
  function Victims(w: World, ev: Event): set<nat>
    requires Enabled(w, ev)
  {
    if ev.Drop? && w.entries[ev.e].call in w.live && w.live[w.entries[ev.e].call] != ev.e
    then {w.live[w.entries[ev.e].call]} else {}
  }

  /** Entries that a failed start of another arming took off the map. */
  function Struck(es: seq<Event>): set<nat>
    requires IsRun(es)
  {
    if es == [] then {}
    else Struck(es[..|es| - 1]) + Victims(After(es[..|es| - 1]), es[|es| - 1])
  }

  /** No step of its own will ever touch the entry again. */
  predicate Stuck(w: World, e: nat) {
    At(w, e, Idle) || At(w, e, Running)
  }

  /** Those of them that were waiting for their answer or recording at that moment. */
  function Stranded(es: seq<Event>): set<nat>
    requires IsRun(es)
  {
    if es == [] then {}
    else
      var w, ev := After(es[..|es| - 1]), es[|es| - 1];
      Stranded(es[..|es| - 1]) + set e | e in Victims(w, ev) && Stuck(w, e)
  }

  predicate OwnDropsOnly(es: seq<Event>)
    requires IsRun(es)
  {
    Struck(es) == {}
  }

  // ---- the invariant ----

  predicate IsLive(w: World, e: nat)
    requires e < |w.entries|
  {
    w.entries[e].call in w.live && w.live[w.entries[e].call] == e
  }

  /** What onAnswered, onCallEnded and the failed starts of others may have done to one entry. */
  predicate Consistent(x: Entry, live: bool, struck: bool, stranded: bool) {
    && (live <==> x.end.NotEnded? && !x.phase.Dropped? && !struck)
    && (struck ==> x.end.NotEnded?)
    && (stranded <==> struck && (x.phase.Idle? || x.phase.Running?))
    && (x.end.Ending? ==> x.end.started == !x.phase.Idle?)
    && x.recorders == (if x.phase.Idle? || x.phase.Opening? || x.phase.OpenFailed? || x.phase.Dropped? then 0 else 1)
    && x.finals == (if x.phase.Closed? then 1 else 0)
    && (x.end.NotEnded? && !struck ==> !x.phase.SelfClosing? && !x.phase.Closed?)
    && (x.end.Ended? ==> !x.phase.Running?)
    && x.skips == (if x.end.Ended? && x.phase.Idle? then 1 else 0)
  }

  predicate Sound(w: World, e: nat, struck: set<nat>, stranded: set<nat>)
    requires e < |w.entries|
  {
    Consistent(w.entries[e], IsLive(w, e), e in struck, e in stranded)
  }

  /** Every call in the map has an entry of its own there. */
  predicate MapSound(w: World) {
    forall c :: c in w.live ==> w.live[c] < |w.entries| && w.entries[w.live[c]].call == c
  }

  ghost predicate Inv(w: World, struck: set<nat>, stranded: set<nat>) {
    && MapSound(w)
    && (forall e :: e in struck || e in stranded ==> e < |w.entries|)
    && forall e: nat :: e < |w.entries| ==> Sound(w, e, struck, stranded)
  }

  lemma StepKeepsMap(w: World, ev: Event)
    requires MapSound(w) && Enabled(w, ev)
    ensures MapSound(Step(w, ev))
  {
  }

  predicate ByCall(ev: Event) {
    ev.Arm? || ev.Answer? || ev.HangUp?
  }

  lemma CallStepKeepsEntry(w: World, ev: Event, s: set<nat>, t: set<nat>, e: nat)
    requires Inv(w, s, t) && Enabled(w, ev) && ByCall(ev) && e < |Step(w, ev).entries|
    ensures Sound(Step(w, ev), e, s, t)
  {
    if e < |w.entries| { assert Sound(w, e, s, t); }
  }

  lemma EntryStepKeepsEntry(w: World, ev: Event, s: set<nat>, t: set<nat>, e: nat)
    requires Inv(w, s, t) && Enabled(w, ev) && !ByCall(ev) && e < |Step(w, ev).entries|
    ensures Sound(Step(w, ev), e, s + Victims(w, ev), t + set v | v in Victims(w, ev) && Stuck(w, v))
  {
    assert Sound(w, e, s, t);
  }

  /** The step does to each entry what it may. */
  lemma StepKeepsEntry(w: World, ev: Event, s: set<nat>, t: set<nat>, e: nat)
    requires Inv(w, s, t) && Enabled(w, ev) && e < |Step(w, ev).entries|
    ensures Sound(Step(w, ev), e, s + Victims(w, ev), t + set v | v in Victims(w, ev) && Stuck(w, v))
  {
    hide Inv, Step, Sound, Enabled;
    if ByCall(ev) {
      CallStepKeepsEntry(w, ev, s, t, e);
      assert Victims(w, ev) == {};
      assert s + {} == s && t + (set v | v in Victims(w, ev) && Stuck(w, v)) == t;
    } else {
      EntryStepKeepsEntry(w, ev, s, t, e);
    }
  }

  /** Whoever drops whose entry: the invariant holds in every run. */
  lemma {:induction false} RunKeeps(es: seq<Event>)
    requires IsRun(es)
    ensures Inv(After(es), Struck(es), Stranded(es))
  {
    if es != [] {
      var before, ev := es[..|es| - 1], es[|es| - 1];
      RunKeeps(before);
      var w := After(before);
      StepKeepsMap(w, ev);
      forall e: nat | e < |After(es).entries| ensures Sound(After(es), e, Struck(es), Stranded(es)) {
        StepKeepsEntry(w, ev, Struck(before), Stranded(before), e);
      }
    }
  }

  // ---- exactly once ----

  /** Neither onAnswered nor onCallEnded is still at work on the entry. */
  predicate Settled(x: Entry) {
    && (x.phase.Idle? || x.phase.Dropped? || x.phase.Running? || x.phase.Closed?)
    && !x.end.Ending?
  }

  /** onCallEnded has run for the call of entry e since it was armed, whatever it found in the map. */
  predicate HungUp(es: seq<Event>, e: nat)
    requires IsRun(es)
  {
    es != [] && (HungUp(es[..|es| - 1], e)
                 || (var w := After(es[..|es| - 1]); e < |w.entries| && es[|es| - 1] == HangUp(w.entries[e].call)))
  }

  /** What was recorded is finalized once, and what was never answered has its one skipped row. */
  predicate Handled(x: Entry) {
    x.finals == x.recorders && x.skips == if x.phase.Idle? then 1 else 0
  }

  lemma OffStaysOff(w: World, ev: Event, e: nat)
    requires Enabled(w, ev) && e < |w.entries| && !IsLive(w, e)
    ensures e < |Step(w, ev).entries| && !IsLive(Step(w, ev), e)
  {
  }

  lemma HangUpTakesOff(w: World, e: nat)
    requires e < |w.entries|
    ensures var v := Step(w, HangUp(w.entries[e].call)); e < |v.entries| && !IsLive(v, e)
  {
  }

  lemma {:induction false} HungUpIsOff(es: seq<Event>, e: nat)
    requires IsRun(es) && HungUp(es, e)
    ensures e < |After(es).entries| && !IsLive(After(es), e)
  {
    var before, ev := es[..|es| - 1], es[|es| - 1];
    var w := After(before);
    hide Step, IsLive;
    if HungUp(before, e) {
      HungUpIsOff(before, e);
      OffStaysOff(w, ev, e);
    } else {
      HangUpTakesOff(w, e);
    }
  }

  /** In every run, whatever the starts that fail: once its call is over and the entry is at rest, it is
      handled exactly when no other start dropped it while it was waiting or recording. */
  lemma HandledExactly(es: seq<Event>, e: nat)
    requires IsRun(es) && HungUp(es, e)
    ensures e < |After(es).entries|
    ensures var x := After(es).entries[e]; Settled(x) ==> (Handled(x) <==> e !in Stranded(es))
  {
    RunKeeps(es);
    HungUpIsOff(es, e);
    assert Sound(After(es), e, Struck(es), Stranded(es));
  }

  /** Nothing is finalized or skipped twice or before the call has ended; an entry is off the map only
      if its call has ended or its own start failed, and then it is handled once it is at rest. */
  predicate Accounted(w: World, e: nat)
    requires e < |w.entries|
  {
    var x := w.entries[e];
    && x.finals <= x.recorders <= 1
    && x.skips <= 1
    && (x.finals > 0 || x.skips > 0 ==> !x.end.NotEnded?)
    && (IsLive(w, e) <==> x.end.NotEnded? && !x.phase.Dropped?)
    && (!IsLive(w, e) && Settled(x) ==> Handled(x))
  }

  /** Every recorder of a call that is over is finalized once, and a call that never started gets one skipped row. */
  lemma ExactlyOnce(es: seq<Event>, e: nat)
    requires IsRun(es) && OwnDropsOnly(es) && e < |After(es).entries|
    ensures Accounted(After(es), e)
    ensures HungUp(es, e) && Settled(After(es).entries[e]) ==> Handled(After(es).entries[e])
  {
    RunKeeps(es);
    assert Sound(After(es), e, Struck(es), Stranded(es));
    if HungUp(es, e) { HungUpIsOff(es, e); }
  }

  predicate AllAccounted(w: World) {
    forall e: nat :: e < |w.entries| ==> Accounted(w, e)
  }

  predicate AlwaysAccounted(es: seq<Event>)
    requires IsRun(es)
  {
    AllAccounted(After(es)) && (es == [] || AlwaysAccounted(es[..|es| - 1]))
  }

  /** The books are right at every moment of a run exactly when no start dropped the entry of another. */
  lemma {:induction false} AccountedExactly(es: seq<Event>)
    requires IsRun(es)
    ensures AlwaysAccounted(es) <==> OwnDropsOnly(es)
  {
    if OwnDropsOnly(es) {
      forall e: nat | e < |After(es).entries| ensures Accounted(After(es), e) { ExactlyOnce(es, e); }
    }
    if es != [] {
      var before, ev := es[..|es| - 1], es[|es| - 1];
      AccountedExactly(before);
      if OwnDropsOnly(before) && Victims(After(before), ev) != {} {
        RunKeeps(before);
        var e := After(before).live[After(before).entries[ev.e].call];
        assert Sound(After(before), e, {}, Stranded(before));
        assert !Accounted(After(es), e);
      }
    }
  }

  /** Arming either finds the call live, or the call has never been armed. */
  predicate ArmsNew(w: World, ev: Event) {
    ev.Arm? && ev.call !in w.live ==> forall i :: 0 <= i < |w.entries| ==> w.entries[i].call != ev.call
  }

  predicate NeverRearmed(es: seq<Event>)
    requires IsRun(es)
  {
    es == [] || (NeverRearmed(es[..|es| - 1]) && ArmsNew(After(es[..|es| - 1]), es[|es| - 1]))
  }

  predicate DistinctCalls(w: World) {
    && (forall i, j :: 0 <= i < j < |w.entries| ==> w.entries[i].call != w.entries[j].call)
    && MapSound(w)
  }

  lemma DistinctStep(w: World, ev: Event)
    requires DistinctCalls(w) && Enabled(w, ev) && ArmsNew(w, ev)
    ensures DistinctCalls(Step(w, ev)) && Victims(w, ev) == {}
  {
    hide Step, Victims, Enabled, MapSound;
    CallsStay(w, ev);
    StepKeepsMap(w, ev);
    DistinctHasNoVictims(w, ev);
  }

  lemma CallsStay(w: World, ev: Event)
    requires Enabled(w, ev)
    ensures var v := Step(w, ev);
            && |w.entries| <= |v.entries| <= |w.entries| + 1
            && (forall i :: 0 <= i < |w.entries| ==> v.entries[i].call == w.entries[i].call)
            && (|v.entries| > |w.entries| ==> ev.Arm? && ev.call !in w.live && v.entries[|w.entries|].call == ev.call)
  {
  }

  lemma DistinctHasNoVictims(w: World, ev: Event)
    requires DistinctCalls(w) && Enabled(w, ev)
    ensures Victims(w, ev) == {}
  {
  }

  /** When no call id is armed a second time, every failed start drops its own entry. */
  lemma {:induction false} DistinctCallsDropOwn(es: seq<Event>)
    requires IsRun(es) && NeverRearmed(es)
    ensures OwnDropsOnly(es) && DistinctCalls(After(es))
  {
    if es != [] {
      DistinctCallsDropOwn(es[..|es| - 1]);
      DistinctStep(After(es[..|es| - 1]), es[|es| - 1]);
    }
  }

  /** Steps that an entry still has before it. */
  function Remaining(x: Entry): nat {
    (match x.phase
     case Opening => 5 case Opened => 4 case Begun => 3 case SelfClosing => 1 case OpenFailed => 1
     case _ => 0) + (if x.end.Ending? then 1 else 0)
  }

  /** The next step of an unsettled entry. */
  function NextOf(x: Entry, e: nat): Event
    requires !Settled(x)
  {
    match x.phase
    case Opening => Open(e)
    case Opened => Begin(e)
    case Begun => Publish(e)
    case SelfClosing => SelfFinalize(e)
    case OpenFailed => Drop(e)
    case _ => Finish(e)
  }

  /** Nothing can block an entry: its own next step is enabled and brings it closer to rest. */
  lemma AlwaysSettles(w: World, e: nat)
    requires e < |w.entries| && !Settled(w.entries[e])
    ensures Enabled(w, NextOf(w.entries[e], e))
    ensures Remaining(Step(w, NextOf(w.entries[e], e)).entries[e]) < Remaining(w.entries[e])
  {
  }

  predicate Runs(w: World, es: seq<Event>)
    decreases |es|
  {
    es == [] || (Enabled(w, es[0]) && Runs(Step(w, es[0]), es[1..]))
  }

  function Final(w: World, es: seq<Event>): World
    requires Runs(w, es)
    decreases |es|
  {
    if es == [] then w else Final(Step(w, es[0]), es[1..])
  }

  /** What the steps of one call make of a world in which it is not live. */
  ghost predicate EndsAs(w: World, es: seq<Event>, x: Entry) {
    Runs(w, es) && Final(w, es) == World(w.live, w.entries + [x])
  }

  lemma RunsMore(w: World, ev: Event, es: seq<Event>)
    requires Enabled(w, ev) && Runs(Step(w, ev), es)
    ensures Runs(w, [ev] + es) && Final(w, [ev] + es) == Final(Step(w, ev), es)
  {
  }

  /** The worlds of a call that the list names one by one, each a step after the one before. */
  lemma {:induction false} Follows(ws: seq<World>, es: seq<Event>)
    requires |ws| == |es| + 1
    requires forall i :: 0 <= i < |es| ==> Links(ws[i], es[i], ws[i + 1])
    ensures Runs(ws[0], es) && Final(ws[0], es) == ws[|es|]
  {
    hide Enabled, Step;
    if es != [] {
      assert Links(ws[0], es[0], ws[1]);
      Follows(ws[1..], es[1..]);
      RunsMore(ws[0], es[0], es[1..]);
      assert es == [es[0]] + es[1..];
    }
  }

  /** From any world: an answered call is recorded and finalized once, also when it ends before its recorder is
      published; one that is never answered gets its skipped row; a failed start leaves nothing behind. */
  lemma EveryCallEnds(w: World, c: Call)
    requires c !in w.live
    ensures var e := |w.entries|;
            && EndsAs(w, [Arm(c), Answer(c), Open(e), Begin(e), Publish(e), HangUp(c), Finish(e)],
                      Entry(c, Closed, Ended, 1, 1, 0))
            && EndsAs(w, [Arm(c), Answer(c), Open(e), Begin(e), HangUp(c), Publish(e), SelfFinalize(e), Finish(e)],
                      Entry(c, Closed, Ended, 1, 1, 0))
            && EndsAs(w, [Arm(c), HangUp(c), Finish(e)], Entry(c, Idle, Ended, 0, 0, 1))
            && EndsAs(w, [Arm(c), Answer(c), FailOpen(e), Drop(e)], Entry(c, Dropped, NotEnded, 0, 0, 0))
  {
    Answered(w, c);
    Overtaken(w, c);
    Unanswered(w, c);
  }

  function With(w: World, c: Call, x: Entry): World {
    World(w.live[c := |w.entries|], w.entries + [x])
  }

  function Without(w: World, x: Entry): World {
    World(w.live, w.entries + [x])
  }

  predicate Links(v: World, ev: Event, u: World) {
    Enabled(v, ev) && Step(v, ev) == u
  }

  lemma Arms(w: World, c: Call)
    requires c !in w.live
    ensures Links(w, Arm(c), With(w, c, Entry(c, Idle, NotEnded, 0, 0, 0)))
  {
  }

  /** The steps of the entry of a live call, from onAnswered and onCallEnded. */
  lemma LiveSteps(w: World, c: Call, x: Entry)
    requires c !in w.live && x.call == c
    ensures var e, v := |w.entries|, With(w, c, x);
            && (x.phase.Idle? ==> Links(v, Answer(c), With(w, c, x.(phase := Opening))))
            && (x.phase.Opening? ==> Links(v, Open(e), With(w, c, x.(phase := Opened, recorders := x.recorders + 1))))
            && (x.phase.Opening? ==> Links(v, FailOpen(e), With(w, c, x.(phase := OpenFailed))))
            && (x.phase.OpenFailed? ==> Links(v, Drop(e), Without(w, x.(phase := Dropped))))
            && (x.phase.Opened? ==> Links(v, Begin(e), With(w, c, x.(phase := Begun))))
            && (x.phase.Begun? ==> Links(v, Publish(e), With(w, c, x.(phase := Running))))
            && Links(v, HangUp(c), Without(w, x.(end := Ending(!x.phase.Idle?))))
  {
    assert (w.live[c := |w.entries|]) - {c} == w.live;
  }

  /** The steps of an entry that is off the map. */
  lemma OffSteps(w: World, c: Call, x: Entry)
    requires c !in w.live && x.call == c
    ensures var e, v := |w.entries|, Without(w, x);
            && (x.phase.Begun? ==> Links(v, Publish(e), Without(w, x.(phase := SelfClosing))))
            && (x.phase.SelfClosing? ==> Links(v, SelfFinalize(e), Without(w, x.(phase := Closed, finals := x.finals + 1))))
            && (x.end.Ending? ==> Links(v, Finish(e), Without(w, FinishBody(x))))
  {
  }

  lemma Answered(w: World, c: Call)
    requires c !in w.live
    ensures var e := |w.entries|;
            EndsAs(w, [Arm(c), Answer(c), Open(e), Begin(e), Publish(e), HangUp(c), Finish(e)],
                   Entry(c, Closed, Ended, 1, 1, 0))
  {
    hide Links, With, Without, Runs, Final;
    var e, x := |w.entries|, Entry(c, Running, NotEnded, 1, 0, 0);
    var x1, x2, x6 := Entry(c, Idle, NotEnded, 0, 0, 0), Entry(c, Opening, NotEnded, 0, 0, 0), x.(end := Ending(true));
    Arms(w, c);
    LiveSteps(w, c, x1);
    LiveSteps(w, c, x2);
    LiveSteps(w, c, x.(phase := Opened));
    LiveSteps(w, c, x.(phase := Begun));
    LiveSteps(w, c, x);
    OffSteps(w, c, x6);
    Follows([w, With(w, c, x1), With(w, c, x2), With(w, c, x.(phase := Opened)), With(w, c, x.(phase := Begun)),
             With(w, c, x), Without(w, x6), Without(w, Entry(c, Closed, Ended, 1, 1, 0))],
            [Arm(c), Answer(c), Open(e), Begin(e), Publish(e), HangUp(c), Finish(e)]);
    IsWithout(w, Entry(c, Closed, Ended, 1, 1, 0));
  }

  lemma IsWithout(w: World, x: Entry)
    ensures Without(w, x) == World(w.live, w.entries + [x])
  {
  }

  lemma Overtaken(w: World, c: Call)
    requires c !in w.live
    ensures var e := |w.entries|;
            EndsAs(w, [Arm(c), Answer(c), Open(e), Begin(e), HangUp(c), Publish(e), SelfFinalize(e), Finish(e)],
                   Entry(c, Closed, Ended, 1, 1, 0))
  {
    hide Links, With, Without, Runs, Final;
    var e, x := |w.entries|, Entry(c, Begun, NotEnded, 1, 0, 0);
    var x1, x2, y := Entry(c, Idle, NotEnded, 0, 0, 0), Entry(c, Opening, NotEnded, 0, 0, 0), x.(end := Ending(true));
    Arms(w, c);
    LiveSteps(w, c, x1);
    LiveSteps(w, c, x2);
    LiveSteps(w, c, x.(phase := Opened));
    LiveSteps(w, c, x);
    OffSteps(w, c, y);
    OffSteps(w, c, y.(phase := SelfClosing));
    OffSteps(w, c, y.(phase := Closed, finals := 1));
    Follows([w, With(w, c, x1), With(w, c, x2), With(w, c, x.(phase := Opened)), With(w, c, x), Without(w, y),
             Without(w, y.(phase := SelfClosing)), Without(w, y.(phase := Closed, finals := 1)),
             Without(w, Entry(c, Closed, Ended, 1, 1, 0))],
            [Arm(c), Answer(c), Open(e), Begin(e), HangUp(c), Publish(e), SelfFinalize(e), Finish(e)]);
    IsWithout(w, Entry(c, Closed, Ended, 1, 1, 0));
  }

  lemma Unanswered(w: World, c: Call)
    requires c !in w.live
    ensures var e := |w.entries|;
            && EndsAs(w, [Arm(c), HangUp(c), Finish(e)], Entry(c, Idle, Ended, 0, 0, 1))
            && EndsAs(w, [Arm(c), Answer(c), FailOpen(e), Drop(e)], Entry(c, Dropped, NotEnded, 0, 0, 0))
  {
    hide Links, With, Without, Runs, Final;
    var e, x := |w.entries|, Entry(c, Idle, NotEnded, 0, 0, 0);
    Arms(w, c);
    LiveSteps(w, c, x);
    LiveSteps(w, c, x.(phase := Opening));
    LiveSteps(w, c, x.(phase := OpenFailed));
    OffSteps(w, c, x.(end := Ending(false)));
    Follows([w, With(w, c, x), Without(w, x.(end := Ending(false))), Without(w, Entry(c, Idle, Ended, 0, 0, 1))],
            [Arm(c), HangUp(c), Finish(e)]);
    Follows([w, With(w, c, x), With(w, c, x.(phase := Opening)), With(w, c, x.(phase := OpenFailed)),
             Without(w, x.(phase := Dropped))],
            [Arm(c), Answer(c), FailOpen(e), Drop(e)]);
    IsWithout(w, Entry(c, Idle, Ended, 0, 0, 1));
    IsWithout(w, x.(phase := Dropped));
  }

  // ---- where it fails ----

  /** One call id armed again while its first start is failing. */
  function Rearmed(c: Call): seq<Event> {
    [Arm(c), Answer(c), FailOpen(0), HangUp(c), Finish(0), Arm(c), Answer(c), Open(1), Begin(1), Publish(1), Drop(0), HangUp(c)]
  }

  lemma {:induction false} RunGrows(es: seq<Event>, ev: Event)
    requires IsRun(es) && Enabled(After(es), ev)
    ensures IsRun(es + [ev]) && After(es + [ev]) == Step(After(es), ev)
  {
  }

  lemma HangsUpNow(es: seq<Event>, e: nat)
    requires IsRun(es) && e < |After(es).entries|
    ensures var ev := HangUp(After(es).entries[e].call); IsRun(es + [ev]) && HungUp(es + [ev], e)
  {
    var ev := HangUp(After(es).entries[e].call);
    assert (es + [ev])[..|es|] == es;
  }

  lemma {:induction false} ReplayRuns(c: Call, i: nat)
    requires i <= 12
    ensures IsRun(Rearmed(c)[..i]) && After(Rearmed(c)[..i]) == Replay(c, i)
  {
    hide Enabled, Step;
    if i > 0 {
      hide Replay;
      var es, ev := Rearmed(c)[..i - 1], Rearmed(c)[i - 1];
      ReplayRuns(c, i - 1);
      ReplayEnabled(c, i - 1);
      RunGrows(es, ev);
      assert Rearmed(c)[..i] == es + [ev];
    }
  }

  /** The recorder of the second arming is then running for ever: the call is over and nothing will close it. */
  lemma RearmedLeaksRecorder(c: Call)
    ensures IsRun(Rearmed(c)) && |After(Rearmed(c)).entries| == 2
    ensures var x := After(Rearmed(c)).entries[1];
            && HungUp(Rearmed(c), 1) && c !in After(Rearmed(c)).live
            && Settled(x) && x.recorders == 1 && x.finals == 0 && x.phase.Running? && x.end.NotEnded?
    ensures 1 in Stranded(Rearmed(c))
  {
    hide IsRun, After, HungUp, Stranded, Step, Enabled;
    var all := Rearmed(c);
    ReplayRuns(c, 11);
    HangsUpNow(all[..11], 1);
    ReplayRuns(c, 12);
    assert all[..12] == all == all[..11] + [HangUp(c)];
    HandledExactly(all, 1);
  }

  /** The worlds of that run, one by one. */
  function Replay(c: Call, i: nat): World {
    var one := map[c := 0];
    var two := map[c := 1];
    var gone := Entry(c, OpenFailed, Ended, 0, 0, 0);
    if i == 0 then START
    else if i == 1 then World(one, [Entry(c, Idle, NotEnded, 0, 0, 0)])
    else if i == 2 then World(one, [Entry(c, Opening, NotEnded, 0, 0, 0)])
    else if i == 3 then World(one, [Entry(c, OpenFailed, NotEnded, 0, 0, 0)])
    else if i == 4 then World(map[], [Entry(c, OpenFailed, Ending(true), 0, 0, 0)])
    else if i == 5 then World(map[], [gone])
    else if i == 6 then World(two, [gone, Entry(c, Idle, NotEnded, 0, 0, 0)])
    else if i == 7 then World(two, [gone, Entry(c, Opening, NotEnded, 0, 0, 0)])
    else if i == 8 then World(two, [gone, Entry(c, Opened, NotEnded, 1, 0, 0)])
    else if i == 9 then World(two, [gone, Entry(c, Begun, NotEnded, 1, 0, 0)])
    else if i == 10 then World(two, [gone, Entry(c, Running, NotEnded, 1, 0, 0)])
    else World(map[], [gone.(phase := Dropped), Entry(c, Running, NotEnded, 1, 0, 0)])
  }

  lemma ReplayEnabled(c: Call, i: nat)
    requires i < |Rearmed(c)|
    ensures Enabled(Replay(c, i), Rearmed(c)[i]) && Step(Replay(c, i), Rearmed(c)[i]) == Replay(c, i + 1)
  {
  }
}
