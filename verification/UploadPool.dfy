/** The upload queue, its workers and pausing: enqueue, worker, pause and resume of cmd/server/recording_ctl.go. */
module UploadPool {

  type Id = string

  const QUEUE_CAP: nat := 512

  /** Where a worker is in its loop. */
  datatype Worker =
    | Waiting
    | Took(id: Id)      // received, not yet counted busy
    | Counted(id: Id)   // counted busy, paused not yet read
    | Working(id: Id)   // inside processRecording
    | Leaving(id: Id)   // done or skipped, still counted busy
    | Releasing(id: Id) // no longer counted, claim still held

  /** An enqueuer between its claim and its send, or between a full queue and giving the claim back. */
  datatype Claim = Sending(id: Id) | GivingUp(id: Id)

  /** A pauser: set, then polling; `broken` once somebody resumed meanwhile. */
  datatype Pauser = Polling(broken: bool) | Returned(broken: bool) | TimedOut

  datatype Pool = Pool(
    inflight: set<Id>, claims: seq<Claim>, queue: seq<Id>, workers: seq<Worker>,
    paused: bool, busy: int, pausers: seq<Pauser>)

  datatype Event =
    | Enqueue(id: Id)
    | Send(claim: nat)
    | GiveUp(claim: nat)
    | Take(worker: nat)
    | Count(worker: nat)
    | Look(worker: nat)
    | Done(worker: nat)
    | Uncount(worker: nat)
    | Release(worker: nat)
    | Pause
    | Poll(pauser: nat)
    | Expire(pauser: nat)
    | Resume

  predicate Holds(w: Worker, id: Id) {
    !w.Waiting? && w.id == id
  }

  predicate IsBusy(w: Worker) {
    w.Counted? || w.Working? || w.Leaving?
  }

  predicate Enabled(p: Pool, ev: Event) {
    match ev
    case Enqueue(_) => true
    case Send(i) => i < |p.claims| && p.claims[i].Sending?
    case GiveUp(i) => i < |p.claims| && p.claims[i].GivingUp?
    case Take(k) => k < |p.workers| && p.workers[k].Waiting? && p.queue != []
    case Count(k) => k < |p.workers| && p.workers[k].Took?
    case Look(k) => k < |p.workers| && p.workers[k].Counted?
    case Done(k) => k < |p.workers| && p.workers[k].Working?
    case Uncount(k) => k < |p.workers| && p.workers[k].Leaving?
    case Release(k) => k < |p.workers| && p.workers[k].Releasing?
    case Pause => true
    case Poll(j) => j < |p.pausers| && p.pausers[j].Polling?
    case Expire(j) => j < |p.pausers| && p.pausers[j].Polling? && p.busy > 0
    case Resume => true
  }

  function Without<T>(s: seq<T>, i: nat): seq<T>
    requires i < |s|
  {
    s[..i] + s[i + 1..]
  }

  function Break(q: Pauser): Pauser {
    match q
    case Polling(_) => Polling(true)
    case Returned(_) => Returned(true)
    case TimedOut => TimedOut
  }

  function BreakAll(qs: seq<Pauser>): (r: seq<Pauser>)
    ensures |r| == |qs| && forall j :: 0 <= j < |qs| ==> r[j] == Break(qs[j])
  {
    seq(|qs|, j requires 0 <= j < |qs| => Break(qs[j]))
  }

  function Step(p: Pool, ev: Event): Pool
    requires Enabled(p, ev)
  {
    match ev
    case Enqueue(id) =>
      if id in p.inflight then p else p.(inflight := p.inflight + {id}, claims := p.claims + [Sending(id)])
    case Send(i) =>
      if |p.queue| < QUEUE_CAP then
        p.(claims := Without(p.claims, i), queue := p.queue + [p.claims[i].id])
      else p.(claims := p.claims[i := GivingUp(p.claims[i].id)])
    case GiveUp(i) => p.(claims := Without(p.claims, i), inflight := p.inflight - {p.claims[i].id})
    case Take(k) => p.(queue := p.queue[1..], workers := p.workers[k := Took(p.queue[0])])
    case Count(k) => p.(busy := p.busy + 1, workers := p.workers[k := Counted(p.workers[k].id)])
    case Look(k) =>
      p.(workers := p.workers[k := if p.paused then Leaving(p.workers[k].id) else Working(p.workers[k].id)])
    case Done(k) => p.(workers := p.workers[k := Leaving(p.workers[k].id)])
    case Uncount(k) => p.(busy := p.busy - 1, workers := p.workers[k := Releasing(p.workers[k].id)])
    case Release(k) => p.(inflight := p.inflight - {p.workers[k].id}, workers := p.workers[k := Waiting])
    case Pause => p.(paused := true, pausers := p.pausers + [Polling(false)])
    case Poll(j) => if p.busy > 0 then p else p.(pausers := p.pausers[j := Returned(p.pausers[j].broken)])
    case Expire(j) => p.(pausers := p.pausers[j := TimedOut])
    case Resume => p.(paused := false, pausers := BreakAll(p.pausers))
  }

  predicate Initial(p: Pool) {
    && p.inflight == {} && p.claims == [] && p.queue == [] && !p.paused && p.busy == 0 && p.pausers == []
    && forall k :: 0 <= k < |p.workers| ==> p.workers[k].Waiting?
  }

  predicate IsRun(p: Pool, es: seq<Event>)
    decreases |es|, 0
  {
    es == [] || (IsRun(p, es[..|es| - 1]) && Enabled(After(p, es[..|es| - 1]), es[|es| - 1]))
  }

  function After(p: Pool, es: seq<Event>): Pool
    requires IsRun(p, es)
    decreases |es|, 1
  {
    if es == [] then p else Step(After(p, es[..|es| - 1]), es[|es| - 1])
  }

  // ---- who holds an id ----

  function Bit(b: bool): nat {
    if b then 1 else 0
  }

  function ClaimCount(cs: seq<Claim>, id: Id): nat {
    if cs == [] then 0 else ClaimCount(cs[..|cs| - 1], id) + Bit(cs[|cs| - 1].id == id)
  }

  function QueueCount(q: seq<Id>, id: Id): nat {
    if q == [] then 0 else Bit(q[0] == id) + QueueCount(q[1..], id)
  }

  function WorkerCount(ws: seq<Worker>, id: Id): nat {
    if ws == [] then 0 else WorkerCount(ws[..|ws| - 1], id) + Bit(Holds(ws[|ws| - 1], id))
  }

  /** Pending claims, queue slots and workers that hold the id. */
  function Holders(p: Pool, id: Id): nat {
    ClaimCount(p.claims, id) + QueueCount(p.queue, id) + WorkerCount(p.workers, id)
  }

  function BusyCount(ws: seq<Worker>): nat {
    if ws == [] then 0 else BusyCount(ws[..|ws| - 1]) + Bit(IsBusy(ws[|ws| - 1]))
  }

  lemma {:induction false} ClaimRemoved(cs: seq<Claim>, i: nat, id: Id)
    requires i < |cs|
    ensures ClaimCount(Without(cs, i), id) + Bit(cs[i].id == id) == ClaimCount(cs, id)
  {
    var n := |cs|;
    if i == n - 1 {
      assert Without(cs, i) == cs[..n - 1];
    } else {
      ClaimRemoved(cs[..n - 1], i, id);
      var rest := Without(cs, i);
      assert rest[|rest| - 1] == cs[n - 1] && rest[..|rest| - 1] == Without(cs[..n - 1], i);
    }
  }

  lemma {:induction false} ClaimSame(cs: seq<Claim>, i: nat, c: Claim, id: Id)
    requires i < |cs| && c.id == cs[i].id
    ensures ClaimCount(cs[i := c], id) == ClaimCount(cs, id)
  {
    var n := |cs|;
    if i == n - 1 {
      assert cs[i := c][..n - 1] == cs[..n - 1];
    } else {
      ClaimSame(cs[..n - 1], i, c, id);
      assert cs[i := c][..n - 1] == cs[..n - 1][i := c];
    }
  }

  lemma ClaimAdded(cs: seq<Claim>, c: Claim, id: Id)
    ensures ClaimCount(cs + [c], id) == ClaimCount(cs, id) + Bit(c.id == id)
  {
  }

  lemma {:induction false} QueueAdded(q: seq<Id>, x: Id, id: Id)
    ensures QueueCount(q + [x], id) == QueueCount(q, id) + Bit(x == id)
  {
    if q == [] {
      assert [] + [x] == [x];
      assert QueueCount([x], id) == Bit(x == id) + QueueCount([x][1..], id);
    } else {
      QueueAdded(q[1..], x, id);
      assert (q + [x])[1..] == q[1..] + [x];
    }
  }

  lemma {:induction false} WorkerChanged(ws: seq<Worker>, k: nat, w: Worker, id: Id)
    requires k < |ws|
    ensures WorkerCount(ws[k := w], id) + Bit(Holds(ws[k], id)) == WorkerCount(ws, id) + Bit(Holds(w, id))
    ensures BusyCount(ws[k := w]) + Bit(IsBusy(ws[k])) == BusyCount(ws) + Bit(IsBusy(w))
  {
    var n := |ws|;
    if k == n - 1 {
      assert ws[k := w][..n - 1] == ws[..n - 1];
    } else {
      WorkerChanged(ws[..n - 1], k, w, id);
      assert ws[k := w][..n - 1] == ws[..n - 1][k := w];
    }
  }

  lemma {:induction false} WorkerCounts(ws: seq<Worker>, k: nat, id: Id)
    requires k < |ws|
    ensures IsBusy(ws[k]) ==> BusyCount(ws) > 0
    ensures Holds(ws[k], id) ==> WorkerCount(ws, id) > 0
  {
    if k < |ws| - 1 { WorkerCounts(ws[..|ws| - 1], k, id); }
  }

  // ---- the invariant ----

  /** A pauser that came back and was not undone sees no worker at work. */
  ghost predicate Quiet(p: Pool) {
    forall j :: 0 <= j < |p.pausers| ==>
      (p.pausers[j].Polling? || p.pausers[j].Returned?) && !p.pausers[j].broken ==>
        p.paused && (p.pausers[j].Returned? ==> forall k :: 0 <= k < |p.workers| ==> !p.workers[k].Working?)
  }

  ghost predicate HeldOnce(p: Pool, id: Id) {
    Holders(p, id) == Bit(id in p.inflight)
  }

  ghost predicate Inv(p: Pool) {
    && (forall id :: HeldOnce(p, id))
    && p.busy == BusyCount(p.workers)
    && Quiet(p)
  }

  lemma {:induction false} NothingHeld(ws: seq<Worker>, id: Id)
    requires forall k :: 0 <= k < |ws| ==> ws[k].Waiting?
    ensures WorkerCount(ws, id) == 0 && BusyCount(ws) == 0
  {
    if ws != [] { NothingHeld(ws[..|ws| - 1], id); }
  }

  predicate OfWorker(ev: Event) {
    ev.Take? || ev.Count? || ev.Look? || ev.Done? || ev.Uncount? || ev.Release?
  }

  lemma WorkerStepKeepsHeld(p: Pool, ev: Event, id: Id)
    requires Inv(p) && Enabled(p, ev) && OfWorker(ev)
    ensures HeldOnce(Step(p, ev), id)
  {
    assert HeldOnce(p, id);
    WorkerChanged(p.workers, ev.worker, Step(p, ev).workers[ev.worker], id);
  }

  lemma ClaimStepKeepsHeld(p: Pool, ev: Event, id: Id)
    requires Inv(p) && Enabled(p, ev) && !OfWorker(ev)
    ensures HeldOnce(Step(p, ev), id)
  {
    assert HeldOnce(p, id);
    match ev {
      case Enqueue(x) => ClaimAdded(p.claims, Sending(x), id);
      case Send(i) => {
        ClaimRemoved(p.claims, i, id);
        ClaimSame(p.claims, i, GivingUp(p.claims[i].id), id);
        QueueAdded(p.queue, p.claims[i].id, id);
      }
      case GiveUp(i) => ClaimRemoved(p.claims, i, id);
      case _ =>
    }
  }

  lemma StepKeepsHeld(p: Pool, ev: Event, id: Id)
    requires Inv(p) && Enabled(p, ev)
    ensures HeldOnce(Step(p, ev), id)
  {
    hide Inv, Step, HeldOnce;
    if OfWorker(ev) { WorkerStepKeepsHeld(p, ev, id); } else { ClaimStepKeepsHeld(p, ev, id); }
  }

  lemma StepKeepsBusy(p: Pool, ev: Event)
    requires Inv(p) && Enabled(p, ev)
    ensures Step(p, ev).busy == BusyCount(Step(p, ev).workers)
  {
    var q := Step(p, ev);
    match ev {
      case Take(k) => WorkerChanged(p.workers, k, q.workers[k], "");
      case Count(k) => WorkerChanged(p.workers, k, q.workers[k], "");
      case Look(k) => WorkerChanged(p.workers, k, q.workers[k], "");
      case Done(k) => WorkerChanged(p.workers, k, q.workers[k], "");
      case Uncount(k) => WorkerChanged(p.workers, k, q.workers[k], "");
      case Release(k) => WorkerChanged(p.workers, k, q.workers[k], "");
      case _ =>
    }
  }

  lemma StepKeepsQuiet(p: Pool, ev: Event)
    requires Inv(p) && Enabled(p, ev)
    ensures Quiet(Step(p, ev))
  {
    if ev.Poll? && p.busy == 0 {
      forall k: nat | k < |p.workers| ensures !p.workers[k].Working? { WorkerCounts(p.workers, k, ""); }
    }
  }

  lemma {:induction false} RunKeeps(p: Pool, es: seq<Event>)
    requires Initial(p) && IsRun(p, es)
    ensures Inv(After(p, es)) && |After(p, es).workers| == |p.workers|
  {
    if es == [] {
      forall x ensures HeldOnce(p, x) { NothingHeld(p.workers, x); }
      NothingHeld(p.workers, "");
    } else {
      RunKeeps(p, es[..|es| - 1]);
      var q, ev := After(p, es[..|es| - 1]), es[|es| - 1];
      forall x ensures HeldOnce(Step(q, ev), x) { StepKeepsHeld(q, ev, x); }
      StepKeepsBusy(q, ev);
      StepKeepsQuiet(q, ev);
    }
  }

  // ---- what the pool promises ----

  /** inflight is the disjoint union of pending claims, queued ids and ids in a worker's hands. */
  lemma InflightIsHeldOnce(p: Pool, es: seq<Event>, id: Id)
    requires Initial(p) && IsRun(p, es)
    ensures var q := After(p, es);
            ClaimCount(q.claims, id) + QueueCount(q.queue, id) + WorkerCount(q.workers, id) == if id in q.inflight then 1 else 0
  {
    RunKeeps(p, es);
    assert HeldOnce(After(p, es), id);
  }

  lemma {:induction false} TwoHoldTwice(ws: seq<Worker>, i: nat, j: nat, id: Id)
    requires i < j < |ws| && Holds(ws[i], id) && Holds(ws[j], id)
    ensures WorkerCount(ws, id) >= 2
  {
    if j < |ws| - 1 {
      TwoHoldTwice(ws[..|ws| - 1], i, j, id);
    } else {
      WorkerCounts(ws[..|ws| - 1], i, id);
    }
  }

  /** No recording is in two workers' hands at once. */
  lemma NeverTwice(p: Pool, es: seq<Event>, i: nat, j: nat, id: Id)
    requires Initial(p) && IsRun(p, es) && i < j < |After(p, es).workers|
    ensures !(Holds(After(p, es).workers[i], id) && Holds(After(p, es).workers[j], id))
  {
    var ws := After(p, es).workers;
    if Holds(ws[i], id) && Holds(ws[j], id) {
      TwoHoldTwice(ws, i, j, id);
      InflightIsHeldOnce(p, es, id);
    }
  }

  lemma {:induction false} SomebodyBusy(ws: seq<Worker>)
    ensures BusyCount(ws) > 0 <==> exists k: nat :: k < |ws| && IsBusy(ws[k])
  {
    if ws != [] {
      var rest := ws[..|ws| - 1];
      SomebodyBusy(rest);
      if k: nat :| k < |ws| && IsBusy(ws[k]) { assert k == |ws| - 1 || IsBusy(rest[k]); }
    }
  }

  /** A poll ends the pause exactly when no worker is counted, works or leaves; otherwise it may time out. */
  lemma PollDecides(p: Pool, es: seq<Event>, j: nat)
    requires Initial(p) && IsRun(p, es) && Enabled(After(p, es), Poll(j))
    ensures var q := After(p, es); var busy := exists k: nat :: k < |q.workers| && IsBusy(q.workers[k]);
            && (Step(q, Poll(j)).pausers[j].Returned? <==> !busy)
            && (Enabled(q, Expire(j)) <==> busy)
  {
    RunKeeps(p, es);
    SomebodyBusy(After(p, es).workers);
  }

  /** The pauser of the pause at place i of the run. */
  function PauserOf(p: Pool, es: seq<Event>, i: nat): nat
    requires IsRun(p, es) && i < |es|
  {
    PrefixRuns(p, es, i);
    |After(p, es[..i]).pausers|
  }

  lemma {:induction false} PrefixRuns(p: Pool, es: seq<Event>, i: nat)
    requires IsRun(p, es) && i <= |es|
    ensures IsRun(p, es[..i])
  {
    if i == |es| {
      assert es[..i] == es;
    } else {
      PrefixRuns(p, es[..|es| - 1], i);
      assert es[..|es| - 1][..i] == es[..i];
    }
  }

  lemma {:induction false} StaysUnbroken(p: Pool, es: seq<Event>, i: nat)
    requires IsRun(p, es) && i < |es| && es[i].Pause? && forall n :: i < n < |es| ==> !es[n].Resume?
    ensures PauserOf(p, es, i) < |After(p, es).pausers|
    ensures var q := After(p, es).pausers[PauserOf(p, es, i)]; q.TimedOut? || !q.broken
    ensures After(p, es).paused
  {
    var before := es[..|es| - 1];
    if i < |es| - 1 {
      StaysUnbroken(p, before, i);
      assert before[..i] == es[..i];
      PrefixRuns(p, es, i);
    }
  }

  /** Once a pause has returned, and as long as nobody resumes after it began, no worker is inside processRecording. */
  lemma PauseHolds(p: Pool, es: seq<Event>, i: nat, k: nat)
    requires Initial(p) && IsRun(p, es) && i < |es| && es[i].Pause? && forall n :: i < n < |es| ==> !es[n].Resume?
    requires PauserOf(p, es, i) < |After(p, es).pausers| && After(p, es).pausers[PauserOf(p, es, i)].Returned?
    requires k < |After(p, es).workers|
    ensures After(p, es).paused && !After(p, es).workers[k].Working?
  {
    RunKeeps(p, es);
    StaysUnbroken(p, es, i);
  }

  /** Handing a recording over is all or nothing: an id already in flight changes nothing, a new one takes the last
      place of the queue, and a queue of 512 gives the claim back. */
  lemma Enqueued(p: Pool, es: seq<Event>, id: Id)
    requires Initial(p) && IsRun(p, es)
    ensures var q := After(p, es); var i := |q.claims|;
            if Holders(q, id) > 0 then Step(q, Enqueue(id)) == q
            else
              && Enabled(Step(q, Enqueue(id)), Send(i))
              && var sent := Step(Step(q, Enqueue(id)), Send(i));
              if |q.queue| < 512 then sent == q.(queue := q.queue + [id], inflight := q.inflight + {id})
              else Enabled(sent, GiveUp(i)) && Step(sent, GiveUp(i)) == q
  {
    RunKeeps(p, es);
    var q := After(p, es);
    assert HeldOnce(q, id);
    var i := |q.claims|;
    assert Without(q.claims + [Sending(id)], i) == q.claims;
    assert Without(q.claims + [GivingUp(id)], i) == q.claims;
    assert (q.claims + [Sending(id)])[i := GivingUp(id)] == q.claims + [GivingUp(id)];
  }

  // ---- and what it does not ----

  lemma {:induction false} RunPrepends(p: Pool, ev: Event, es: seq<Event>)
    requires Enabled(p, ev) && IsRun(Step(p, ev), es)
    ensures IsRun(p, [ev] + es) && After(p, [ev] + es) == After(Step(p, ev), es)
    decreases |es|
  {
    hide Enabled, Step;
    var all := [ev] + es;
    if es == [] {
      assert all[..0] == [];
    } else {
      RunPrepends(p, ev, es[..|es| - 1]);
      assert all[..|all| - 1] == [ev] + es[..|es| - 1];
    }
  }

  lemma {:induction false} RunJoins(p: Pool, es: seq<Event>, more: seq<Event>)
    requires IsRun(p, es) && IsRun(After(p, es), more)
    ensures IsRun(p, es + more) && After(p, es + more) == After(After(p, es), more)
    decreases |more|
  {
    hide Enabled, Step;
    var all := es + more;
    if more == [] {
      assert all == es;
    } else {
      RunJoins(p, es, more[..|more| - 1]);
      assert all[..|all| - 1] == es + more[..|more| - 1];
    }
  }

  function Name(n: nat): (id: Id)
    ensures |id| == n
  {
    seq(n, i => 'x')
  }

  lemma {:induction false} NamesAreMany(s: set<Id>, n: nat)
    requires forall i: nat :: i < n ==> Name(i) in s
    ensures |s| >= n
  {
    if n > 0 { NamesAreMany(s - {Name(n - 1)}, n - 1); }
  }

  lemma NewName(s: set<Id>) returns (id: Id)
    ensures id !in s
  {
    var n := 0;
    while Name(n) in s
      invariant forall i: nat :: i < n ==> Name(i) in s
      decreases |s| - n
    {
      NamesAreMany(s, n + 1);
      n := n + 1;
    }
    id := Name(n);
  }

  /** Steps between the first worker and its next upload. */
  function Distance(p: Pool): nat
    requires p.workers != []
  {
    match p.workers[0]
    case Working(_) => 0
    case Counted(_) => 1
    case Took(_) => 2
    case Waiting => if p.queue != [] then 3 else 4
    case Releasing(_) => 5
    case Leaving(_) => 6
  }

  /** The next of these steps; an empty queue is filled first. */
  function NextStep(p: Pool): Event
    requires p.workers != [] && Distance(p) > 0 && Distance(p) != 4
  {
    match p.workers[0]
    case Counted(_) => Look(0)
    case Took(_) => Count(0)
    case Waiting => Take(0)
    case Releasing(_) => Release(0)
    case _ => Uncount(0)
  }

  lemma StepsNearer(p: Pool)
    requires !p.paused && p.workers != [] && Distance(p) > 0 && Distance(p) != 4
    ensures Enabled(p, NextStep(p))
    ensures var q := Step(p, NextStep(p)); !q.paused && q.pausers == p.pausers && q.workers != [] && Distance(q) < Distance(p)
  {
  }

  lemma FillsQueue(p: Pool, id: Id)
    requires !p.paused && p.workers != [] && Distance(p) == 4 && id !in p.inflight
    ensures Enabled(p, Enqueue(id)) && Enabled(Step(p, Enqueue(id)), Send(|p.claims|))
    ensures
      var q := Step(Step(p, Enqueue(id)), Send(|p.claims|));
      !q.paused && q.pausers == p.pausers && q.workers == p.workers && Distance(q) == 3
  {
  }

  lemma {:induction false} SomebodyWorks(p: Pool) returns (es: seq<Event>)
    requires !p.paused && p.workers != []
    ensures IsRun(p, es) && After(p, es).pausers == p.pausers
    ensures After(p, es).workers != [] && After(p, es).workers[0].Working?
    decreases Distance(p)
  {
    if Distance(p) == 0 {
      es := [];
    } else if Distance(p) == 4 {
      var id := NewName(p.inflight);
      FillsQueue(p, id);
      var p1 := Step(p, Enqueue(id));
      es := SomebodyWorks(Step(p1, Send(|p.claims|)));
      RunPrepends(p1, Send(|p.claims|), es);
      RunPrepends(p, Enqueue(id), [Send(|p.claims|)] + es);
      es := [Enqueue(id)] + ([Send(|p.claims|)] + es);
    } else {
      StepsNearer(p);
      es := SomebodyWorks(Step(p, NextStep(p)));
      RunPrepends(p, NextStep(p), es);
      es := [NextStep(p)] + es;
    }
  }

  /** Once somebody has resumed and nobody paused since, every pool with a worker can come to have an upload running,
      while all that returned from pause stay returned. */
  lemma ResumeUndoesPause(p: Pool, es: seq<Event>) returns (more: seq<Event>)
    requires IsRun(p, es) && !After(p, es).paused && After(p, es).workers != []
    ensures IsRun(p, es + more) && After(p, es + more).pausers == After(p, es).pausers
    ensures After(p, es + more).workers != [] && After(p, es + more).workers[0].Working?
  {
    more := SomebodyWorks(After(p, es));
    RunJoins(p, es, more);
  }

  const ONE_WORKER := Pool({}, [], [], [Waiting], false, 0, [])

  /** A pauser that has returned meanwhile is one of them. */
  lemma PauseReturnsTooLate()
    ensures
      var es := [Pause, Resume, Poll(0)];
      && Initial(ONE_WORKER) && IsRun(ONE_WORKER, es) && !After(ONE_WORKER, es).paused
      && After(ONE_WORKER, es).pausers == [Returned(true)] && After(ONE_WORKER, es).workers != []
  {
    var p1 := Step(ONE_WORKER, Pause);
    var p2 := Step(p1, Resume);
    var p3 := Step(p2, Poll(0));
    assert p3.pausers == [Returned(true)] && !p3.paused && p3.workers != [];
    assert IsRun(p3, []) && After(p3, []) == p3;
    hide Step, IsRun, After;
    RunPrepends(p2, Poll(0), []);
    RunPrepends(p1, Resume, [Poll(0)] + []);
    RunPrepends(ONE_WORKER, Pause, [Resume] + ([Poll(0)] + []));
    assert [Pause] + ([Resume] + ([Poll(0)] + [])) == [Pause, Resume, Poll(0)];
  }
}
