/** One recording from capture to hand-off, with a crash possible between any two steps:
    cmd/server/recording_ctl.go, recording_handoff.go, recordingstore.go. */
module RecordingHandoff {

  const WAV_HEADER: nat := 44
  const SAMPLE_RATE: nat := 16000
  const CHANNELS: nat := 2
  const NS_PER_SAMPLE: nat := 62500
  const MIN_RECORDING_MS: nat := 5000

  datatype Status = NoRow | Recording | Uploading | Ready | Failed | Skipped

  datatype Opt = None | Some(bytes: nat)

  /** The capture and, after it, finalizeRecording. `frames` are the stereo frames committed so far. */
  datatype Capture =
    | NotStarted
    | Created                 // file made, row not yet written
    | Capturing
    | Measured(ms: nat)       // closed, duration known
    | FailedClose             // the file could not be completed
    | Discarding              // marked skipped, file not yet removed
    | Over

  /** resumeOnBoot at this row. */
  datatype Boot = Resting | Stale | BootDiscarding

  /** A worker inside processRecording with the row it read. */
  datatype Worker =
    | Free
    | GotRow(status: Status)
    | Opened(size: nat)
    | Sent(size: nat)
    | Verified(size: nat)
    | Marked(size: nat)

  datatype World = World(
    row: Status, file: Opt, remote: Opt, frames: nat, capture: Capture, boot: Boot, worker: Worker,
    audio: Opt) // size of the file when the capture ended, by closing or by a crash

  datatype Event =
    | CreateFile
    | InsertRow
    | Append(n: nat)
    | Close(ok: bool)
    | Finalize
    | Discard
    | Crash(left: nat)
    | SweepRow
    | Salvage
    | BootDiscard
    | ReadRow
    | OpenFile
    | PutObject(stored: Opt)
    | HeadObject
    | FailUpload
    | MarkUploaded
    | RemoveLocal

  function FileBytes(frames: nat): nat {
    WAV_HEADER + frames * CHANNELS * 2
  }

  /** durationLocked, in milliseconds. */
  function DurationMs(frames: nat): nat {
    frames * NS_PER_SAMPLE / 1_000_000
  }

  /** ApproxDurationMs */
  function ApproxDurationMs(bytes: nat): nat {
    if bytes <= WAV_HEADER then 0 else (bytes - WAV_HEADER) * 1000 / (SAMPLE_RATE * CHANNELS * 2)
  }

  /** The measured duration and the one estimated from the file agree to the millisecond. */
  lemma DurationsAgree(frames: nat)
    ensures DurationMs(frames) == ApproxDurationMs(FileBytes(frames))
  {
  }

  predicate InCapture(w: World) {
    w.capture.Created? || w.capture.Capturing?
  }

  predicate Enabled(w: World, ev: Event) {
    match ev
    case CreateFile => w.capture.NotStarted? && w.row.NoRow?
    case InsertRow => w.capture.Created?
    case Append(_) => InCapture(w)
    case Close(_) => w.capture.Capturing?
    case Finalize => w.capture.Measured? || w.capture.FailedClose?
    case Discard => w.capture.Discarding?
    case Crash(left) => InCapture(w) ==> left <= FileBytes(w.frames)
    case SweepRow => w.row.Recording? && w.boot.Resting?
    case Salvage => w.boot.Stale?
    case BootDiscard => w.boot.BootDiscarding?
    case ReadRow => w.worker.Free?
    case OpenFile => w.worker.GotRow?
    case PutObject(_) => w.worker.Opened?
    case HeadObject => w.worker.Sent?
    case FailUpload => w.worker.Opened? || w.worker.Sent?
    case MarkUploaded => w.worker.Verified?
    case RemoveLocal => w.worker.Marked?
  }

  /** What a crash leaves of an ongoing capture: some prefix of the file. */
  function Left(w: World, left: nat): World {
    if InCapture(w) then w.(file := Some(left), audio := Some(left)) else w
  }

  function Step(w: World, ev: Event): World
    requires Enabled(w, ev)
  {
    match ev
    case CreateFile => w.(capture := Created, file := Some(FileBytes(0)), frames := 0)
    case InsertRow => w.(capture := Capturing, row := Recording)
    case Append(n) => w.(frames := w.frames + n, file := if w.file.Some? then Some(FileBytes(w.frames + n)) else None)
    case Close(ok) =>
      w.(capture := if ok then Measured(DurationMs(w.frames)) else FailedClose, audio := Some(FileBytes(w.frames)))
    case Finalize =>
      if w.capture.FailedClose? then w.(row := Failed, capture := Over)
      else if w.capture.ms < MIN_RECORDING_MS then w.(row := Skipped, capture := Discarding)
      else w.(row := Uploading, capture := Over)
    case Discard => w.(file := None, capture := Over)
    case Crash(left) => Left(w, left).(capture := if w.capture.NotStarted? then NotStarted else Over, boot := Resting, worker := Free)
    case SweepRow => w.(boot := Stale)
    case Salvage =>
      if w.file.None? || w.file.bytes <= WAV_HEADER then w.(row := Failed, boot := Resting)
      else if ApproxDurationMs(w.file.bytes) < MIN_RECORDING_MS then w.(row := Skipped, boot := BootDiscarding)
      else w.(row := Uploading, boot := Resting)
    case BootDiscard => w.(file := None, boot := Resting)
    case ReadRow => if w.row.Uploading? || w.row.Failed? then w.(worker := GotRow(w.row)) else w
    case OpenFile => if w.file.None? then w.(row := Failed, worker := Free) else w.(worker := Opened(w.file.bytes))
    case PutObject(stored) => w.(remote := stored, worker := Sent(w.worker.size))
    case HeadObject =>
      if w.remote == Some(w.worker.size) then w.(worker := Verified(w.worker.size)) else w.(row := Failed, worker := Free)
    case FailUpload => w.(row := Failed, worker := Free)
    case MarkUploaded => w.(row := Ready, worker := Marked(w.worker.size))
    case RemoveLocal => w.(file := None, worker := Free)
  }

  const START := World(NoRow, None, None, 0, NotStarted, Resting, Free, None)

  /** A capture is going on, or one of five seconds or more is about to be entered in the table. */
  predicate TakesTime(w: World) {
    || w.capture.Capturing?
    || ((w.capture.Measured? || w.capture.FailedClose?) && DurationMs(w.frames) >= MIN_RECORDING_MS)
  }

  /** Boot recovery finds no row of such a capture. */
  predicate SafeSweep(w: World, ev: Event) {
    ev.SweepRow? ==> !TakesTime(w)
  }

  /** Boot recovery looks at the table only when nothing is being captured. */
  predicate SweepsWhenQuiet(w: World, ev: Event) {
    ev.SweepRow? ==> !InCapture(w) && !w.capture.Measured? && !w.capture.FailedClose?
  }

  predicate IsRun(es: seq<Event>)
    decreases |es|, 0
  {
    es == [] || (IsRun(es[..|es| - 1]) && Enabled(After(es[..|es| - 1]), es[|es| - 1]))
  }

  function After(es: seq<Event>): World
    requires IsRun(es)
    decreases |es|, 1
  {
    if es == [] then START else Step(After(es[..|es| - 1]), es[|es| - 1])
  }

  predicate QuietRun(es: seq<Event>)
    requires IsRun(es)
  {
    es == [] || (QuietRun(es[..|es| - 1]) && SweepsWhenQuiet(After(es[..|es| - 1]), es[|es| - 1]))
  }

  // ---- the invariant ----

  /** The audio of an ended capture is on disk, or in the bucket under a ready row. */
  predicate Kept(w: World) {
    w.audio.Some? && ApproxDurationMs(w.audio.bytes) >= MIN_RECORDING_MS ==>
      w.file == w.audio || (w.row.Ready? && w.remote == w.audio)
  }

  predicate Upload(w: World) {
    w.worker.Opened? || w.worker.Sent? || w.worker.Verified?
  }

  predicate Inv(w: World) {
    && Kept(w)
    && (InCapture(w) ==> w.audio.None? && w.file == Some(FileBytes(w.frames)) && w.boot.Resting? && w.worker.Free?)
    && (w.capture.NotStarted? ==> w == START || w == START.(worker := Free))
    && (w.capture.Created? ==> w.row.NoRow?)
    && (w.capture.Capturing? || w.capture.Measured? || w.capture.FailedClose? ==> w.row.Recording? && w.worker.Free?)
    && (w.capture.Measured? || w.capture.FailedClose? ==>
          w.boot.Resting? && w.audio.Some? && w.file == w.audio == Some(FileBytes(w.frames)))
    && (w.capture.Measured? ==> w.capture.ms == DurationMs(w.frames))
    && (w.capture.Discarding? || w.boot.BootDiscarding? ==>
          w.row.Skipped? && w.audio.Some? && ApproxDurationMs(w.audio.bytes) < MIN_RECORDING_MS)
    && (w.boot.Stale? ==> w.row.Recording? && w.capture.Over?)
    && (!w.worker.Free? ==> w.boot.Resting? && w.capture.Over?)
    && (w.worker.GotRow? || Upload(w) ==> w.row.Uploading? || w.row.Failed?)
    && (Upload(w) || w.worker.Marked? ==> w.file == Some(w.worker.size) && w.audio == w.file)
    && (w.worker.Verified? || w.worker.Marked? ==> w.remote == w.file)
    && (w.worker.Marked? ==> w.row.Ready?)
    && (w.file.Some? && (w.capture.Over? || w.capture.Discarding?) ==> w.file == w.audio)
    && (w.row.Ready? ==> w.remote.Some? && w.remote == w.audio)
    && (w.capture.Over? ==> w.audio.Some?)
    && (w.row.Skipped? ==> w.remote.None? && w.audio.Some? && ApproxDurationMs(w.audio.bytes) < MIN_RECORDING_MS)
    && (w.remote.Some? ==> w.capture.Over?)
    && (w.row.Recording? ==> w.remote.None? && w.worker.Free?)
  }

  lemma StepKeeps(w: World, ev: Event)
    requires Inv(w) && Enabled(w, ev) && SweepsWhenQuiet(w, ev)
    ensures Inv(Step(w, ev))
  {
    DurationsAgree(w.frames);
  }

  lemma {:induction false} RunKeeps(es: seq<Event>)
    requires IsRun(es) && QuietRun(es)
    ensures Inv(After(es))
  {
    if es != [] {
      RunKeeps(es[..|es| - 1]);
      StepKeeps(After(es[..|es| - 1]), es[|es| - 1]);
    }
  }

  predicate SafeRun(es: seq<Event>)
    requires IsRun(es)
  {
    es == [] || (SafeRun(es[..|es| - 1]) && SafeSweep(After(es[..|es| - 1]), es[|es| - 1]))
  }

  /** Whoever uploads sends the whole file, and only an upload that was verified makes the row ready. */
  predicate UploadsWhole(w: World) {
    && (w.file.Some? ==> w.file == w.audio)
    && (w.worker.GotRow? || Upload(w) ==> !w.row.Ready?)
    && (Upload(w) ==> Some(w.worker.size) == w.audio)
    && (w.worker.Verified? ==> w.remote == w.audio)
    && (w.row.Ready? ==> w.remote.Some? && w.remote == w.audio)
  }

  /** The capture is over and was too short to be kept. */
  predicate Short(w: World) {
    && UploadsWhole(w)
    && !InCapture(w) && !w.capture.NotStarted? && w.audio.Some? && ApproxDurationMs(w.audio.bytes) < MIN_RECORDING_MS
    && (w.capture.Measured? || w.capture.FailedClose? ==> w.audio == Some(FileBytes(w.frames)))
  }

  lemma SafeStepKeeps(w: World, ev: Event)
    requires (Inv(w) || Short(w)) && Enabled(w, ev) && SafeSweep(w, ev)
    ensures Inv(Step(w, ev)) || Short(Step(w, ev))
  {
    if Short(w) {
      hide Inv;
    } else if ev.SweepRow? && (w.capture.Measured? || w.capture.FailedClose?) {
      DurationsAgree(w.frames);
    } else {
      StepKeeps(w, ev);
    }
  }

  lemma {:induction false} SafeRunKeeps(es: seq<Event>)
    requires IsRun(es) && SafeRun(es)
    ensures Inv(After(es)) || Short(After(es))
  {
    if es != [] {
      SafeRunKeeps(es[..|es| - 1]);
      SafeStepKeeps(After(es[..|es| - 1]), es[|es| - 1]);
    }
  }

  /** Through any crashes, a capture of five seconds or more is on disk or verified in the bucket. */
  lemma NeverLost(es: seq<Event>)
    requires IsRun(es) && SafeRun(es)
    ensures Kept(After(es))
    ensures After(es).capture.Over? ==> After(es).audio.Some?
  {
    SafeRunKeeps(es);
  }

  /** A ready row speaks of a complete object, and a skipped row of a short capture. */
  lemma RowsTellTheTruth(es: seq<Event>)
    requires IsRun(es) && SafeRun(es)
    ensures var w := After(es);
            && (w.row.Ready? ==> w.remote.Some? && w.remote == w.audio)
            && (w.row.Skipped? ==> w.audio.Some? && ApproxDurationMs(w.audio.bytes) < MIN_RECORDING_MS)
  {
    SafeRunKeeps(es);
  }

  /** A skipped row speaks of a capture that was never uploaded, if recovery looks only when nothing is captured. */
  lemma SkippedIsNotUploaded(es: seq<Event>)
    requires IsRun(es) && QuietRun(es)
    ensures After(es).row.Skipped? ==> After(es).remote.None?
  {
    RunKeeps(es);
  }

  // ---- it can always be delivered ----

  /** No worker and no recovery is at this row. */
  predicate Untouched(w: World) {
    w.boot.Resting? && w.worker.Free?
  }

  /** Nothing is going on: the capture is over as well. */
  predicate AtRest(w: World) {
    w.capture.Over? && Untouched(w)
  }

  function Deliver(size: nat): seq<Event> {
    [ReadRow, OpenFile, PutObject(Some(size)), HeadObject, MarkUploaded, RemoveLocal]
  }

  predicate Runs(w: World, es: seq<Event>)
    decreases |es|
  {
    es == [] || (Enabled(w, es[0]) && Runs(Step(w, es[0]), es[1..]))
  }

  function Final(w: World, es: seq<Event>): World
    requires Runs(w, es)
    decreases |es|
  {
    if es == [] then w else Final(Step(w, es[0]), es[1..])
  }

  lemma RunsMore(w: World, ev: Event, es: seq<Event>)
    requires Enabled(w, ev) && Runs(Step(w, ev), es)
    ensures Runs(w, [ev] + es) && Final(w, [ev] + es) == Final(Step(w, ev), es)
  {
  }

  lemma RunsOne(w: World, ev: Event)
    requires Enabled(w, ev)
    ensures Runs(w, [ev]) && Final(w, [ev]) == Step(w, ev)
  {
    RunsMore(w, ev, []);
    assert [ev] + [] == [ev];
  }

  /** A pending row with its file reaches the bucket in six steps once the bucket works. */
  lemma CanDeliver(w: World)
    requires Untouched(w) && (w.row.Uploading? || w.row.Failed?) && w.file.Some?
    ensures Runs(w, Deliver(w.file.bytes))
    ensures Final(w, Deliver(w.file.bytes)) == w.(row := Ready, remote := w.file, file := None)
  {
    hide Runs, Final;
    var n := w.file.bytes;
    var w1 := Step(w, ReadRow);
    var w2 := Step(w1, OpenFile);
    var w3 := Step(w2, PutObject(Some(n)));
    var w4 := Step(w3, HeadObject);
    var w5 := Step(w4, MarkUploaded);
    RunsOne(w5, RemoveLocal);
    var e4 := [MarkUploaded] + [RemoveLocal];
    RunsMore(w4, MarkUploaded, [RemoveLocal]);
    var e3 := [HeadObject] + e4;
    RunsMore(w3, HeadObject, e4);
    var e2 := [PutObject(Some(n))] + e3;
    RunsMore(w2, PutObject(Some(n)), e3);
    var e1 := [OpenFile] + e2;
    RunsMore(w1, OpenFile, e2);
    RunsMore(w, ReadRow, e1);
    assert Deliver(n) == [ReadRow] + e1;
  }

  /** What an attempt comes to: the row is ready only if the bucket holds as many bytes as the file, and a failed
      attempt keeps the file and leaves the row to be tried again. */
  lemma AttemptDecides(w: World, stored: Opt)
    requires Untouched(w) && (w.row.Uploading? || w.row.Failed?)
    ensures var es := [ReadRow, OpenFile]; w.file.None? ==> Runs(w, es) && Final(w, es) == w.(row := Failed)
    ensures var es := [ReadRow, OpenFile, FailUpload]; w.file.Some? ==> Runs(w, es) && Final(w, es) == w.(row := Failed)
    ensures var es := [ReadRow, OpenFile, PutObject(stored), FailUpload];
            w.file.Some? ==> Runs(w, es) && Final(w, es) == w.(row := Failed, remote := stored)
    ensures var es := [ReadRow, OpenFile, PutObject(stored), HeadObject];
            w.file.Some? ==> Runs(w, es) && Final(w, es) ==
                                            if stored == w.file then w.(remote := stored, worker := Verified(w.file.bytes))
                                            else w.(row := Failed, remote := stored)
  {
    hide Runs, Final;
    var w1 := Step(w, ReadRow);
    var w2 := Step(w1, OpenFile);
    RunsTwo(w, ReadRow, OpenFile);
    if w.file.Some? {
      var w3 := Step(w2, PutObject(stored));
      RunsOne(w2, FailUpload);
      RunsMore(w1, OpenFile, [FailUpload]);
      RunsMore(w, ReadRow, [OpenFile] + [FailUpload]);
      assert [ReadRow] + ([OpenFile] + [FailUpload]) == [ReadRow, OpenFile, FailUpload];
      forall ev | ev == FailUpload || ev == HeadObject
        ensures var es := [ReadRow, OpenFile, PutObject(stored), ev]; Runs(w, es) && Final(w, es) == Step(w3, ev)
      {
        RunsTwo(w2, PutObject(stored), ev);
        RunsMore(w1, OpenFile, [PutObject(stored), ev]);
        RunsMore(w, ReadRow, [OpenFile] + [PutObject(stored), ev]);
        assert [ReadRow] + ([OpenFile] + [PutObject(stored), ev]) == [ReadRow, OpenFile, PutObject(stored), ev];
      }
    }
  }

  lemma RunsTwo(w: World, a: Event, b: Event)
    requires Enabled(w, a) && Enabled(Step(w, a), b)
    ensures Runs(w, [a, b]) && Final(w, [a, b]) == Step(Step(w, a), b)
  {
    RunsOne(Step(w, a), b);
    RunsMore(w, a, [b]);
    assert [a] + [b] == [a, b];
  }

  lemma Captured(n: nat)
    ensures var es := [CreateFile, InsertRow, Append(n)];
            Runs(START, es) && Final(START, es) == START.(capture := Capturing, row := Recording, frames := n,
                                                          file := Some(44 + 4 * n))
  {
    var w1 := Step(START, CreateFile);
    RunsTwo(w1, InsertRow, Append(n));
    RunsMore(START, CreateFile, [InsertRow, Append(n)]);
    assert [CreateFile] + [InsertRow, Append(n)] == [CreateFile, InsertRow, Append(n)];
  }

  /** A capture of n frames that ends by itself: a row to upload from 80000 frames on (five seconds at 16 kHz), a
      skipped one and no file below, a failed one if the file could not be completed. */
  lemma ClosedDecides(n: nat, ok: bool)
    ensures var es := [CreateFile, InsertRow, Append(n)] + [Close(ok), Finalize];
            && Runs(START, es)
            && var w := Final(START, es);
            && w.row == (if !ok then Failed else if n < 80_000 then Skipped else Uploading)
            && w.file == Some(44 + 4 * n)
            && (w.row.Skipped? <==> Enabled(w, Discard))
            && (w.row.Skipped? ==> Step(w, Discard) == w.(file := None, capture := Over))
  {
    Captured(n);
    DurationsAgree(n);
    var w := Final(START, [CreateFile, InsertRow, Append(n)]);
    RunsTwo(w, Close(ok), Finalize);
    RunsOn(START, [CreateFile, InsertRow, Append(n)], [Close(ok), Finalize]);
  }

  /** A capture that a crash ends, whatever prefix of its file is left: pending from five seconds on, skipped below,
      failed when not even the header and one byte are there. */
  lemma CrashDecides(n: nat, left: nat)
    requires left <= 44 + 4 * n
    ensures var es := [CreateFile, InsertRow, Append(n)] + [Crash(left)] + [SweepRow, Salvage];
            && Runs(START, es)
            && var w := Final(START, es);
            && w.row == (if left <= 44 then Failed else if left < 320_044 then Skipped else Uploading)
            && w.file == Some(left)
            && (w.row.Skipped? <==> Enabled(w, BootDiscard))
  {
    Captured(n);
    var head := [CreateFile, InsertRow, Append(n)];
    var w := Final(START, head);
    RunsOne(w, Crash(left));
    RunsOn(START, head, [Crash(left)]);
    var v := Step(w, Crash(left));
    RunsTwo(v, SweepRow, Salvage);
    RunsOn(START, head + [Crash(left)], [SweepRow, Salvage]);
  }

  /** After a crash in mid-capture, recovery makes the row pending again exactly when the file holds five seconds. */
  lemma RecoveryDecides(w: World)
    requires Inv(w) && w.capture.Over? && w.boot.Resting? && w.row.Recording? && w.file.Some?
    ensures Enabled(w, SweepRow) && Enabled(Step(w, SweepRow), Salvage)
    ensures var v := Step(Step(w, SweepRow), Salvage);
            && (v.row.Uploading? <==> ApproxDurationMs(w.file.bytes) >= MIN_RECORDING_MS)
            && (v.row.Uploading? ==> v.file == w.file && AtRest(v))
  {
  }

  // ---- why recovery must not run beside a capture ----

  /** A continuation in which no further sweep is harmful. */
  predicate SafeFrom(w: World, es: seq<Event>)
    requires Runs(w, es)
    decreases |es|
  {
    es == [] || (SafeSweep(w, es[0]) && SafeFrom(Step(w, es[0]), es[1..]))
  }

  lemma {:induction false} StaysKept(w: World, es: seq<Event>)
    requires (Inv(w) || Short(w)) && Runs(w, es) && SafeFrom(w, es)
    ensures Kept(Final(w, es))
    decreases |es|
  {
    hide Inv, Short, Kept, Step, Enabled;
    if es == [] {
      SoundIsKept(w);
    } else {
      SafeStepKeeps(w, es[0]);
      StaysKept(Step(w, es[0]), es[1..]);
    }
  }

  lemma SoundIsKept(w: World)
    requires Inv(w) || Short(w)
    ensures Kept(w)
  {
  }

  predicate NoSweep(es: seq<Event>) {
    forall i :: 0 <= i < |es| ==> !es[i].SweepRow?
  }

  lemma {:induction false} NoSweepIsSafe(w: World, es: seq<Event>)
    requires Runs(w, es) && NoSweep(es)
    ensures SafeFrom(w, es)
    decreases |es|
  {
    if es != [] { NoSweepIsSafe(Step(w, es[0]), es[1..]); }
  }

  lemma {:induction false} RunsOn(w: World, a: seq<Event>, b: seq<Event>)
    requires Runs(w, a) && Runs(Final(w, a), b)
    ensures Runs(w, a + b) && Final(w, a + b) == Final(Final(w, a), b)
    decreases |a|
  {
    hide Step, Enabled;
    if a == [] {
      assert a + b == b;
    } else {
      RunsOn(Step(w, a[0]), a[1..], b);
      assert (a + b)[1..] == a[1..] + b;
    }
  }

  /** The stale row of a closed capture is delivered, and then its finalization takes the row back. */
  function LoseClosed(w: World): seq<Event> {
    [Salvage] + (Deliver(FileBytes(w.frames)) + [Finalize])
  }

  /** Five seconds more are recorded, delivered and removed; what the call records from then on has no file. */
  function LoseOngoing(w: World): seq<Event> {
    [Append(80_000)] + ([Salvage] + (Deliver(FileBytes(w.frames + 80_000)) + REST))
  }

  lemma LosesClosed(w: World)
    requires Inv(w) && (w.capture.Measured? || w.capture.FailedClose?) && TakesTime(w)
    ensures var v := Step(w, SweepRow); Runs(v, LoseClosed(w)) && !Kept(Final(v, LoseClosed(w)))
  {
    DurationsAgree(w.frames);
    var v := Step(w, SweepRow);
    var v1 := Step(v, Salvage);
    hide Inv;
    assert v1 == w.(row := Uploading);
    CanDeliver(v1);
    hide Deliver;
    var v2 := v1.(row := Ready, remote := w.file, file := None);
    RunsOne(v2, Finalize);
    RunsOn(v1, Deliver(FileBytes(w.frames)), [Finalize]);
    RunsMore(v, Salvage, Deliver(FileBytes(w.frames)) + [Finalize]);
  }

  const REST: seq<Event> := [Append(80_000), Close(true), Finalize]

  /** What a call records after its file was removed is not kept. */
  lemma RestIsLost(w: World)
    requires w.capture.Capturing? && w.file.None? && w.remote != Some(FileBytes(w.frames + 80_000))
    ensures Runs(w, REST) && !Kept(Final(w, REST))
  {
    hide Runs, Final;
    var w1 := Step(w, Append(80_000));
    var w2 := Step(w1, Close(true));
    RunsOne(w2, Finalize);
    RunsMore(w1, Close(true), [Finalize]);
    RunsMore(w, Append(80_000), [Close(true)] + [Finalize]);
    assert REST == [Append(80_000)] + ([Close(true)] + [Finalize]);
    DurationsAgree(w1.frames);
  }

  lemma SalvagedOngoing(w: World)
    requires Inv(w) && w.capture.Capturing?
    ensures Step(Step(Step(w, SweepRow), Append(80_000)), Salvage)
            == w.(row := Uploading, frames := w.frames + 80_000, file := Some(FileBytes(w.frames + 80_000)))
  {
    DurationsAgree(w.frames + 80_000);
  }

  lemma LosesOngoing(w: World)
    requires Inv(w) && w.capture.Capturing?
    ensures var v := Step(w, SweepRow); Runs(v, LoseOngoing(w)) && !Kept(Final(v, LoseOngoing(w)))
  {
    var v := Step(w, SweepRow);
    var v1 := Step(v, Append(80_000));
    var v2 := Step(v1, Salvage);
    SalvagedOngoing(w);
    hide Inv, Runs, Final, Kept, Deliver, Step, FileBytes;
    var deliver := Deliver(FileBytes(v1.frames));
    CanDeliver(v2);
    RestIsLost(v2.(row := Ready, remote := v2.file, file := None));
    RunsOn(v2, deliver, REST);
    RunsMore(v1, Salvage, deliver + REST);
    RunsMore(v, Append(80_000), [Salvage] + (deliver + REST));
  }

  /** After this sweep some course of events, with no further harmful sweep in it, loses audio. */
  ghost predicate MayLose(w: World)
    requires Enabled(w, SweepRow)
  {
    exists es :: Runs(Step(w, SweepRow), es) && SafeFrom(Step(w, SweepRow), es) && !Kept(Final(Step(w, SweepRow), es))
  }

  lemma TakingMayLose(w: World)
    requires Inv(w) && Enabled(w, SweepRow) && TakesTime(w)
    ensures MayLose(w)
  {
    var v, es := Step(w, SweepRow), if w.capture.Capturing? then LoseOngoing(w) else LoseClosed(w);
    hide Inv, Runs, Final, Kept, Step;
    if w.capture.Capturing? { LosesOngoing(w); } else { LosesClosed(w); }
    NoSweepIsSafe(v, es);
  }

  lemma SafeCannotLose(w: World)
    requires (Inv(w) || Short(w)) && Enabled(w, SweepRow) && !TakesTime(w)
    ensures !MayLose(w)
  {
    hide Inv, Short, Runs, Final, Kept, SafeFrom;
    SafeStepKeeps(w, SweepRow);
    var v := Step(w, SweepRow);
    forall es | Runs(v, es) && SafeFrom(v, es) ensures Kept(Final(v, es)) { StaysKept(v, es); }
  }

  lemma ShortTakesNoTime(w: World)
    requires Short(w)
    ensures !TakesTime(w)
  {
    DurationsAgree(w.frames);
  }

  /** Whatever happened before, short of a harmful sweep: the next sweep can cost five seconds or more exactly
      when it meets an ongoing capture, or a closed one of that length whose end is not yet in the table. */
  lemma SweepLosesExactly(past: seq<Event>)
    requires IsRun(past) && SafeRun(past) && Enabled(After(past), SweepRow)
    ensures MayLose(After(past)) <==> TakesTime(After(past))
  {
    hide Inv, Short, MayLose, TakesTime;
    var w := After(past);
    SafeRunKeeps(past);
    if Short(w) { ShortTakesNoTime(w); }
    if TakesTime(w) { TakingMayLose(w); } else { SafeCannotLose(w); }
  }

  /** Such a moment comes in every recording: after its first step already. */
  lemma SweepDuringCaptureLoses()
    ensures var es := [CreateFile, InsertRow]; IsRun(es) && SafeRun(es) && Enabled(After(es), SweepRow) && MayLose(After(es))
  {
    var es := [CreateFile, InsertRow];
    assert es[..1] == [CreateFile] && [CreateFile][..0] == [];
    assert IsRun([CreateFile]) && After([CreateFile]) == Step(START, CreateFile) && SafeRun([CreateFile]);
    SweepLosesExactly(es);
  }
}
