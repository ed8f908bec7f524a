# Verified models of the voice-call server

Dafny models of the hard parts of a WhatsApp voice-call server written in Go, with proofs of what those parts promise. `dafny verify dfyconfig.toml` checks everything.

**Moving accounts between servers** (`MigrationProtocol`, `MigrationInvariant`, `MigrationSteps`, `MigrationSafety`, `MigrationRestart`, `MigrationUse`, `MigrationLock`, `MigrationProgress`, `MigrationComplete`, `MigrationCode`). The lock / commit / abort protocol is a step machine over any number of instances, each able to be the source of one migration and the target of another. One step is one persisted write, one change of an in-memory flag, or one message; instances restart between any two steps, messages are lost, delayed, repeated and overtaken. The proofs are about every run: no account key runs on two instances, no key is lost, no commit is refused, a restarted instance runs its accounts exactly when its saved phase allows it, and every instance with keys can give them to one without. `MigrationCode` writes the functions of the source out as methods of a class and shows that each of their writes is a step of that machine, so the theorems speak about them.

**Copying the database** (`TableDigest`, `CloneTables`). The text that `tableDigest` hashes determines the rows of a table, so comparing counts and digests is an exact check: a clone is saved only if source and copy can be paired row by row with equal values in every column they share, and all or nothing of it.

**Speech codec** (`Complex`, `CooleyTukey`, `Fft`, `FftInverse`, `FftReal`; `Linear`, `PulseCode`, `Autocorrelation`, `Toeplitz`, `CodebookSearch`; `Lpc`, `Nlsf`; `Pulses`; `CdfTables`; with `Arith`). In-place numeric loops against plain definitions: the mixed-radix transform is the discrete Fourier transform for any twiddles that satisfy the root-of-unity laws; the incremental codebook search is greedy search over the direct formulas; step-down inverts step-up; the root search ends. Floating point is modelled by exact reals, integer code by integers.

**Packets** (`Bytes`, `Rtp`, `Srtp`, `SrtpSession`, `Stun`). Headers and messages that are read back as they were written, and a whole SRTP stream across sequence-number wraps. AES counter mode, HMAC and CRC are parameters, of which only the output lengths are used; what is handed to them is part of what is proved. The rollover rule, the initial block and the tag are those of sections 3.3.1, 4.1.1 and 4.2 of RFC 3711, the layouts those of sections 5.1 and 5.3.1 of RFC 3550 and 6, 15.4 and 15.5 of RFC 5389, as far as the code follows them.

**Recordings** (`RecordingCapture`, `UploadPool`, `RecordingHandoff`, `Recorder`). Three concurrent machines and one class: when every recorder of an ended call is finalized exactly once, that uploads never overlap and stop while paused, when nothing of five seconds or more is lost, and that the mixer writes every sample accepted before its last flush, in order, each as the 16-bit value nearest to it on the side of zero. Critical sections, worker loops and crash points are modelled as steps because their interleaving is what the properties are about.

**Relay copies** (`DedupWindow`). Ring and map are a window over the last 512 packets.

Methods have the form of the source where it works by assignment: arrays rewritten in place with offsets into one buffer, fields of a class, loops with running indices. Functions beside them say what is computed, and the lemmas prove what that means. `hide` statements in proofs only keep definitions out of the solver's sight.

Where the code and its comments differ, the models follow the code:

- `migration.go:29` says that a source is released by abort when the target did not use the keys. What the target remembers of that is in memory only: a restart in phase rolling_back, and nothing else, makes a used clone deletable (`MigrationUse.UseLostExactly`, with a run in `MigrationUse.ConnectedYetReleased`).
- `migration_target.go:774-878` rolls back with the flag `blocked` set and never clears it when the migration is closed: an instance that is free again stays disconnected until it restarts or takes part in another migration (`MigrationRestart.FlagDiffersExactly`).
- `perc.go:184-190` calls the spectrum fully overwritten. That is so for even lengths, the only ones in use; for odd ones one bin keeps old contents, which then show in the result (`FftReal.StaleShows`).
- `celp_enc.go:696` lets the secondary rate take one pulse more than its maximum (`CodebookSearch.OneTooMany`), exactly when the main rate has a larger one (`CodebookSearch.FecMaximumExactly`).
- `srtp.go:17` names an authentication error. Nothing returns it: `Unprotect` cuts the tag off without reading it (`SrtpSession.TagIsNotRead`).
- `recording_ctl.go:140-146` drops the entry of a call by id after a failed start, whoever owns it (`RecordingCapture.HandledExactly` says when that matters), and `recording_ctl.go:296-299` runs boot recovery beside live captures (`RecordingHandoff.SweepLosesExactly`).
- `recorder.go:182-205` flushes for the last time and marks the recorder closed under two separate holds of the lock; samples accepted in between are never written (`Recorder.Mixer.Close` says exactly when, `Recorder.Mixer.LateTapIsLost` that it can always happen).
- `migration.go:31-33` leaves a source locked when in doubt. `MigrationLock.FreedExactly` says when nobody but an operator can free it.

## Model

| member | source | states |
|---|---|---|
| MigrationSafety.NeverTwoRunners | cmd/server/migration.go:31-33 | In every run of any number of instances and migrations, with restarts between any two steps and requests and replies lost, delayed or repeated, no key runs on two instances (the golden rule). |
| MigrationSafety.KeysConserved | cmd/server/migration_target.go:471-530 | In every run the keys held by some instance are exactly those held at the start: none is lost, also between the key wipe and phase committed, and none appears. |
| MigrationSafety.StepConservesKeys | cmd/server/migration_source.go:397-427 | A single step leaves every key held by somebody if it was, and by nobody if it was not. |
| MigrationSafety.OtherHolder | cmd/server/migration_target.go:826-848 | Whenever an instance deletes a key (wipe or restored backup), the other side of that migration holds it at that moment. |
| MigrationSafety.CommitNeverConflicts | cmd/server/migration_target.go:724-770 | No run sends a 409 for a commit, and no import job ever reaches the refused end of commitLoop. |
| MigrationSafety.CloneMeansStoppedSource | cmd/server/migration_source.go:53-110 | While a target holds the clone of a migration, its source is locked or committed under that id, blocked and disconnected, and no abort of that id was ever sent. |
| MigrationSafety.ReleasedMeansCloneGone | cmd/server/migration_target.go:774-822 | A source that was unlocked and a target of the same migration never both hold its keys. |
| MigrationSafety.TombstoneStays | cmd/server/migration_source.go:359-393 | A committed source stays committed and without keys under every further step, its own restarts included. |
| MigrationSafety.RunKeepsInv | cmd/server/migration_target.go:903-950 | The invariant of the protocol holds in every reachable world, restarts included. |
| MigrationRestart.RestartFrees | cmd/server/migration_target.go:905-918 | After a restart no connection counts and the flag is set exactly in the phases locked and committed of a source and preparing and rolling_back of a target; an instance with keys can connect exactly in the others. |
| MigrationRestart.RestartResumes | cmd/server/migration_target.go:920-950 | After a restart a target goes on with asking for the abort, confirming or rolling back according to its phase, and nothing else does. |
| MigrationRestart.RestartRuns | cmd/server/migration_target.go:905-918 | In every run, at every instance with keys: a restart and then an attempt to connect is a run, in which the instance runs all its keys exactly when its saved phase does not block it. |
| MigrationRestart.FlagFollowsPhase | cmd/server/migration_target.go:774-878 | In every reachable world flag and phase agree, except between the two writes of one operation and after a migration that was rolled back. |
| MigrationRestart.FlagDiffersExactly | cmd/server/migration_target.go:861-878 | In every run, at an instance at rest: the flag comes to differ from the phase exactly by the closing of a rolled-back migration, and stays so, while it is at rest, until a restart. |
| MigrationSteps.StepKeeps | cmd/server/migration_target.go:687-878 | Every step of every instance keeps the invariant, and none of them is the reading of a refused commit. |
| MigrationSteps.CommitNeverRefused | cmd/server/migration_source.go:359-393 | A request to commit that was ever sent finds its source committed under that id, or locked under it with the very snapshot the request names; at most the save of phase committed is under way there. |
| MigrationSteps.JobReplyKeeps | cmd/server/migration_target.go:880-897 | Reading any reply keeps the invariant, and a refused commit is never there to be read. |
| MigrationSteps.OpStepKeeps | cmd/server/migration_source.go:340-355 | Every step taken under opMu (lock, unlock, wipe) keeps the invariant. |
| MigrationInvariant.ImportsFromHeldSource | cmd/server/migration_target.go:471-530 | When a target imports, its source is stopped under that id and still holds exactly the keys of the snapshot. |
| MigrationInvariant.PutImport | cmd/server/migration_target.go:575-684 | Import: the clone and phase imported are one transaction, and the pair of source and target is the only place where a key is on two instances. |
| MigrationInvariant.PutWipe | cmd/server/migration_source.go:397-427 | Deleting the keys of a locked source whose target asked to commit keeps the invariant. |
| MigrationInvariant.PutUnlock | cmd/server/migration_source.go:429-441 | Unlocking after an abort was asked for keeps the invariant. |
| MigrationInvariant.PutRestore | cmd/server/migration_target.go:826-848 | Restoring the backup while the source is still stopped keeps the invariant. |
| MigrationInvariant.PutDone | cmd/server/migration_target.go:724-770 | Closing an import in phase done keeps the invariant: by then the source has committed. |
| MigrationUse.UsedMeansKept | cmd/server/migration_target.go:774-822 | From any reachable world in which an account connected with the clone: whatever any instance does then, restarts included, the target keeps those keys until the migration is done, unless its process restarts in phase rolling_back. |
| MigrationUse.UseLostExactly | cmd/server/migration_target.go:787-797 | In every reachable world, the next event lets a used clone be deleted (in some run without a further such restart) exactly when it is a restart of the target in phase rolling_back. |
| MigrationUse.ForgottenIsGivenBack | cmd/server/migration_target.go:927-933 | After such a restart nine steps delete the clone and let the source run with the same keys, from every state that satisfies the invariant. |
| MigrationUse.ConnectedYetReleased | cmd/server/migration_target.go:787-797 | From every beginning with keys on one instance and none on another there is a run in which an account runs with the clone and that ends with the source unlocked and running those keys and the target closed without them, `blocked` left set although its phase blocks nothing. |
| MigrationLock.FreedExactly | cmd/server/migration_source.go:340-441 | In every reachable world with a locked source, once everything in flight is lost: its lock may still end exactly when its own operation is under way or the target of its migration has still to finish it. |
| MigrationLock.NeverFreed | cmd/server/migration_target.go:861-897 | A locked source at rest whose migration nobody pursues stays locked in every run in which no old request arrives. |
| MigrationLock.PursuedIsFreed | cmd/server/migration_target.go:903-950 | A target that has still to finish can ask its source to commit or to abort after a restart, and the source then leaves its lock. |
| MigrationLock.LockedForGood | cmd/server/migration_source.go:429-441 | From every beginning there is a run in which the request to lock arrives after the abort was answered, and the source is then locked with nobody to free it. |
| MigrationProgress.ConfirmationCanFinish | cmd/server/migration_target.go:724-770 | From any reachable world in which a target is about to confirm, whatever its source is doing (also between the wipe and phase committed), some run of at most five steps brings it to phase done with its keys. |
| MigrationProgress.SourceAnswers | cmd/server/migration_source.go:359-393 | A source answers a commit that was sent to it with an acceptance in at most two steps of its own; it is never busy with anything but that commit. |
| MigrationComplete.KeysCanMove | cmd/server/migration_target.go:286-305 | From every beginning with keys on one instance and none on another there is a run that moves all of them: the source ends committed and empty, the target runs them in phase done. |
| MigrationCode.Instance.UnlockSourceLocked | cmd/server/migration_source.go:340-355 | Ends unlocked and unblocked with its keys, every write on the way being a step of the machine. |
| MigrationCode.Instance.LockSource | cmd/server/migration_source.go:53-110 | Answers a snapshot of exactly the keys it then holds back, or undoes its lock; each write is a step of the machine. |
| MigrationCode.Instance.CommitSource | cmd/server/migration_source.go:359-393 | Accepts exactly when it is committed under the id, or locked with the digest; then the keys are gone and the phase is committed. |
| MigrationCode.Instance.AbortSource | cmd/server/migration_source.go:429-441 | Refuses only a committed migration, leaves a foreign id alone and otherwise unlocks, the keys unchanged. |
| MigrationCode.Instance.CommitLoop | cmd/server/migration_target.go:724-770 | Repeats until an answer comes; the result follows from the first answer alone. |
| MigrationCode.Instance.AbortWithRetry | cmd/server/migration_target.go:880-897 | At most six requests; confirmed exactly when the first answer that arrives is an acceptance. |
| MigrationCode.Instance.FinishAborted | cmd/server/migration_target.go:861-878 | The job is closed aborted or failed according to that answer, and the flag `blocked` is not touched. |
| MigrationCode.Instance.Rollback | cmd/server/migration_target.go:774-822 | If an account connected, also between the saved phase and the flag, the clone stays and the migration is confirmed; otherwise the backup is restored before the source is asked to run again. |
| MigrationCode.Instance.StopForRollback | cmd/server/migration_target.go:776-786 | The phase is saved, the flag set and every account stopped; an account that slips in between is remembered as connected. |
| MigrationCode.Instance.StartImport | cmd/server/migration_target.go:247-284 | Starts an import exactly when there is an address to call, no key of its own and no migration under way; otherwise nothing changes. |
| MigrationCode.Instance.FetchAndVerify | cmd/server/migration_target.go:307-358 | Blocks, locks the source, saves the manifest and downloads; success means the state holds exactly the manifest of the source. |
| MigrationCode.Instance.ImportClone | cmd/server/migration_target.go:471-530 | The keys of the manifest and phase imported are written together, or nothing is. |
| MigrationCode.Instance.AfterImport | cmd/server/migration_target.go:687-710 | Unblocks and lets the accounts connect; confirms if one did and rolls back otherwise. |
| MigrationCode.Instance.FailBeforeImport | cmd/server/migration_target.go:851-859 | Unblocks before the source is asked to abort; the keys stay as they were. |
| MigrationCode.Instance.RunImport | cmd/server/migration_target.go:286-305 | The whole job: every outcome of lock, download, import, connection, rollback and answers leads to the phase, keys and flag that the steps give. |
| MigrationCode.Instance.Boot | cmd/server/migration_target.go:905-918 | A restart: flag from the saved phase alone, no connection, no operation under way. |
| MigrationCode.Instance.ResumeJobs | cmd/server/migration_target.go:920-950 | The job that the saved phase asks for runs to its end. |
| TableDigest.DigestIsExact | cmd/server/migration.go:428-463 | For a collision-free hash, two tables of the same columns have equal digests exactly when they hold the same rows with the same multiplicities; without any column equal counts are needed. |
| TableDigest.TextInjective | cmd/server/migration.go:428-463 | The length-prefixed text that is hashed determines the list of rows. |
| TableDigest.OrderedIsUnique | cmd/server/migration.go:428-463 | Sorting by all columns makes the list a function of the multiset of rows. |
| TableDigest.HashTable | cmd/server/migration.go:428-463 | The loop hashes exactly that text. |
| CloneTables.Database.CloneTx | cmd/server/migration_target.go:575-684 | All or nothing: on failure no table and no saved state changes; it succeeds exactly when every column of the source but sessions.api_key is in main, the rows of every source table but migration_state, cut to the columns both have, are in main with the same multiplicities, every other table is empty, the foreign keys hold, the state can be saved and the commit goes through. |
| CloneTables.Database.AllConform | cmd/server/migration_target.go:639-669 | Counts and digests of all tables agree exactly when the clone holds the same rows in that sense. |
| CloneTables.ConformsIsExact | cmd/server/migration_target.go:639-669 | Per table: the count and the digest over the columns that the code keeps agree exactly when the rows, cut to all columns both tables have, have the same multiplicities; a table the source lacks must be empty. |
| CloneTables.RowForRow | cmd/server/migration_target.go:575-684 | That is so exactly when there are as many rows and they can be paired up so that each pair agrees in every column both tables have. |
| CloneTables.FaithfulCopyPasses | cmd/server/migration_target.go:575-684 | A plain copy always passes, so the verification never refuses a faithful clone. |
| Fft.FindSmallestFactor | internal/voip/media/mlow/fft.go:89-110 | Trying 2 and then odd numbers up to the square root finds the smallest factor from 2 on. |
| Fft.FftRec | internal/voip/media/mlow/fft.go:124-163 | For every length, offset and stride: ends, writes the plain transform of the strided samples to out, and changes no cell besides out and the first 2n of scratch; p = n, composite and n = 1 alike. |
| Fft.DirectBin | internal/voip/media/mlow/fft.go:131-144 | The running index (kj) mod n gives the plain sum of the k-th bin. |
| Fft.CombineBin | internal/voip/media/mlow/fft.go:151-162 | Twiddling and adding the sub-transforms gives the plain sum of the k-th bin. |
| Fft.SubTransforms | internal/voip/media/mlow/fft.go:147-150 | The first n cells of scratch end up holding the p sub-transforms, one after the other. |
| Fft.SliceIsPick | internal/voip/media/mlow/fft.go:147-150 | Slicing from q*stride with stride*p reads exactly the samples q, q+p, q+2p, ... |
| Fft.IndexAdvances | internal/voip/media/mlow/fft.go:134-139 | Adding k and subtracting n once keeps the index equal to (kj) mod n. |
| CooleyTukey.DftSplits | internal/voip/media/mlow/fft.go:124-163 | The transform of m p samples is the twiddled sum of p transforms of m samples, from the root-of-unity laws alone. |
| FftInverse.BackwardUndoesForward | internal/voip/media/mlow/fft.go:166-171 | Forward and then backward multiplies every sample by n (orthogonality of the powers included). |
| FftInverse.PowersCancel | internal/voip/media/mlow/fft.go:49-56 | The powers of a root other than one add up to zero. |
| FftReal.Cfft | internal/voip/media/mlow/fft.go:166-171 | cfft writes the transform and touches two of the six n scratch cells it asks for. |
| FftReal.RfftForwardOrdered | internal/voip/media/mlow/fft.go:176-196 | The ordered real layout holds bin 0, bin n/2 and the pairs of the spectrum, for every n >= 2. |
| FftReal.RfftBackwardOrdered | internal/voip/media/mlow/perc.go:185-203 | For every length from 2 on, the real parts of the backward transform of the unpacked layout, whatever the pooled buffer held. |
| FftReal.UnpackInto | internal/voip/media/mlow/perc.go:188-197 | Every bin is written, except that for odd lengths bin n/2 + 1 keeps its old contents. |
| FftReal.StaleShows | internal/voip/media/mlow/perc.go:185-203 | What the buffer held does not matter for even lengths; for odd ones it is added to the first sample. |
| FftReal.LayoutLosesNothing | internal/voip/media/mlow/perc.go:185-203 | For even n the layout, unpacked, is the whole spectrum of the real samples (conjugate symmetry). |
| FftReal.ForwardThenBackward | internal/voip/media/mlow/perc_test.go:11-29 | Back(forward(x)) = n x for every even n, the round trip that perc_test.go states for one length. |
| Linear.FormBumps | internal/voip/media/mlow/celp_enc.go:665-685 | One more pulse of sign s changes the quadratic form by 2 s (Phi c)[i] + phi(0). |
| PulseCode.NumRecurrence | internal/voip/media/mlow/celp_enc.go:665-670 | The numerator of every candidate grows by the absolute target at the pulse taken, repeated positions included. |
| PulseCode.DenRecurrence | internal/voip/media/mlow/celp_enc.go:671-685 | The denominator of every candidate changes by a common part and a part inside the band around the pulse taken. |
| PulseCode.TimesOfCode | internal/voip/media/mlow/celp_enc.go:674-679 | The cross terms summed pulse by pulse are the entry of Phi c at the new pulse. |
| PulseCode.CodeCounts | internal/voip/media/mlow/celp_enc.go:706-714 | Sample i of a code is the number of its pulses 1 + i less that of its pulses -(1 + i). |
| PulseCode.PickedSteps | internal/voip/media/mlow/celp_enc.go:465-473 | Comparing with a threshold that rises by the price keeps the count with the largest score less price. |
| CodebookSearch.CelpEncoder.FcbSearch | internal/voip/media/mlow/celp_enc.go:625-722 | Every pulse is the best one at its turn; the main rate keeps the fewest pulses with the largest net score over all counts, and reports the direct formulas of the code it returns; nothing kept means all zeros; the secondary rate settles in the same way among the counts it is offered. |
| CodebookSearch.FecMaximumExactly | internal/voip/media/mlow/celp_enc.go:695-702 | For every length of subframe and response and all prices, the secondary rate keeps to its maximum for all targets and filters exactly when that is not positive or not below the maximum of the main rate. |
| CodebookSearch.OneTooMany | internal/voip/media/mlow/celp_enc.go:695-702 | For every length of subframe and response, all prices and every positive maximum below that of the main rate, a target for which it takes one pulse more. |
| CodebookSearch.CelpEncoder.NextPulse | internal/voip/media/mlow/celp_enc.go:665-690 | After a step num and den are the direct formulas of every candidate and the pulse taken is the best of them. |
| CodebookSearch.CelpEncoder.FirstPulse | internal/voip/media/mlow/celp_enc.go:632-647 | The first pulse, chosen on the numerator alone, is the best one. |
| CodebookSearch.CelpEncoder.NonZeroRange | internal/voip/media/mlow/celp_enc.go:477-488 | The range is exactly the part of the subframe within the response length of the pulse. |
| CodebookSearch.CelpEncoder.LoadResponse | internal/voip/media/mlow/celp_enc.go:1314-1339 | phi and phiFlip hold the autocorrelation of the impulse response, mirrored, zero outside its band. |
| CodebookSearch.CelpEncoder.Target | internal/voip/media/mlow/celp_enc.go:1341-1347 | The target is Phi times the residual. |
| CodebookSearch.CelpEncoder.SearchFromResponse | internal/voip/media/mlow/celp_enc.go:1305-1396 | With no assumption on the response or on the filter memory: subtracting the code at the reported gain lowers the energy of the filtered residual plus zero-input response by at least the reported energy. |
| CodebookSearch.CelpEncoder.AddZir | internal/voip/media/mlow/celp_enc.go:1372-1390 | Filtering the reversed zero-input response adds to the target its inner products with the delayed responses. |
| CodebookSearch.ErrorFalls | internal/voip/media/mlow/celp_enc.go:625-722 | The exact fall of the weighted error: the reported energy plus gain squared times 1e-16. |
| CodebookSearch.GainIsBest | internal/voip/media/mlow/celp_enc.go:625-722 | No other gain lowers the weighted error more, but for 1e-16 of its square; only the reported one meets the bound. |
| CodebookSearch.GetMaxi | internal/voip/media/mlow/celp_enc.go:275-286 | The first of the largest entries. |
| CodebookSearch.Quotients | internal/voip/media/mlow/celp_enc.go:172-177 | Every quotient, the denominators being positive. |
| Autocorrelation.AutocorrNonNegative | internal/voip/media/mlow/celp_enc.go:1314-1339 | No code has negative filtered energy, so no denominator of the search is zero. |
| Autocorrelation.FormIsEnergy | internal/voip/media/mlow/celp_enc.go:1314-1339 | The quadratic form of a code is the energy of the filtered code. |
| Autocorrelation.FilteredIsAutocorr | internal/voip/media/mlow/celp_enc.go:1314-1331 | Filtering the reversed response by itself gives the autocorrelation backwards. |
| Autocorrelation.ErrorExpands | internal/voip/media/mlow/celp_enc.go:1372-1390 | The energy of response plus memory is the quadratic form, twice the inner product with that addition, and the energy of the memory. |
| Autocorrelation.FiltMa | internal/voip/media/mlow/celp_enc.go:215-235 | Both branches of the filter give the same tap sum, the leading tap one or not. |
| Autocorrelation.FiltMa9 | internal/voip/media/mlow/celp_enc.go:238-247 | The ten-tap filter gives the same sum. |
| Autocorrelation.Reverse | internal/voip/media/mlow/celp_enc.go:116-121 | In place, the first l entries backwards, the others untouched. |
| Toeplitz.MultSymtoepl2 | internal/voip/media/mlow/celp_enc.go:181-200 | Sliding dot products over the mirrored band give the Toeplitz product at every sample, reading inside the arrays, already from n >= lResp - 1 on. |
| Toeplitz.WindowIsEntry | internal/voip/media/mlow/celp_enc.go:181-200 | A window that covers the band of entry k gives the whole product. |
| Lpc.Rc2a | internal/voip/media/mlow/lpc.go:238-254 | The in-place symmetric update writes the filter of the reflection coefficients, with leading one. |
| Lpc.IsStable | internal/voip/media/mlow/lpc.go:300-343 | Stepping down between two buffers accepts exactly the filters whose every order ends in a small coefficient. |
| Lpc.StableIsSmallReflections | internal/voip/media/mlow/lpc.go:300-343 | lpcIsStable accepts the filter of rc exactly when rc[k]^2 <= 0.9995 for all k. |
| Lpc.StableHasReflections | internal/voip/media/mlow/lpc.go:300-343 | Every accepted filter is the filter of small reflection coefficients, those met on the way down. |
| Lpc.DownUp | internal/voip/media/mlow/lpc.go:238-254 | Stepping down undoes stepping up. |
| Lpc.UpDown | internal/voip/media/mlow/lpc.go:300-343 | Stepping up undoes stepping down. |
| Lpc.BweExpand | internal/voip/media/mlow/lpc.go:257-264 | Coefficient k is multiplied by the k-th power of the factor. |
| Lpc.ExpandedTwice | internal/voip/media/mlow/lpc.go:257-264 | Expanding twice is expanding by the product. |
| Lpc.Stabilize | internal/voip/media/mlow/lpc.go:346-359 | Ends within 1000 rounds with the first stable expansion by the running product of the factors. |
| Lpc.LastRoundIsZero | internal/voip/media/mlow/lpc.go:346-359 | Round 1000 has factor zero, and the zero filter is stable. |
| Lpc.ShrinkSteps | internal/voip/media/mlow/lpc.go:346-359 | The factor of every round is the one before times 1 - i/1000, exactly. |
| Nlsf.A2Nlsf | internal/voip/media/mlow/lpc.go:476-579 | Ends for every filter, reads the cosine table in range, never divides by zero and fills all d entries within 0..32767. The filter is left as the one given after exactly the expansions of the failed passes (by 65536 - 2, 65536 - 4, ...), unchanged if the first pass succeeds; a pass is given up only when its search runs out of cells before the last root, and all is given up only after 17 such passes. Each root is in the first grid cell, not before that of the last root, in which its polynomial changes sign, halved three times towards the change and interpolated. |
| Nlsf.PassSucceeds | internal/voip/media/mlow/lpc.go:476-579 | A filter for which all roots are found is none whose pass fails: the outcome is a property of the filter. |
| Nlsf.RootsAgree | internal/voip/media/mlow/lpc.go:499-545 | The roots are determined by the polynomials: two searches find the same ones. |
| Nlsf.PairIsUnique | internal/voip/media/mlow/lpc.go:458-472 | The pair of polynomials is determined by the filter. |
| Nlsf.SamePolynomial | internal/voip/media/mlow/lpc.go:438-446 | Polynomials with equal values at all positive points have equal coefficients. |
| Nlsf.Refine | internal/voip/media/mlow/lpc.go:512-538 | Three bisections keep a sign change between the ends; with the linear step the result lies between -256 and 1, no division by zero. |
| Nlsf.LargeQuotient | internal/voip/media/mlow/lpc.go:536-538 | In the large branch the divisor is not zero and the step is at most 32. |
| Nlsf.SmallQuotient | internal/voip/media/mlow/lpc.go:530-535 | In the small branch the step is between 0 and 33. |
| Nlsf.TransPoly | internal/voip/media/mlow/lpc.go:438-446 | In place, the polynomial over twice the cosines of multiples becomes the same polynomial over powers, at every point. |
| Nlsf.BasisFolds | internal/voip/media/mlow/lpc.go:438-446 | Above the stage each basis value is the sum of two of the stage before. |
| Nlsf.InitPoly | internal/voip/media/mlow/lpc.go:458-472 | The polynomial set up is the half polynomial of the filter with its known root divided out. |
| Nlsf.RootDividedOut | internal/voip/media/mlow/lpc.go:458-472 | For every coefficient, the ends included: the polynomial that is searched, times its known root, is the filter plus (or less) the filter read backwards, so the two polynomials are the line spectrum's. |
| Nlsf.Bwexpander32 | internal/voip/media/mlow/lpc.go:426-436 | Coefficient i is multiplied by the i-th chirp factor, rounded down, the last one included. |
| Nlsf.ChirpIsPower | internal/voip/media/mlow/lpc.go:426-436 | The i-th chirp factor is the i-th power of the first one, up to i/2 units of rounding. |
| Nlsf.EvalPoly | internal/voip/media/mlow/lpc.go:448-456 | Horner's rule in Q16, rounded down at every step. |
| SrtpSession.Stream | internal/voip/media/srtp.go:72-136 | For any number of packets of one session, marked or not, and any in-order subset that starts before the first wrap and keeps its gaps, every packet that arrives is the packet that was sent, header and payload, across all wraps; every datagram on the wire is masked and tagged under the number of wraps before it. |
| Srtp.TracksWhen | internal/voip/media/srtp.go:124-136 | For ascending packet numbers the counter is right after every packet exactly when every gap across a wrap is at most 32767. |
| Srtp.StepTracks | internal/voip/media/srtp.go:124-136 | One received packet moves the counter by the wraps passed exactly when the gap allows it. |
| Srtp.IvNeverRepeats | internal/voip/media/srtp.go:142-159 | Initial blocks of different sources or different 48-bit indices differ. |
| Srtp.IvIsRfc | internal/voip/media/srtp.go:142-159 | The initial block is the number (salt * 2^16) XOR (source * 2^64) XOR (index * 2^16) of section 4.1.1 of RFC 3711. |
| Bytes.XorBitwise | internal/voip/media/srtp.go:142-159 | XOR of the model differs exactly in the bits in which its arguments differ. |
| SrtpSession.OpenSealed | internal/voip/media/srtp.go:97-122 | Unprotect(Protect(p)) = p for a nonempty payload when both sides count the packet alike. |
| SrtpSession.EmptyPayloadRefused | internal/voip/media/srtp.go:97-122 | A packet without payload is refused as too short and leaves the counter alone. |
| SrtpSession.TagIsNotRead | internal/voip/media/srtp.go:97-122 | Whether a datagram is opened, as what packet and with what counter does not depend on its tag. |
| SrtpSession.SrtpContext.Protect | internal/voip/media/srtp.go:72-95 | The header as it was, the payload masked by the stream of its block, and last the front of the digest of all that precedes and the rollover counter, under the counter then reached (section 4.2 of RFC 3711). |
| SrtpSession.SrtpContext.Unprotect | internal/voip/media/srtp.go:97-122 | Each error case; an opened packet has the header of the datagram and its payload unmasked under the counter then reached; the counter moves only for a datagram that is opened. |
| SrtpSession.SealedIsSecured | internal/voip/media/srtp.go:72-95 | A sealed packet carries header, masked payload and tag byte by byte as sections 4.1.1 and 4.2 of RFC 3711 say. |
| SrtpSession.SrtpContext.UpdateRoc | internal/voip/media/srtp.go:124-136 | The counter starts, stays or rises modulo 2^32. |
| SrtpSession.SrtpContext.GenerateIv | internal/voip/media/srtp.go:142-159 | Salt with the source in bytes 4..7 and the low 48 bits of the index in bytes 8..13. |
| Rtp.HeaderRoundTrip | internal/voip/media/rtp.go:49-129 | A written header is read back unchanged exactly when it is well formed, whatever follows it. |
| Rtp.ReadThenWrite | internal/voip/media/rtp.go:49-129 | A header that was read, written again, gives the bytes it was read from exactly when its extension was not cut off. |
| Rtp.ParsedIsWellFormed | internal/voip/media/rtp.go:80-129 | Every header that is read is well formed. |
| Rtp.ParseAgrees | internal/voip/media/rtp.go:80-129 | Reading a header depends on the length of the datagram and on the bytes of the header only. |
| Rtp.Encode | internal/voip/media/rtp.go:49-78 | Fails exactly when the buffer is smaller than the announced size and then writes nothing; otherwise the header lies over the front of the buffer, or the list has more words than announced and runs out of the buffer. |
| Rtp.Decode | internal/voip/media/rtp.go:80-129 | The three errors and the header, with a cut-off extension left empty. |
| Rtp.RtpSession.CreatePacket | internal/voip/media/rtp.go:182-190 | The packet takes the current number and timestamp, which then advance modulo 2^16 and 2^32; its header is well formed. |
| Stun.MessageRoundTrip | internal/voip/transport/stun.go:210-315 | A built message is read back with the same type, transaction and attribute list, in order, whatever follows it in the datagram. |
| Stun.Build | internal/voip/transport/stun.go:60-101 | The message carries exactly the list and then the integrity and fingerprint attributes asked for. |
| Stun.CarriedIsCovered | internal/voip/transport/stun.go:60-101 | The integrity and fingerprint attributes of a built message each cover all that precedes them, under a length that already counts them; the list itself comes first. |
| Stun.BeforeAppended | internal/voip/transport/stun.go:60-101 | The bytes covered are the header with the final length and all earlier attributes. |
| Stun.EncodedAligned | internal/voip/transport/stun.go:44-54 | Attributes end on 32-bit boundaries. |
| Stun.ParseResponse | internal/voip/transport/stun.go:210-315 | Header fields with class and method, ping and pong without the cookie, the attribute list up to the announced length, and the error and connection id found in it. |
| Stun.KindRoundTrip | internal/voip/transport/stun.go:238-247 | Request, indication, success and error (0 to 3) and every method are read back from the message type they are woven into (section 6 of RFC 5389). |
| Stun.KindOfParts | internal/voip/transport/stun.go:238-247 | Every type below 2^14 is woven from the class and the method read from it. |
| Stun.ErrorRead | internal/voip/transport/stun.go:302-308 | Of several errors the last one counts, its class in the low three bits of the third byte; without reason bytes the reason found before stays. |
| Stun.ConnectionRoundTrip | internal/voip/transport/stun.go:309-311 | In an answer of success the last connection id is read back from its eight bytes; in any other message none is. |
| Stun.ErrorRoundTrip | internal/voip/transport/stun.go:302-308 | An error of 300 to 699 with a reason that no other error follows is read back, code and reason (section 15.6 of RFC 5389). |
| RecordingCapture.ExactlyOnce | cmd/server/recording_ctl.go:118-193 | Under every interleaving in which no failed start drops the entry of another: nothing is finalized or skipped twice or before its call ended, an entry leaves the map only when its call ended or its own start failed, and once its call is over and it is at rest its recorder is finalized exactly once, or it has its one skipped row. |
| RecordingCapture.AccountedExactly | cmd/server/recording_ctl.go:98-193 | These books are right at every moment of a run exactly when no failed start dropped the entry of another arming. |
| RecordingCapture.HandledExactly | cmd/server/recording_ctl.go:98-193 | In every run at all, an entry whose call is over and that is at rest has its recorder finalized once (or its skipped row) exactly when no other start dropped it while it was waiting for its answer or recording. |
| RecordingCapture.RunKeeps | cmd/server/recording_ctl.go:98-193 | The invariant over map, phases, finalizations, skips and dropped entries holds in every run. |
| RecordingCapture.DistinctCallsDropOwn | cmd/server/recording_ctl.go:98-105 | No start drops the entry of another when no call id is armed again after its entry is gone. |
| RecordingCapture.RearmedLeaksRecorder | cmd/server/recording_ctl.go:140-146 | A run in which it does: a failed start drops the entry of a second arming, onCallEnded runs for that call, and its recorder is never closed. |
| RecordingCapture.AlwaysSettles | cmd/server/recording_ctl.go:118-193 | An entry that is not at rest always has an enabled step of its own that brings it closer to rest. |
| RecordingCapture.EveryCallEnds | cmd/server/recording_ctl.go:98-193 | From any world: an answered call is recorded and finalized once, also if it ends before its recorder is published; one never answered gets its skipped row; a failed start leaves nothing behind. No other entry changes. |
| UploadPool.InflightIsHeldOnce | cmd/server/recording_ctl.go:237-273 | inflight is the disjoint union of pending claims, queued ids and ids in a worker's hands. |
| UploadPool.NeverTwice | cmd/server/recording_ctl.go:256-273 | No id is in the hands of two workers. |
| UploadPool.PauseHolds | cmd/server/recording_ctl.go:283-293 | In every run: once a pause has returned, and as long as nobody resumes after it began, no worker is inside processRecording. |
| UploadPool.PollDecides | cmd/server/recording_ctl.go:283-293 | In every run a poll ends the pause exactly when no worker is busy, and it can time out exactly otherwise. |
| UploadPool.Enqueued | cmd/server/recording_ctl.go:237-254 | In every run, handing over an id that is in flight changes nothing, a new one takes the last place of the queue, and a queue of 512 gives the claim back and leaves all as it was. |
| UploadPool.ResumeUndoesPause | cmd/server/recording_ctl.go:283-299 | Once the pool is resumed, every reachable pool with a worker can come to have an upload running while all that returned from pause stay returned. |
| UploadPool.PauseReturnsTooLate | cmd/server/recording_ctl.go:283-299 | A pause may return after somebody resumed it. |
| RecordingHandoff.NeverLost | cmd/server/recording_handoff.go:17-119 | Through crashes between any two steps, a capture of at least five seconds is on disk or in the bucket, complete and under a ready row, if no recovery sweep meets an ongoing capture or a closed one of that length that is not yet in the table. |
| RecordingHandoff.SweepLosesExactly | cmd/server/recording_ctl.go:295-299 | After any such history, the next sweep may cost five seconds or more (in some run without a further harmful sweep) exactly when it meets one of these. |
| RecordingHandoff.RowsTellTheTruth | cmd/server/recordingstore.go:202-242 | Under the condition of NeverLost, a ready row speaks of the complete object and a skipped row of a capture that was too short. |
| RecordingHandoff.SkippedIsNotUploaded | cmd/server/recordingstore.go:202-242 | A skipped row speaks of a capture that was never uploaded, in runs whose recovery looks only when nothing is captured. |
| RecordingHandoff.StepKeeps | cmd/server/recording_ctl.go:211-232 | Every step of capture, finalization, upload and crash keeps the invariant, and so does recovery that looks only when nothing is captured. |
| RecordingHandoff.SafeStepKeeps | cmd/server/recording_handoff.go:153-190 | With recovery beside a capture too, unless it takes an ongoing one or a long one not yet entered for stale, every step keeps that invariant or leaves a capture that was too short to be kept. |
| RecordingHandoff.RecoveryDecides | cmd/server/recording_handoff.go:153-190 | Recovery makes a row pending exactly when its file holds five seconds, and keeps the file. |
| RecordingHandoff.CanDeliver | cmd/server/recording_handoff.go:59-119 | A pending row with its file reaches the bucket in six steps once the bucket works, and nothing else about the recording changes. |
| RecordingHandoff.AttemptDecides | cmd/server/recording_handoff.go:59-119 | An attempt makes the row ready only if the bucket holds as many bytes as the file; every failed one keeps the file and leaves the row failed, to be tried again. |
| RecordingHandoff.ClosedDecides | cmd/server/recording_ctl.go:207-232 | For every number of frames: a capture that ends is pending from 80000 on, skipped below, failed if the file could not be completed. |
| RecordingHandoff.CrashDecides | cmd/server/recording_handoff.go:153-177 | For every capture and every prefix of its file that a crash leaves: pending from 320044 bytes on, skipped below, failed with no byte behind the header. |
| RecordingHandoff.SweepDuringCaptureLoses | cmd/server/recording_ctl.go:295-299 | Recovery run beside a capture (as resume does) meets such a moment in every recording, from its first row on. |
| RecordingHandoff.DurationsAgree | internal/voip/recording/recorder.go:203-229 | The measured duration and the one estimated from the file size agree to the millisecond. |
| Recorder.Mixer.Flush | internal/voip/recording/recorder.go:141-178 | Both lanes grow to the wall-clock position (or to all that is buffered), capped; earlier frames stay, and the limit is reported exactly when the cap was met. |
| Recorder.Mixer.Commit | internal/voip/recording/recorder.go:164-177 | n more frames of both lanes: each buffered sample as its 16-bit value, in order, then silence. |
| Recorder.Mixer.Close | internal/voip/recording/recorder.go:182-205 | Frame by frame, each lane carries samples accepted before the last flush, in order and none left out, and silence elsewhere: 32767 for 1.0 and more, -32768 for -1.0 and less, otherwise the whole part of 32767 times the sample. Unless the cap was met these are all samples accepted before that flush, and all that were ever accepted exactly when none of its leg arrives between it and the mark. The duration is that of the frames written. A second call answers the duration and changes nothing. |
| Recorder.Mixer.LateTapIsLost | internal/voip/recording/recorder.go:182-205 | From every open recorder without a cap: samples that arrive in between are accepted and missing in the lane. |
| Recorder.Mixer.WriteOperator | internal/voip/recording/recorder.go:101-115 | Accepted exactly while the recorder is open and fewer than 480000 samples (30 seconds) of the leg are waiting. |
| Recorder.Mixer.WritePeer | internal/voip/recording/recorder.go:104-115 | The same for the other leg. |
| Recorder.AdmittedNothing | internal/voip/recording/recorder.go:106-115 | A leg with room takes nothing of a run of taps exactly when none of them brings it a sample. |
| Recorder.LegFlushes | internal/voip/recording/recorder.go:209-218 | Consuming keeps what a leg accepted: in its lane, in order, and then in its buffer. |
| Recorder.F2iCarries | internal/voip/recording/recorder.go:231-241 | The 16-bit value of a sample: clipped at both ends, otherwise never larger in magnitude, less than one unit away and never of opposite sign. |
| Recorder.LegCarries | internal/voip/recording/recorder.go:209-218 | The frames of a lane that are not silence are, one for one, the samples accepted first; as many as are missing are in the buffer. |
| Pulses.BuildPulseParams | internal/voip/media/mlow/analysis.go:528-608 | Counts per subframe, run lengths and packed signs of the pulse vector. |
| Pulses.Decode | internal/voip/media/mlow/pulse.go:137-209 | The decoder of the repository, fed with those symbols, returns the pulse vector whole. |
| Pulses.ReplayMagnitudes | internal/voip/media/mlow/encoder.go:416-440 | Exactly the recorded run lengths are sent, as many as there are units, each inside the room it is coded in. |
| Pulses.ReadsSubframe | internal/voip/media/mlow/pulse.go:137-176 | Reading the run lengths of a subframe finds its places and magnitudes, and every step fits. |
| Pulses.OneRunPerUnit | internal/voip/media/mlow/analysis.go:528-608 | There are as many run lengths as units. |
| Pulses.UnpackChunk | internal/voip/media/mlow/pulse.go:178-200 | Shifting a chunk out bit by bit gives the signs it was packed from. |
| Pulses.PackSigns | internal/voip/media/mlow/analysis.go:587-606 | Chunks of at most fifteen signs, the first one highest. |
| Pulses.PlacesCarry | internal/voip/media/mlow/pulse.go:202-209 | Magnitude times sign is the pulse at every place; the other positions are silent. |
| CdfTables.CdfShape | internal/voip/media/mlow/celp_enc.go:250-266 | Every table built is strictly increasing from 0 and never above 32767. |
| CdfTables.CelpDcmfToCmf | internal/voip/media/mlow/celp_enc.go:250-266 | In place, for every byte table of length 1 to 32767, within 32-bit products and 16-bit sums. |
| CdfTables.LsfDcmfToCmf | internal/voip/media/mlow/lsf_seed.go:328-349 | The same table over 64-bit sums. |
| CdfTables.BuildersAgree | internal/voip/media/mlow/lsf_seed.go:328-349 | The two byte-table builders agree entry by entry. |
| CdfTables.PdfToCmf | internal/voip/media/mlow/cc_tables.go:99-113 | The same construction from any nonnegative frequencies with a positive sum. |
| CdfTables.SharesFit | internal/voip/media/mlow/celp_enc.go:250-266 | The rounded shares of a prefix of i symbols stay within its share of the range and miss it by less than i units. |
| CdfTables.WidthIsShare | internal/voip/media/mlow/celp_enc.go:250-266 | Every symbol has one unit and the whole units of its share of what is left, no more and no less. |
| DedupWindow.Run | internal/voip/call/callmanager_media.go:160-182 | Over any run of packets and resets, ring and map drop exactly the packets whose key is among the last 512 admitted since the last reset. |
| DedupWindow.Window.Offer | internal/voip/call/callmanager_media.go:160-182 | One packet: dropped exactly when its key is recent, admitted otherwise. |
| DedupWindow.Window.Reset | internal/voip/call/callmanager_relay.go:105-109 | Forgets the window without clearing the ring. |
| DedupWindow.RingAdmits | internal/voip/call/callmanager_media.go:173-182 | Overwriting at the index and moving it keeps the ring equal to the recent keys. |
| DedupWindow.KeysDistinct | internal/voip/call/callmanager_media.go:162-166 | Keys are equal exactly when source and sequence number are. |

## Left out

- MigrationSafety.NeverTwoRunners: the check of `blocked` and the start of a connection are one step; a connection attempt that passed the check before the flag was set is not modelled. Manual unlock and manual finalization from the panel, which the code leaves to the judgement of an operator, are excluded.
- MigrationSafety.KeysConserved: pairing a new account and logging one out are not steps, so the set of keys changes by migrations only; the backup of a target is its state before the import.
- MigrationProtocol.Step: a persisted write either succeeds or the process restarts; a failed write that the code ignores, a commit whose outcome is unknown and a failed reload of accounts are not modelled. Snapshot, download and sha256 verification are one outcome each.
- CloneTables.Database.CloneTx: SQL statements are one step with an arbitrary result that the verification then judges; secrets re-encrypted on the way and the copied recording files are not part of the tables.
- Fft.FftRec: exact complex arithmetic over reals; the cache of twiddle tables is a function. A length of zero, on which the code never returns, is outside its precondition.
- CodebookSearch.CelpEncoder.FcbSearch: exact reals. The delayed-decision search, the adaptive codebook and gain quantisation are left out.
- CodebookSearch.CelpEncoder.SearchFromResponse: the target of an unvoiced subframe; the impulse response and the zero-input response, each the output of a filter, are parameters.
- Lpc.Stabilize: exact reals, in which the factor of round 1000 is zero; in single precision it is only close to it.
- Nlsf.A2Nlsf: unbounded integers, so 32-bit wrap-around of the polynomial values is not modelled; the cosine table is a parameter.
- SrtpSession.Stream: reordering across a wrap is outside, since the code does not handle it. Key derivation is left out: both ends are given the derived keys.
- Stun.ParseResponse: the names printed for methods and attributes are left out.
- RecordingHandoff.NeverLost: writes to the row table succeed or the process crashes; one worker at a time, which `UploadPool.NeverTwice` proves; the webhook after the upload is left out.
- Recorder.Mixer.Close: write errors of the file are left out, and so is the value NaN; `run` appears as calls of `Flush` with any wall-clock positions.
- Pulses.Decode: the range coder between encoder and decoder is taken to return the symbols it was given; the count and split symbols are left out.
- CdfTables.PdfToCmf: negative frequencies and a zero sum, for which the source makes no promise, are outside its precondition.
- HTTP handlers, panel, web client, WebRTC and relay connections, the WhatsApp library, B2 signing, SQLite itself: plumbing, present only as outcomes.
- Login lockout, tickets, phone normalisation, metrics, presence and version checks: easy to state and to prove.
