# Esync, RIFF/AVI, OpenCL extension filter and pointer widths

A Dafny model of four parts of this Wine tree that hold behaviour worth proving.

**Esync** (`Esync*.dfy`). Threads of many processes synchronise through eventfd counters and eight
bytes of shared memory per object, without asking the server. The model follows
`dlls/ntdll/unix/esync.c` and `server/esync.c`, which are more precise than `README.esync`.
A state holds every object's counter and record and every thread's place in the code; one step is one
load, store, interlocked operation or eventfd call by one thread, so a schedule is an arbitrary
interleaving. Timeouts, user APCs and the calls threads make are choices of the schedule.

- `EsyncModel` is the code, place by place. `EsyncInvariants`, `EsyncSteps` and `EsyncRuns` hold the
  inductive invariant: for every semaphore and mutex, what is missing from the eventfd is exactly what
  threads have in their hands, and every thread knows the truth about what it owns. The invariant is kept
  object by object: a semaphore that is released by so much that the ULONG sum can wrap (a *wild* one)
  spoils only what is said about itself.
- `EsyncSpec` is an atomic specification (a semaphore is a number, a mutex has a holder and a depth, or is
  free and perhaps abandoned, and a grab takes a whole list at once), and the proof that every run refines
  it, for every object that is not wild. `EsyncAbandon` shows from it when a wait reports an abandoned mutex.
- `EsyncOutcomes` relates return values to visible actions, `EsyncAnswers` to what the calling thread saw,
  and `EsyncCalls` follows the counters through a whole wait-all. `EsyncGuarantees` collects what callers
  may rely on, `EsyncEvents` treats events, and `EsyncTimeouts` says what an empty eventfd and a timeout mean
  in terms of the specification.
- `EsyncHandles` puts a table of handles, with cells that hold the mutex state, in front of the same steps,
  and shows why that state had to move to shared memory.
- `EsyncAny`, `EsyncAlone` and `EsyncChanges` say what each call comes to when nobody disturbs it: that it
  returns, with which status, and what it has changed.
- `EsyncSolo` constructs runs, and `EsyncLimits` and `EsyncResets` use them to settle where the code does
  less than its interface says: each result there is an equivalence with a condition that can be checked
  beforehand.
- `EsyncMachine` is the same protocol updating arrays in place.

**RIFF and AVI** (`Riff.dfy`, `Avi*.dfy`). Chunk layout and RIFFNEXT walking from `aviriff.h`, and its main
user, the AVI multiplexer, down to the bytes of the file it leaves.

- `AviOut` is its buffered output. `AviIndex` is the two-level index of one stream and `AviLayout` the places
  that interleaved samples of any number of streams claim in the file.
- `AviFile` and `AviClose` say which bytes are in the file while samples come in and after closing, `AviRead`
  what a walk over the movi list and a look-up through the indexes find there. `AviSuper` has the bytes of the
  super-indexes and `AviHeader` the chunks of the headers and a reader that finds its way through them, so
  that the look-up needs nothing but the file. `AviOld` is about the old index.
  `AviFields` is about the other fields of indexes and headers.
- `AviTurns` is the loop that decides which sample is handled next: gaps, queues, whose turn it is, which
  sample is due. `AviOrder` states the order that results by counting samples, without that loop.
- `AviMux` is the multiplexer in its own form and `AviFilter` the filter around it, proved to leave exactly
  that file, in a first recording and in later ones.
- A recording starts from the streams that the one before it left, because `avi_mux_init_stream` does not clear
  them. `AviAgain` shows when that misleads a reader. `AviLimits` and `AviOverwrite` have the other two ways in
  which the file is not what it should be, with histories that bring them about.

**OpenCL extensions** (`ClExtensions.dfy`, `ClFilter.dfy`). The table of unsupported extensions, and the
filter that copies the supported ones into the caller's buffer.

**Pointer widths** (`BaseTsd.dfy`). The `_WIN64` conversions of `basetsd.h`.

Integers are unbounded; ULONG, LONG, DWORD and pointer arithmetic is written out where it can wrap.
Every lemma switches automatic induction off, so each proof is the one that stands in its body.

Where code and text disagree, the code is followed. A comment in `esync.c` speaks of putting back
mutexes and semaphores only, while the loop writes to every earlier entry of the list; `README.esync`
speaks of grabbing everything at once, while a mutex the caller owns keeps a wait-all from ever
succeeding.

## Model

| member | source | states |
|---|---|---|
| EsyncRuns.Exec | wine-red-rose-custom/dlls/ntdll/unix/esync.c:386-1246 | a run under any schedule keeps every thread's place consistent with the objects it refers to, and no object changes kind or limit |
| EsyncSteps.TouchSound | wine-red-rose-custom/dlls/ntdll/unix/esync.c:386-1216 | any single access keeps its object within its limits, moves units only between the eventfd, the record and the thread's own hands, and leaves the thread knowing the truth about it |
| EsyncSteps.PeerKeeps | wine-red-rose-custom/dlls/ntdll/unix/esync.c:684-704 | what one thread does to an object leaves true what every other thread relies on |
| EsyncRuns.InitInv | wine-red-rose-custom/server/esync.c:292-316 | objects as the server creates them satisfy the invariant |
| EsyncRuns.StepKeepsInv | wine-red-rose-custom/dlls/ntdll/unix/esync.c:386-1216 | every step of every thread keeps the invariant of every object but the semaphores that are wild anyway |
| EsyncRuns.ExecKeepsInv | wine-red-rose-custom/dlls/ntdll/unix/esync.c:386-1216 | so does every run, whichever semaphores it makes wild |
| EsyncSpec.SemaphoreRefines | wine-red-rose-custom/dlls/ntdll/unix/esync.c:386-417 | a step does to a semaphore what its action says, and the action is enabled |
| EsyncSpec.MutexRefines | wine-red-rose-custom/dlls/ntdll/unix/esync.c:672-704 | a step does to a mutex's holder, depth and abandonment what its action says, and the action is enabled, whatever is released elsewhere |
| EsyncSpec.StepRefines | wine-red-rose-custom/dlls/ntdll/unix/esync.c:1150-1196 | one step of the code is one step, or none, of the atomic specification on all objects at once |
| EsyncSpec.RunRefines | wine-red-rose-custom/README.esync:140-150 | every run is a run of the atomic specification: a successful wait-all takes all its semaphores and mutexes in one action, and an unfinished or failed one has taken nothing; only semaphores that the run itself releases by too much are outside the claim |
| EsyncAbandon.HistoryTells | wine-red-rose-custom/server/esync.c:461-478 | the holder is told by the last thing that happened to a mutex: free and abandoned exactly after an abandonment, inherited exactly by the first grab after one |
| EsyncAbandon.AbandonedExactly | wine-red-rose-custom/dlls/ntdll/unix/esync.c:771-805 | in every run, a wait that succeeded reports an abandoned mutex if and only if one of those it grabbed had been abandoned by its last holder and grabbed by nobody since; wait-alls that read it and put it back in between do not matter |
| EsyncMachine.Machine.constructor | wine-red-rose-custom/server/esync.c:246-338 | objects as created, threads that have made no call |
| EsyncMachine.Machine.Advance | wine-red-rose-custom/dlls/ntdll/unix/esync.c:386-1216 | the in-place step is the step of the model |
| EsyncMachine.Machine.Run | wine-red-rose-custom/dlls/ntdll/unix/esync.c:386-1216 | executing a schedule in place keeps the invariant throughout and yields actions the atomic specification allows |
| EsyncOutcomes.CallsDoWhatTheyReturn | wine-red-rose-custom/dlls/ntdll/unix/esync.c:899-1244 | under every schedule the visible actions of a call are exactly those its return value stands for: one grab of the object a wait-any reports, one grab of the whole list for a wait-all, none for a timeout, a user APC or a refused release; reads that a wait-all puts back are not visible actions |
| EsyncOutcomes.EventsHaveNoSecrets | wine-red-rose-custom/dlls/ntdll/unix/esync.c:467-633 | outside wait-alls the eventfd of an event changes by visible actions only |
| EsyncCalls.WaitAllAccount | wine-red-rose-custom/dlls/ntdll/unix/esync.c:1094-1210 | from the call of a wait-all on, through any number of rounds, the counter of a semaphore or mutex differs from what the others made of it by exactly what the call has in its hands or took |
| EsyncCalls.WaitAllTakesAllOrNothing | wine-red-rose-custom/README.esync:140-150 | a wait-all that ends in a timeout or user APC has changed no counter of a semaphore or mutex, and one that succeeds has taken one unit for each time an object is listed |
| EsyncCalls.EveryWaitAll | wine-red-rose-custom/README.esync:140-150 | the same for every wait-all of every run from the start, whatever happened before the call |
| EsyncAnswers.TouchJust | wine-red-rose-custom/dlls/ntdll/unix/esync.c:386-1216 | every access leaves its thread at a place whose conclusions are backed by what the thread has seen in this call |
| EsyncAnswers.AnswersAreJust | wine-red-rose-custom/dlls/ntdll/unix/esync.c:771-1244 | under every schedule a call's status is true of something its thread saw during the call: each object a wait reports was signaled or owned, abandoned is reported of a mutex found abandoned and only mutexes found otherwise go without, a timeout found its objects unsignaled, a refused release found no room or another owner |
| EsyncAny.AnyTakesFirst | wine-red-rose-custom/dlls/ntdll/unix/esync.c:899-1062 | undisturbed, a wait for any of several objects returns with the first of the list that is to be had at once (a mutex of the thread's own, or readable with its hint on), and if there is none with the first that is readable; it has changed that object only, and as taking it should |
| EsyncAny.AnyAnswersOnly | wine-red-rose-custom/dlls/ntdll/unix/esync.c:899-1062 | and with no other status, however long the thread goes on |
| EsyncAny.AnyReturnsExactly | wine-red-rose-custom/dlls/ntdll/unix/esync.c:899-1062 | undisturbed, it returns if and only if some object of the list is to be had at once or readable |
| EsyncAny.AnyWaits | wine-red-rose-custom/dlls/ntdll/unix/esync.c:1008-1068 | otherwise it goes on for ever and changes nothing |
| EsyncAlone.AnyGivesUp | wine-red-rose-custom/dlls/ntdll/unix/esync.c:1008-1068 | when nothing is to be had at once, a user APC ends an alertable wait-any whatever poll found, and a timeout one for which it found nothing, with everything as it was |
| EsyncAlone.AllGivesUp | wine-red-rose-custom/dlls/ntdll/unix/esync.c:1094-1130 | at the first object it has to wait for, a timeout or in an alertable wait a user APC ends a wait-all, with everything as it was |
| EsyncAlone.SemaphoreReleases | wine-red-rose-custom/dlls/ntdll/unix/esync.c:386-417 | an undisturbed release by an amount that stays within 32 bits is granted exactly if the maximum allows, and adds to record and eventfd |
| EsyncAlone.MutexReleases | wine-red-rose-custom/dlls/ntdll/unix/esync.c:672-704 | an undisturbed release by the owner takes back one hold, the last one frees the mutex; anybody else is refused |
| EsyncAlone.EventPulses | wine-red-rose-custom/dlls/ntdll/unix/esync.c:607-633 | an undisturbed pulse succeeds, empties the eventfd and leaves the hint |
| EsyncAlone.OthersRefused | wine-red-rose-custom/dlls/ntdll/unix/esync.c:528-529 | setting, resetting or pulsing something else is refused and changes nothing |
| EsyncAlone.ThreadExits | wine-red-rose-custom/server/esync.c:461-478 | an undisturbed exit leaves exactly the thread's own mutexes free and abandoned |
| EsyncGuarantees.SemaphoreConservation | wine-red-rose-custom/README.esync:57-66 | in every reachable state counter, units in flight and units grabbed add up to the initial count plus everything released, within 0 and the maximum |
| EsyncGuarantees.RefusalExactly | wine-red-rose-custom/dlls/ntdll/unix/esync.c:396-417 | a release is refused if and only if the units available in the specification, those released and the grabs not yet recorded exceed the maximum; so a refusal is spurious only while some grab is not yet recorded |
| EsyncGuarantees.ReachableInvAt | wine-red-rose-custom/dlls/ntdll/unix/esync.c:386-1216 | the invariant of one object, on which the results about single calls rest, holds in every reachable state, whatever is released elsewhere |
| EsyncTimeouts.SemaphoreReadable | wine-red-rose-custom/dlls/ntdll/unix/esync.c:899-1244 | in every reachable state the counter of a semaphore and what wait-alls may put back are together what the specification has available |
| EsyncTimeouts.MutexEmptyExactly | wine-red-rose-custom/dlls/ntdll/unix/esync.c:899-1244 | the eventfd of a mutex is empty if and only if the specification has it held, a wait-all that may put it back has read it, or the thread that let it go has not written yet |
| EsyncTimeouts.EmptyExactly | wine-red-rose-custom/dlls/ntdll/unix/esync.c:899-1244 | in every run an eventfd is empty if and only if the object is unavailable: nothing is left but units in flight, or the mutex is held or in transit; so an empty eventfd is spurious exactly while one of these is under way |
| EsyncTimeouts.TimeoutMeans | wine-red-rose-custom/dlls/ntdll/unix/esync.c:899-1244 | a wait-any that timed out found each of its objects unavailable at some moment of the call, a wait-all at least one |
| EsyncGuarantees.MutexExclusion | wine-red-rose-custom/README.esync:67-70 | two threads never both have a mutex, recorded owners and threads in mid-grab included |
| EsyncGuarantees.MutexFreeExactly | wine-red-rose-custom/README.esync:67-70 | a mutex's counter is 1 exactly when no thread has it |
| EsyncGuarantees.DepthExactly | wine-red-rose-custom/dlls/ntdll/unix/esync.c:684-805 | the recursion count is positive exactly when the mutex is owned, except exactly while some thread is between the two stores of its record |
| EsyncGuarantees.OwnershipTestExact | wine-red-rose-custom/dlls/ntdll/unix/esync.c:684-724 | wherever the code asks whether the caller owns a mutex, the unlocked read of the owner gives the right answer, and the recursion count with it |
| EsyncGuarantees.DeadOwnNothing | wine-red-rose-custom/server/esync.c:461-478 | an exited thread whose mutexes the server has gone through has none |
| EsyncGuarantees.AttemptAccount | wine-red-rose-custom/dlls/ntdll/unix/esync.c:1094-1196 | in a wait-all that has not succeeded, what it removed from a counter is in its hands, whatever the others did meanwhile |
| EsyncGuarantees.FailedAttemptChangesNothing | wine-red-rose-custom/README.esync:146-150 | from one round of polling to the next a failed attempt has changed no semaphore's or mutex's counter |
| EsyncGuarantees.PutBackWrites | wine-red-rose-custom/dlls/ntdll/unix/esync.c:1166-1189 | the put-back loop writes once for every entry before the failed one, under any interference |
| EsyncGuarantees.TakenAndWritten | wine-red-rose-custom/dlls/ntdll/unix/esync.c:1150-1196 | what is written back equals what was read for an object exactly if it is not a manual-reset event of the list |
| EsyncGuarantees.OwnedMutexNeverGranted | wine-red-rose-custom/dlls/ntdll/unix/esync.c:1134-1146 | a wait-all naming a mutex the caller owns is never granted, in any run |
| EsyncEvents.EventIsABoolean | wine-red-rose-custom/README.esync:59-66 | an event of either kind is a boolean in every state of every run in which wait-alls that name it read nothing after it: sets collapse, a grab needs it set and resets it |
| EsyncEvents.ManualNeverTaken | wine-red-rose-custom/README.esync:59-64 | no wait takes a manual-reset event, in any run |
| EsyncEvents.ManualEventAgrees | wine-red-rose-custom/dlls/ntdll/unix/esync.c:467-605 | if nobody pulses it and wait-alls that name it read nothing after it, an unlocked manual-reset event says the same in memory and in its eventfd in every reachable state, whatever is done to other events |
| EsyncResets.ResetLostExactly | wine-red-rose-custom/dlls/ntdll/unix/esync.c:1166-1196 | a wait-all can leave an event, auto-reset or manual-reset, signaled although it was last reset or taken and all calls are finished, if and only if something is read after the event in its list |
| EsyncLimits.GrantedExactlyIfNoneOwned | wine-red-rose-custom/dlls/ntdll/unix/esync.c:1094-1210 | a wait-all on available objects can be granted if and only if the caller owns none of the listed mutexes |
| EsyncLimits.ReleaseKeepsAccountExactly | wine-red-rose-custom/dlls/ntdll/unix/esync.c:396-417 | an undisturbed release keeps the semaphore's account if and only if its ULONG sum does not wrap to a value within the limit |
| EsyncLimits.TameExactly | wine-red-rose-custom/dlls/ntdll/unix/esync.c:396-417 | it does so for every semaphore of a given maximum if and only if count and maximum add up to less than 2^32 |
| EsyncLimits.SetTakesEffectExactly | wine-red-rose-custom/server/esync.c:398-427 | an undisturbed set of an auto-reset event signals it unless the server does it while the hint is on and the eventfd is not |
| EsyncLimits.HintCanBeStale | wine-red-rose-custom/dlls/ntdll/unix/esync.c:467-514 | two clients can bring that case about with all calls finished |
| EsyncLimits.ResetTakesEffectExactly | wine-red-rose-custom/server/esync.c:429-459 | an undisturbed reset of an auto-reset event leaves it unsignaled unless the server does it while the hint is off and the eventfd is not |
| EsyncLimits.HintCanBeOff | wine-red-rose-custom/dlls/ntdll/unix/esync.c:672-704 | a wait and a set can bring that case about with all calls finished |
| EsyncChanges.ChangesExactly | wine-red-rose-custom/dlls/ntdll/unix/esync.c:516-605 | in every run, under every schedule, a set or reset that has returned has written or read the eventfd exactly if the hint was the other way when it exchanged it, or if it was a client's on an auto-reset event |
| EsyncChanges.ManualTakesEffectExactly | wine-red-rose-custom/dlls/ntdll/unix/esync.c:516-605 | with its lock free, an undisturbed set or reset of a manual-reset event, by client or server, succeeds, leaves the hint as asked for and the lock free, and the eventfd as asked for unless the hint alone was so before |
| EsyncChanges.LockWaits | wine-red-rose-custom/dlls/ntdll/unix/esync.c:531-536 | while another thread has the lock it waits and does nothing |
| EsyncLimits.PulseAgreesExactly | wine-red-rose-custom/dlls/ntdll/unix/esync.c:607-633 | an undisturbed pulse leaves hint and eventfd in agreement if and only if the event was not signaled |
| EsyncHandles.MergeRun | wine-red-rose-custom/README.esync:131-136 | with one cell per mutex, a run on handles, access by access, is a run of the main model, with the same actions |
| EsyncHandles.SharedCellsExact | wine-red-rose-custom/README.esync:131-136 | so in every run, wherever a thread asks through whichever handle whether it owns a mutex, the answer is right |
| EsyncHandles.RightExactlyIfShared | wine-red-rose-custom/README.esync:131-136 | every answer in every run is right if and only if all handles of a mutex share one cell and no other mutex uses it |
| Riff.Fcc | wine-red-rose-custom/include/aviriff.h:39-41 | the four characters are what the DWORD looks like in the file |
| Riff.FccNames | wine-red-rose-custom/include/aviriff.h:39-41 | the identifiers by which lists are told from chunks are the characters LIST and RIFF |
| Riff.RoundExactly | wine-red-rose-custom/include/aviriff.h:43 | RIFFROUND is the least even number not below the size if and only if the size is not 0xFFFFFFFF |
| Riff.NextFindsEndExactly | wine-red-rose-custom/include/aviriff.h:43-44 | RIFFNEXT finds the end of a padded chunk if and only if its size is not 0xFFFFFFFF |
| Riff.WalkIsTame | wine-red-rose-custom/include/aviriff.h:43-44 | over any bytes a walk from an even offset stays even and inside, advances at least eight bytes a step and ends within n/8 steps |
| Riff.WalkVisits | wine-red-rose-custom/include/aviriff.h:43-44 | wherever printed chunks lie in a file, the walk visits exactly their offsets, in order, and from the last one RIFFNEXT leads to their end |
| Riff.ParsePrint | wine-red-rose-custom/include/aviriff.h:26-44 | printing trees of chunks and lists and reading them back by RIFFNEXT gives the same trees |
| Riff.ParseGood | wine-red-rose-custom/include/aviriff.h:26-44 | whatever is read from fewer than 2^32 bytes can be printed and takes the same space |
| Riff.Rewrite | wine-red-rose-custom/include/aviriff.h:26-44 | reading, printing and reading again is reading once |
| AviOut.OverlayTwice | wine-red-rose-custom/dlls/qcap/avimux.c:195-222 | two writes one after the other are one write of both |
| AviOut.OutStream.constructor | wine-red-rose-custom/dlls/qcap/avimux.c:1781-1826 | nothing written and an empty buffer |
| AviOut.OutStream.Open | wine-red-rose-custom/dlls/qcap/avimux.c:581-636 | an empty file, with a size reserved for the headers and the first indexes |
| AviOut.OutStream.Flush | wine-red-rose-custom/dlls/qcap/avimux.c:157-173 | flushing changes nothing of what the file will hold |
| AviOut.OutStream.Seek | wine-red-rose-custom/dlls/qcap/avimux.c:175-193 | nor does seeking, which moves the position and may enlarge the file |
| AviOut.OutStream.Write | wine-red-rose-custom/dlls/qcap/avimux.c:195-222 | a write of any length, however it is cut into buffers, puts its bytes at the position and leaves all others |
| AviIndex.PackedSizeReads | wine-red-rose-custom/include/aviriff.h:212-213 | sizes below 2^31 and the key-frame flag survive being packed into one DWORD |
| AviIndex.FullExactly | wine-red-rose-custom/dlls/qcap/avimux.c:290-310 | a stream rolls its standard index exactly when its samples, with the entries it had kept, are a positive multiple of 4000 |
| AviIndex.DataFccs | wine-red-rose-custom/dlls/qcap/avimux.c:346-363 | the identifiers of chunks tell the samples of a stream from other streams' and from indexes, and key frames from others |
| AviLayout.StreamGrown | wine-red-rose-custom/dlls/qcap/avimux.c:290-333 | after any interleaving the standard indexes put away in this recording are full, what earlier recordings left in the super-index is still there, and the entries number the samples and the entries left |
| AviLayout.AtOrdered | wine-red-rose-custom/dlls/qcap/avimux.c:290-363 | the places that chunks and indexes of all streams claim never overlap |
| AviLayout.EverySlotRight | wine-red-rose-custom/dlls/qcap/avimux.c:290-343 | every standard index is where the super-index of its stream says, and every sample's entry is right about its position, size and flag, whatever the other streams write in between |
| AviLayout.EveryEntrySays | wine-red-rose-custom/dlls/qcap/avimux.c:317-333 | every entry of every standard index has the size and flag of its sample, discontinuities included |
| AviLayout.SlotOfRight | wine-red-rose-custom/dlls/qcap/avimux.c:317-363 | the n-th sample of a stream with data has a place, behind as many places of that stream as it has earlier samples with data |
| AviFile.WrittenHolds | wine-red-rose-custom/dlls/qcap/avimux.c:290-363 | after any interleaving every place written so far holds the bytes of its chunk |
| AviFile.PosExactly | wine-red-rose-custom/dlls/qcap/avimux.c:290-363 | the output then stands at the end of the file if and only if there is a sample with data and no discontinuity since has made a full standard index go out |
| AviClose.MuxedExactly | wine-red-rose-custom/dlls/qcap/avimux.c:422-524 | the closed file is headers, every chunk of every stream in the order of its claim, the old index and eight zeros, if and only if the output stood at its end |
| AviRead.IndexReads | wine-red-rose-custom/include/aviriff.h:214-231 | an entry of a standard index read from the file is the entry |
| AviRead.WalkOfBody | wine-red-rose-custom/include/aviriff.h:43-44 | a walk over the movi list visits every place, in order |
| AviRead.SampleFound | wine-red-rose-custom/include/aviriff.h:195-231 | in a stream without samples in earlier recordings, every sample number, those of discontinuities included, leads through the indexes to that sample's size and flag |
| AviRead.MuxedSealed | wine-red-rose-custom/dlls/qcap/avimux.c:422-524 | after such a history every place of the closed file holds its chunk, and the headers lead to the movi list and over it |
| AviRead.WalkMeetsAll | wine-red-rose-custom/include/aviriff.h:43-44 | a walk over the movi list meets as many chunks of each stream as it has samples with data |
| AviRead.WalkAndIndexAgree | wine-red-rose-custom/include/aviriff.h:195-231 | in that file, for every stream without samples in earlier recordings, the indexes say of every sample with data the position, size, flag and data that the walk finds at the chunk with that number in the stream |
| AviSuper.SuperReads | wine-red-rose-custom/include/aviriff.h:195-210 | a super-index read from the file is the super-index |
| AviSuper.HistoryFits | wine-red-rose-custom/dlls/qcap/avimux.c:446-455 | the super-indexes of a history the multiplexer has room for fit their 2000 entries and their fields |
| AviFields.ListNames | wine-red-rose-custom/include/aviriff.h:39-41 | the identifiers of lists are the characters RIFF, AVI, hdrl, strl, odml and movi |
| AviFields.ChunkNames | wine-red-rose-custom/include/aviriff.h:39-41 | the identifiers of chunks are the characters avih, strh, strf, indx, dmlh, idx1 and 7Fxx |
| AviFields.FieldsTell | wine-red-rose-custom/dlls/qcap/avimux.c:613-632 | in a settled recording, of every super-index and every standard index of the recording: the index types tell the two apart, wLongsPerEntry times four is the distance of entries, dwChunkId is that of the stream's key frames, and dwSize is the size of the chunk that stands where the entry leads |
| AviFields.FileNamed | wine-red-rose-custom/dlls/qcap/avimux.c:461-470 | whatever the history, the file begins as a RIFF file of form AVI |
| AviFields.HeadersTold | wine-red-rose-custom/dlls/qcap/avimux.c:472-519 | whatever the history, main header, extended header and each stream's header and format are found through their lists with the data they were given |
| AviFields.ZerosBehind | wine-red-rose-custom/dlls/qcap/avimux.c:431-438 | a settled recording ends with eight zeros that the RIFF list does not count |
| AviHeader.SuperFound | wine-red-rose-custom/include/aviriff.h:195-210 | going by RIFFNEXT from the header list to the list of a stream and in it to the indx chunk finds that stream's super-index |
| AviHeader.MoviFound | wine-red-rose-custom/include/aviriff.h:43-44 | and over the headers RIFFNEXT leads to the movi list |
| AviHeader.HeadersLeadOn | wine-red-rose-custom/dlls/qcap/avimux.c:461-524 | whatever the history, the headers of the closed file lead to the movi list and to the finished super-index of each stream |
| AviHeader.FileTellsTheSame | wine-red-rose-custom/include/aviriff.h:195-231 | a reader who has nothing but the file, and goes from headers to super-index to standard index to sample, finds every sample with data of a stream without samples in earlier recordings where the walk finds it |
| AviOld.OldEntryRight | wine-red-rose-custom/dlls/qcap/avimux.c:335-343 | entry i + 1 of the old index has identifier, flag and size of sample i, and the offset of its chunk if it has data |
| AviOld.OldIndexRight | wine-red-rose-custom/dlls/qcap/avimux.c:422-428 | the chunk behind the movi list of the closed file is the old index, with an entry more than there were samples, and read from there entry i + 1 is right about sample i and about where the walk meets it |
| AviOld.OldRestRight | wine-red-rose-custom/dlls/qcap/avimux.c:339-340 | the first entry of the old index is about the movi list, and that of a discontinuity repeats the offset before it |
| AviTurns.SessionCarries | wine-red-rose-custom/dlls/qcap/avimux.c:243-394 | of every stream, what a recording handles and what it leaves in the queue are together, in order, the samples that waited before and those that came, gaps included |
| AviOrder.LawfulUnique | wine-red-rose-custom/dlls/qcap/avimux.c:268-288 | an order of the samples of all streams, in which each is handled in its stream's turn exactly when counted from the start it does not run ahead of the time, and otherwise the turn passes, is unique |
| AviOrder.CallsInOrder | wine-red-rose-custom/dlls/qcap/avimux.c:243-394 | whatever the calls of Receive bring, samples are handled in that order, until the stream whose turn it is has no more; each stream's clock is its samples handled times its dwScale |
| AviOrder.CallsMayAlternate | wine-red-rose-custom/dlls/qcap/avimux.c:369-394 | so what is handled depends on what each stream brought, and not on how the calls of the streams alternated |
| AviOrder.SessionInOrder | wine-red-rose-custom/dlls/qcap/avimux.c:405-420 | closing then lets the other streams, in turn, have their samples handled up to the first with data that is ahead of the time reached |
| AviOrder.ClockCounts | wine-red-rose-custom/dlls/qcap/avimux.c:317 | after a recording each stream's clock has gone on by its dwScale for every sample handled, gaps included |
| AviTurns.OneStreamEndsWithData | wine-red-rose-custom/dlls/qcap/avimux.c:1364-1399 | with one stream all samples are handled, and the last one has data |
| AviFilter.OneStreamSettles | wine-red-rose-custom/dlls/qcap/avimux.c:1364-1399 | so with one stream the output always ends at the end of the file |
| AviAgain.LeavesOk | wine-red-rose-custom/dlls/qcap/avimux.c:440-459 | what a recording leaves of its streams is something the next can start from |
| AviAgain.MisleadsExactly | wine-red-rose-custom/dlls/qcap/avimux.c:581-636 | after any recordings, the next one can have a sample of a stream that look-up does not lead to if and only if that stream had a sample in an earlier one |
| AviLimits.DurationsAddUpExactly | wine-red-rose-custom/dlls/qcap/avimux.c:440-459 | for a stream without samples in earlier recordings, the durations in a finished super-index add up to the stream's length if and only if it has at most 8000 samples |
| AviLimits.DurationsGoWrong | wine-red-rose-custom/dlls/qcap/avimux.c:440-459 | for one stream, with any headers of up to a million bytes, a file of 8001 samples can be recorded in which they do not |
| AviLimits.SecondRecordingMisleads | wine-red-rose-custom/libs/strmbase/filter.c:306-366 | after a first recording of one sample, a filter that is stopped and run again can record a file in which look-up misses a sample |
| AviLimits.ChunkOverwritten | wine-red-rose-custom/dlls/qcap/avimux.c:422-428 | if the output stands at the place of a sample when the file is closed, the old index is written over that sample's chunk |
| AviOverwrite.OldIndexOverwrites | wine-red-rose-custom/dlls/qcap/avimux.c:243-428 | for two streams that take turns, with any headers of up to a million bytes, calls of Receive, one of them with a missing frame, after which closing writes the old index over the first sample; the order in which the samples are handled is the one the loop takes |
| AviMux.Mux.constructor | wine-red-rose-custom/dlls/qcap/avimux.c:1781-1826 | pins with blank indexes and an output with nothing in it |
| AviMux.Mux.Open | wine-red-rose-custom/dlls/qcap/avimux.c:586-636 | a place is reserved for the standard index of each stream and the old index gets its first entry; entries, super-index and length stay as they were left |
| AviMux.Mux.Roll | wine-red-rose-custom/dlls/qcap/avimux.c:290-310 | a full standard index is written to its place and put into the super-index |
| AviMux.Mux.WriteChunk | wine-red-rose-custom/dlls/qcap/avimux.c:346-363 | header, data and padding go to the end of the file as one chunk |
| AviMux.Mux.Handle | wine-red-rose-custom/dlls/qcap/avimux.c:290-363 | a sample handled in place changes streams, indexes, file size and bytes as the specification says |
| AviMux.Mux.FinishStreams | wine-red-rose-custom/dlls/qcap/avimux.c:446-455 | every super-index gets its last entry |
| AviMux.Mux.CloseLists | wine-red-rose-custom/dlls/qcap/avimux.c:422-459 | old index and last standard indexes are written as the specification says |
| AviMux.Mux.EmitStream | wine-red-rose-custom/dlls/qcap/avimux.c:489-506 | the list of one stream: header, format and super-index, as one chunk |
| AviMux.Mux.EmitStreams | wine-red-rose-custom/dlls/qcap/avimux.c:481-507 | main header and the lists of all streams |
| AviMux.Mux.EmitHeaders | wine-red-rose-custom/dlls/qcap/avimux.c:472-519 | the header list |
| AviMux.Mux.WriteHead | wine-red-rose-custom/dlls/qcap/avimux.c:461-524 | everything before the first chunk, at the beginning of the file |
| AviMux.Mux.Close | wine-red-rose-custom/dlls/qcap/avimux.c:422-524 | closing in place leaves the bytes the specification says |
| AviMux.Finish | wine-red-rose-custom/dlls/qcap/avimux.c:422-524 | closing, after any history handled in place, leaves exactly the specified file, and the streams as the next recording finds them |
| AviFilter.Filter.constructor | wine-red-rose-custom/dlls/qcap/avimux.c:1781-1826 | empty queues and blank pins |
| AviFilter.Filter.FlushLoop | wine-red-rose-custom/dlls/qcap/avimux.c:243-367 | the loop handles, in place, what is due, in the order of the specification, and ends |
| AviFilter.Filter.Queue | wine-red-rose-custom/dlls/qcap/avimux.c:369-394 | a sample is queued, and what has become due is handled if it is the turn of its stream |
| AviFilter.Filter.Receive | wine-red-rose-custom/dlls/qcap/avimux.c:1303-1399 | a gap is queued for each missing frame and then the sample |
| AviFilter.Filter.ReceiveAll | wine-red-rose-custom/dlls/qcap/avimux.c:1303-1399 | the calls of a recording, one after the other |
| AviFilter.Filter.FlushOthers | wine-red-rose-custom/dlls/qcap/avimux.c:405-420 | closing gives each other stream a last turn |
| AviFilter.Filter.Run | wine-red-rose-custom/dlls/qcap/avimux.c:243-524 | a whole recording, in place through the buffered output, by a filter that may have recorded before, leaves exactly the specified file, streams and queues; if the history is settled, headers, indexes and walk agree about every sample with data of the streams without samples in earlier recordings |
| ClExtensions.FoldsExactly | wine-red-rose-custom/pe_thunks.c:670-675 | folding makes two characters equal if and only if they are the same or the two cases of one ASCII letter |
| ClExtensions.SameNMeans | wine-red-rose-custom/pe_thunks.c:670-675 | strncasecmp finds two strings equal if and only if their first len characters are, position by position, the same or the two cases of one letter |
| ClExtensions.IsSupported | wine-red-rose-custom/pe_thunks.c:670-675 | the loop answers FALSE if and only if the first len characters begin some entry, ignoring case |
| ClExtensions.ExtensionIsSupported | wine-red-rose-custom/pe_thunks.c:631-676 | the same for the table in the source |
| ClExtensions.ListedShorter | wine-red-rose-custom/pe_thunks.c:670-675 | a shortened rejected name is rejected |
| ClExtensions.ListedIgnoresCase | wine-red-rose-custom/pe_thunks.c:670-675 | names that differ in case only get the same answer |
| ClExtensions.EmptyListed | wine-red-rose-custom/pe_thunks.c:670-675 | the empty name is rejected |
| ClFilter.Measure | wine-red-rose-custom/dlls/opencl/pe_wrappers.c:36-49 | the first loop reports, for each supported name, the length of all that follows |
| ClFilter.CopyNames | wine-red-rose-custom/dlls/opencl/pe_wrappers.c:56-75 | the second loop writes the pending text and leaves the rest of the buffer |
| ClFilter.PendingJoined | wine-red-rose-custom/dlls/opencl/pe_wrappers.c:56-75 | that text is the supported names in order with single spaces between |
| ClFilter.KeptByPosition | wine-red-rose-custom/dlls/opencl/pe_wrappers.c:36-49 | the names kept are those that start at the beginning or behind a space and are supported, in order, and the size reported is the sum over their starts of what is left of the list and one |
| ClFilter.FilterExtensions | wine-red-rose-custom/dlls/opencl/pe_wrappers.c:28-80 | size only without a buffer, CL_INVALID_VALUE and an untouched buffer if it is too small, otherwise the joined names, a terminator, and nothing else changed |
| ClFilter.ReportedExactly | wine-red-rose-custom/dlls/opencl/pe_wrappers.c:36-51 | the reported size suffices for text and terminator if and only if something is kept, and equals what they need if and only if what is kept is a single name at the very end |
| ClFilter.ReportedTooSmall | wine-red-rose-custom/dlls/opencl/pe_wrappers.c:36-51 | for an unsupported name alone 0 is reported and a terminator is written |
| ClFilter.FitsExactly | wine-red-rose-custom/dlls/opencl/pe_wrappers.c:53-75 | text and terminator fit a buffer found large enough if and only if something is kept or the buffer is not empty |
| ClFilter.KeptJoined | wine-red-rose-custom/dlls/opencl/pe_wrappers.c:56-75 | filtering joined supported names gives them all back |
| ClFilter.FilterIdempotent | wine-red-rose-custom/dlls/opencl/pe_wrappers.c:28-80 | filtering twice is filtering once |
| BaseTsd.ChainKeeps | wine-red-rose-custom/include/basetsd.h:156-250 | any chain of conversions keeps the low 32 bits, and its last widening alone decides the rest |
| BaseTsd.WordSurvives | wine-red-rose-custom/include/basetsd.h:156-250 | a 32-bit value carried through a pointer and any chain comes back unchanged |
| BaseTsd.PtrSurvivesExactly | wine-red-rose-custom/include/basetsd.h:156-250 | a pointer survives a chain if and only if it is one that the last widening gives |
| BaseTsd.ExtensionsAgreeExactly | wine-red-rose-custom/include/basetsd.h:201-250 | sign and zero extension agree if and only if the value is below 2^31 |
| BaseTsd.ShortExactly | wine-red-rose-custom/include/basetsd.h:221-229 | the 16-bit forms give the value of their type that has the pointer's low 16 bits |
| BaseTsd.ShortKeeps | wine-red-rose-custom/include/basetsd.h:221-229 | the 16-bit forms see the same through any chain |

## Left out

- Wait-all atomicity for events: a set or reset during the grab window makes it differ from an atomic grab; `EventIsABoolean` and `ResetLostExactly` say exactly for which lists that can show.
- Progress and fairness of wait-all retries: contention can repeat, and nothing in the source promises otherwise.
- EsyncSpec.RunRefines: says nothing about a semaphore that the run releases by a count which with its maximum reaches 2^32, because such releases break its account (`TameExactly`); all other objects are covered in the same run.
- EsyncSpec.SemaphoreRefines: the same exception, for the semaphore it is about and no other.
- EsyncGuarantees.SemaphoreConservation: the same exception, for the semaphore it is about and no other.
- EsyncGuarantees.RefusalExactly: the same exception, for the semaphore it is about and no other.
- EsyncGuarantees.ReachableInvAt: the same exception, for the semaphore it is about and no other.
- EsyncGuarantees.AttemptAccount: the same exception, for the semaphore it is about and no other.
- EsyncGuarantees.FailedAttemptChangesNothing: the same exception, for the semaphore it is about and no other.
- EsyncGuarantees.PutBackWrites: the same exception, for the semaphore it is about and no other.
- EsyncCalls.WaitAllAccount: the same exception, for the semaphore it is about and no other.
- EsyncCalls.WaitAllTakesAllOrNothing: the same exception, for the semaphore it is about and no other.
- EsyncCalls.EveryWaitAll: the same exception, for the semaphore it is about and no other.
- EsyncTimeouts.SemaphoreReadable: the same exception, for the semaphore it is about and no other.
- EsyncTimeouts.EmptyExactly: the same exception, for the semaphore it is about and no other.
- EsyncOutcomes.CallsDoWhatTheyReturn: the reads and put-backs of wait-all rounds that fail are not visible actions; their effect is the subject of `WaitAllTakesAllOrNothing` for semaphores and mutexes and of `ResetLostExactly` for events.
- EsyncAnswers.AnswersAreJust: each object of a wait-all was signaled at some moment of the call; that they were all signaled at one moment is not claimed for events.
- EsyncLimits.GrantedExactlyIfNoneOwned: lists of distinct objects only, as the Windows interface demands.
- EsyncResets.ResetLostExactly: lists of distinct objects only, for the same reason; the direction from the list to the boolean holds for all lists (`EventIsABoolean`).
- EsyncTimeouts.TimeoutMeans: waits that name no semaphore released by so much; of an event it says that the eventfd was empty, since the specification does not follow events through wait-alls.
- EsyncHandles.SharedCellsExact: threads do not exit here, because the server goes through objects and not through handles; exits are in the main model.
- EsyncHandles.RightExactlyIfShared: likewise.
- Objects that the server signals (process, thread and queue handles) and waits that mix them with esync objects: their state changes are not in these files.
- Creating and closing objects during a run, the handle cache, SignalObjectAndWait and the query calls: the set of objects is fixed for a run.
- Release calls on objects of another kind: the code does not check this, and the model has no such call.
- Threads killed in the middle of a call: a thread exits between calls.
- The 64-bit limit of eventfd counters of events and the 32-bit range of the mutex recursion count: unbounded here. Semaphore and mutex counters are proved to stay small.
- Memory ordering weaker than sequential consistency, and the fixed delay that one game gets in the wait path.
- AviClose.MuxedExactly: files below two gigabytes and streams of at most eight million samples, because the multiplexer's file size is an `int` and its super-index has 2000 entries; it checks neither. The limit of 127 streams is the source's.
- AviRead.WalkAndIndexAgree: a time discontinuity has an index entry and no data, so no position is claimed for it. Streams with samples in earlier recordings are left out, because look-up can fail for them (`MisleadsExactly`).
- AviHeader.FileTellsTheSame: the same streams are left out.
- AviAgain.MisleadsExactly: the headers of all recordings have the same size. A single later recording can be right by luck, so the equivalence is about what the next one can do.
- AviFilter.Filter.Run: the interleave is positive; `put_Interleaving` (avimux.c:779-791) does not check that, and without it the loop need not end. How many frames are missing, and each stream's dwScale, are given. Allocating a buffer does not fail, and Stop does not overtake Receive.
- The contents of the headers other than the super-indexes and the sizes of the lists: main header, stream headers and the odml header are any bytes of their size, formats any bytes of even size.
- Failing output streams: writes succeed.
- ClFilter.FilterExtensions: a buffer of length zero is excluded when nothing is kept, because the code writes a terminator to it (`FitsExactly`).
- OpenCL thunks and parameter structures: forwarding to a library that is not part of this tree.
- The 32-bit branch of `basetsd.h`: same-width casts.
