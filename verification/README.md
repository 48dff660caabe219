# Verified models of the SDR Town receive path and radio control

Models of the header-only components that decide what SDR Town receives, keeps and hands out: the rolling IQ window of
the P25 Phase-2 decoder, the Satcom scanner's transform and tiling planner, the FIFO driver lock, radio ownership and
takeover sessions, tuner placement, the streaming filters and the PCM clock, the control server's snapshot pager, the
voice capture file with the script that reads it back, the Satcom IQ cursor, and the pipeline trace with its analyzer.
`dafny verify dfyconfig.toml` checks everything.

## How the models are laid out

- Each component is a module named after its header. State that the program updates in place is a class with the same
  fields; its methods keep the program's branches and loops, and their contracts give the whole new state through a
  function on an immutable record of the fields, or through a ghost history of the input. What the component is for is
  then stated as lemmas over all inputs or over whole runs of operations. The rolling window has three more modules: what
  it delivers over whole runs, its held ranges, and its behaviour while the device reports no labels; `WavFiles` builds
  WAVE files in general for the comparison reader.
- `CommutativeRing`, `Division`, `Samples`, `StreamingFir`, `Blocks` and `WavBytes` hold what several modules share.
- Samples and frequencies are reals, or elements of an arbitrary commutative ring (transform), or values under
  uninterpreted addition and scaling (filters, so equal results mean equal order of accumulation). Rounding is not
  modelled. Counters, labels and tickets are unbounded naturals; 32-bit sizes and rates of the WAV header wrap as they
  do in the program.
- Concurrency of the driver lock and of the trace producers is modelled by the interleaving of their critical sections;
  the unlocked read of the trace's flag and the outcome of its try_lock are parameters.
- Clocks, fresh ids, the success of opening a file, encoded JSON sizes and tap designs are parameters.

## What the proofs found

- Tiling: the range is covered for every positive stride; the code needs no lower bound of 1.5 Hz on it.
- Tuner placement: two channels whose span lies within 5 kHz below half the usable band, or one channel in a usable band
  under 34998 Hz, get a centre that `p25SdrtrunkTunerIsTunedFor` refuses although `p25SdrtrunkCanTune` accepts them; and
  "no centre" does not always mean that there is none: at 40816 Hz two channels 22499 Hz apart get none, although the
  middle between them passes the check. That happens in usable bands below 70 kHz only.
- Rolling window: a gap beyond the bridged one makes the labels false for good; a promotion by a chunk that starts
  lower than the number of samples already held makes them too high, and later samples are then refused; a promotion
  while a flight is under way leaves the end of the flight as an offset, so that its samples are given out again when the
  labels do not begin at 0, even after it is committed; a change of epoch takes the committed cursor back over decoded
  samples, which are given out again at once when no flight ends beyond them, and after a rollback when one does,
  although the comment at include/P25RollingIq.h:129-130 speaks of keeping what was accumulated. Three branches (corrupt
  overlap, emergency drop, missing pre-roll) cannot be reached.
- Ownership: the rule that an idle sibling reservation protects a shared device (include/DeviceOwnership.h:98) is
  enforced when a lease is granted, but two operations can break it afterwards: a change of reservations can reserve
  the sibling of a leased endpoint that is itself unreserved, and an appended endpoint can bring a reservation that is
  already in the table (src/DeviceManager.cpp:2884 appends a composite tuner to its device). No other operation can.
- Pager: the offset check stops at 100000, so a document of more than 100064 items cannot be fetched to its end, and one
  whose pages are all full only up to 100032 items.
- Satcom cursor: a view that reaches further back than an earlier one of its epoch is cut at the cursor, so labels that
  only it has are never handed out; over a ring that only moves forward every label of every view is.
- Capture: files whose data exceeds 0xffffffdb bytes, or with a rate of 2^31 or more, are written but not read back.

## Model

| member | source | states |
|---|---|---|
| `SatcomSpectrum.NextReversed` | include/SatcomScanPolicy.h:88-90 | The inner loop that flips bits from the high end counts in bit-reversed order: from the reversal of k it reaches the reversal of k+1, for every power-of-two length. |
| `SatcomSpectrum.ReversedInvolution` | include/SatcomScanPolicy.h:87-92 | Bit reversal undoes itself, so exchanging each pair once is the whole permutation. |
| `SatcomSpectrum.BitReverse` | include/SatcomScanPolicy.h:87-92 | The swap loop leaves at every position the element whose index is the bit reversal of that position; no element is exchanged twice. |
| `SatcomSpectrum.SplitEvenOdd` | include/SatcomScanPolicy.h:93-103 | A strided transform is the transform of its even half plus a twiddle factor times that of its odd half, at every frequency. |
| `SatcomSpectrum.HalfPeriodic` | include/SatcomScanPolicy.h:93-103 | The half-length transforms repeat with half the block length, which is why one butterfly serves two frequencies. |
| `SatcomSpectrum.Butterfly` | include/SatcomScanPolicy.h:98-100 | Sum and difference of two half-block values, with the twiddle of that place, are the two transforms of the double-length block. |
| `SatcomSpectrum.ButterflyBlock` | include/SatcomScanPolicy.h:95-102 | The twiddle factor that the loop multiplies up step by step is the exact power of the root at every butterfly, and no other position changes. |
| `SatcomSpectrum.ButterflyPass` | include/SatcomScanPolicy.h:93-103 | A pass takes an array that holds the transforms of all blocks of half the length to one that holds those of all blocks of the length. |
| `SatcomSpectrum.Transform` | include/SatcomScanPolicy.h:87-104 | Over every commutative ring, every power-of-two length n and every root w with w^n = 1 and w^(n/2) = -1, the in-place algorithm leaves the discrete Fourier transform of what the array held: at m the sum of a[i]*w^(i*m). |
| `CommutativeRing.ComplexIsRing` | include/SatcomScanPolicy.h:79-104 | The complex numbers the scanner computes with satisfy every law that the transform needs. |
| `SatcomTiling.GuardUnderThird` | include/SatcomScanPolicy.h:60-62 | A rate of nine bandwidths or more keeps the DC guard below a third of the stride, so the guards of the first two centres do not meet, for any bin count from 27 up (the scanner uses 8192). |
| `SatcomTiling.SweepStep` | include/SatcomScanPolicy.h:55-65 | One more centre extends the covered part of the range up to it: the hole of each centre is seen from its neighbours, that of the first from the second. |
| `SatcomTiling.SweepCoversRange` | include/SatcomScanPolicy.h:41-65 | For every usable rate and bandwidth and every non-empty range, stepping from the first tile comes back to it after finitely many steps, and every frequency of the range is observable, inside the span and outside the DC guard, from some visited centre. No lower bound on the stride is needed. |
| `SatcomTiling.SweepStartsAnywhere` | include/SatcomScanPolicy.h:55-65 | From any centre at all the planner reaches the first tile after finitely many steps. |
| `SatcomTiling.ObservableIff` | include/SatcomScanPolicy.h:41-53 | A frequency is observable from a centre exactly when the rate is usable for the bandwidth and its distance from the centre is at most 40% of the rate less half the bandwidth, at least the bandwidth, and at least three bins. |
| `SatcomTiling.StepIs` | include/SatcomScanPolicy.h:55-65 | The step from every centre: two thirds of a stride within 1 Hz of the first tile and a whole stride elsewhere, and back to the first tile, half a stride above the lower end, when the tile before the next one would lie beyond the range. |
| `SatcomTiling.SweepVisitsTiles` | include/SatcomScanPolicy.h:55-65 | With a stride of 1.5 Hz or more the k-th centre of a sweep is the first tile, the one two thirds of a stride on, and then one every stride, up to the wrap, for every k. |
| `RollingIq.RollingIqWindow.EffectiveDecodeAbsolute` | include/P25RollingIq.h:50-55 | The cursor is the committed one, or the submitted one while a submission is ahead of it. |
| `RollingIq.RollingIqWindow.MarkDecodeSubmitted` | include/P25RollingIq.h:57-71 | All fields after a submission, in both labelling modes. |
| `RollingIq.RollingIqWindow.CommitDecodeAbsolute` | include/P25RollingIq.h:73-93 | All fields after a commit: the cursor never moves back, the flight ends, and a covered hold is dropped. |
| `RollingIq.RollingIqWindow.RollbackSubmittedDecode` | include/P25RollingIq.h:95-98 | Only the submission is forgotten. |
| `RollingIq.RollingIqWindow.HoldDecodeAbsolute` | include/P25RollingIq.h:100-106 | The range from the cursor is held, the cursor stays, the submission is forgotten. |
| `RollingIq.RollingIqWindow.Append` | include/P25RollingIq.h:120-338 | All fields and the result after any chunk in any state: empty, sample-index, promoting, absolute with overlap, gap or refusal, soft and forced trim. The branches for a corrupt overlap and for an emergency drop are proved unreachable. |
| `RollingIq.RollingIqWindow.TrimTo` | include/P25RollingIq.h:216-337 | All fields after trimming; a forced trim can only hit a window with absolute labels and a decode cursor. |
| `RollingIq.RollingIqWindow.TakeUndecoded` | include/P25RollingIq.h:340-460 | The span, its labels and counts for every state and request; the refusal for missing pre-roll is proved unreachable. |
| `RollingIqDelivery.TrimProtectsPreRoll` | include/P25RollingIq.h:216-323 | The soft trim never removes a sample at or after the effective cursor, and leaves before it at least what there was or 573440 samples, whichever is less. |
| `RollingIqDelivery.TrimKeepsCommittedCursorIff` | include/P25RollingIq.h:222-323 | The soft trim keeps the committed cursor, so that a rollback loses nothing, exactly when its excess stops at that cursor or the submitted span is at most 573440 samples. |
| `RollingIqDelivery.LongFlightLosesSamples` | include/P25RollingIq.h:222-323 | A flight of two samples more than the protected overlap: after a trim the rollback restarts two samples on. |
| `RollingIqDelivery.ForcedTrimSkipsIff` | include/P25RollingIq.h:289-311 | A forced trim leaves exactly the limit, and skips undecoded samples exactly when more than the limit is undecoded. |
| `RollingIqDelivery.ForcedTrimSkipsFour` | include/P25RollingIq.h:289-311 | A window of five undecoded samples under a limit of one from which four are skipped. |
| `RollingIqDelivery.TrimDropsAllItMay` | include/P25RollingIq.h:216-288 | Where the soft trim leaves more than the limit, exactly the protected 573440 samples are left before the cursor, or the pre-roll was no longer than that and nothing goes. |
| `RollingIqDelivery.ForcesTrimIff` | include/P25RollingIq.h:216-311 | A trim is forced exactly when more than four times the limit is held and the cursor is at most 573440 samples from the start; so no trim leaves more than four times the limit unless that much, with the protected overlap, is undecoded. |
| `RollingIqDelivery.LabelsKeptIffJoinable` | include/P25RollingIq.h:138-214 | After a valid chunk the end label is the start label plus the number of samples, and the cursor lies between them, exactly when the gap before the chunk is at most the bridged one, trimming included. |
| `RollingIqDelivery.LongGapBreaksLabels` | include/P25RollingIq.h:183-196 | A gap of 4097 samples after which the labels claim more samples than there are. |
| `RollingIqDelivery.DiscontinuityForgets` | include/P25RollingIq.h:122-126 | A chunk marked as discontinuous is refused and leaves no sample, label, cursor, flight, hold or epoch, whatever was there. |
| `RollingIqDelivery.EpochIsFollowed` | include/P25RollingIq.h:127-136 | Any other chunk with a sample sets the epoch if it has one, even if it is then refused. |
| `RollingIqDelivery.ReceivingMovesCursor` | include/P25RollingIq.h:120-323 | Receiving takes the committed cursor back to the start exactly when window and chunk both name an epoch and the two differ, and moves it forward only to what a trim left. |
| `RollingIqDelivery.CursorOperationsKeepLabels` | include/P25RollingIq.h:57-106 | Submitting or committing up to a label keeps the labels true exactly when that label is not beyond the window; rolling back, holding up to any label, taking, and chunks whose labels disagree with their size always keep them. |
| `RollingIqDelivery.PromotionKeepsCursor` | include/P25RollingIq.h:164-180 | When labels first arrive within an epoch and with no submission in flight, whatever the limit and with no forced trim, the undecoded samples are the same as before, followed by the chunk, and the pre-roll stays up to the protected overlap; the labels are those of the stream exactly when the chunk starts no lower than the number of samples before it. |
| `RollingIqDelivery.PromotionKeepsFlightIff` | include/P25RollingIq.h:164-180 | With any flight and any epoch, with no forced trim: the next take after a promotion goes on where it would have gone on before it exactly when, within an epoch, the flight ends at or before the committed cursor or the chunk starts no higher than the number of samples before it; and across a change of epoch, when nothing was decoded or submitted, or the chunk starts no higher than that and the flight ends at or beyond the cursor. Otherwise it begins earlier, and committing the flight does not change that. |
| `RollingIqDelivery.PromotionRepeatsFlight` | include/P25RollingIq.h:164-180 | Two samples in flight when the first labelled chunk arrives, at 100: both are fresh again, and still after the flight is committed. |
| `RollingIqDelivery.SecondFlightIsRepeated` | include/P25RollingIq.h:57-93 | Two flights at a time: after the commit of the first the sample of the second is fresh again. |
| `RollingIqDelivery.EarlyPromotionLosesSample` | include/P25RollingIq.h:164-182 | A promotion by a chunk that starts too low, after which the next sample of the stream is refused. |
| `RollingIqDelivery.EpochChangeRewinds` | include/P25RollingIq.h:127-136 | A change of epoch, with any chunk, limit and flight, takes the committed cursor back to the start of the window. With no forced trim, the next take repeats decoded samples exactly when the window held some before the cursor and no flight ends at or beyond it. A flight holds the cursor at its end: its rollback gives the whole window out again, its commit only what follows it. |
| `RollingIqDelivery.RetuneRepeatsWindow` | include/P25RollingIq.h:127-136 | A decoded sample that is fresh again after a change of epoch. |
| `RollingIqDelivery.TakeContinues` | include/P25RollingIq.h:359-447 | The fresh part of a take starts exactly where the last committed one ended, carries the samples received there, and is preceded by the smaller of the overlap and what the window still holds. |
| `RollingIqDelivery.TakeStarvesIff` | include/P25RollingIq.h:385-426 | A take comes back empty exactly when nothing is undecoded or less than the caller insists on, with the softened floor. |
| `RollingIqDelivery.TakeHandsOutAll` | include/P25RollingIq.h:359-460 | A take that is not empty hands out everything from the cursor on, up to the most asked for, behind as much of the overlap as the window reaches back to, and says where it ends. |
| `RollingIqDelivery.TrimConserves` | include/P25RollingIq.h:216-323 | Trimming between submission and landing keeps everything still to be delivered in the window. |
| `RollingIqDelivery.StepConserves` | include/P25RollingIq.h:57-460 | Every receive, submit, commit, rollback and hold, every discontinuity, and a late commit of a flight that a discontinuity overtook keeps the conservation law: received is delivered plus what the window has from the cursor on. |
| `RollingIqDelivery.ExactlyOnce` | include/P25RollingIq.h:73-93 | Over every run with bridged gaps, one flight at a time, no forced trim and no change of epoch except across a discontinuity: what has been committed since the last discontinuity is the received stream from its first sample, none skipped and none repeated, the rest is in the window at the cursor, and received samples are the stream's except zeros over bridged gaps; what was committed between earlier discontinuities is the beginning of what was received there. |
| `RollingIqHeld.ResultCoversHeldDecodeRange` | include/P25RollingIq.h:108-118 | True exactly if nothing is held, or the result is known to reach from the start of the held range, or before, to its end. |
| `RollingIqHeld.RetakeCoversHold` | include/P25RollingIq.h:100-118 | The take after a hold covers the held range exactly when it reaches its end, and its commit then releases it; no result from further on covers it. |
| `RollingIqHeld.CommitReleasesIff` | include/P25RollingIq.h:87-92 | A commit releases the held range exactly when it reaches its end. |
| `RollingIqHeld.OthersKeepHold` | include/P25RollingIq.h:57-460 | No other operation but a discontinuity touches the held range. |
| `RollingIqIndexMode.AppendKeepsOffsets` | include/P25RollingIq.h:160-163 | While no labels are known: a chunk joins the end, the oldest samples beyond the limit go, and committed and submitted offsets stay at their samples, or at the first one left. |
| `RollingIqIndexMode.RetuneMakesAllFresh` | include/P25RollingIq.h:127-136 | In that mode a change of epoch makes the whole window fresh. |
| `RollingIqIndexMode.OffsetsAreFollowed` | include/P25RollingIq.h:57-106 | In that mode the next take goes on behind the furthest flight or commit, and after a rollback or hold at the committed offset. |
| `RollingIqIndexMode.TakeByOffset` | include/P25RollingIq.h:340-460 | In that mode a take begins behind the furthest flight or commit and hands out all it may; at the live edge it goes back by the larger of 8192 and what the caller insists on if the window holds more than that, forgetting the flight, and else is empty. |
| `RollingIqIndexMode.LabelsBoundCursor` | include/P25RollingIq.h:164-182 | With the first labels a cursor beyond the samples comes back to the end of what there is, the chunk included, for every limit. |
| `DriverIoMutex.DriverIoMutex.Lock` | include/DriverIoMutex.h:14-18 | The critical section of lock: a new ticket, and entry or sleep, as a step that keeps the invariant. |
| `DriverIoMutex.DriverIoMutex.Recheck` | include/DriverIoMutex.h:17 | The predicate that a woken thread repeats: it enters exactly with the ticket being served. |
| `DriverIoMutex.DriverIoMutex.Unlock` | include/DriverIoMutex.h:20-23 | The critical section of unlock: the next ticket is served, and a notification is still owed. |
| `DriverIoMutex.DriverIoMutex.TryLock` | include/DriverIoMutex.h:28-34 | It takes the lock or leaves both counters and every thread as they were. |
| `DriverIoMutex.DriverIoMutex.Waiting` | include/DriverIoMutex.h:37-41 | The number of threads queued behind the front ticket. |
| `DriverIoMutex.StepKeepsTickets` | include/DriverIoMutex.h:14-34 | Every step of every thread keeps: the outstanding tickets are [serving, next), each with exactly one owner, only the front one is held, and admissions so far are 0, 1, 2, ... |
| `DriverIoMutex.StepKeepsWakeup` | include/DriverIoMutex.h:20-23 | Every step keeps: if the front owner sleeps, some notify_all is still to come, even though it is called outside the critical section. |
| `DriverIoMutex.FifoMutualExclusion` | include/DriverIoMutex.h:14-23 | For any number of threads and any interleaving, with spurious wakeups: at most one thread holds the lock, no two share a ticket, and admission is in the order of the tickets, none skipped or admitted twice. |
| `DriverIoMutex.QueueIsTheWaiters` | include/DriverIoMutex.h:36-41 | In every reachable state the queue lists exactly the threads that wait behind the front ticket, each once. |
| `DriverIoMutex.TryLockNeverQueues` | include/DriverIoMutex.h:25-34 | In every reachable state try_lock succeeds exactly when no thread holds or waits, and otherwise the state is unchanged. |
| `DriverIoMutex.FrontMakesProgress` | include/DriverIoMutex.h:14-23 | In every reachable state in which the lock is wanted, the front owner holds it, or its next test admits it, or a pending notification leads to that: no lost wakeup and no deadlock. |
| `DriverIoMutex.LockEntersOrQueues` | include/DriverIoMutex.h:14-18 | lock enters at once exactly when nobody holds or waits, and else sleeps behind all who wait; no other thread is moved. |
| `DriverIoMutex.UnlockServesNext` | include/DriverIoMutex.h:20-23 | After unlock nobody holds the lock, and the first of the queue is the next to enter, or the lock is free. |
| `DriverIoMutex.EveryoneCanEnter` | include/DriverIoMutex.h:14-23 | From every state that the invariant allows, whoever has a ticket can reach the lock by steps of threads that are enabled: nobody is ever shut out. |
| `DeviceOwnership.DeviceOwnership.Bind` | include/DeviceOwnership.h:38-43 | The new endpoints with all leases retired, or nothing changed where the source throws. |
| `DeviceOwnership.DeviceOwnership.Append` | include/DeviceOwnership.h:44 | One more endpoint; leases, permits and reservations as before. |
| `DeviceOwnership.DeviceOwnership.Unique` | include/DeviceOwnership.h:45-50 | True exactly if the endpoint has a key that no other endpoint has. |
| `DeviceOwnership.DeviceOwnership.SetAssignments` | include/DeviceOwnership.h:57-79 | The table replaces the old one exactly when no operation is running, its entries are well formed, keys are unambiguous, leases keep their reservation, and reserved tuners of one device agree. |
| `DeviceOwnership.DeviceOwnership.Allowed` | include/DeviceOwnership.h:80-107 | The loops over stop marks, permits, leases and siblings decide exactly the stated permission. |
| `DeviceOwnership.DeviceOwnership.Claim` | include/DeviceOwnership.h:108-115 | A token exactly when permitted: the present lease of the session, or a new one with a new id; otherwise nothing changes. |
| `DeviceOwnership.DeviceOwnership.Release` | include/DeviceOwnership.h:120-124 | The lease goes exactly if the token is valid. |
| `DeviceOwnership.DeviceOwnership.Invalidate` | include/DeviceOwnership.h:125 | The lease of the endpoint goes. |
| `DeviceOwnership.DeviceOwnership.BeginStop` | include/DeviceOwnership.h:126 | The mark is set for an existing endpoint; true if it is new. |
| `DeviceOwnership.DeviceOwnership.EndStop` | include/DeviceOwnership.h:127 | The mark is cleared. |
| `DeviceOwnership.DeviceOwnership.BeginControl` | include/DeviceOwnership.h:132-153 | A permit with a new id exactly when the host or the lease holder may control the device now; otherwise nothing changes. |
| `DeviceOwnership.DeviceOwnership.EndControl` | include/DeviceOwnership.h:154-159 | The permit goes exactly if the id is its own. |
| `DeviceOwnership.DeviceOwnership.ControlBusy` | include/DeviceOwnership.h:160-165 | True exactly if some permit is outstanding on the device. |
| `DeviceOwnership.KeepsOneLease` | include/DeviceOwnership.h:38-115 | No operation gives two leases to one physical device. |
| `DeviceOwnership.KeepsOnePermit` | include/DeviceOwnership.h:132-159 | No operation gives two control permits to one physical device. |
| `DeviceOwnership.KeepsReservations` | include/DeviceOwnership.h:57-115 | Every leased endpoint stays unreserved or reserved for the workflow of its lease. |
| `DeviceOwnership.RunKeepsInv` | include/DeviceOwnership.h:38-166 | All of these, the ranges of indices and the uniqueness of ids hold over every sequence of operations. |
| `DeviceOwnership.ExclusiveOwnership` | include/DeviceOwnership.h:80-119 | In every reachable state two valid tokens on one physical device are the same token, and its endpoint is not reserved for another workflow. |
| `DeviceOwnership.PermitPinsDevice` | include/DeviceOwnership.h:129-166 | Through any operations but its own end, an outstanding permit lets no lease, other permit, rebinding or change of reservations through on its device, even after the lease it came from is released or invalidated. |
| `DeviceOwnership.StopMarkRefusesGrants` | include/DeviceOwnership.h:80-84 | While a device is stopping, nothing on it is granted, rebound or reserved. |
| `DeviceOwnership.NeverValidAgain` | include/DeviceOwnership.h:108-125 | A token that was retired is not valid in any later state. |
| `DeviceOwnership.RetiredExactlyBy` | include/DeviceOwnership.h:38-43 | A valid token is retired exactly by its own release, the invalidation of its endpoint, or a rebinding that goes through. |
| `DeviceOwnership.GrantIsFresh` | include/DeviceOwnership.h:108-115 | A new grant has an id above all issued before and is valid at once; a repeated claim of the session changes nothing. |
| `DeviceOwnership.ClaimGrantedIff` | include/DeviceOwnership.h:80-115 | An endpoint without a lease is granted exactly when the client has a name, the endpoint a key of its own, and no tuner of its device is stopping, controlled, leased or reserved for another workflow. |
| `DeviceOwnership.ControlGrantedIff` | include/DeviceOwnership.h:132-153 | A control permit is given exactly when the endpoint has a key of its own, its device is idle, and who asks either holds the valid lease of this endpoint, with the device not reserved for another workflow, or is the host, with no lease on the device but its own on this endpoint. |
| `DeviceOwnership.ControlNeverOverrides` | include/DeviceOwnership.h:137-148 | In every reachable state a permit for a device that is leased goes only to the holder of that very lease, or to the host if it is its own Listen lease, on the leased endpoint itself. |
| `DeviceOwnership.PermitLasts` | include/DeviceOwnership.h:149-159 | A permit is new, its own id ends it and restores what was there, and no other id does anything. |
| `DeviceOwnership.AssignmentsTakenIff` | include/DeviceOwnership.h:57-79 | A reservation table is taken, whole, exactly when nothing is stopping or controlled, its entries are in order, each of its keys names one endpoint at most, no leased endpoint changes its reservation, and no two tuners of a device are reserved for different workflows; the order of the endpoints does not matter. |
| `DeviceOwnership.OthersLeaveAlone` | include/DeviceOwnership.h:38-159 | Each part of the state changes by its own operations only: reservations by SetAssignments, stop marks by the two stop operations, permits by the two control operations, leases by Bind, Claim, Release and Invalidate. |
| `DeviceOwnership.SiblingsRespectedIff` | include/DeviceOwnership.h:63-75 | After a change of reservations no tuner of a leased device is reserved for another workflow, exactly when the table avoids the siblings of leased endpoints that it does not itself reserve. |
| `DeviceOwnership.SiblingReservedUnderLease` | include/DeviceOwnership.h:63-75 | A reachable state with two tuners of one device, the first leased to Listen: the second can then be reserved for P25. |
| `DeviceOwnership.AppendRespectsSiblingsIff` | include/DeviceOwnership.h:44 | A new endpoint keeps the tuners of leased devices unreserved for other workflows exactly when its own reservation, if it has one, is for the owner of every lease on its device. |
| `DeviceOwnership.AppendUnderLease` | include/DeviceOwnership.h:44 | A reachable state with one tuner leased to Listen in which a second tuner of the device is appended whose key is already reserved for P25. |
| `DeviceOwnership.StepRespectsSiblingsIff` | include/DeviceOwnership.h:38-166 | No operation but a change of reservations and a new endpoint can reserve a tuner of a device that is leased to another workflow, and these two do exactly when they are not safe. |
| `DeviceOwnership.RunRespectsSiblingsIff` | include/DeviceOwnership.h:98-103 | Over every run of operations no tuner of a leased device is ever reserved for another workflow exactly when each change of reservations and each new endpoint is safe where it happens. |
| `ReceiverTakeoverSessions.ReceiverTakeoverSessions.Begin` | include/ReceiverTakeoverSessions.h:33-37 | The session of exactly this token, new or already open; none, and no change, while another token has the endpoint. |
| `ReceiverTakeoverSessions.ReceiverTakeoverSessions.Take` | include/ReceiverTakeoverSessions.h:38-44 | Ends and returns the session of exactly this token; otherwise no change. |
| `ReceiverTakeoverSessions.OnlyItsTokenEndsASession` | include/ReceiverTakeoverSessions.h:25-44 | Whatever other tokens begin or complete, an open session stays open and is still its token's. |
| `ReceiverTakeoverSessions.StaleCompletionIgnored` | include/ReceiverTakeoverSessions.h:10-11 | A token retired by the ownership table, after any further operations, can neither end nor reopen the takeover of the present owner. |
| `ReceiverTakeoverSessions.RunStaysFiled` | include/ReceiverTakeoverSessions.h:17-44 | Over every run of actions each open session is filed under the endpoint of its token and is found by that token, and the null token has none. |
| `ReceiverTakeoverSessions.BeginOpens` | include/ReceiverTakeoverSessions.h:33-37 | Begin opens an empty session for a real token on an endpoint that has none, changes nothing where there is one, and leaves all other endpoints alone. |
| `ReceiverTakeoverSessions.TakeEnds` | include/ReceiverTakeoverSessions.h:38-44 | Take ends the session of its token, after which another token can begin there, and without such a session changes nothing. |
| `P25SdrtrunkTune.CollectChannels` | include/P25SdrtrunkTune.h:65-81 | The array holds the positive channels, lowest first, and one only of two within 1 Hz. |
| `P25SdrtrunkTune.TunerIsTunedFor` | include/P25SdrtrunkTune.h:85-105 | True exactly if there is a channel and each lies inside the usable span and clear of the DC hole. |
| `P25SdrtrunkTune.GetCenterFrequencyHz` | include/P25SdrtrunkTune.h:108-159 | The returned centre is that of the placement function about which the lemmas below speak. |
| `P25SdrtrunkTune.AvoidDc` | include/P25SdrtrunkTune.h:135-158 | The guarded loop ends at the settled candidate or at no centre. |
| `P25SdrtrunkTune.MayTune` | include/P25SdrtrunkTune.h:162-173 | True exactly if the placement exists and the span fits the usable band. |
| `P25SdrtrunkTune.GuardNeverReached` | include/P25SdrtrunkTune.h:135-156 | The loop passes each channel at most once: three rounds give what sixteen give, and the candidate it ends at is clear of both channels. |
| `P25SdrtrunkTune.CalculatorMeetsCheckIff` | include/P25SdrtrunkTune.h:85-173 | Whenever CanTune holds, the calculated centre passes the independent check exactly when: for one channel, it lies above 11249 Hz and half the usable band is at least 17499 Hz; for two, their span is more than half the usable band, or the lower lies above 11250 Hz and their span is at most half the usable band less 5000 Hz. |
| `P25SdrtrunkTune.WidePairMissesCheck` | include/P25SdrtrunkTune.h:130-133 | At 2.048 MHz a pair 987.5 kHz apart that CanTune accepts and whose centre the check refuses. |
| `P25SdrtrunkTune.NarrowBandMissesCheck` | include/P25SdrtrunkTune.h:120-123 | At 30 kHz a single channel that CanTune accepts and whose centre the check refuses. |
| `P25SdrtrunkTune.ServableIff` | include/P25SdrtrunkTune.h:85-105 | The check accepts some centre at all exactly when: for one channel, half the usable band is at least 17499 Hz; for two, their span is at most half the usable band less 4999 Hz, or they are at least 22498 Hz apart in a usable band of at least 34998 Hz that holds their span. |
| `P25SdrtrunkTune.CenterFoundIff` | include/P25SdrtrunkTune.h:135-158 | For two channels whose span is more than half the usable band and fits it, the loop finds a centre exactly under a condition on half the usable band and the distance of the channels. |
| `P25SdrtrunkTune.NoCenterMissesIff` | include/P25SdrtrunkTune.h:135-158 | For such channels the calculator returns no centre although the check accepts one exactly when they are at least 22498 Hz apart, half the usable band is at least 17499 Hz and more than that distance less 4999 Hz, and the band is short of 17501 Hz or the distance of 22500 Hz. From 35 kHz of half the usable band on, no centre means that there is none. |
| `P25SdrtrunkTune.MiddleIsMissed` | include/P25SdrtrunkTune.h:144-150 | At 40816 Hz two channels 22499 Hz apart get no centre, although the middle between them passes the check. |
| `P25SdrtrunkTune.MissedOnlyInSlivers` | include/P25SdrtrunkTune.h:144-150 | Every centre that is missed lies in the 2 Hz by which the steps of the loop go beyond the DC hole. |
| `P25SdrtrunkTune.CenterLiesBelow` | include/P25SdrtrunkTune.h:114-133 | A single channel lies 11249 Hz above its centre, and the lower one of a narrow pair 11250 Hz; no channel gives 0, and a missing rate counts as 2.048 MHz. |
| `P25SdrtrunkTune.CenterIsLowest` | include/P25SdrtrunkTune.h:127-158 | For a wide pair the centre is the lowest that passes the check, but for the 2 Hz by which a step goes too far. |
| `P25SdrtrunkTune.CanTuneIff` | include/P25SdrtrunkTune.h:162-173 | What CanTune accepts, in terms of the distance of the channels and half the usable band. |
| `P25SdrtrunkTune.ChannelsAre` | include/P25SdrtrunkTune.h:65-81 | The collected channels are exactly the positive ones, the second only if it is more than 1 Hz from the first. |
| `NfmPcmClock.CubicInterpolates` | include/NfmPcmClock.h:30-35 | The cubic meets its two middle samples and reproduces every polynomial of degree two or less. |
| `NfmPcmClock.CubicIsHermite` | include/NfmPcmClock.h:30-35 | Between two samples the curve is the Hermite cubic whose slope at each of them is half the difference of its neighbours, so the pieces join without a kink; that fixes the curve. |
| `NfmPcmClock.DelayIsTwoSamples` | include/NfmPcmClock.h:28-35 | An output at a whole time is the input sample of two before. |
| `NfmPcmClock.NfmPcmClock.KeepsRate` | include/NfmPcmClock.h:22-37 | After any input the k-th output is out exactly when k times the input rate is less than the number of inputs times the output rate. |
| `NfmPcmClock.DueExactly` | include/NfmPcmClock.h:29 | After n inputs exactly the outputs whose time k*in/out is before n are due: ceil(n*out/in) of them. |
| `NfmPcmClock.NfmPcmClock.Configure` | include/NfmPcmClock.h:13-17 | A change of rate or a reset forgets the input; the same rates without reset change nothing. |
| `NfmPcmClock.NfmPcmClock.Process` | include/NfmPcmClock.h:18-40 | The outputs so far plus those of a block are the resampling of the whole input: the k-th is the cubic at time k*in/out of the zero-prefixed input delayed two samples. A call emits no more than it reserved. |
| `NfmPcmClock.OutputNow` | include/NfmPcmClock.h:24-35 | The four samples in the history at the moment an output becomes due are the ones its time calls for. |
| `BlockPartitions.ResampleBlocks` | include/NfmPcmClock.h:28-37 | The concatenated outputs are the same for every cutting of the input into blocks. |
| `NfmInputDecimator.NfmInputDecimator.Reset` | include/NfmInputDecimator.h:12 | Zero history, and the input seen so far forgotten. |
| `NfmInputDecimator.NfmInputDecimator.Configure` | include/NfmInputDecimator.h:13-29 | A new factor brings its own taps and forgets the input; the same factor changes nothing. |
| `NfmInputDecimator.NfmInputDecimator.Accumulate` | include/NfmInputDecimator.h:37-38 | Walking the circular history back from the write position gives the direct convolution at the latest sample, in the order of the taps. |
| `NfmInputDecimator.NfmInputDecimator.Process` | include/NfmInputDecimator.h:30-44 | The outputs so far plus those of a block are the direct convolution of the whole input with zeros before it, at the last sample of every complete group of factor samples. |
| `BlockPartitions.DecimateBlocks` | include/NfmInputDecimator.h:30-44 | The same outputs for every cutting into blocks, including blocks shorter than the filter. |
| `StreamingFir.DecimatedFromFullRate` | include/NfmInputDecimator.h:36-40 | The decimated outputs are every factor-th output of the full-rate filter with the same taps. |
| `StreamingFir.ImpulseGivesTaps` | include/NfmInputDecimator.h:37-38 | The filter answers an impulse with its taps in their order and then with zeros. |
| `BlockPartitions.DecimateAndFilter` | include/NfmInputDecimator.h:30-44 | The decimator over one cutting of an input gives every factor-th output of the speech filter, with the same taps, over any other cutting of it, when the speech filter is new, reset, or set up for another number of taps. |
| `BlockPartitions.DecimateAndFilterNew` | include/NfmInputDecimator.h:13-44 | The same for the two built and configured from scratch, which also shows that their starting states are the ones required. |
| `WfmSpeechFir.WfmSpeechFir.Process` | include/WfmSpeechFir.h:14-44 | The block is overwritten with the direct convolution of the whole input at its own samples, with zeros before the input; history carries over unless the number of taps changes. |
| `WfmSpeechFir.WfmSpeechFir.Convolve` | include/WfmSpeechFir.h:24-43 | Four outputs at a time and then the rest give every output with the accumulation order of the taps. |
| `BlockPartitions.FilterBlocks` | include/WfmSpeechFir.h:14-44 | From any state, the outputs over all blocks are the convolution of the whole input, behind what the filter has seen with as many taps (nothing after reset or a change of their number), for every cutting into blocks; without taps the blocks stay as they are. |
| `InmarsatFirHistory.InmarsatFirHistory.Push` | include/InmarsatFirHistory.h:12-15 | Both copies of the ring stay equal and hold the latest N samples. |
| `InmarsatFirHistory.InmarsatFirHistory.InARow` | include/InmarsatFirHistory.h:18 | From the cursor on, the latest N samples lie in a row, oldest first, for every N and number of pushes. |
| `InmarsatFirHistory.InmarsatFirHistory.Filter` | include/InmarsatFirHistory.h:16-22 | The sum runs over the latest N samples, oldest to newest, in the order of the coefficients. |
| `InmarsatFirHistory.ImpulseFromTheEnd` | include/InmarsatFirHistory.h:16-22 | An impulse is answered with the coefficients from the last to the first: the newest sample meets the last one. |
| `ControlSnapshotPager.WalkIsLinked` | include/ControlSnapshotPager.h:85-97 | In a walk along the next offsets without an error each page starts where the one before points, strictly further on, and the last points nowhere. |
| `ControlSnapshotPager.WalkReassembles` | include/ControlSnapshotPager.h:84-101 | The pages of a walk put together are each stored array from the offset on, whatever sizes forced the count to be halved. |
| `ControlSnapshotPager.PageIsLabelled` | include/ControlSnapshotPager.h:85-98 | Every page names the snapshot it is of, the offset asked for and the whole length, has a part of every array of the document, fits 196608 bytes, and carries the rest of the document exactly at offset 0. |
| `ControlSnapshotPager.FitTakesFirst` | include/ControlSnapshotPager.h:84-101 | A page is made smaller only as long as it has to be: twice its count, or one more, did not fit, unless it is a full one. |
| `ControlSnapshotPager.OnlyItsKeyIsServed` | include/ControlSnapshotPager.h:56-83 | A snapshot is handed out under its own id for the offset asked for, and only to requests of the route, session and view it was made for: others get 409, offsets beyond its end 400. |
| `ControlSnapshotPager.OffsetsMeanTheSame` | include/ControlSnapshotPager.h:28-41 | An offset may be sent as a number or as its decimal digits; both are admitted exactly up to 100000 and mean the same. |
| `ControlSnapshotPager.WholeWalkIsValidIff` | include/ControlSnapshotPager.h:28-41 | The request check admits every offset of a walk exactly when it admits the last; so for every document of at most 100001 items, and for none of more than 100064. |
| `ControlSnapshotPager.FetchableIff` | include/ControlSnapshotPager.h:28-41 | All pages from an offset on can be asked for and sent exactly when the walk from there meets no error and the request check admits its last offset. |
| `ControlSnapshotPager.FetchableBySize` | include/ControlSnapshotPager.h:28-41 | A document of at most 100001 items, none too large for a page, can be fetched; one of more than 100064 items cannot. |
| `ControlSnapshotPager.FetchableInFullPagesIff` | include/ControlSnapshotPager.h:28-41 | Where no page has to be made smaller, a document can be fetched exactly when it has at most 100032 items. |
| `ControlSnapshotPager.LongDocumentCannotBeFetched` | include/ControlSnapshotPager.h:28-41 | A document of 100065 aircraft in 300000 bytes: it is kept, every page is small enough, and the request check refuses the offset of its last page. |
| `ControlSnapshotPager.SumWithout` | include/ControlSnapshotPager.h:53 | The byte sum over the live snapshots does not depend on their order. |
| `ControlSnapshotPager.ControlSnapshotPager.Expire` | include/ControlSnapshotPager.h:51-55 | Exactly the snapshots younger than 30 seconds stay, and the byte counter is still their sum. |
| `ControlSnapshotPager.ControlSnapshotPager.Evict` | include/ControlSnapshotPager.h:70-75 | There is room afterwards; no snapshot that went is newer than one that stayed, and no more went than had to. |
| `ControlSnapshotPager.ControlSnapshotPager.FitPage` | include/ControlSnapshotPager.h:84-101 | The halving loop sends the first page that fits, or an error only if even the smallest does not. |
| `ControlSnapshotPager.ControlSnapshotPager.Insert` | include/ControlSnapshotPager.h:70-78 | The document is kept under the fresh id; counter and limits hold. |
| `ControlSnapshotPager.ControlSnapshotPager.Respond` | include/ControlSnapshotPager.h:46-102 | After every request: the byte counter is the sum over the live snapshots and at most 8 MiB, at most 32 are live, the others are unchanged, and the reply is the one of its case: 400, 409, 413, the whole document, or a page. |
| `ControlSnapshotPager.Fetch` | include/ControlSnapshotPager.h:46-102 | A client that follows the next offsets, each time with the snapshot id that the reply before named, at any times and with any requests of other clients in between, gets the whole document back, the rest of it included, if it gets all pages. While nothing expires and nobody else asks, it gets them exactly when the document is no refusal and either fits one reply (64 items, 196608 bytes), or fits the cache and can be fetched. |
| `Pcm16WavCapture.Pcm16WavCapture.WriteHeader` | include/P25VoiceTest.h:273-288 | The 44 header bytes of RIFF/WAVE with sizes still zero. |
| `Pcm16WavCapture.Pcm16WavCapture.WriteU16` | include/P25VoiceTest.h:290-297 | Low byte first, at the end of the file. |
| `Pcm16WavCapture.Pcm16WavCapture.WriteU32` | include/P25VoiceTest.h:299-308 | Four bytes, low byte first, over what is at the position. |
| `Pcm16WavCapture.Pcm16WavCapture.Open` | include/P25VoiceTest.h:214-232 | A new file with the default rate of 48000 for 0; failure leaves no open capture. |
| `Pcm16WavCapture.Pcm16WavCapture.Append` | include/P25VoiceTest.h:234-250 | The samples written so far grow by the clamped and rounded block, non-finite ones as zero. |
| `Pcm16WavCapture.Pcm16WavCapture.Close` | include/P25VoiceTest.h:252-265 | Only the two size fields are overwritten, with the capped and wrapped 32-bit sizes. |
| `WavRoundTrip.SampleComesBackClose` | include/P25VoiceTest.h:246 | A number in [-1, 1] comes back within 1.5/32768; larger ones at full scale, and values that are not numbers as zero. |
| `ComparePcmWav.ReadChunk` | scripts/compare_pcm_wav.py:20-37 | One chunk, or the first of the six errors that applies. |
| `ComparePcmWav.Read` | scripts/compare_pcm_wav.py:11-55 | The reader's loop gives the format and data of all chunks, or the error of the first bad one, for every byte string. |
| `WavRoundTrip.ChunksOfClosed` | scripts/compare_pcm_wav.py:19-37 | The chunks of a closed capture are read to the end exactly when 2*samples is at most 0xffffffdb; above that the wrapped or capped size makes the reader stop short. |
| `WavRoundTrip.ClosedReadsBackIff` | scripts/compare_pcm_wav.py:11-55 | The reader accepts a closed capture exactly when the rate is below 2^31 and the data has at most 0xffffffdb bytes, and then returns that rate, one channel, and the written samples over 32768. |
| `WavRoundTrip.HighRateIsRejected` | scripts/compare_pcm_wav.py:43-44 | An empty capture at 2^31 Hz, whose byte rate wraps to zero, is refused. |
| `WavRoundTrip.CaptureAndRead` | include/P25VoiceTest.h:214-265 | The same for a whole capture: open, any blocks appended, close, read. |
| `WavFiles.FileIsRead` | scripts/compare_pcm_wav.py:11-55 | Any file made of any chunks, of even or odd length, is read as its last format and all its data together, chunks of other kinds passed over; without a format it is refused. |
| `WavFiles.ChunkIsReadIff` | scripts/compare_pcm_wav.py:19-37 | A chunk is read exactly when it is there with its padding, within the RIFF chunk, and long enough for a format if it is to hold one. |
| `WavFiles.SimpleIsDecoded` | scripts/compare_pcm_wav.py:11-55 | A file of a format, some other chunk and data is decoded by that format. |
| `WavFiles.PcmIsDecoded` | scripts/compare_pcm_wav.py:40-55 | 16-bit PCM of any number of channels comes back with its rate, its channels and its samples interleaved as they are, exactly when they make whole frames. |
| `WavFiles.StereoFloatIsDecoded` | scripts/compare_pcm_wav.py:40-55 | Stereo 32-bit float samples come back as they are, exactly when all are finite. |
| `WavFiles.OddFormatsAreRefused` | scripts/compare_pcm_wav.py:40-46 | Other codecs and widths are refused as unsupported; what is decoded has channels, a rate, agreeing sizes and whole frames, and keeps its channels and rate. |
| `SatcomIqCursor.SatcomIqCursor.Consume` | include/SatcomIqCursor.h:33-88 | Cursor and delivery after any snapshot; the re-anchoring branch is proved unreachable. |
| `SatcomIqCursor.RunIsChronological` | include/SatcomIqCursor.h:33-88 | For every run of true views in order, each delivery holds the samples of its labels and begins where the last ended, or later in the same epoch; it is flagged exactly if it is the first, of a new epoch, or after a gap. |
| `SatcomIqCursor.ViewIsTaken` | include/SatcomIqCursor.h:33-88 | A view with samples in it moves the cursor to its end, and hands out exactly those of its labels that lie at or beyond the cursor in the cursor's epoch, and all of them in another epoch or from a reset cursor. |
| `SatcomIqCursor.HandedIff` | include/SatcomIqCursor.h:33-88 | Over every run of true views in order: exactly those labels are handed out that some view has beyond all that was seen of their epoch before it. |
| `SatcomIqCursor.EveryViewIsHanded` | include/SatcomIqCursor.h:9-12 | From a reset cursor, over views of a ring that only moves forward, every label of every view is handed out. |
| `SatcomIqCursor.OlderLabelIsNotHanded` | include/SatcomIqCursor.h:73-87 | A view [10, 20) and then [5, 25): label 5 is never handed out, so a ring that moves back within an epoch does lose labels. |
| `SatcomIqCursor.AtMostOnceInOrder` | include/SatcomIqCursor.h:9-12 | No label of an epoch is delivered twice, and deliveries come in increasing order. |
| `SatcomIqCursor.NothingLostWhenKeepingUp` | include/SatcomIqCursor.h:73-87 | While views reach back to what was delivered, the deliveries concatenate to the stream itself, unflagged. |
| `SatcomIqCursor.RepeatsIff` | include/SatcomIqCursor.h:43-57 | For any snapshot at all of the same epoch: labels are repeated exactly when it begins before the cursor and is a rewind, a source discontinuity or of the wrong shape; and then it is flagged. |
| `P25PipelineTrace.P25PipelineTrace.Start` | include/P25PipelineTrace.h:42-46 | An empty queue, numbers from 1, nothing dropped, enabled. |
| `P25PipelineTrace.P25PipelineTrace.Stop` | include/P25PipelineTrace.h:47-50 | Nothing more is accepted; what is queued stays. |
| `P25PipelineTrace.P25PipelineTrace.Push` | include/P25PipelineTrace.h:52-63 | The event joins the end of the ring with the next number exactly if it is accepted; it is counted as dropped under contention or when the ring is full. |
| `P25PipelineTrace.P25PipelineTrace.Drain` | include/P25PipelineTrace.h:64-76 | The queued events in order, around the end of the ring; the queue is empty afterwards. |
| `P25PipelineTrace.RunIsAccounted` | include/P25PipelineTrace.h:42-76 | From start on, over every interleaving of pushes (with contention and stale reads of the flag), drains and stop: accepted events are those drained plus those queued, numbered 1, 2, 3, ...; dropped ones are counted. |
| `P25PipelineTrace.AttemptIsTakenOrCounted` | include/P25PipelineTrace.h:52-63 | Every attempt is taken, counted as dropped, or finds tracing off: taken exactly if it saw tracing on, got the lock, and found tracing on and room. |
| `P25PipelineTrace.BurstComesBack` | include/P25PipelineTrace.h:42-76 | From start on, a burst that fits the ring comes back whole and numbered from 1 from the next drain, nothing dropped. |
| `P25PipelineTrace.OrderErrors` | scripts/analyze_p25_timeline.py:34-37 | The analyzer counts no ordering error exactly when the numbers are 1, 2, 3, ... without gap. |
| `P25PipelineTrace.DrainedIsInOrder` | scripts/analyze_p25_timeline.py:34-37 | On the concatenated drains of any run that count is zero. |

## Left out

- Floating-point rounding, Kaiser and Bessel tap design, the Hann window, mean removal and logarithms of `spectrum`, and the noise median of `measure`: the transform, filters and planner are exact.
- `discover`, `Gate`, `selectForeground` of include/SatcomScanPolicy.h: selection over measured values, easy members.
- RollingIqDelivery.ExactlyOnce: assumes one epoch between discontinuities, bridged gaps, one flight at a time of at most 573440 fresh samples, and no forced trim, because without each of these the code does lose or repeat samples, as the lemmas on where the promises end show. A flight that a discontinuity overtakes is not counted as delivered; if it is committed later, that comes before the next take and with an end label not above the present cursor.
- RollingIq.RollingIqWindow.TakeUndecoded: the sample-index mode and its rewind are modelled and proved per operation, but no exactly-once claim is made over runs in that mode, where the rewind repeats samples by design.
- Wrap-around of 64-bit labels, tickets, ids and sequence numbers: out of reach of any run of the program.
- DriverIoMutex.FrontMakesProgress: says that the next steps admit the front owner, not that a scheduler takes them; fairness of the operating system is assumed outside the model.
- Unlocking by a thread that does not hold the driver lock: callers hold the lock for the duration of their driver call.
- `DriverIoMutexTable`: one lock for each key, an easy member.
- Error texts of ownership refusals, and the parsing and printing of the reservation file: which operations are refused is modelled, not the wording.
- `p25SdrtrunkTunerCenterHz` of include/P25SdrtrunkTune.h: the single-channel case of the modelled calculator.
- ControlSnapshotPager.Fetch: other clients bring ids of their own; which of their requests evict the snapshot is not worked out, only that the client then gets no mixed result.
- Order among snapshots of equal age on eviction, and the order in which ownership loops visit leases: left open, the results do not depend on it.
- ControlSnapshotPager.ControlSnapshotPager.Respond: a first request needs an id that is not in use, which the program takes from a UUID generator.
- Stream errors in the middle of a capture, and the file system: writes succeed once the header has been written.
- Float samples of the reader are kept as 32-bit words, checked for being finite but not converted.
- All of the analyzer but its sequence check, and the fields of trace events other than the number.
- Qt widgets and timers, SoapySDR and vendor drivers, decoders whose bodies are outside the modelled headers: user interface, I/O and foreign code.
