# Verified models for the redfin device services

Three services of the redfin device repository carry most of its logic: the vibrator HAL, which turns calibration data
into drive voltages; the dumpstate HAL, which packs modem logs into a tar archive; and the USB HAL, whose binder threads
and uevent worker share three mutexes, a condition variable and a signal flag. This project models that logic in Dafny
and proves what it keeps.

`dafny verify dfyconfig.toml` checks everything.

## Vibrator (`Libm`, `CubicSolver`, `CubicTheorems`, `LraPeriod`, `Calibration`, `Vibrator`)

The calibration solver inverts a cubic (voltage to acceleration) by the four-case Shengjin formula. It is modelled with
all its branches over exact reals; a record `Lib` of functions stands for libm, and `Sound` is what libm promises of
`sqrt`, `pow(_, 1/3)`, `acos`, `cos` and `sin`. An operation that C floats would answer with a NaN or an infinity is
`NotFinite`, and every comparison with it is false, so no input is excluded.

The centre is `SolverInvertsEvaluator`: an answer, given back to the forward polynomial, yields the target *if and only
if* the tolerance of the discriminant tests is harmless (in case 1 the constant of the depressed cubic is zero, in case 4
that constant or the discriminant is). Cases 2 and 3 are always exact. `SolverMissesNoSolution` is the converse: with
exact discriminants and an in-range solution, one is answered *if and only if* `Finds` holds. Which one follows from the
solutions alone: of three, the least if it is in range, or else the greatest in range (`AnswerOfThree`, for a > 0, and
mirrored for a < 0); of two, the simple one whenever it is in range (`AnswerOfDouble`). Two families are missed. In
case 2, where a Y lies within the tolerance of zero beside a negative one, `pow` is taken of a negative number
(`PureCubicHasNoAnswer`: x³ = 1). With a = 0 the code, which never rejects it, finds only the double root of the parabola
that is left, and answers 0 otherwise (`ParabolaHasNoAnswer`: x² = 1). `OutputRange` says exactly where the promised range
0 to 3.2 holds, since case 2 never checks it.

`EffectClampReachesTarget`, `SteadyClampReachesTarget` and `SteadyClampOnSecant` carry this to the clamps the constructor
stores. The class `Vibrator` then keeps, over every run of requests, that the clamp array `odClamp` points to is readable at every index used, and that clamps and period are
those of the last decisive temperature (`On`, `LastDecisiveRules`). `LraPeriod` treats the 32-bit period/frequency formula
as the Galois connection it is. `ShiftedValue` gives the shifted period for every shift, wrapped or not; it is no shorter
than the period exactly for shifts below the frequency, as far as 133860 Hz above it, and `ShiftLengthensIff` has the
condition for every shift.

## Dumpstate (`Octal`, `TarHeader`, `TarReader`, `TarWriter`, `TarTheorems`, `DumpLogs`)

The archive writer is imperative: header bytes are written over one another in place, files are appended in whatever
chunks `read` delivers, padding is written byte by byte. `TarReader` is a reader of the ustar Interchange Format (IEEE Std
1003.1, pax, EXTENDED DESCRIPTION), written from the standard. `ArchiveRoundTrip` holds for every directory: reading back
yields exactly the selected files, in order, if and only if every selected entry has a name of at most 100 bytes and
delivers as many bytes as its header records. `OutputRoundTrip` says the same of the file left on disk, which is not
truncated first. Two things the writer does differently from common practice are part of this: it leaves a space and a
NUL as version, and no zero blocks at the end.

## USB (`Uevent`, `RoleText`, `PortMap`, `UsbProtocol`, `UsbInvariants`, `UsbLifecycle`, `UsbHandshake`, `UsbReachable`, `UsbTraces`, `UsbReceipts`, `UsbCalls`, `UsbRuns`, `UsbStale`, `UsbProgress`, `UsbDeadlock`, `UsbParked`, `UsbFairness`, `UsbLiveness`)

`UsbProtocol` is a transition system over any number of binder threads and workers. One step is one lock operation, one
access to shared state or one system call, each with every outcome it can have: timeouts, spurious wakeups, failing
writes, failing thread creation, signals at any point. `UsbReachable` proves one invariant of all reachable states, and
the other modules draw the consequences:

- `UsbCalls` compares every call and every message with what it should leave in the history, event by event. The history
  holds what each thread does and what each system call answers it. `ModeSwitchIsWhole`: a switchMode that returns has
  left exactly the events of one of four ways (the node does not open, the write fails, the wait expires, a partner
  comes), and returns true in the last alone; `OutcomeTells` spells out what that means for fopen, fputs and the wait.
  `SwitchRoleIsWhole` does the same for switchRole, and `RestoringIsWhole` for the worker: between taking and dropping
  mRoleSwitchLock it writes "dual" to exactly the queried ports it finds without a partner, in order. `EverythingIsWhole`
  and `RestIsWhole`: nothing else is ever in between.
- `SuccessMeansPartner`: in every interleaving switchMode returns true only if, within that call, mPartnerUp was cleared,
  the wait started, and a worker handled a partner record, in this order, with no record between clearing and wait.
- `FreshRecordIff`: that record was *received* after the clearing if and only if no worker held an unhandled one then.
  `StaleRecordServes` and `StaleRunReachable` show switches that succeed on a record from before they began.
- `PortTypeExclusive`, `FailedSwitchRestoresDual`: who writes `port_type` when.
- `NoLostWakeup`: a thread that waits although mPartnerUp is set is about to be signalled.
- `FinitelyManySteps`, `ToldWorkerRests`: in every endless run a call that goes back to its wait only finitely often, and
  a worker told to end, take only finitely many steps.
- `WorkerLifecycle`, `ClearedWhileNoneLive`: at most one worker, and destroyThread is cleared only while none lives.
- `WaitsEnd`: following the waits of any thread leads to one that can take a step, if and only if there is no *embrace*, in
  which setCallback(NULL) joins, with mLock, a worker that waits for mLock. `EmbraceReachable` shows a run that gets
  there, `EmbraceForever` that nothing ends it, and `DeadlockFree` that runs without setCallback(NULL) never have one.
- `WaitsLeadOn`, `JoinLeadsOn`: a worker in epoll_wait can only go on if a uevent comes, and there is a second hang. The
  SIGUSR1 that tells a worker to end can be handled between the loop's test of destroyThread and epoll_wait; the worker
  is then *parked* while setCallback(NULL) joins it with mLock. In every reachable state all waits lead to a thread that
  can go on without a new call or uevent, if and only if nobody is embraced or parked. `ParkedReachable` shows a run with
  no system call failing, `ParkedForever` that only a uevent or a failing epoll_wait ends it.
- `ToldWorkerEnds`: in every run with a fair scheduler a worker told to end ends, or is embraced, or stays in epoll_wait
  for good. Fairness asks nothing of idle threads and of workers in epoll_wait.
- `EveryCallReturns`: in every such run in which signals are delivered, nothing hangs in these two ways, and mode switches
  are woken in vain only finitely often, mRoleSwitchLock is always free again later and every call that a binder thread
  has begun returns. `HealthyRunExists`: such runs exist.

`UnregisterCompletes` shows the same unregistration going well, when the signal interrupts epoll_wait.

`Uevent`, `RoleText` and `PortMap` are the sequential parts: the scanner, the role text and the port map. `OneRecord` and
`MessageOfTwo` say which records count and how a message is made of them.

## Where code and comments disagree

The model follows the code.

- The comment at vibrator/drv2624/Vibrator.cpp:172 promises outputs from 0 to 3.2; case 2 returns unchecked
  (`AnswerBelowRange`).
- The comment at dumpstate/DumpstateDevice.cpp:107 puts `version` at offset 259; behind the six bytes of `magic` it is at
  263.
- The comment at usb/usb/Usb.cpp:742 says that the port is in disconnected state; that is only found out afterwards, port
  by port, from its partner directory.

## Model

| member | source | states |
|---|---|---|
| CubicTheorems.Depressed | vibrator/drv2624/Vibrator.cpp:179-183 | 27a²(f(x) - target) is the depressed cubic at 3ax + b, with the code's A and B as coefficients |
| CubicTheorems.Discriminant | vibrator/drv2624/Vibrator.cpp:179-183 | the code's Delta is the discriminant of that depressed cubic, up to -27 and 9a² |
| CubicTheorems.SolutionIff | vibrator/drv2624/Vibrator.cpp:252-259 | x solves the forward cubic exactly when 3ax + b is a zero of the depressed one |
| CubicTheorems.CubeRoots | vibrator/drv2624/Vibrator.cpp:196-197 | the real cube roots of Y1 and Y2 differ and have product A, and Y1 + Y2 is the constant of the depressed cubic |
| CubicTheorems.SingleRootDefined | vibrator/drv2624/Vibrator.cpp:199-211 | case 2 has a finite answer exactly when a is not zero and either both Y are non-negative or both are outside the tolerance |
| CubicTheorems.SingleRootForm | vibrator/drv2624/Vibrator.cpp:199-211 | all four sign branches give (-b - cbrt(Y1) - cbrt(Y2)) / 3a with real cube roots |
| CubicTheorems.SignAwayFromRoot | vibrator/drv2624/Vibrator.cpp:194-212 | on either side of that root the cubic is strictly below or above the target |
| CubicTheorems.SingleRootExact | vibrator/drv2624/Vibrator.cpp:194-212 | in case 2 the answer is a solution and the only real one |
| CubicTheorems.OutputRange | vibrator/drv2624/Vibrator.cpp:170-250 | the documented output range holds everywhere outside case 2, and there exactly when the target lies between the accelerations at both ends |
| CubicTheorems.AcosDefined | vibrator/drv2624/Vibrator.cpp:213-219 | with a not zero, Delta < 0 implies A > 0 and an argument of acos strictly inside (-1, 1) |
| CubicTheorems.TrigCandidatesExact | vibrator/drv2624/Vibrator.cpp:213-233 | the three candidates of case 3 are exactly the real solutions |
| CubicTheorems.TripleRootExact | vibrator/drv2624/Vibrator.cpp:187-193 | with A = B = 0 the candidate of case 1 is the only solution |
| CubicTheorems.TripleRootErrorBound | vibrator/drv2624/Vibrator.cpp:187-193 | an answer of case 1 misses the target by at most eps(2 abs(b) + 3 abs(a)) / 27a² |
| CubicTheorems.DoubleRootResidual | vibrator/drv2624/Vibrator.cpp:234-245 | what the two candidates of case 4 miss the target by: w Delta / 3A² and w Delta / 12A² |
| CubicTheorems.DoubleRootExact | vibrator/drv2624/Vibrator.cpp:234-245 | with Delta = 0 the two candidates of case 4 are exactly the solutions |
| CubicTheorems.ParabolaVertex | vibrator/drv2624/Vibrator.cpp:234-245 | with a = 0 the second candidate of case 4 is a solution exactly when Delta = 0 |
| CubicTheorems.SolverInvertsEvaluator | vibrator/drv2624/Vibrator.cpp:170-259 | for every coefficients and target, the forward polynomial at an answer gives the target if and only if the tolerance is harmless |
| CubicTheorems.SolverMissesNoSolution | vibrator/drv2624/Vibrator.cpp:170-250 | for every coefficients with exact discriminants and a solution in (eps, 3.2], the solver answers one if and only if a is not zero and case 2, if it is the case, has its cube roots, or a is zero and it is case 4; otherwise it answers a NaN or zero |
| CubicTheorems.RootsInOrder | vibrator/drv2624/Vibrator.cpp:220-232 | case 3 tries the least of its candidates first, then the greatest, then the one between (a > 0; the other way round for a < 0) |
| CubicTheorems.AnswerOfThree | vibrator/drv2624/Vibrator.cpp:213-233 | of three real solutions the answer is the least if that is in (eps, 3.2], and otherwise the greatest in that range (a > 0; greatest and least change places for a < 0) |
| CubicTheorems.SimpleAndDouble | vibrator/drv2624/Vibrator.cpp:234-245 | with Delta = 0 the first candidate of case 4 is the simple root and the second the double one, by the slope of the polynomial there |
| CubicTheorems.AnswerOfDouble | vibrator/drv2624/Vibrator.cpp:234-245 | with Delta = 0 the answer is the simple root whenever that is in range, and otherwise the double one |
| CubicTheorems.AnswerOfTwo | vibrator/drv2624/Vibrator.cpp:234-245 | the same order whatever Delta the tolerance lets through, for the numbers that stand for the two roots |
| CubicTheorems.AnswerOfTriple | vibrator/drv2624/Vibrator.cpp:187-193 | case 1 answers -b/3a if it is in range, and zero otherwise |
| CubicTheorems.AnswerOfParabola | vibrator/drv2624/Vibrator.cpp:187-245 | with a = 0 case 4 answers the vertex if it is in range, whatever Delta the tolerance lets through; everything else outside case 2 is answered zero |
| CubicTheorems.NoVoltageNoAnswer | vibrator/drv2624/Vibrator.cpp:187-245 | without a solution in range, and with a harmless tolerance, all but case 2 answer zero |
| CubicTheorems.ParabolaAnswer | vibrator/drv2624/Vibrator.cpp:187-245 | with a = 0 an in-range solution is answered exactly if it is the double root, and zero otherwise |
| CubicTheorems.ParabolaHasNoAnswer | vibrator/drv2624/Vibrator.cpp:213-233 | for x² = 1 the solution is in range, every candidate divides by zero, and the answer is zero |
| CubicTheorems.PureCubicHasNoAnswer | vibrator/drv2624/Vibrator.cpp:199-211 | for x³ = 1 the solution is in range, and case 2 takes a power of a negative number |
| CubicTheorems.AnswerBelowRange | vibrator/drv2624/Vibrator.cpp:170-212 | for x³ = -1000 case 2 answers -10 |
| CubicTheorems.ToleranceCostsAccuracy | vibrator/drv2624/Vibrator.cpp:234-245 | a cubic whose discriminant is within the tolerance and whose answer is not a solution |
| LraPeriod.DefinedIff | vibrator/drv2624/Vibrator.cpp:144-146 | with the wrapping 32-bit product, the divisor is zero only for argument zero |
| LraPeriod.Galois | vibrator/drv2624/Vibrator.cpp:144-146 | up to 174485, y <= f(x) if and only if xy <= 40625 |
| LraPeriod.Antitone | vibrator/drv2624/Vibrator.cpp:144-146 | a longer period never has a higher frequency |
| LraPeriod.WithinScale | vibrator/drv2624/Vibrator.cpp:144-146 | periods from 1 to 40625 have frequencies in the same range |
| LraPeriod.ThereAndBack | vibrator/drv2624/Vibrator.cpp:424-428 | f(f(x)) >= x and f(f(f(x))) = f(x) |
| LraPeriod.ShiftLengthens | vibrator/drv2624/Vibrator.cpp:424-428 | for periods 1 to 40625 the shifted period is undefined exactly at the frequency; for all shifts up to 133860 above it, it is defined and no shorter exactly if the shift is below the frequency; above it the value is 0, and 1 at 133861 |
| LraPeriod.ShiftLengthensIff | vibrator/drv2624/Vibrator.cpp:424-428 | for every shift, it is no shorter exactly if the wrapped 32-bit product times the period is positive and at most 10^9 |
| LraPeriod.GaloisWrapped | vibrator/drv2624/Vibrator.cpp:144-146 | for every argument but zero, y <= f(x) if and only if y times the wrapped 32-bit product is at most 10^9 |
| LraPeriod.ShiftedValue | vibrator/drv2624/Vibrator.cpp:424-428 | for periods 1 to 40625 and shifts below the frequency f, y is at most the shifted period if and only if y(f - shift) <= 40625; for every period and shift, if and only if y times the wrapped product is at most 10^9; undefined exactly at the frequency |
| LraPeriod.ShiftMonotone | vibrator/drv2624/Vibrator.cpp:424-428 | below the frequency a larger shift never gives a shorter period |
| LraPeriod.ShiftTooLarge | vibrator/drv2624/Vibrator.cpp:427-428 | for period 262, a shift one above the frequency gives 0, and one far above it a period of 10^9 |
| Calibration.LinearExact | vibrator/drv2624/Vibrator.cpp:158-168 | the linear solver answers a solution in range or zero; an in-range solution is answered if the slope is not zero, and zero is if it is, though every voltage may be one |
| Calibration.InterpolatedOnSecant | vibrator/drv2624/Vibrator.cpp:378-391 | steady level 3 lies on the secant through 20% and 60%, and strictly between them exactly when its target does |
| Calibration.RoundWithinHalf | vibrator/drv2624/Vibrator.cpp:155 | rounding moves a number by at most one half and keeps it non-negative |
| Calibration.RoundExact | vibrator/drv2624/Vibrator.cpp:155 | n is the rounded value exactly from n - 1/2 up to but not including n + 1/2, and rounding is symmetric about zero |
| Calibration.ConversionExact | vibrator/drv2624/Vibrator.cpp:148-156 | which clamp every voltage is converted to, and which voltages no 32-bit clamp stands for |
| Calibration.ClampStepExact | vibrator/drv2624/Vibrator.cpp:151-153 | the unit of clamp is defined exactly up to 1250 Hz, and its square is 0.02132² (1 - 0.0008 f) |
| Calibration.ConversionError | vibrator/drv2624/Vibrator.cpp:148-156 | a clamp stands for the level it was converted from, up to half a unit |
| Calibration.ClampStepPositive | vibrator/drv2624/Vibrator.cpp:151-153 | the unit of clamp is defined and bounded away from zero below 1250 Hz |
| Calibration.EffectClampReachesTarget | vibrator/drv2624/Vibrator.cpp:334-362 | every effect clamp solved for, on the linear or the cubic path, stands within half a unit for a voltage that reaches the target exactly; level 5 unless the protection replaced it |
| Calibration.SteadyClampReachesTarget | vibrator/drv2624/Vibrator.cpp:371-402 | the same for steady levels 1 and 2 |
| Calibration.SteadyClampOnSecant | vibrator/drv2624/Vibrator.cpp:378-402 | the third steady clamp stands within half a unit for a voltage at which the secant through 0.64 V and 1.92 V has its target, when that lies between its ends and the protection has not replaced the clamp |
| Calibration.SteadyClampProportional | vibrator/drv2624/Vibrator.cpp:403-416 | without coefficients the steady clamps are proportional to their targets, up to one half |
| Calibration.BoundaryProtection | vibrator/drv2624/Vibrator.cpp:350-416 | effect level 5 and every steady level solved for stay within their maxima, and are zero only if these are; without coefficients every effect clamp is the maximum, and without a maximal amplitude either so are the steady ones that are set |
| VibratorService.FillEffectClamps | vibrator/drv2624/Vibrator.cpp:336-362 | the loop and the protection fill the five effect clamps level by level as specified |
| VibratorService.FillSteadyClamps | vibrator/drv2624/Vibrator.cpp:373-416 | the three steady clamps, but the one in the middle that is left alone without steady coefficients |
| VibratorService.InterpolateLevel | vibrator/drv2624/Vibrator.cpp:383-391 | the interpolated level, computed as the code does, is the one on the secant |
| VibratorService.ScaleClamp | vibrator/drv2624/Vibrator.cpp:408-415 | the rounded share of the maximum, for every amplitude, zero included |
| VibratorService.Vibrator.constructor | vibrator/drv2624/Vibrator.cpp:287-446 | the configurations, clamps and periods after set-up, and that every element read later is initialised |
| VibratorService.Vibrator.Drive | vibrator/drv2624/Vibrator.cpp:459-489 | the hardware calls made, up to the first refused one, and the status |
| VibratorService.Vibrator.On | vibrator/drv2624/Vibrator.cpp:491-517 | keeps that the steady configuration is the outcome of all requests so far; which clamp element is sent, and that it is in bounds and initialised |
| VibratorService.Vibrator.Perform | vibrator/drv2624/Vibrator.cpp:604-677 | the sequencer and clamp of every effect and strength, the reported time, and what is unsupported |
| VibratorService.DriveActivatesWith | vibrator/drv2624/Vibrator.cpp:459-489 | the calls leave the device activated once, last, with the configuration's shape, clamp and period, in closed loop exactly for long real-time vibrations; a refused duration leaves it as it was |
| VibratorService.EffectsGraded | vibrator/drv2624/Vibrator.cpp:619-668 | every effect uses one of the five levels, stronger effects at least as high ones and all strengths but light exactly one more, and every level is used |
| VibratorService.SequencesOfEffects | vibrator/drv2624/Vibrator.cpp:638-662 | two effects play the same sequence only if they are the tick and the texture tick, and which one each plays |
| VibratorService.LastDecisiveRules | vibrator/drv2624/Vibrator.cpp:499-514 | after any run, clamps and period are those of the last request outside [5000, 10000] |
| VibratorService.ShapeKept | vibrator/drv2624/Vibrator.cpp:499-514 | no run changes the shape of the steady configuration |
| VibratorService.NothingDecisive | vibrator/drv2624/Vibrator.cpp:499-514 | a run of requests between the bounds leaves the initial pair |
| Octal.ValueOfPadded | dumpstate/DumpstateDevice.cpp:132-138 | zero-padded octal text stands for the number it was made from |
| Octal.DigitCount | dumpstate/DumpstateDevice.cpp:133 | a number has at most k octal digits exactly when it is below 8^k |
| Octal.ReadPadded | dumpstate/DumpstateDevice.cpp:133 | a field filled with padded octal text reads back as the number exactly when it is below 8 to the field's length |
| TarHeader.SumText | dumpstate/DumpstateDevice.cpp:138 | the checksum of a block always has six octal digits |
| TarHeader.Print | dumpstate/DumpstateDevice.cpp:131-138 | strcpy and sprintf into the header overwrite the text's bytes and one NUL, and nothing else |
| TarHeader.TarCheckSum | dumpstate/DumpstateDevice.cpp:116-127 | the checksum field becomes spaces and the result is the sum of all bytes then |
| TarHeader.FillTarHeader | dumpstate/DumpstateDevice.cpp:129-140 | the whole header block, including what an overlong name leaves in later fields |
| TarReader.Fields | dumpstate/DumpstateDevice.cpp:129-140 | name, size, type, magic, version and prefix of the finished header, byte by byte |
| TarReader.OtherFields | dumpstate/DumpstateDevice.cpp:130-138 | the mode reads as 0600 and the time as 0; every byte no field is written to is zero, or what is left of an overlong name |
| TarReader.ChecksumConsistent | dumpstate/DumpstateDevice.cpp:116-138 | for every header the number stored equals an independent sum with the checksum field read as spaces |
| TarReader.HeaderRoundTrip | dumpstate/DumpstateDevice.cpp:129-140 | a standard reader gets name and size back if and only if the name has at most 100 bytes and the size is below 8^12 |
| TarWriter.OutFile.Write | dumpstate/DumpstateDevice.cpp:80-90 | writing from the start of an untruncated file leaves its old bytes beyond what has been written |
| TarWriter.CreateTarFile | dumpstate/DumpstateDevice.cpp:142-198 | the output is the archive of the directory, tarLen its length, and a multiple of 512 |
| TarWriter.AppendMember | dumpstate/DumpstateDevice.cpp:164-195 | one entry adds nothing, or its header, contents and padding |
| TarWriter.AppendFile | dumpstate/DumpstateDevice.cpp:185-188 | however the reads are cut, all bytes they deliver are appended in order |
| TarWriter.Pad | dumpstate/DumpstateDevice.cpp:190-193 | the padding loop ends after fewer than 512 zero bytes, on a block boundary |
| TarWriter.Aligned | dumpstate/DumpstateDevice.cpp:190-193 | every file boundary of an archive is a block boundary |
| TarWriter.CopyFile | dumpstate/DumpstateDevice.cpp:70-94 | the destination holds the source, then its own old bytes beyond that length |
| TarWriter.Relay | dumpstate/DumpstateDevice.cpp:356-374 | a prefix of the file is relayed, and all of it if no write is short; the loop ends at the end of the file exactly when no read or write fails |
| TarTheorems.ReadMember | dumpstate/DumpstateDevice.cpp:164-195 | a faithful member in front of anything is read back whole; any other is not |
| TarTheorems.ArchiveRoundTrip | dumpstate/DumpstateDevice.cpp:142-198 | for every directory and tail, reading back yields exactly the non-dot, openable files in order, if and only if all are faithful and the tail reads as nothing |
| TarTheorems.ReadsAsNothing | dumpstate/DumpstateDevice.cpp:196-198 | only the end of the bytes or a block of zeros ends an archive |
| TarTheorems.OutputRoundTrip | dumpstate/DumpstateDevice.cpp:156-198 | the same for the untruncated output file, with the exact condition on what it held before |
| TarTheorems.CutMember | dumpstate/DumpstateDevice.cpp:356-374 | a proper part of a faithful member reads as no archive |
| TarTheorems.CutArchive | dumpstate/DumpstateDevice.cpp:356-374 | a faithful archive cut at n, as a failing relay leaves it, can be read if and only if n is a member boundary, and then reads as exactly the files before it, with no sign of a loss |
| TarTheorems.ArchiveLength | dumpstate/DumpstateDevice.cpp:183-193 | the length is 512 times one header block and the rounded-up contents per selected file |
| DumpLogs.CopyNewest | dumpstate/DumpstateDevice.cpp:200-241 | the descending loop copies as many matching names as the limit allows, the i-th being the i-th from the end of the listing |
| DumpLogs.NewestStep | dumpstate/DumpstateDevice.cpp:216-228 | one more name at the front of a listing is selected exactly when it matches and the limit is not reached |
| DumpLogs.MatchingSorted | dumpstate/DumpstateDevice.cpp:203-222 | the matching names of a sorted listing are sorted |
| DumpLogs.CopiedAreNewest | dumpstate/DumpstateDevice.cpp:200-241 | all matching names are copied for the limit -1, at most as many as any other limit says, none for a negative one, and never fewer; each is at or above every skipped matching one |
| DumpLogs.MatchingIff | dumpstate/DumpstateDevice.cpp:219-221 | the matching names are those of the listing that are the prefix with something behind it, each as often as it is listed |
| DumpLogs.FirstDifference | dumpstate/DumpstateDevice.cpp:203-208 | the order of names: the first difference decides, and a name comes before its continuations |
| DumpLogs.SomeDifference | dumpstate/DumpstateDevice.cpp:203-208 | any two names either differ somewhere or one begins with the other, so the order is total |
| Uevent.UeventEvent | usb/usb/Usb.cpp:714-763 | for every buffer and length the scan ends within its terminators and does exactly what the records before the first empty one ask for, cut after the first status query |
| Uevent.AdvancePastNul | usb/usb/Usb.cpp:759-761 | the inner loop stops one past the next NUL |
| Uevent.RemainingAfter | usb/usb/Usb.cpp:729-762 | what the record at the cursor leads to, and where the scan goes on |
| Uevent.HandlesTheRecords | usb/usb/Usb.cpp:714-763 | a message made of NUL-ended records is handled as exactly these records, whatever follows an empty one |
| Uevent.OneStatusQuery | usb/usb/Usb.cpp:736-758 | a message leads to at most one status query, and it comes last |
| Uevent.OneRecord | usb/usb/Usb.cpp:730-738 | what a message of one record does, by its characters: a partner was added if and only if it is "add", anything within a line, and "-partner"; a status query if and only if it begins with one of the two texts; nothing otherwise |
| Uevent.MessageOfTwo | usb/usb/Usb.cpp:729-762 | a message is handled record by record, and not beyond its first status query |
| RoleText.ExtractShapes | usb/usb/Usb.cpp:284-293 | the result is the text untouched, what is between the brackets, or all behind a "[" that follows a "]", where the length wraps |
| RoleText.ExtractBracketed | usb/usb/Usb.cpp:284-293 | pre[r]post gives r |
| RoleText.ExtractIdempotentIff | usb/usb/Usb.cpp:284-293 | extracting twice is extracting once, with the exact exception |
| RoleText.ReadBackIff | usb/usb/Usb.cpp:411-424 | for power and data roles and every outcome of the write and the read, success is reported exactly when both succeed and a connected read-back of that content gives the same role and tag |
| RoleText.ModeTexts | usb/usb/Usb.cpp:274-281 | a mode has the text of the power role that goes with it, and of no role if none does |
| RoleText.TrimIff | usb/usb/Usb.cpp:419-422 | Trim takes all white space at both ends away and nothing else |
| RoleText.DisconnectedReply | usb/usb/Usb.cpp:463-478 | a port without a partner has no role of the kind asked for, whatever the nodes hold |
| RoleText.ConnectedReply | usb/usb/Usb.cpp:480-521 | each reply of a connected port, accessories and errors included, exactly when it is given |
| RoleText.ReplyKeepsKindIff | usb/usb/Usb.cpp:459-522 | for every content and accessory, the reply is of the kind asked for if and only if the text read names no role of another kind |
| RoleText.ModeOnDataRole | usb/usb/Usb.cpp:470-514 | a mode is read off data_role as the one that goes with the data role there |
| PortMap.GetTypeCPortNames | usb/usb/Usb.cpp:524-550 | the map has the plain link names and the first tokens of the partner links as keys, true exactly for those with a partner link |
| PortMap.OneMoreLink | usb/usb/Usb.cpp:531-543 | what one more link must change in the map |
| PortMap.OrderIndependent | usb/usb/Usb.cpp:531-543 | every order and repetition of the same entries gives the same map |
| PortMap.TokenOfPartner | usb/usb/Usb.cpp:539-541 | the partner link of a port without "-" in its name names that port |
| PortMap.PartnerIff | usb/usb/Usb.cpp:532 | partner links are the names with "-partner" somewhere in them, and no others |
| PortMap.TokenBehindDashes | usb/usb/Usb.cpp:541 | the first token of every name: behind any dashes, up to the next one or the end |
| UsbInvariants.Accounts | usb/usb/Usb.cpp:325-445 | at every program point the instruction takes only locks not held there, drops only held ones, and leads to points that hold what it leaves |
| UsbInvariants.Moves | usb/usb/Usb.cpp:730-735 | a step moves its own thread, the one waiter a signal wakes or the worker created, and no other |
| UsbInvariants.ExecKeepsLocks | usb/usb/Usb.cpp:325-445 | every instruction keeps that a lock is owned by exactly the thread whose program point holds it |
| UsbInvariants.Exclusive | usb/usb/Usb.cpp:325-445 | no two threads are between taking and dropping the same lock |
| UsbInvariants.StepKeepsTypes | usb/usb/Usb.cpp:765-871 | workers run only after they have been created |
| UsbLifecycle.LifeSteps | usb/usb/Usb.cpp:836-871 | only setCallback, under mLock, changes mCallback, destroyThread and the worker |
| UsbLifecycle.QuietStep | usb/usb/Usb.cpp:836-871 | every other step leaves these alone and brings no worker to life |
| UsbLifecycle.LifeStep | usb/usb/Usb.cpp:836-871 | what a step of setCallback does to phase, variables and live workers |
| UsbLifecycle.AssignCallbackKeeps | usb/usb/Usb.cpp:838-845 | the lifecycle survives setting and clearing the callback |
| UsbLifecycle.KillKeeps | usb/usb/Usb.cpp:848-849 | the lifecycle survives the signal, whether or not pthread_kill fails for an ended worker |
| UsbLifecycle.JoinKeeps | usb/usb/Usb.cpp:850 | after the join no worker is alive |
| UsbLifecycle.AssignDestroyKeeps | usb/usb/Usb.cpp:857 | destroyThread is cleared while none is alive |
| UsbLifecycle.CreateKeeps | usb/usb/Usb.cpp:864-867 | a created worker is the only one alive, and a failed creation leaves no callback |
| UsbLifecycle.LifeStepKeepsLifecycle | usb/usb/Usb.cpp:836-871 | every step of setCallback keeps the lifecycle |
| UsbLifecycle.QuietStepKeepsLifecycle | usb/usb/Usb.cpp:765-825 | every other step keeps it |
| UsbLifecycle.DeliverKeepsLifecycle | usb/usb/Usb.cpp:827-834 | the signal handler keeps it, whenever it runs |
| UsbHandshake.SwitchStepOk | usb/usb/Usb.cpp:314-365 | each step of switchRole and switchMode leads from what holds of the handshake and the last write at its point to what holds at the next |
| UsbHandshake.BystanderOk | usb/usb/Usb.cpp:730-756 | no step of another thread disturbs that, since what it writes is under a lock |
| UsbHandshake.WokenOk | usb/usb/Usb.cpp:734 | nor does being woken |
| UsbHandshake.EventIsOk | usb/usb/Usb.cpp:295-365 | every event of a step finds before it what it must: success after a served wait, writes under the lock, the final write before the report |
| UsbHandshake.HolderFollows | usb/usb/Usb.cpp:404-442 | the history alone tells who holds mRoleSwitchLock |
| UsbHandshake.StepKeepsHandshake | usb/usb/Usb.cpp:295-365 | every step of every thread keeps the handshake invariant |
| UsbHandshake.DeliverKeepsHandshake | usb/usb/Usb.cpp:827-834 | so does the signal handler |
| UsbReachable.NextKeepsInvariant | usb/usb/Usb.cpp:314-871 | every step, by whatever thread and with whatever outcome, keeps the whole invariant |
| UsbReachable.RunKeepsInvariant | usb/usb/Usb.cpp:314-871 | it holds after every run |
| UsbReachable.WorkerLifecycle | usb/usb/Usb.cpp:836-871 | in every reachable state at most one worker lives; outside setCallback's changes a callback means a created, unjoined worker, no callback means none alive, and none is told to end; one that is being joined is |
| UsbReachable.ClearedWhileNoneLive | usb/usb/Usb.cpp:857-867 | destroyThread is cleared and a worker created only when none is alive |
| UsbTraces.MonitorMeans | usb/usb/Usb.cpp:325-365 | what the progress of a switchMode call says about the history of events |
| UsbTraces.SuccessMeansPartner | usb/usb/Usb.cpp:314-365 | switchMode returns true only after clear, wait and a partner record handled by a worker, in this order within the call, with no record between clear and wait |
| UsbTraces.OneWaiter | usb/usb/Usb.cpp:339-351 | there is never more than one waiter |
| UsbTraces.HeldByOne | usb/usb/Usb.cpp:404-442 | who took mRoleSwitchLock and has not dropped it is its holder |
| UsbTraces.HolderTookIt | usb/usb/Usb.cpp:404-442 | the holder took it and has not dropped it since |
| UsbTraces.PortTypeExclusive | usb/usb/Usb.cpp:743-756 | every write to port_type falls within its thread's hold of mRoleSwitchLock, so the worker's "dual" never falls inside a role switch |
| UsbTraces.LastWriteIsLast | usb/usb/Usb.cpp:295-312 | the recorded last write is the last one since the lock was taken |
| UsbTraces.FailedSwitchRestoresDual | usb/usb/Usb.cpp:361-364 | a failed mode switch attempts "dual" on its port as the last write before it drops the lock, and a successful one its own role |
| UsbReceipts.OneBacklog | usb/usb/Usb.cpp:714-763 | only one thread can hold received and unhandled partner records |
| UsbReceipts.StepKeepsReceipts | usb/usb/Usb.cpp:714-763 | every step keeps that the history tells how many records each worker holds, and that a record is handled by the only thread that has any |
| UsbReceipts.RunKeepsReceipts | usb/usb/Usb.cpp:714-763 | so does every run |
| UsbReceipts.ReceivedSinceIff | usb/usb/Usb.cpp:714-735 | the first record handled after an event was received after it exactly if no worker held one then |
| UsbReceipts.FreshRecordIff | usb/usb/Usb.cpp:325-352 | a successful switchMode was served by a record received after its clearing if and only if no worker held an unhandled record then |
| UsbCalls.SwitchGoes | usb/usb/Usb.cpp:314-445 | each step of switchRole leads from what its thread has left of the call so far to what it should have left at the next point, or to a whole call |
| UsbCalls.CallGoes | usb/usb/Usb.cpp:836-871 | the same for setCallback and the calls that only take mLock |
| UsbCalls.WorkGoes | usb/usb/Usb.cpp:714-825 | the same for the worker and its message |
| UsbCalls.StepKeepsTraces | usb/usb/Usb.cpp:314-871 | every step of every thread keeps this for all threads |
| UsbCalls.RunKeepsTraces | usb/usb/Usb.cpp:314-871 | so does every run |
| UsbCalls.SinceIsOwn | usb/usb/Usb.cpp:314-871 | what is compared is a thread's own events since its last call or message began, all of them and in order |
| UsbCalls.EnvironmentDecides | usb/usb/Usb.cpp:314-871 | every system call can succeed or fail, a wait can time out or be woken, every port list and every uevent can come, and the history tells which |
| UsbCalls.ModeSwitchIsWhole | usb/usb/Usb.cpp:314-365 | every switchMode that returns has left exactly the events of one of four ways, and returns true exactly in the one in which a partner came |
| UsbCalls.OutcomeTells | usb/usb/Usb.cpp:325-364 | true only after fopen and fputs succeeded and mPartnerUp was found set; after a failed fopen neither mPartnerUp is cleared nor a wait started, after a failed fputs no wait; false exactly after one of these failures or a timeout |
| UsbCalls.SwitchRoleIsWhole | usb/usb/Usb.cpp:404-442 | a switchRole that drops mRoleSwitchLock has left exactly the events of a whole call, and notifies and reports the outcome it had |
| UsbCalls.RestoringIsWhole | usb/usb/Usb.cpp:714-763 | a worker that drops mRoleSwitchLock has left, for its message, its records, the query under mLock, and between taking and dropping the lock one lookup per queried port in order, with "dual" behind each that found no partner |
| UsbCalls.DualsFor | usb/usb/Usb.cpp:744-754 | "dual" is among these writes for exactly the ports without a partner |
| UsbCalls.EverythingIsWhole | usb/usb/Usb.cpp:314-871 | when a call or message begins, the last one of its thread has left all its events |
| UsbCalls.RestIsWhole | usb/usb/Usb.cpp:314-871 | so has the last call of a thread between calls, and the last message of a worker that has ended |
| UsbRuns.MovesPlainly | usb/usb/Usb.cpp:314-871 | a step that waits for nothing is always possible and moves nothing else |
| UsbRuns.FirstMessageReached | usb/usb/Usb.cpp:836-871 | registering a callback starts a worker that receives a message and turns to its record |
| UsbStale.StaleRecordServes | usb/usb/Usb.cpp:325-352 | whenever a worker holds a received record and nobody else is at work, a mode switch that begins then can return true for it |
| UsbStale.StaleRunReachable | usb/usb/Usb.cpp:325-352 | such a run from the start |
| UsbProgress.ProgramSignals | usb/usb/Usb.cpp:339-350 | mPartnerUp is only set on the way to a signal, and a wait only starts behind a test of it |
| UsbProgress.SignalWakesAll | usb/usb/Usb.cpp:734 | after a signal no thread waits |
| UsbProgress.WaitsOnlyUnset | usb/usb/Usb.cpp:339-350 | a thread that is about to wait has mPartnerUp clear |
| UsbProgress.StepForgetsNone | usb/usb/Usb.cpp:730-735 | every step keeps that no waiter is forgotten |
| UsbProgress.RunForgetsNone | usb/usb/Usb.cpp:730-735 | so does every run |
| UsbProgress.NoLostWakeup | usb/usb/Usb.cpp:339-351 | in every reachable state a thread that waits while mPartnerUp is set is about to be signalled, and none goes back to waiting with it set |
| UsbProgress.StepWindsDown | usb/usb/Usb.cpp:314-871 | a step leaves its thread strictly less to do, but for exactly two: a wakeup without a partner record, and the worker's loop while it is not told to end |
| UsbProgress.OthersAddNothing | usb/usb/Usb.cpp:314-871 | no step of another thread, and no signal, gives a thread more to do |
| UsbProgress.FinitelyManySteps | usb/usb/Usb.cpp:314-365 | in every endless run a thread that makes no new call and goes back finitely often takes finitely many steps |
| UsbProgress.StaysTold | usb/usb/Usb.cpp:857 | destroyThread stays set as long as a worker lives |
| UsbProgress.ToldWorkerRests | usb/usb/Usb.cpp:799-834 | a worker told to end takes only finitely many more steps, whatever it receives |
| UsbDeadlock.GoesUnlessItWaits | usb/usb/Usb.cpp:104-114 | a thread that has not ended can take a step exactly if it waits for no other |
| UsbDeadlock.HolderRanks | usb/usb/Usb.cpp:404-442 | holders wait only for what ranks below their lock: mRoleSwitchLock, mLock, the join, mPartnerLock |
| UsbDeadlock.WaitsGoDown | usb/usb/Usb.cpp:740-755 | every wait leads to a live thread of lower rank, but for the embrace |
| UsbDeadlock.ChainEnds | usb/usb/Usb.cpp:325-445 | without an embrace every chain of waits ends |
| UsbDeadlock.WaitsEnd | usb/usb/Usb.cpp:325-445 | in every reachable state every thread's waits lead within four to one that can take a step, if and only if there is no embrace |
| UsbDeadlock.EmbraceStays | usb/usb/Usb.cpp:848-853 | no step frees the two threads of an embrace |
| UsbDeadlock.EmbraceForever | usb/usb/Usb.cpp:848-853 | they stay where they are in every continuation of the run |
| UsbDeadlock.StepKeepsJoin | usb/usb/Usb.cpp:848-853 | while the joined worker does not step, no other thread ends the join or changes anything but mPartnerUp |
| UsbDeadlock.UnregisterJoins | usb/usb/Usb.cpp:837-850 | whenever a worker is alive and nobody holds mLock, setCallback(NULL) comes to join it, wherever it is, with the signal pending |
| UsbDeadlock.UnregisterEmbraces | usb/usb/Usb.cpp:837-853 | whenever a worker is about to take mLock and nobody holds it, setCallback(NULL) makes an embrace |
| UsbDeadlock.EmbraceReachable | usb/usb/Usb.cpp:836-871 | a run from the start that ends in an embrace, with no system call failing |
| UsbDeadlock.NoneUnregisters | usb/usb/Usb.cpp:845-853 | without a setCallback(NULL) no thread comes to the join |
| UsbDeadlock.DeadlockFree | usb/usb/Usb.cpp:836-871 | in every run without setCallback(NULL) the waits of every thread lead to one that can go on |
| UsbParked.ParkedStays | usb/usb/Usb.cpp:799-803 | every step but the worker's own keeps it parked |
| UsbParked.ParkedForever | usb/usb/Usb.cpp:799-803 | so it stays in every continuation in which no uevent comes and epoll_wait does not fail |
| UsbParked.UnregisterParks | usb/usb/Usb.cpp:827-853 | whenever a worker is in epoll_wait or just before it and nobody holds mLock, setCallback(NULL) can park it |
| UsbParked.UnregisterCompletes | usb/usb/Usb.cpp:799-853 | if the signal interrupts epoll_wait instead, setCallback(NULL) can return, with the worker ended and joined, the callback cleared and mLock free |
| UsbParked.ParkedReachable | usb/usb/Usb.cpp:799-871 | a registration and an unregistration, with no system call failing, can end so, and it is no embrace |
| UsbParked.WaitedForAwaits | usb/usb/Usb.cpp:848-850 | what another thread waits for awaits no call, and a uevent only when it is joined in epoll_wait |
| UsbParked.JoinedIsTold | usb/usb/Usb.cpp:848-850 | a worker joined in epoll_wait is parked, or its signal is pending |
| UsbParked.WaitsLeadOn | usb/usb/Usb.cpp:325-853 | in every reachable state every wait leads to a thread that can go on without a new call or uevent, or to one with a pending signal, if and only if nobody is embraced or parked |
| UsbParked.JoinLeadsOn | usb/usb/Usb.cpp:848-853 | the same for the join of setCallback(NULL) alone |
| UsbFairness.HolderSteps | usb/usb/Usb.cpp:325-445 | a step of a holder of mPartnerLock or mLock drops it or comes closer to that |
| UsbFairness.OthersMove | usb/usb/Usb.cpp:730-735 | the steps of others take a thread only out of a wait, or out of epoll_wait by a signal |
| UsbFairness.OwnerStays | usb/usb/Usb.cpp:325-445 | no step of another thread takes a lock from its holder |
| UsbFairness.FreeNeverRests | usb/usb/Usb.cpp:325-445 | in a fair run a thread that waits for nothing does not rest |
| UsbFairness.WanterNeverRests | usb/usb/Usb.cpp:325-445 | nor does one that wants a lock that is always free again later |
| UsbFairness.LockIsFreed | usb/usb/Usb.cpp:325-445 | if its holders do not rest for ever, mPartnerLock or mLock is always free again later |
| UsbFairness.HolderIsFree | usb/usb/Usb.cpp:740-755 | without an embrace the holder of a lock a live worker wants is not at the join |
| UsbFairness.RestingWorkerIsDone | usb/usb/Usb.cpp:765-825 | a worker that rests in a fair run has ended, is embraced, or is in epoll_wait for good |
| UsbFairness.ToldWorkerEnds | usb/usb/Usb.cpp:799-853 | in every fair endless run a worker told to end ends, or the run reaches an embrace, or the worker is in epoll_wait for good |
| UsbLiveness.JoinReturns | usb/usb/Usb.cpp:848-853 | in a fair run in which signals are delivered and nothing is embraced or parked, the join of setCallback(NULL) goes on |
| UsbLiveness.LiveWorkerHangs | usb/usb/Usb.cpp:848-853 | a live worker that is joined for ever is embraced or parked at some time |
| UsbLiveness.FreedAgain | usb/usb/Usb.cpp:104-207 | in such a run mPartnerLock and mLock are always free again later |
| UsbLiveness.WorkingNeverRests | usb/usb/Usb.cpp:325-445 | no thread that is at work rests, but one that waits for mRoleSwitchLock |
| UsbLiveness.RoleLockIsFreed | usb/usb/Usb.cpp:404-442 | from when mode switches are not woken in vain, mRoleSwitchLock is always free again later |
| UsbLiveness.CallReturns | usb/usb/Usb.cpp:392-445 | and every call of a binder thread returns |
| UsbLiveness.EveryCallReturns | usb/usb/Usb.cpp:104-871 | both, for every run that is woken in vain only finitely often |
| UsbLiveness.HealthyRunExists | usb/usb/Usb.cpp:648-682 | there are such runs, with finitely many threads and no uevent |

## Left out

- Floating point: rounding, infinities and NaNs beyond "not finite"; the calibration is over exact reals.
- The value of a float outside uint32 converted to it, which C++ leaves undefined, is a parameter (`Machine.Cast`).
- VibratorService.Vibrator.constructor: requires that the two divisions of the shifted period have a result; an integer division by zero does not return.
- Hardware of the vibrator: the temperature, the answer of `motionAwareness` and the acceptance of calls are inputs; sensor polling, `setState`, `setAutocal` and the low-power trigger are not modelled.
- The temperature is read once per request, so a failing `getPATemp`, which leaves 0, is the temperature 0.
- `off`, `setAmplitude`, `getCapabilities`, the other AIDL methods of the vibrator and `Vibrator::dump`; the last reads three steady clamps whatever `odClamp` points to.
- TarHeader.Print: an overlong `strcpy` or `sprintf` is taken to overwrite the bytes behind the field within the header, which C++ leaves undefined; names have at most 255 bytes, so it never leaves the header.
- TarWriter.CreateTarFile: body and padding writes are complete, the header write is all or nothing, fstat succeeds, and files do not change while they are read; a failed read ends a file early, which the sizes then show.
- The remainder of `dumpModemThread`, `dumpstateBoard` and the touch, UFS and modem helpers: lists of shell commands.
- The locale of `alphasort` (names are compared byte by byte), and the memory `scandir` allocates.
- RoleText.ReadBackIff: the node's content does not change between the check in `switchRole` and the read-back.
- `extractRole` and `Trim` rewrite a string in place; they are functions on its value.
- `appendRoleNodeHelper` and the tags it rejects: every role has one of the three.
- UsbTraces.FailedSwitchRestoresDual: a write is an attempt, counted whether or not `fopen` or `fputs` fails; the history has the outcomes of these calls for roles, and not for "dual", where the code only logs them.
- What `queryPortStatus`, `enableUsbData`, `limitPowerTransfer`, `resetUsbPort` and the moisture calls read, write and report; only their sections under mLock are modelled.
- Callbacks run under mLock and are taken to return; a callback that calls back into the service is not modelled.
- Failing mutex operations and worker threads cancelled from outside; `pthread_kill` is taken to fail only for an ended worker.
- Real time: a wait may time out at any moment, and each spurious wakeup starts a new deadline, so no bound on the length of a switch is claimed.
- UsbDeadlock.WaitsEnd: counts a worker in `epoll_wait` and an idle thread as able to take a step; UsbParked.WaitsLeadOn does not.
- Fairness of the scheduler is a hypothesis of UsbFairness and UsbLiveness and of nothing else; it covers threads that are within a call or handle a message, and a wait that can time out does.
- `usb/gadget/UsbGadget.cpp`, `Hardware.h`, service mains, tests, makefiles, overlays and configuration files.
