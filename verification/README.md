# Kylin system monitor: verified models

A Dafny project that models the parts of a desktop system monitor whose correctness is not visible from
reading one function, and proves what they are meant to guarantee. `dafny verify dfyconfig.toml` checks it.

- **File lock and single instance.** `LockedFile`, `LockedFileWin`, `LockedFileWinGuarantees`, `LockedFileWinCalls`
  and `LockedFileUnix` are step systems of any number of processes that lock one file, one kernel call at a
  time, with failing calls and crashes. Both platforms refine the same atomic reader/writer lock.
  `LocalPeerElection` is the election of the server on top of that lock, `LocalPeerMessages` the exchange of one
  message over a socket that delivers arbitrary chunks.
- **Smooth line.** `Tridiagonal`, `NaturalSpline` and `SmoothLineGenerator`: the in-place solver over arrays
  of reals, the proof that its control points are those of the natural cubic spline and no others, and the
  two ways to draw.
- **Network accounting.** `PackList` and `PackListHistory` are the packet lists in memory and what they may
  forget. `NetModel` is the monitor on values. `NetListing`, `NetDirection`, `NetExpiry`, `NetConservation`,
  `NetRecords`, `NetAttribution` and `NetOrphans` prove what holds in every run, whatever its timing; `NetOwnership`, `NetSystem`,
  `NetWindow` and `NetRates` what holds if refreshes come in time. `NetConnections`, `ConnList` and
  `NetMonitor` are the objects of the program with their linked lists, and packets and updates do to them
  what they do in the model; `NetMemory` accounts for the heap, `NetWiring` relates it to the model, `NetWalk`
  and `NetPlans` are the loops that delete while they sum and report, turn by turn.
- **Snapshots and tables.** `ProcessScan` and `ProcessList` are the scan with its two caches of CPU times,
  `TableDiff`, `ProcessTable` and `FileSystems` the tables that follow snapshots by row edits.
- **Protected processes.** `ProtectedXml` has the three loops over one token cursor, `ProtectedDocuments`
  says what they find in a document.

## Findings

- The path of `generateSmoothCurve` is a polygon through the first control points; the cubic segments are
  commented out. Its corners are the given points, one for one, exactly if these all coincide
  (`SmoothLineGenerator.CornersArePointsIff`); a path can still pass through them between other corners
  (`SmoothLineGenerator.PathWithOtherCorners`).
- A packet that comes out of order hides the ones behind it from the window of its connection; the sum read
  is right exactly if what is hidden or was cut off adds nothing (`PackListHistory.SumIsRightIff`). The times
  of the calls tell what that is: the packets before the last one that some query found old
  (`PackListHistory.SumFromTimes`, `PackListHistory.SumIsRightIffFromTimes`).
- If refreshes are more than 100 seconds apart, a process can be removed while it still has connections.
  These stay in the global list for ever (`NetOrphans.LateRefreshOrphans`, `NetOrphans.OrphansStayForEver`),
  and this is the only way a connection loses its owner (`NetOrphans.RunPartitionsIff`).
- The comment above `getProcess` says that traffic without a process goes to the unknown process. With
  `REVERSEHACK` 0 each such connection gets a process of its own instead
  (`NetAttribution.UnknownTrafficGetsOwnProcess`), and the unknown one stays empty
  (`NetAttribution.UnknownStaysEmpty`).
- A message of which a part never came is handed on all the same, with its full length, and acknowledged
  (`LocalPeerMessages.ReceiveConnection` has the exact number of missing bytes,
  `LocalPeerMessages.IncompleteMessage` an input).
- A leaving instance closes its lock file before its server, and can remove the socket file of its successor
  (`LocalPeerElection.SocketCanBeLost`). This rests on Qt's documented order of destruction and on a closed
  `QLocalServer` removing the file of its name.
- An instance whose server cannot listen keeps the role for as long as it lives, and no other instance can be
  reached in its place (`LocalPeerElection.FailedListenIsForEver`).
- A pid taken over by a younger process between two scans shows nearly 2^64 ticks of growth
  (`ProcessScan.ReusedPidOverflows`), unless the map was cleared or filtered in between.
- The mount point of a device that is mounted elsewhere is not updated (`FileSystems.MovedMountIsNotShown`): it
  stays the one the device had when it appeared, and is right exactly if that is still the last one listed
  (`FileSystems.MountPointIsRightIff`).
- The usage of a file system whose used and available bytes add up to 0 or 2^64 divides by zero
  (`FileSystems.UsageIsExact`, `FileSystems.UsageCannotBeComputed`). Once a hundred times the used bytes reach
  2^64 the percentage shown is too small (`FileSystems.PercentageIff`, `FileSystems.PercentageOverflows`).

## Assumptions

- Windows lock: `OpenMutex` fails exactly if no handle to the mutex is open, and `WaitForMultipleObjects`
  may report an abandoned mutex other than the first, which the code takes for a failure although the
  mutexes were acquired. Each process has one thread and one object for the file, which stays open.
- Unix lock: `fcntl` grants read locks together and a write lock alone; locks go with their process.
- Network: packets are IPv4 and shorter than 2^32 bytes, local addresses are fixed, and which process a
  connection belongs to is an arbitrary answer given once, when the connection is new.
- A run of the monitor in the timing regime has times that never go back and refreshes at most 100 seconds
  apart. Only the partition of the connections and the rates need it; the results about lists, local ends,
  conservation, records and the objects hold for runs of any timing.

## Model

| member | source | states |
|---|---|---|
| `LockedFileWin.StepKeepsInv` | `src/QtSingleApplication/qtlockedfile_win.cpp:104-211` | Whatever call any process makes next, fails or dies in, the object, its handles and the owned mutexes stay in step: a slot that is owned has a handle, and a writer that has looked past a slot lists every reader in it |
| `LockedFileWin.RunKeepsInv` | `src/QtSingleApplication/qtlockedfile_win.cpp:104-211` | that invariant in every state of every run of any number of processes |
| `LockedFileWinGuarantees.Exclusion` | `src/QtSingleApplication/qtlockedfile_win.cpp:126-174` | a write holder excludes every other holder, and readers own pairwise distinct slots |
| `LockedFileWinGuarantees.ExclusionInEveryRun` | `src/QtSingleApplication/qtlockedfile.cpp:49-53` | the documented guarantee in every state of every interleaving |
| `LockedFileWinGuarantees.RefusedOwnsNothing` | `src/QtSingleApplication/qtlockedfile_win.cpp:145-169` | after a lock() that returned false, by whichever way including the pretended write lock, the process owns no mutex |
| `LockedFileWinGuarantees.WaitsOnlyForOthers` | `src/QtSingleApplication/qtlockedfile_win.cpp:114-124` | a process never waits for a mutex it owns, and the wait for a slot just created finds it free |
| `LockedFileWinGuarantees.BlockedOnSlot` | `src/QtSingleApplication/qtlockedfile_win.cpp:160-162` | a blocked process that has the writer mutex waits for another process that is not blocked |
| `LockedFileWinGuarantees.NoDeadlock` | `src/QtSingleApplication/qtlockedfile_win.cpp:117-175` | every blocked process waits, directly or through one other, for the owner of a mutex that is not blocked |
| `LockedFileWinGuarantees.BlocksInOrder` | `src/QtSingleApplication/qtlockedfile_win.cpp:120-162` | waits are for the writer mutex holding nothing, or for reader slots holding the writer mutex |
| `LockedFileWinGuarantees.StepsShrinkRank` | `src/QtSingleApplication/qtlockedfile_win.cpp:104-203` | every kernel call brings its lock(), unlock() or destructor nearer to the end |
| `LockedFileWinGuarantees.CallsAreShort` | `src/QtSingleApplication/qtlockedfile_win.cpp:104-203` | and that end is at most 328 kernel calls away when a call begins |
| `LockedFileWinGuarantees.RefinesAtomicLock` | `src/QtSingleApplication/qtlockedfile_win.cpp:104-211` | seen through its holders, each kernel call is one step of the documented reader/writer lock or none; which calls come to a step is told by `LockedFileWinCalls` |
| `LockedFileWinGuarantees.EveryRunRefinesAtomicLock` | `src/QtSingleApplication/qtlockedfile_win.cpp:104-211` | the same for every step of every run |
| `LockedFileWinGuarantees.AloneOutcome` | `src/QtSingleApplication/qtlockedfile_win.cpp:104-203` | what a call will return while the others rest is settled at every point of it |
| `LockedFileWinGuarantees.LockReturns` | `src/QtSingleApplication/qtlockedfile_win.cpp:104-175` | while the others rest, lock() ends up holding the lock exactly if the documented rules allow it: no writer, and for a reader a slot below MAX_READERS that is free, for a writer no reader |
| `LockedFileWinCalls.LockEnds` | `src/QtSingleApplication/qtlockedfile_win.cpp:104-175` | so, while the others rest, a lock() that cannot be had waits if it may block, except for a reader that finds no slot, and is refused otherwise, and is then unlocked |
| `LockedFileWinCalls.LockAgain` | `src/QtSingleApplication/qtlockedfile_win.cpp:114-115` | asking again for the mode one has changes nothing, for nobody |
| `LockedFileWinCalls.LockAnswers` | `src/QtSingleApplication/qtlockedfile_win.cpp:104-175` | however the others interleave and whichever calls fail, a lock() under way comes back with the mode asked for, or refused and unlocked |
| `LockedFileWinCalls.UnlockReturns` | `src/QtSingleApplication/qtlockedfile_win.cpp:177-203` | whatever the others hold or are in the middle of, unlock() ends with the process no holder and owner of no mutex, and touches no other process |
| `LockedFileWinCalls.LockNothingReturns` | `src/QtSingleApplication/qtlockedfile_win.cpp:111-112` | so does lock(NoLock) |
| `LockedFileWinCalls.DestructorLeaves` | `src/QtSingleApplication/qtlockedfile_win.cpp:205-211` | the destructor gives every mutex back and the process is gone |
| `LockedFileWinCalls.CrashLeaves` | `src/QtSingleApplication/qtlockedfile_win.cpp:84-102` | a crashed process owns no mutex any more, and the others are as they were |
| `LockedFileUnix.StepKeepsInv` | `src/QtSingleApplication/qtlockedfile_unix.cpp:48-108` | the mode the object remembers is the lock the kernel knows, whatever fails or dies |
| `LockedFileUnix.Exclusion` | `src/QtSingleApplication/qtlockedfile_unix.cpp:48-81` | a writer excludes every other holder in every run |
| `LockedFileUnix.RefinesAtomicLock` | `src/QtSingleApplication/qtlockedfile_unix.cpp:48-108` | every step is a step of the same documented lock as on Windows |
| `LockedFileUnix.WaitsForHolders` | `src/QtSingleApplication/qtlockedfile_unix.cpp:68-71` | a blocked process waits for another one that holds a lock in conflict with the mode asked for, and holds none itself unless its unlock() failed |
| `LockedFileUnix.LockReturns` | `src/QtSingleApplication/qtlockedfile_unix.cpp:48-81` | while the others rest, lock() ends up holding the kernel lock exactly if no other process holds one in conflict; else it waits if it may block, and is refused otherwise, its old lock gone in both cases |
| `LockedFileUnix.LockAgain` | `src/QtSingleApplication/qtlockedfile_unix.cpp:58-59` | asking again for the mode one has makes no system call and keeps the lock |
| `LockedFileUnix.UnlockReturns` | `src/QtSingleApplication/qtlockedfile_unix.cpp:84-108` | unlock() gives the kernel lock back, whatever the others do, and changes nothing of theirs; lock(NoLock) is the same call |
| `LockedFileUnix.DestructorLeaves` | `src/QtSingleApplication/qtlockedfile_unix.cpp:110-114` | so does the destructor, and a crash |
| `LocalPeerElection.StepKeepsInv` | `src/QtSingleApplication/qtlocalpeer.cpp:113-133` | each system call, exit and crash keeps the lock, the servers, the socket file and the answers given consistent |
| `LocalPeerElection.StepIsAtomic` | `src/QtSingleApplication/qtlocalpeer.cpp:115-119` | seen through its holders, every step uses the lock file as a writer of the lock that QtLockedFile promises, and isClient gets it exactly if nobody has it |
| `LockedFile.AtomicStepExcludes` | `src/QtSingleApplication/qtlockedfile.cpp:49-53` | no step of that lock lets a writer in beside anybody else |
| `LocalPeerElection.OneServer` | `src/QtSingleApplication/qtlocalpeer.cpp:113-133` | so at most one live instance has the server role in any run |
| `LocalPeerElection.FalseIsForEver` | `src/QtSingleApplication/qtlocalpeer.cpp:115-119` | once isClient returned false for an instance it returns false until that instance ends |
| `LocalPeerElection.OnlyStaleSocketsAreRemoved` | `src/QtSingleApplication/qtlocalpeer.cpp:124-127` | the socket file removed to make room belongs to an instance that crashed or is leaving |
| `LocalPeerElection.SocketIsKept` | `src/QtSingleApplication/qtlocalpeer.cpp:121-128` | a server that can be reached stays so until it ends, except exactly when a leaving instance closes its own server after giving up the lock |
| `LocalPeerElection.BecomesServer` | `src/QtSingleApplication/qtlocalpeer.cpp:113-133` | an instance that asks while nobody has the lock becomes a server that can be reached and is told false, also when a socket file was left behind |
| `LocalPeerElection.BecomesClient` | `src/QtSingleApplication/qtlocalpeer.cpp:118-119` | one that asks while another has the lock is told true, and nothing else changes |
| `LocalPeerElection.CrashedServerIsReplaced` | `src/QtSingleApplication/qtlocalpeer.cpp:121-128` | when the server crashes, its socket file stays, and the next instance that asks can be reached in its place |
| `LocalPeerElection.FailedListenIsForEver` | `src/QtSingleApplication/qtlocalpeer.cpp:115-132` | after a failed listen the instance has the role and is told so; in every run from there on, as long as it lives, it does not listen and no other instance can be reached |
| `LocalPeerElection.SocketCanBeLost` | `src/QtSingleApplication/qtlocalpeer.h:67-71` | a run in which that happens: members are destroyed before child objects, so the lock goes before the server |
| `LocalPeerMessages.BigEndianRoundTrip` | `src/QtSingleApplication/qtlocalpeer.cpp:160-161` | the length survives its encoding, the most significant byte first |
| `LocalPeerMessages.LocalSocket.Read` | `src/QtSingleApplication/qtlocalpeer.cpp:193-196` | what one raw read takes from the stream, its error and its empty result |
| `LocalPeerMessages.ReceiveLength` | `src/QtSingleApplication/qtlocalpeer.cpp:179-192` | the length is read exactly if four bytes come before the peer is gone; time-outs do not matter |
| `LocalPeerMessages.ReceiveBytes` | `src/QtSingleApplication/qtlocalpeer.cpp:193-203` | the buffer agrees with the stream as far as bytes came; exactly the bytes that come before a failing wait are received, the rest counts as missing; lengths above 2^31-1 fail |
| `LocalPeerMessages.ReceiveConnection` | `src/QtSingleApplication/qtlocalpeer.cpp:173-207` | the three outcomes, that the message is a prefix of the stream, and for every sequence of arrivals how many of its bytes are missing: those that come after the first wait that fails once the length is complete |
| `LocalPeerMessages.MessageIsSent` | `src/QtSingleApplication/qtlocalpeer.cpp:160-161` | a message with nothing missing is the one sent, an incomplete one agrees with it up to what is missing |
| `LocalPeerMessages.Exchange` | `src/QtSingleApplication/qtlocalpeer.cpp:160-207` | for every cut of a message into chunks, whichever waits fail, what is received has its length and starts like it, with exactly so many bytes missing; without a failing wait it is the message sent, and the loops end |
| `LocalPeerMessages.IncompleteMessage` | `src/QtSingleApplication/qtlocalpeer.cpp:193-203` | a message of two bytes whose second one comes too late is handed on with one byte missing |
| `Tridiagonal.ForwardPass` | `src/smoothlinegenerator.cpp:72-81` | decomposition: every pivot is at least 2, and each row satisfies its forward equation |
| `Tridiagonal.BackwardPass` | `src/smoothlinegenerator.cpp:83-85` | back-substitution in place |
| `Tridiagonal.CalculateFirstControlPoints` | `src/smoothlinegenerator.cpp:70-88` | the array ends as a solution of the tridiagonal system with diagonal 2, 4, ..., 4, 3.5, for any n and right-hand side and whatever is in tmp[0] |
| `Tridiagonal.UniqueSolution` | `src/smoothlinegenerator.cpp:70-88` | the system has no other solution |
| `Tridiagonal.DominanceBound` | `src/smoothlinegenerator.cpp:70-88` | a bound on the right-hand side, scaled row by row, bounds the solution |
| `NaturalSpline.BezierIsBernstein` | `src/smoothlinegenerator.cpp:90-110` | a segment as a polynomial is the Bezier curve of its control points |
| `NaturalSpline.ControlsAreNatural` | `src/smoothlinegenerator.cpp:111-143` | solving the system and filling in the second points gives a chain through the knots that is twice continuously differentiable and flat at its ends |
| `NaturalSpline.NaturalHasControls` | `src/smoothlinegenerator.cpp:111-143` | conversely such a chain satisfies the system |
| `NaturalSpline.NaturalIsStraight` | `src/smoothlinegenerator.cpp:99-109` | one segment is the straight line |
| `NaturalSpline.NaturalIffComputed` | `src/smoothlinegenerator.cpp:90-143` | the computed control points are exactly those of the natural cubic spline |
| `NaturalSpline.NaturalIsUnique` | `src/smoothlinegenerator.cpp:90-143` | no knot list has two natural splines |
| `NaturalSpline.NaturalIsBounded` | `src/smoothlinegenerator.cpp:90-143` | knots within M give first control points within 3M and second ones within 5M |
| `NaturalSpline.CombineComputed` | `src/smoothlinegenerator.cpp:90-143` | control points of a linear combination of coordinates are the combination of the control points |
| `NaturalSpline.EquallySpaced` | `src/smoothlinegenerator.cpp:90-143` | equally spaced knots have their control points at exact thirds |
| `NaturalSpline.MeetsKnotsIff` | `src/smoothlinegenerator.cpp:60-66` | the first control points of a natural spline are its next knots exactly if all knots are equal |
| `SmoothLineGenerator.SetRightHandSides` | `src/smoothlinegenerator.cpp:117-125` | both right-hand sides, with their first and last entries |
| `SmoothLineGenerator.FillControlPoints` | `src/smoothlinegenerator.cpp:131-143` | the output lists, from the two solutions |
| `SmoothLineGenerator.CalculateControlPoints` | `src/smoothlinegenerator.cpp:90-149` | for two or more knots the two output lists are the natural spline in each coordinate, the single segment included |
| `SmoothLineGenerator.ControlsDetermined` | `src/smoothlinegenerator.cpp:90-149` | and there is no other choice |
| `SmoothLineGenerator.ControlsCommuteWithAffineMaps` | `src/smoothlinegenerator.cpp:90-149` | control points move with every affine map of the plane |
| `SmoothLineGenerator.EquallySpacedPoints` | `src/smoothlinegenerator.cpp:90-149` | equally spaced points on a line have theirs at thirds |
| `SmoothLineGenerator.GenerateSmoothCurve` | `src/smoothlinegenerator.cpp:45-68` | what is drawn: a polygon from the first knot through the first control points, nothing for fewer than two points |
| `SmoothLineGenerator.CornersArePointsIff` | `src/smoothlinegenerator.cpp:60-66` | so the corners of the drawn path are the given points, one for one, exactly if all of them coincide |
| `SmoothLineGenerator.PathWithOtherCorners` | `src/smoothlinegenerator.cpp:60-66` | three points, there and back, whose path passes through all of them although its corners are others |
| `SmoothLineGenerator.PolygonStopsShort` | `src/smoothlinegenerator.cpp:60-66` | and that of equally spaced points ends a third into the last segment, not at the last point |
| `SmoothLineGenerator.GenerateSmoothCurve1` | `src/smoothlinegenerator.cpp:26-42` | one cubic per pair of neighbours, with its control points half way |
| `SmoothLineGenerator.StepSegmentShape` | `src/smoothlinegenerator.cpp:31-40` | each of them runs from its first point strictly towards its second one, to the right, to the left or straight up and down, stays between the two heights, is level at both ends and has both control points half way |
| `PackLists.PackList.Add` | `procnet-monitor/connection.cpp:39-52` | the list in memory after a packet: merged into the newest entry of the same second, in 32-bit arithmetic, or in front |
| `PackLists.PackList.SumAndDel` | `procnet-monitor/connection.cpp:55-76` | the sum returned, and the tail from the first old entry on cut off in memory |
| `PackListHistory.RecentKeepsSum` | `procnet-monitor/connection.cpp:55-76` | cutting loses nothing a later window can see |
| `PackListHistory.AddedStandsFor` | `procnet-monitor/connection.cpp:39-52` | merging loses nothing any window can see |
| `PackListHistory.RunInvariant` | `procnet-monitor/connection.cpp:39-76` | for calls whose times never go back the list is strictly descending and stands for the whole history |
| `PackListHistory.RecentSumIsExact` | `procnet-monitor/connection.cpp:39-76` | the sum returned is that of all packets ever added in the last PERIOD seconds, mod 2^32 |
| `PackListHistory.RecentSumIff` | `procnet-monitor/connection.cpp:55-76` | for a list in any order, the sum returned is that of its recent entries exactly if the entries behind the first old one add nothing to it, mod 2^32 |
| `PackListHistory.NothingElseIsLost` | `procnet-monitor/connection.cpp:39-76` | for calls in any order of their times, what is listed and what earlier queries cut off make up the history, for every window |
| `PackListHistory.SumIsRightIff` | `procnet-monitor/connection.cpp:39-76` | for calls in any order, the sum returned is that of all packets in the window exactly if those hidden now or cut off before add nothing |
| `PackListHistory.SumIsRightIffNoneLost` | `procnet-monitor/connection.cpp:39-76` | which for windows below 2^32 bytes is: exactly if no packet of the window with any bytes is hidden or cut off |
| `PackListHistory.ListFromTimes` | `procnet-monitor/connection.cpp:39-76` | for calls in any order of their times, the list has exactly the packets after the last one that some later query found old, merged |
| `PackListHistory.SumFromTimes` | `procnet-monitor/connection.cpp:55-76` | so the times of the calls alone tell which packets the sum returned counts, and it is their sum, mod 2^32 |
| `PackListHistory.SumIsRightIffFromTimes` | `procnet-monitor/connection.cpp:39-76` | and it is that of all packets in the window exactly if those of them before the last packet found old add nothing |
| `PackListHistory.SumIsRightIffNoneBefore` | `procnet-monitor/connection.cpp:39-76` | which for windows below 2^32 bytes is: exactly if they are all empty |
| `PackListHistory.LatePacketsAreLost` | `procnet-monitor/connection.cpp:62-70` | two packets for which it fails: the late one at the head hides the one behind it |
| `ConnLists.ConnectionList.Unlink` | `procnet-monitor/process.cpp:104-112` | the pointer surgery on one link, which leaves every other list as it was |
| `ConnLists.ConnectionList.RemoveConnection` | `procnet-monitor/connection.cpp:114-131` | the loop of the destructor takes every link of the connection out of the list in memory |
| `ConnLists.WalkIsRemoveAll` | `procnet-monitor/connection.cpp:114-131` | unlinking one by one leaves the other connections in their order |
| `NetModel.LastPacket` | `procnet-monitor/process.cpp:81-92` | the latest packet of the connections, or 0 |
| `NetOwnership.DispatchKeepsPartition` | `procnet-monitor/connection.cpp:79-101` | a packet keeps the connections partitioned among the processes |
| `NetOwnership.RefreshKeepsPartition` | `procnet-monitor/process.cpp:95-125` | deleting the stalled connections of a process keeps the partition |
| `NetOwnership.RemoveBusyOrphans` | `procnet-monitor/libnethogs.cpp:205-222` | a process removed with a connection left leaves it in the global list without an owner |
| `NetOwnership.RemoveKeepsPartition` | `procnet-monitor/libnethogs.cpp:205-222` | removing a process keeps the partition exactly if its list is empty |
| `NetOwnership.UpdateFromPartitions` | `procnet-monitor/libnethogs.cpp:186-270` | an update in time keeps it and leaves no stalled connection |
| `NetOwnership.UpdatePartitionsIff` | `procnet-monitor/libnethogs.cpp:178-273` | whatever the timing, an update keeps the partition exactly if no process with connections is due for removal |
| `NetOrphans.LateRefreshOrphans` | `procnet-monitor/libnethogs.cpp:197-222` | a run from the start that gets there: one packet, then no refresh until its process is due for removal |
| `NetOrphans.OrphansStayForEver` | `procnet-monitor/libnethogs.cpp:205-222` | a connection without an owner stays in the table and never gets one, whatever comes next |
| `NetOrphans.RunPartitionsIff` | `procnet-monitor/libnethogs.cpp:178-273` | at the end of a run of any timing the connections are partitioned among the processes exactly if no refresh in it removed a process with connections |
| `NetAttribution.UnknownTrafficGetsOwnProcess` | `procnet-monitor/process.cpp:258-342` | a new connection without a program gets a new process with an id of its own, and no other one lists it |
| `NetAttribution.UnknownGetsConnectionIff` | `procnet-monitor/process.cpp:213-342` | a new connection goes to the unknown process exactly if its program has the pid of that process and no process listed before has it |
| `NetAttribution.FoundPid` | `procnet-monitor/process.cpp:166-177` | the search by pid finds the first process with the pid if and only if there is one |
| `NetAttribution.ProgramGetsConnection` | `procnet-monitor/process.cpp:213-342` | a new connection of a program goes in front of those of the first process with its pid, or of a new process that has the pid, name and user of the program and the device of the packet |
| `NetAttribution.UnknownStaysEmpty` | `procnet-monitor/process.cpp:258-342` | so in every run in which no program has pid 0 the unknown process has no connection |
| `NetSystem.RefreshIsBusy` | `procnet-monitor/libnethogs.cpp:197-200` | with refreshes at most 100 seconds apart, removed processes have no connections |
| `NetSystem.FindIsLookup` | `procnet-monitor/connection.cpp:154-198` | the two passes over the connections are one look-up by the local endpoint, and the packet compared is outgoing |
| `NetSystem.DispatchKeepsEndpoints` | `procnet-monitor/connection.cpp:79-101` | reference packets are outgoing and their local endpoints pairwise distinct |
| `NetSystem.UpdateAges` | `procnet-monitor/process.cpp:100-122` | an update only trims connections, or deletes stalled ones |
| `NetSystem.StepKeepsSound` | `procnet-monitor/nethogs.cpp:109-153` | every packet, tick and refresh keeps all of this |
| `NetSystem.EveryRunIsSound` | `procnet-monitor/libnethogs.cpp:186-222` | in every reachable state of the timing regime the connections are partitioned among the processes, and none is older than a refresh leaves it |
| `NetListing.EveryRunIsListed` | `procnet-monitor/libnethogs.cpp:186-270` | in every run, whatever its timing, each live connection is in the global list once and in at most one list of a process, and no list names a deleted one |
| `NetListing.EveryRunHasDistinctEndpoints` | `procnet-monitor/connection.cpp:79-101` | in every run, whatever its timing, reference packets are outgoing and no two live connections share a local end |
| `NetExpiry.ProcessStaysIff` | `procnet-monitor/libnethogs.cpp:196-222` | in every run, whatever its timing, a refresh leaves a process listed exactly if it is the unknown one, or one of its connections had a packet in the last 150 seconds, or the clock is younger than that |
| `NetExpiry.UpdateLeavesStaying` | `procnet-monitor/libnethogs.cpp:186-222` | the processes that stay do so in their order, each with its connections of the last 50 seconds |
| `NetExpiry.ConnectionDeletedIff` | `procnet-monitor/process.cpp:102-112` | a refresh deletes a connection exactly if it had no packet in the last 50 seconds and is listed by a process that stays |
| `NetExpiry.RefreshTells` | `procnet-monitor/libnethogs.cpp:205-262` | what the callback is told by a refresh, process by process: one removal for one that leaves, one set for one whose record is new or has other numbers, and nothing for the others |
| `NetExpiry.RemovedAreTold` | `procnet-monitor/libnethogs.cpp:205-211` | the records told as removed are those of the processes that leave, each once and as last stored |
| `NetConservation.DispatchTotal` | `procnet-monitor/connection.cpp:79-152` | a packet adds its bytes once, in the one direction that Outgoing() answers; `NetDirection.PacketIsCounted` says which |
| `NetDirection.PacketIsCounted` | `procnet-monitor/packet.cpp:214-243` | a captured packet adds its bytes to those sent exactly if its source is one of the local addresses, and to those received otherwise |
| `NetDirection.PacketIsTaken` | `procnet-monitor/nethogs.cpp:121-157` | it goes to the connection whose reference packet leaves from the end of the packet on this machine, or to a new one if there is none, and changes no other connection |
| `NetDirection.NextPacketIsTaken` | `procnet-monitor/nethogs.cpp:121-157` | the same for the next packet after any run |
| `NetDirection.LogIsWhatCame` | `procnet-monitor/packet.cpp:214-243` | in every run the packets logged are those that came, each with its time and length, as sent exactly if it came from a local address: what the results on totals, windows and rates count is real upload and download |
| `NetConservation.UpdateFiltersGlobal` | `procnet-monitor/connection.cpp:115-130` | the global list after an update is the old one without the deleted connections, in order |
| `NetConservation.UpdateTotal` | `procnet-monitor/process.cpp:95-125` | an update moves totals from live to deleted connections and loses none |
| `NetConservation.BytesAreConserved` | `procnet-monitor/nethogs.cpp:142-152` | over every run, whatever its timing, the bytes of all packets are those of live and deleted connections, mod 2^32, in each direction |
| `NetWindow.SplitByConn` | `procnet-monitor/process.cpp:114-117` | the window of a process is the sum of the windows of its connections |
| `NetWindow.WindowOwner` | `procnet-monitor/process.cpp:101-112` | a packet in the window belongs to a process exactly if its connection is one the process keeps |
| `NetWindow.WindowIsExact` | `procnet-monitor/process.cpp:95-125` | the sums getkbps forms are those of all packets ever attributed to the process in the last PERIOD seconds, although stalled connections are deleted on the way |
| `NetRates.ArriveLists` | `procnet-monitor/connection.cpp:134-152` | a packet keeps every packet list standing for its history |
| `NetRates.RefreshKeepsAttributed` | `procnet-monitor/process.cpp:101-112` | deleted connections take no recent packet with them |
| `NetRates.EveryRunKeeps` | `procnet-monitor/libnethogs.cpp:178-273` | both in every run of the timing regime |
| `NetRates.RefreshedRatesAreExact` | `procnet-monitor/libnethogs.cpp:223-262` | after every refresh each record shows the totals of the current connections and the exact window rates |
| `NetRates.RatesAreBytes` | `procnet-monitor/process.cpp:70-125` | these rates are kilobytes of 1024 bytes per second: five times each is what came for the process in the last five seconds, mod 2^32 |
| `NetRecords.ProperLifecycle` | `procnet-monitor/libnethogs.h:54-66` | legal events give each record id one or more sets, at most one removal, and nothing after it |
| `NetRecords.RemoveAgrees` | `procnet-monitor/libnethogs.cpp:205-211` | the removal callback carries the record as last set, and the listener drops it |
| `NetRecords.RefreshAgrees` | `procnet-monitor/libnethogs.cpp:230-262` | a set is told for new or changed numbers; untold updates change nothing, the device name included |
| `NetRecords.ReplayRebuildsRecords` | `procnet-monitor/libnethogs.cpp:178-273` | replaying the callbacks of any run, whatever its timing, rebuilds the records of the monitor |
| `NetRecords.RecordLifecycle` | `procnet-monitor/libnethogs.h:54-66` | record ids are set, removed at most once and never used again; those of live records end in a set |
| `NetRecords.UpdateRecordsLiveProcesses` | `procnet-monitor/libnethogs.cpp:197-247` | after an update the records are those of the live processes, and the process of unknown traffic is one |
| `NetConnections.Connection.constructor` | `procnet-monitor/connection.cpp:79-101` | whichever way the first packet goes, the reference packet leaves from its local end, and the packet is the one entry of the list in memory of its direction |
| `NetConnections.Connection.Add` | `procnet-monitor/connection.cpp:134-152` | a packet goes to the list in memory of its direction; what both lists hold is then the connection of the model, and no other packet list has changed |
| `NetConnections.Connection.SumAndDel` | `procnet-monitor/connection.cpp:209-214` | both lists in memory are cut, the sums are those of their windows, and no other packet list has changed |
| `NetMonitor.Monitor.FindConnectionOf` | `procnet-monitor/connection.cpp:154-198` | the search through the global list finds what the model finds |
| `NetMonitor.Monitor.FindProcess` | `procnet-monitor/process.cpp:166-177` | the first process with the pid |
| `NetMonitor.Monitor.GetProcess` | `procnet-monitor/process.cpp:213-342` | the connection goes in front of the list of an existing process, or of a new one at the front |
| `NetMonitor.Monitor.ProcessTcp` | `procnet-monitor/nethogs.cpp:109-157` | one packet changes the objects as Dispatch changes the model, that is as `NetDirection.PacketIsTaken` says |
| `NetMonitor.Monitor.GetLastPacket` | `procnet-monitor/process.cpp:81-92` | the loop over the connections of a process |
| `NetMonitor.Monitor.Destroy` | `procnet-monitor/connection.cpp:103-131` | the destructor takes the connection out of the global linked list, and no other list changes |
| `NetMonitor.Monitor.DeleteConnection` | `procnet-monitor/process.cpp:102-112` | a stalled connection is unlinked from the list of its process and from the global one, the others stay in order, and the walk goes on from the link behind |
| `NetMonitor.Monitor.WalkOne` | `procnet-monitor/process.cpp:102-119` | one turn over the links of a process is one of the model, whether it deletes or trims the connection |
| `NetMonitor.Monitor.GetKbps` | `procnet-monitor/process.cpp:95-125` | the loop over the links that sums and deletes, turn by turn |
| `NetPlans.MakePlan` | `procnet-monitor/process.cpp:95-125` | those turns add up to the walk of the model and its sums |
| `NetMonitor.Monitor.GetTotal` | `procnet-monitor/process.cpp:128-141` | the totals over the current connections, in 32-bit arithmetic |
| `NetMonitor.Monitor.UpdateProcess` | `procnet-monitor/libnethogs.cpp:223-267` | the record of a process that stays, and what the callback is told |
| `NetMonitor.Monitor.RemoveProcess` | `procnet-monitor/libnethogs.cpp:201-222` | a process that timed out leaves the list, with its record |
| `NetMonitor.Monitor.HandleUpdate` | `procnet-monitor/libnethogs.cpp:178-273` | the loop over the processes removes, refreshes and tells as that of the model, so as `NetExpiry` says; its size assertion holds at every turn |
| `NetMonitor.Update` | `procnet-monitor/libnethogs.cpp:178-273` | an update of the objects gives the state and the events of the model |
| `NetMonitor.EveryRunIsReady` | `procnet-monitor/libnethogs.cpp:186-270` | what packets and updates of the objects rely on holds in every run, whatever its timing |
| `NetMonitor.Run` | `procnet-monitor/libnethogs.cpp:304-335` | over any run of packets, clock readings and updates, whatever its timing, the objects end as the model does and the callback has been told the same events, so that all results about runs hold of them |
| `ProcessScan.StepKeepsAgrees` | `src/process/process_list.cpp:909-1077` | the process map and the cache of CPU times agree on every pid they share, between any two sections under the lock |
| `ProcessScan.GrowthIsExact` | `src/process/process_list.cpp:970-1001` | the growth used for a pid is its growth since it was last listed, 0 the first time, if and only if its time did not go back while it was in the map; scans may be stopped and other threads may clear, remove and change the filter in between |
| `ProcessScan.UsedIsConserved` | `src/process/process_list.cpp:970-1001` | so for a time that never goes back all growths add up to all CPU time used since the first measurement |
| `ProcessScan.ReusedPidOverflows` | `src/process/process_list.cpp:986-987` | two scans of one pid, taken over by a younger process in between: the second shows 2^64 - 1 ticks of growth |
| `ProcessScan.ScanShowsExactly` | `src/process/process_list.cpp:909-1077` | after an undisturbed scan the map holds exactly the listed pids whose outcome is no zombie and, under the filter "active", running, each with that outcome |
| `ProcessScan.ScanShowsByGrowth` | `src/process/process_list.cpp:970-1075` | told from the readings and the log alone: after an undisturbed scan in which no time went back, a listed pid is in the map exactly if it grew or is no zombie and, under "active", grew or is running; with its CPU time, its growth, and as running exactly if it grew or is read as running |
| `ProcessScan.StoppedListOnlyShrinks` | `src/process/process_list.cpp:927-934` | from a stop to the next start, whatever the threads do, nothing is measured, no process is added or changed, and no scan begins |
| `ProcessScan.CallsChangeOneThing` | `src/process/process_list.cpp:842-1158` | a removal, a clear, a filter, a stop and a start each change one thing; the empty filter changes nothing |
| `ProcessLists.ProcessList.RemoveUnlisted` | `src/process/process_list.cpp:908-925` | pids that are not listed any more are removed, the others untouched |
| `ProcessLists.ProcessList.VisitProcess` | `src/process/process_list.cpp:930-1075` | one turn of the scan on the two maps, as a visit of the step system, so that what a scan shows is told by `ProcessScan.ScanShowsByGrowth` |
| `ProcessLists.ProcessList.ScanProcess` | `src/process/process_list.cpp:863-1079` | a whole scan, and that a stopped list does not begin one |
| `ProcessLists.Perform` | `src/process/process_list.cpp:842-1077` | scans, filter changes, clears, removals, stops and starts in any order do to the object what they do in the step system; every growth it measured is the true one exactly unless the time went back while the process was in the map |
| `ProcessScan.FilterOnlyHides` | `src/process/process_list.cpp:842-849` | a scan under "active" shows exactly those processes that one under another filter shows as running, with the same numbers |
| `ProcessScan.ClearedGrowthIsExact` | `src/process/process_list.cpp:851-856` | clearing the map leaves the cache of CPU times, so the growth measured next is exact for every process |
| `TableDiff.DiffKeys` | `src/model/processtablemodel.cpp:125-223` | after an update the rows are the keys of the snapshot, each once |
| `TableDiff.RowsKeepOrder` | `src/model/processtablemodel.cpp:125-223` | rows that stay keep their order |
| `TableDiff.DiffTwice` | `src/model/processtablemodel.cpp:125-223` | the same keys again move no row, in whatever order they come |
| `TableDiff.ReplayJoins` | `src/model/processtablemodel.cpp:125-223` | a view can follow one update after the other |
| `ProcessTable.ProcessTableModel.ShowSnapshot` | `src/model/processtablemodel.cpp:131-206` | old rows updated in place, new ones appended in the order of the snapshot, each beside its data; exactly the old rows that are updated are announced as changed |
| `ProcessTable.ProcessTableModel.RemoveMissing` | `src/model/processtablemodel.cpp:208-220` | rows no longer wanted are removed one by one |
| `ProcessTable.ProcessTableModel.UpdateProcessList` | `src/model/processtablemodel.cpp:125-223` | old rows that stay in their order, then new ones; both lists aligned; replaying the row edits gives the same rows, and the rows announced as changed are the old ones still wanted |
| `ProcessTable.Refresh` | `src/model/processtablemodel.cpp:125-223` | after an undisturbed scan and the update of the table the rows are, each once, exactly the processes shown; if no time went back these are the listed pids that grew or are no zombies and, under "active", grew or are running, each beside its CPU time, growth and status |
| `ProcessTable.ProcessTableModel.RemoveProcess` | `src/model/processtablemodel.cpp:439-448` | one row and its data removed, and told |
| `FileSystems.UsageIsExact` | `src/filesystem/filesystemworker.cpp:47-67` | for every file system: when the percentage cannot be computed, that the used bytes are right exactly if no more are free than there are, and, as long as used and available bytes stay below 2^64, that the percentage is the used share rounded down exactly if a hundred times the used bytes do |
| `FileSystems.UsageShowsSizes` | `src/filesystem/filesystemworker.cpp:51-62` | total, free and available bytes are the numbers of blocks times the block size, mod 2^64, and used and free bytes add up to the total if no more are free than there are; all five fields are 0 if the total is |
| `FileSystems.PercentageIff` | `src/filesystem/filesystemworker.cpp:63-65` | and too small otherwise |
| `FileSystems.PercentageOverflows` | `src/filesystem/filesystemworker.cpp:63-65` | a full file system of 2^58 bytes is shown at 36 percent |
| `FileSystems.UsageCannotBeComputed` | `src/filesystem/filesystemworker.cpp:63-65` | a wanted mount entry whose usage divides by zero |
| `FileSystems.WantedIff` | `src/filesystem/filesystemworker.cpp:69-88` | an entry is shown exactly if it has blocks, its device is not called none or tmpfs, and "tmpfs" is nowhere in its type |
| `FileSystems.LastIsLast` | `src/filesystem/filesystemworker.cpp:151-178` | the entry shown of a device is the wanted one that no other of the device follows, and its first one the one that none precedes |
| `FileSystems.FileSystemWorker.OnFileSystemListChanged` | `src/filesystem/filesystemworker.cpp:137-199` | after a refresh the map has exactly the devices of wanted entries, with the last entry of each but the mount point it was first seen with; the program ends instead exactly if the usage of a wanted entry cannot be computed |
| `FileSystems.FileSystemWorker.FollowMounts` | `src/filesystem/filesystemworker.cpp:137-199` | the map after any run of refreshes, unless the usage of a wanted entry of one cannot be computed |
| `FileSystems.MountPointIsFirst` | `src/filesystem/filesystemworker.cpp:151-178` | over any run of refreshes the mount point shown of a device is that of its first wanted entry in the refresh in which it appeared |
| `FileSystems.MountPointIsRightIff` | `src/filesystem/filesystemworker.cpp:151-178` | so it is that of its last wanted entry now exactly if the device had that one when it appeared |
| `FileSystems.MovedMountIsNotShown` | `src/filesystem/filesystemworker.cpp:151-178` | two refreshes between which a device moves: it is still shown at its old place |
| `FileSystems.FileSystemWorker.RemoveGone` | `src/filesystem/filesystemworker.cpp:184-197` | devices that are gone are removed |
| `FileSystems.FileSystemModel.ShowDevice` | `src/model/filesystemmodel.cpp:66-82` | the row of a device, updated and announced as changed, or appended |
| `FileSystems.FileSystemModel.UpdateFileSystemList` | `src/model/filesystemmodel.cpp:57-97` | for every mount list, unless the program ends, the table follows the worker by the same law as the process table, each row shows what the worker knows, with the type and the sizes of the last entry of its device, and the rows announced as changed are the old ones still wanted |
| `ProtectedXml.XmlReader.ReadElementText` | `src/process/process_oplimit.cpp:106` | reading the text of an element ends at its end tag, and fails at an element inside |
| `ProtectedXml.ParseProtectedXml` | `src/process/process_oplimit.cpp:70-129` | the three loops end on every finite token stream and collect what their specification says |
| `ProtectedDocuments.DocumentIsScanned` | `src/process/process_oplimit.cpp:82-126` | on the tokens of any document the list is what the scan of its elements finds |
| `ProtectedDocuments.ListIsComplete` | `src/process/process_oplimit.cpp:82-126` | for every document with a ppro_root, wherever it is, the list has as many paths as there are ppro_node elements from the root on, less those missed, and is exactly their paths if and only if none is missed |
| `ProtectedDocuments.FlatDocument` | `src/process/process_oplimit.cpp:82-126` | for every document whose ppro_node elements from the root on have leaf children only, whatever comes before the root, the list is their paths in document order |
| `ProtectedDocuments.NestedNodes` | `src/process/process_oplimit.cpp:97-120` | a nested ppro_node is missed as first element and found as second |

## Left out

- Widgets, painting, styles, dialogs, translations and window handling: user interface only.
- Packet capture, header parsing, `/proc`, the socket-to-inode and inode-to-process tables: input of the model.
- IPv6 packets: `matchSource` compares addresses they do not have.
- Rounding of `double` and `float`: coordinates and rates are reals.
- Two objects for one file in one process, and several threads in one process: documented as unsupported.
- NetMonitor.Monitor: the list of processes is a sequence of objects, and records are keyed by the process, not by its link. That memory is given back is not modelled.
- NetModel.Dispatch: object identities are serial numbers, so an address used again after a deletion is not modelled.
- Tridiagonal.CalculateFirstControlPoints: the two loops are methods of their own, as are those of `calculateControlPoints` and of the parser.
- LocalPeerMessages.Exchange: text encoding, the acknowledgement and its time limits.
- LocalPeerMessages.LocalSocket.WaitForReadyRead: data that arrives together with the disconnect is not an arrival of the model; it comes before or is lost.
- LocalPeerElection.OneServer: the name of the socket, and clients that connect.
- LockedFileUnix.Exclusion: the kernel's own detection of deadlocks is one of its failures.
- ProcessLists.ProcessList.ScanProcess: CPU percentages, memory, disk and network rates, icons and names of a process; the object scans undisturbed, the interleavings are those of the step system in `ProcessScan`.
- ProcessTable.ProcessTableModel.UpdateProcessList: the icon of a row. What a look-up finds for a listed pid is an input, since the process may be gone by then.
- FileSystems.UsageIsExact: which percentage is shown once used and available bytes together pass 2^64.
- FileSystems.FileSystemWorker.OnFileSystemListChanged: what the map holds when the division by zero ends the program.
- FileSystems.FileSystemWorker.DiskDevNameList: the order of the keys of the map is left open.
- ProtectedXml.XmlReader: the tokenizer itself; a malformed document is a stream that ends early.
- Sorting and filtering in the proxy models, unit formatting, chart scales, nice levels: single-branch facts.
