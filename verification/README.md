# Verified model of the multi-robot, trajectory, socket, bridge and motion logic

This project models five parts of the robot package and proves properties of them.

1. **CRobotSync**, the rendezvous of several robots (`RobotSync.dfy`, `SyncModel.dfy`, `SyncRuns.dfy`,
   `SyncBarrier.dfy`, `SyncRound.dfy`, `SyncWake.dfy`, `BitMask.dfy`). `RobotSync.CRobotSync` is the object, its fields updated in
   place, one source line (or one memory access, for `nCurBit |= ...`) at a time. `SyncModel.Run` is the same thing as a
   step machine: any number of threads, any order. The polling loops are program counters, because other threads
   run between any two lines of them. `RobotSync.CRobotSync.RunSchedule` shows that a schedule run on the object ends
   exactly where `Run` ends, so each theorem about `Run` is one about the object.
   The locks start free, so each robot's first `Wait` passes straight through; from the second one on it is a
   barrier, provided each `WakeUpAll` is called only when the robots released by the previous one have run line 49.
   The code does not enforce that. `SyncRound.dfy` says exactly what is lost without it, for a round begun at any
   point of any run: the robots are sure to be together at the end of its poll if and only if every lock is held and
   no robot is at line 49, and it can end in a RuntimeError if and only if some lock is free. `SyncWake.dfy` gives the like for `WakeUp(r)`, and
   for the release loop that `WakeUpAll` runs even after `CleanUp`.
2. **The mesh trajectory script** (`MeshGeometry.dfy`, `Trajectory.dfy`): ray casting and unprojection,
   quaternion signs, knots, decimation, the pre-flight check. Reals stand for floats. `consistent_rotations` is
   documented as keeping rotation matrices from flipping sign; a quaternion and its negative give one matrix, and
   the function is proved to return the poses it was given.
3. **The TCP modules** (`TcpStream.dfy`, `TcpRegistry.dfy`): connection tables, open sockets, timed reads,
   flushes. Server and client are one model with a kind; the comments name the three differences. A peer is its
   whole byte stream plus the outcome of every `recv`, `select` and connection attempt; every receive moves the
   stream, whatever the code does with the bytes. A loop whose observed outcomes end while it would go on is
   reported as `Busy` or `Waiting`. A port above 65535 passes the checks of the code, but bind and connect answer it
   with an OverflowError, which the code does not handle: it never closes the socket it made for that. The code takes an empty receive for the end of the stream; it is right exactly
   when the length asked for is not 0.
4. **The joint-state bridges** (`JointBridge.dfy`): joint numbers, stable sorting, the p3020 filter,
   publishing on change. The Gazebo bridge means to publish its first command always, but asks whether an array
   equals the empty list, which it never does; an empty first command is therefore not published.
5. **The motion command layer and the coverage path** (`MotionLayer.dfy`, `BlendSegment.dfy`,
   `Coverage.dfy`): persistent limits, argument checks, analog modes, segment packing, the zigzag. `movel` asks its
   time to be an int or float and not negative; `moveb` just calls float() on it. So `moveb` also sends negative
   times and times such as True, "2" or a numpy scalar, and a time that is not zero skips the combined velocity and
   acceleration check. The velocity, acceleration and time checks of the two differ in nothing else.

## Model

| member | source | states |
|---|---|---|
| `RobotSync.CRobotSync.constructor` | dsr_common2/imp/DSR_util2.py:24-39 | all flags down, all locks free, running, and the OR loop leaves `nWaitBit` at 2^r - 1 for every robot count |
| `RobotSync.CRobotSync.CleanUp` | dsr_common2/imp/DSR_util2.py:41-44 | `nIsRun` becomes False and no other field changes |
| `RobotSync.CRobotSync.Release` | dsr_common2/imp/DSR_util2.py:55-70 | releasing raises exactly when the lock was free, and then changes nothing |
| `RobotSync.CRobotSync.ExecLine` | dsr_common2/imp/DSR_util2.py:46-71 | one line executed on the fields has exactly the effect, the next line and the observation of the step machine |
| `RobotSync.CRobotSync.RunSchedule` | dsr_common2/imp/DSR_util2.py:23-71 | threads sharing the object in any order leave fields, threads and counters where the step machine's run leaves them |
| `BitMask.OrAddsMember` | dsr_common2/imp/DSR_util2.py:66 | OR with `0x1<<i` adds robot i to the set a mask stands for and touches no other |
| `BitMask.FullExactlyWhenAllSeen` | dsr_common2/imp/DSR_util2.py:67-68 | a mask equals 2^n - 1 if and only if every robot is in it |
| `SyncModel.TokenAccounting` | dsr_common2/imp/DSR_util2.py:38-71 | any threads, any interleaving: acquisitions minus successful releases is 1 if the lock is held, else 0; acquisitions are the Waits returned plus those before line 49; a j-th return needs j - 1 releases |
| `SyncModel.BadIndexChangesNothing` | dsr_common2/imp/DSR_util2.py:46-55 | a wrong robot number changes nothing in Wait and ends WakeUp without touching the object |
| `SyncRuns.MaskRefinesSeen` | dsr_common2/imp/DSR_util2.py:36-68 | at every point of every run with one WakeUpAll caller `nCurBit` stands for exactly the robots seen waiting since line 62, and line 67 breaks exactly when all were seen |
| `SyncRuns.SeenGrows` | dsr_common2/imp/DSR_util2.py:62-68 | no step of any thread forgets a seen robot before the next line 62 |
| `SyncRuns.BoundedSkew` | dsr_common2/imp/DSR_util2.py:46-71 | one waker using only WakeUpAll, no release raised: two robots' acquisition counts differ by at most 1, and at most 2 inside the release loop |
| `SyncRuns.PollEndsAfterShutdown` | dsr_common2/imp/DSR_util2.py:41-71 | `nIsRun` never comes back, and every poll is left within the rest of its scan plus two own steps under any interleaving |
| `SyncRuns.RunningExactlyUntilCleanUp` | dsr_common2/imp/DSR_util2.py:30-44 | in every run from `__init__` of any threads, `nIsRun` is True if and only if no idle thread has called CleanUp so far |
| `SyncRuns.CleanUpOnlyStops` | dsr_common2/imp/DSR_util2.py:41-44 | a CleanUp call inside a run lowers `nIsRun` and changes no flag, lock, mask, thread or count |
| `SyncRuns.PollEndsAfterCleanUp` | dsr_common2/imp/DSR_util2.py:41-68 | once CleanUp has been called, whatever went before, every poll is left within 3n + 2 own steps of its thread under any interleaving |
| `SyncRuns.ShutdownReleasesOnlyCommitted` | dsr_common2/imp/DSR_util2.py:41-59 | after shutdown all further runs without WakeUpAll release at most once per WakeUp already past its loop test |
| `SyncRuns.WakeUpReleasesAtMostOnce` | dsr_common2/imp/DSR_util2.py:52-59 | without WakeUpAll there is at most one release or RuntimeError per WakeUp begun, and one fewer for each still under way |
| `SyncRuns.PollEndsWhenAllUp` | dsr_common2/imp/DSR_util2.py:63-68 | while all flags are up the poll reaches the release loop within the rest of this scan plus one scan, under any interleaving |
| `SyncRuns.PollSeesWaiting` | dsr_common2/imp/DSR_util2.py:63-66 | a robot whose flag stays up is seen within 6n + 1 own lines of the waker, whoever else is missing |
| `SyncBarrier.FirstWaitPassesAlone` | dsr_common2/imp/DSR_util2.py:36-50 | locks start free: a robot's first Wait returns with no other thread having run |
| `SyncBarrier.StepBarrier` | dsr_common2/imp/DSR_util2.py:46-71 | every allowed step of a waiter or of the waker keeps the barrier invariant |
| `SyncBarrier.BarrierSafety` | dsr_common2/imp/DSR_util2.py:46-71 | in every disciplined run from `__init__`: no release hits a free lock, all robots are blocked together when the poll ends, a seen robot stays blocked through the poll and the release loop until line 70 reaches it, and from the second Wait on none returns before every robot has called Wait as often |
| `SyncBarrier.OneWaitPerRound` | dsr_common2/imp/DSR_util2.py:46-71 | whenever a round has settled every robot has returned from exactly one Wait per round plus its first |
| `SyncBarrier.RoundCompletes` | dsr_common2/imp/DSR_util2.py:61-71 | once all flags are up during the poll the waker finishes the round within 7n + 4 own lines, under any interleaving |
| `SyncBarrier.WholeRoundCompletes` | dsr_common2/imp/DSR_util2.py:46-71 | from any point of the poll, whoever is missing: once each robot's thread has run a line and after that the waker 7n + 4, the round has finished, under any interleaving |
| `SyncRound.RendezvousExactlyWhenSettled` | dsr_common2/imp/DSR_util2.py:61-71 | at any point of any run of waiters and one waker, disciplined or not, WakeUp calls included: a WakeUpAll begun now finds all robots blocked together at the end of its poll in every continuation if and only if every lock is held and no robot is at line 49 |
| `SyncRound.RoundRaisesExactlyWhenLockFree` | dsr_common2/imp/DSR_util2.py:61-71 | at any such point: a WakeUpAll begun now can raise in some continuation if and only if some lock is free at its start |
| `SyncWake.WakeUpExactly` | dsr_common2/imp/DSR_util2.py:46-59 | at any point of any run of waiters and one waker: WakeUp(r) begun now can raise if and only if lock r is free now, and is sure to find its robot blocked when it releases it if and only if the lock is held and the robot is not at line 49 |
| `SyncWake.ReleaseLoopSafeExactlyWhenAllHeld` | dsr_common2/imp/DSR_util2.py:69-71 | once line 69 is reached, after CleanUp too, the loop is sure not to raise if and only if every lock is held at that moment |
| `SyncWake.ReleaseLoopFreesEveryRobot` | dsr_common2/imp/DSR_util2.py:69-71 | with the remaining locks held it returns within one own line per lock and one more, having released each exactly once, under any interleaving |
| `SyncWake.ReleaseLoopStopsAtFreeLock` | dsr_common2/imp/DSR_util2.py:69-70 | run alone it frees the locks before the first free one, raises there, and leaves every later blocked robot blocked |
| `MeshGeometry.ComposeRigid` | scripts/blow_from_mesh.py:611-618 | the composed camera transform of rigid transforms is rigid |
| `MeshGeometry.CameraChain` | scripts/blow_from_mesh.py:611-618 | the composed camera pose takes points to the world one link at a time, and its inverse takes them back one link at a time |
| `MeshGeometry.InverseUndoes` | scripts/blow_from_mesh.py:353-354 | the inverse of a rigid transform undoes it on both sides |
| `MeshGeometry.GetDepthFromMesh` | scripts/blow_from_mesh.py:336-356 | fails exactly when nothing is hit; otherwise the depth is that of the first nearest hit |
| `MeshGeometry.RayCastRoundTrip` | scripts/blow_from_mesh.py:257-356 | for every rigid camera pose, pixel and hit on its ray, unprojecting at the hit's depth gives the hit in metres, and scaling by MESH_DIMENSION its mesh coordinates |
| `MeshGeometry.NearestHitHasLeastDepth` | scripts/blow_from_mesh.py:339-356 | the nearest hit along the ray is the one of least camera depth |
| `MeshGeometry.BaseToWorld` | scripts/blow_from_mesh.py:409-416 | composing the base pose with the converted pose gives the world pose back |
| `MeshGeometry.ReachableInWorld` | scripts/blow_from_mesh.py:409-537 | a converted pose passes the check if and only if it lies within reach of the base and not more than 5 cm under its plane, for every base orientation |
| `Trajectory.PropagateSigns` | scripts/blow_from_mesh.py:453-456 | the in-place loop leaves the list whose every quaternion is aligned with the aligned one before it |
| `Trajectory.SignsPropagate` | scripts/blow_from_mesh.py:382-387 | each output is plus or minus its input, the first unchanged, consecutive dot products are non-negative, every rotation matrix is unchanged |
| `Trajectory.SecondPassChangesNothing` | scripts/blow_from_mesh.py:382-386 | the sign loop is idempotent |
| `Trajectory.ShortArcsUnique` | scripts/blow_from_mesh.py:453-457 | without orthogonal neighbours no other choice of signs keeps the first quaternion and short arcs |
| `Trajectory.ConsistentRotations` | scripts/blow_from_mesh.py:375-389 | the function returns exactly the poses it was given |
| `Trajectory.GenerateKnots` | scripts/blow_from_mesh.py:438-447 | fewer than two poses raise; otherwise knot k is the clamped length of the first k steps over the total |
| `Trajectory.KnotsValid` | scripts/blow_from_mesh.py:444-450 | for any positions, repeated ones included, the knots start at 0, end at 1 and strictly increase |
| `Trajectory.KnotStep` | scripts/blow_from_mesh.py:445-447 | each knot step times the total is the clamped distance: arc-length parameters |
| `Trajectory.DenseParametersCovered` | scripts/blow_from_mesh.py:458-467 | the (n-1)*n_interp+1 parameters hit 0 and 1, are evenly spaced, and each lies between two neighbouring knots |
| `Trajectory.WaypointsCover` | scripts/blow_from_mesh.py:559-561 | the waypoints are an ordered subsequence from the first to the last pose with index gaps at most skip |
| `Trajectory.LastPoseReached` | scripts/blow_from_mesh.py:560-561 | with distinct pose objects the last waypoint index is the last pose's |
| `Trajectory.ExecuteTrajectory` | scripts/blow_from_mesh.py:392-582 | no movel at all if any waypoint is unreachable (the first such is reported), otherwise exactly one per waypoint in order; for a rigid base, reachable means within 0.9 m of it and at most 5 cm under its plane, and each command holds the waypoint's millimetres along the axes of the base, z plus 35, and the three angles in order |
| `Trajectory.PosxIsCommand` | scripts/blow_from_mesh.py:392-416 | the pose sent is the position along the base axes in millimetres, z plus 35, and the angles of the base-relative rotation |
| `Trajectory.CommandReachesWaypoint` | scripts/blow_from_mesh.py:392-416 | such a command, taken back from millimetres and the 35 mm and seen from the base, is the waypoint |
| `TcpStream.ReceiveLoop` | dsr_common2/imp/DR_tcp_server2.py:304-343 | the retry loop ends as, after as many receives as, and with the stream where the recursive reading of the outcomes leaves it |
| `TcpStream.TimedReadBound` | dsr_common2/imp/DR_tcp_server2.py:305-322 | for every timeout T >= 0 the read ends within n = max(1, ceil(T/tick)) receives, gives -3 if and only if the first n time out, after exactly n, and for T > 0 those last at least T and less than T plus a tick |
| `TcpStream.UntimedReadNeverExpires` | dsr_common2/imp/DR_tcp_client2.py:288-291 | with timeout -1 a read never gives -3 |
| `TcpStream.ReadReturnsWhatItTakes` | dsr_common2/imp/DR_tcp_client2.py:281-319 | however a read ends, the bytes its receives took are the ones it returns: the next 1 to size bytes on success, none otherwise |
| `TcpStream.ReadMatchesKernel` | dsr_common2/imp/DR_tcp_server2.py:305-343 | what the kernel handed over in exactly the receives the loop made, and the position it reached, are what the read returns and reports |
| `TcpStream.EofExactly` | dsr_common2/imp/DR_tcp_server2.py:305-336 | a read ends as at end of stream if and only if it is answered before its time is up with no bytes: none came, none were asked for, or none are left |
| `TcpStream.AnsweredExactly` | dsr_common2/imp/DR_tcp_server2.py:305-343 | an answered read takes the smallest of the bytes due, the request and what is left |
| `TcpStream.UnansweredExactly` | dsr_common2/imp/DR_tcp_server2.py:305-333 | otherwise it expires, fails or waits according to its timeouts and the first other outcome, and takes nothing |
| `TcpStream.DrainLoop` | dsr_common2/imp/DR_tcp_server2.py:366-390 | the flush loop returns the code, receives the bytes and reaches the position of the recursive reading of its polls, a select that raises included |
| `TcpStream.FlushStopsAtFirstDecisive` | dsr_common2/imp/DR_tcp_client2.py:343-367 | flush returns -2 (select or receive raised), -3 or 0 according to the first poll that is not just readable data or nothing, and throws away all that the kernel hands over before it |
| `TcpStream.FlushDropsWhatItTakes` | dsr_common2/imp/DR_tcp_server2.py:366-382 | the bytes its receives put into `dummy` are the next stretch of the stream, at most a buffer a poll |
| `TcpRegistry.CallConsistent` | dsr_common2/imp/DR_tcp_server2.py:57-193 | every call, whatever fails in it, keeps tables and sockets consistent: the open sockets are the stored ones and those lost to an OverflowError |
| `TcpRegistry.SocketConservation` | dsr_common2/imp/DR_tcp_client2.py:54-167 | after any calls both tables have the same keys, keys are ids of stored sockets, states are 0 or 1, open sockets are exactly the stored ones and the lost ones; none is lost while all ports are at most 65535; a clean leaves only the lost |
| `TcpRegistry.CallLosesExactly` | dsr_common2/imp/DR_tcp_server2.py:57-108 | a call leaves an open socket that no table and no caller knows if and only if it is an open with a port above 65535 that gets as far as using it; that call ends in an OverflowError |
| `TcpRegistry.DisconnectedForGood` | dsr_common2/imp/DR_tcp_server2.py:182-193 | a socket that reads as disconnected does so after any further calls |
| `TcpRegistry.StreamConservation` | dsr_common2/imp/DR_tcp_server2.py:294-382 | over any calls on any sockets the payloads returned for one socket and the bytes its flushes received and dropped, in order, are exactly the stretch of its stream that its receives consumed |
| `TcpRegistry.ReadReply` | dsr_common2/imp/DR_tcp_client2.py:269-319 | success means 1 <= res = len(data), at most the length asked for, or 4096 for length -1; whatever the reply, the receives consumed exactly the data in it |
| `TcpRegistry.AnsweredReadReply` | dsr_common2/imp/DR_tcp_server2.py:298-343 | a read answered with k bytes due hands over exactly the next min(k, request, bytes left) bytes, -1 and state 0 if that is none |
| `TcpRegistry.UnansweredReadReply` | dsr_common2/imp/DR_tcp_server2.py:305-333 | a read not answered gives -3 if its timeouts used up its time, -2 on an earlier error, and changes nothing |
| `TcpRegistry.RefusedRead` | dsr_common2/imp/DR_tcp_client2.py:245-275 | ValueError exactly for a length below -1 or a timeout below 0 other than -1, then -1 for a socket not stored; nothing changes |
| `TcpRegistry.FlushReply` | dsr_common2/imp/DR_tcp_server2.py:357-390 | -1 for a socket not stored, else 0, -2 or -3 for the first decisive poll |
| `TcpRegistry.OpenReply` | dsr_common2/imp/DR_tcp_server2.py:64-108 | a socket is returned if and only if an attempt goes through with a port up to 65535; it is new, open, stored under its id in state 1, and what was stored before is as it was |
| `TcpRegistry.RefusedOpen` | dsr_common2/imp/DR_tcp_server2.py:57-62 | ValueError exactly for a negative port and, on the server, port 12345 |
| `TcpRegistry.CloseReply` | dsr_common2/imp/DR_tcp_server2.py:118-145 | closing a stored socket closes and forgets it and its listener and nothing else; an unknown one gives -1 or KeyError |
| `TcpRegistry.StateReply` | dsr_common2/imp/DR_tcp_server2.py:182-193 | 1 for a stored socket in state 1, else 0, and nothing changes |
| `TcpRegistry.ZeroLengthReadDisconnects` | dsr_common2/imp/DR_tcp_server2.py:298-336 | a read of length 0 takes nothing, and marks a live connection disconnected for good if and only if it is answered in time |
| `TcpRegistry.DisconnectedExactlyAtEndOrEmptyRequest` | dsr_common2/imp/DR_tcp_server2.py:298-343 | a valid read turns the state to 0, and gives -1, if and only if it is answered in time and the stream is used up or length 0 was asked for |
| `TcpRegistry.EndReportedExactlyWhenAllDelivered` | dsr_common2/imp/DR_tcp_client2.py:269-319 | from the start of the module, an answered read of any length but 0 reports the end if and only if the calls so far delivered or flushed the whole stream |
| `TcpRegistry.TcpModule.Open` | dsr_common2/imp/DR_tcp_server2.py:57-108 | the retry loop opens and closes one socket per failed attempt and stores the connected pair; bad ports raise, and a port above 65535 ends in an OverflowError with its socket left open |
| `TcpRegistry.TcpModule.Connect` | dsr_common2/imp/DR_tcp_client2.py:74-89 | one connecting attempt stores the socket under its id with state 1 |
| `TcpRegistry.TcpModule.Close` | dsr_common2/imp/DR_tcp_server2.py:118-145 | both sockets closed and both entries deleted; an unknown socket gives -1 (KeyError on the client side) and changes nothing in the tables |
| `TcpRegistry.TcpModule.Clean` | dsr_common2/imp/DR_tcp_client2.py:135-146 | closing key by key leaves no entry, no open socket but the lost ones, and no end data |
| `TcpRegistry.TcpModule.SocketState` | dsr_common2/imp/DR_tcp_client2.py:156-167 | 0 or 1, and 1 only for a stored, open socket |
| `TcpRegistry.TcpModule.Read` | dsr_common2/imp/DR_tcp_client2.py:245-319 | validation, membership, loop and table update give the reply and state of the specification |
| `TcpRegistry.TcpModule.Flush` | dsr_common2/imp/DR_tcp_client2.py:332-367 | likewise for flush, and the bytes its receives dropped are those of the specification |
| `JointBridge.SortSorts` | dsr_bringup2/dsr_bringup2/dsr_mujoco_bridge.py:54-55 | the sort lists every index once, by key, ties in index order |
| `JointBridge.OrderIsUnique` | dsr_bringup2/dsr_bringup2/dsr_mujoco_bridge.py:54-55 | that listing is the only one |
| `JointBridge.CommandListsJoints` | dsr_bringup2/dsr_bringup2/dsr_mujoco_bridge.py:48-72 | a command is the positions of the joints in the order of their numbers, each exactly once, but on the p3020 for the lowest-numbered joint whose name contains the text joint_4 |
| `JointBridge.BothCommandStandardJoints` | dsr_bringup2/dsr_bringup2/gazebo_connection.py:42-64 | with joints joint_1 to joint_n in any order both bridges command their positions by number, without joint_4 on the p3020 |
| `JointBridge.FirstNumberExactly` | dsr_bringup2/dsr_bringup2/gazebo_connection.py:44-46 | the key is the first run of digits in the name, infinite without one |
| `JointBridge.JointNumberExactly` | dsr_bringup2/dsr_bringup2/dsr_mujoco_bridge.py:50-52 | the key is the digits after the first "joint_" that is followed by some, infinite without one |
| `JointBridge.MuJoCoPublishesChanges` | dsr_bringup2/dsr_bringup2/dsr_mujoco_bridge.py:35-72 | the published stream is the command stream with consecutive duplicates removed, the last published command the current one, for every message stream |
| `JointBridge.GazeboPublishesChanges` | dsr_bringup2/dsr_bringup2/gazebo_connection.py:35-66 | the same if and only if the first command is not empty, otherwise without that first one; the last published command is the current one if and only if some command was not empty |
| `JointBridge.EmptyCommandExactly` | dsr_bringup2/dsr_bringup2/gazebo_connection.py:57-63 | a command is empty exactly for a message without joints, or with only the one that the p3020 drops |
| `JointBridge.ActsOnCompleteMessages` | dsr_bringup2/dsr_bringup2/gazebo_connection.py:35-66 | one command per complete message, in order, and the Gazebo bridge re-publishes each of them sorted |
| `JointBridge.StreamsIgnoreJointOrder` | dsr_bringup2/dsr_bringup2/gazebo_connection.py:42-66 | with distinct joint numbers, listing the joints of each message in another order changes neither bridge's published stream |
| `JointBridge.SortedMessageFaithful` | dsr_bringup2/dsr_bringup2/gazebo_connection.py:50-55 | the re-published message has the same joints with their own values, by number, and no NaN effort |
| `JointBridge.StandardNameNumber` | dsr_bringup2/dsr_bringup2/dsr_mujoco_bridge.py:50-52 | both searches read n off the name joint_n, for every n |
| `JointBridge.BridgesAgree` | dsr_bringup2/dsr_bringup2/gazebo_connection.py:44-48 | on standard joint names the two bridges ask for the same commands, and publish the same streams if and only if the first command is not empty |
| `JointBridge.MuJoCoBridge.SortJointStates` | dsr_bringup2/dsr_bringup2/dsr_mujoco_bridge.py:48-72 | raises exactly on short arrays; otherwise the sorted indexes, without the first joint_4 for p3020 |
| `JointBridge.MuJoCoBridge.ListenerCallback` | dsr_bringup2/dsr_bringup2/dsr_mujoco_bridge.py:35-46 | the fields and the published stream follow the step; an incomplete message raises and changes nothing |
| `JointBridge.GazeboConnection.SortJointStates` | dsr_bringup2/dsr_bringup2/gazebo_connection.py:42-66 | writes the command and returns the sorted message, or raises and writes nothing |
| `JointBridge.GazeboConnection.ListenerCallback` | dsr_bringup2/dsr_bringup2/gazebo_connection.py:35-40 | the fields and both published streams follow the step, in which a command is published if and only if it differs from the previous one |
| `MotionLayer.EveryRequestSafe` | dsr_common2/imp/DSR_ROBOT2.py:449-464 | over every run of calls each move without a time has positive first limits and second ones positive or the sentinel, given or inherited, and each analog value is in the range of the mode last requested on its channel |
| `MotionLayer.PlainLineNeedsBothSettings` | dsr_common2/imp/DSR_ROBOT2.py:523-571 | a plain movel is sent if and only if set_velx and set_accx both succeeded earlier, and carries the last values they set |
| `MotionLayer.LineCarriesArguments` | dsr_common2/imp/DSR_ROBOT2.py:2731-2865 | every accepted movel carries its own coordinates, limits, time, radius, reference, mode, blend type and sync flag, each in its place, or its default |
| `MotionLayer.BlendCarriesArguments` | dsr_common2/imp/DSR_ROBOT2.py:3348-3474 | every accepted moveb likewise, and its records read back as its segments one by one |
| `MotionLayer.LineFault` | dsr_common2/imp/DSR_ROBOT2.py:2715-2841 | movel is accepted if and only if every argument is of its type and in range; a type error means a wrong type, a value error a value out of range |
| `MotionLayer.BlendFault` | dsr_common2/imp/DSR_ROBOT2.py:3348-3458 | the same for moveb |
| `MotionLayer.SetterExactly` | dsr_common2/imp/DSR_ROBOT2.py:523-571 | the setters accept exactly a positive first and a positive or sentinel second number, and take them as given |
| `MotionLayer.AnalogExactly` | dsr_common2/imp/DSR_ROBOT2.py:5834-5912 | an analog value is sent, as given and on its channel, if and only if the mode of that channel allows it; a mode if and only if channel and mode exist |
| `MotionLayer.CallSendsAtMostOne` | dsr_common2/imp/DSR_ROBOT2.py:523-571 | a call that raises changes nothing; one that does not appends one request, or none for a setter |
| `MotionLayer.OnlyMissingLimitsInherited` | dsr_common2/imp/DSR_ROBOT2.py:2735-2781 | what a move that some state of the globals accepts comes to is the same in every state if and only if both velocity and acceleration are given, under either name |
| `MotionLayer.BlendAcceptsNegativeTime` | dsr_common2/imp/DSR_ROBOT2.py:3429-3436 | for all globals and arguments in order but for their limits, moveb is sent wherever movel is, and where movel is refused if and only if velocity and acceleration pass their own checks and the time is negative, or no int or float but accepted by float() and, if it is zero, both pairs positive |
| `MotionLayer.TimeChecksDiffer` | dsr_common2/imp/DSR_ROBOT2.py:2784-2798 | the two checks give different results if and only if velocity and acceleration pass and the time is negative, or no int or float but accepted by float(); accepted limits carry a negative time if and only if one was given |
| `MotionLayer.InheritedLimitsExactly` | dsr_common2/imp/DSR_ROBOT2.py:3375-3436 | after any run, for every time that float() accepts: a move inheriting its limits is refused by moveb if and only if it has no time and set_velx and set_accx have not both succeeded (movel refuses negative and unlike typed times too), and what moveb sends carries limits never set if and only if they have not both succeeded |
| `MotionLayer.ChoosePair` | dsr_common2/imp/DSR_ROBOT2.py:2735-2758 | a number stands for itself with the sentinel second, a two-item list for itself, nothing for the stored default; any other shape is a type error and a negative item other than the sentinel a value error |
| `MotionLayer.CheckValidVelAccTask` | dsr_common2/imp/DSR_ROBOT2.py:449-464 | passes if and only if, when no time is given, both first limits are positive and both second ones positive or the sentinel |
| `MotionLayer.ChooseLimits` | dsr_common2/imp/DSR_ROBOT2.py:2735-2798 | accepted limits are safe: no negative item, both pairs positive when there is no time; a negative time or one that is no int or float passes only in moveb; given limits make the result independent of the globals |
| `MotionLayer.Robot.SetVelx` | dsr_common2/imp/DSR_ROBOT2.py:523-546 | stores the pair or raises, as the specification says, and touches nothing else |
| `MotionLayer.Robot.SetAccx` | dsr_common2/imp/DSR_ROBOT2.py:548-571 | likewise for the acceleration |
| `MotionLayer.Robot.MoveL` | dsr_common2/imp/DSR_ROBOT2.py:2731-2865 | appends exactly the checked request, or raises and sends nothing |
| `MotionLayer.Robot.MoveB` | dsr_common2/imp/DSR_ROBOT2.py:3348-3474 | appends the packed request or raises, without changing any segment object; its time goes through float() unchecked |
| `MotionLayer.Robot.SetModeAnalogOutput` | dsr_common2/imp/DSR_ROBOT2.py:5888-5912 | records the mode of the one channel and sends it, or raises |
| `MotionLayer.Robot.SetAnalogOutput` | dsr_common2/imp/DSR_ROBOT2.py:5834-5871 | sends the value only when the channel's mode allows it |
| `BlendSegment.SegmentsMadeAreTheValidOnes` | dsr_common2/imp/DR_common2.py:140-171 | the constructor makes exactly the valid segments |
| `BlendSegment.MakeSegmentExactly` | dsr_common2/imp/DR_common2.py:140-171 | a segment is made if and only if the arguments pass, holds each in its place, and the kind of error says what was wrong |
| `BlendSegment.CreatePosb` | dsr_common2/imp/DR_common2.py:140-171 | a posb object comes out exactly when the arguments pass, and it is valid |
| `BlendSegment.Posb.ToList` | dsr_common2/imp/DR_common2.py:195-203 | a fresh list of the four fields |
| `BlendSegment.PackSegments` | dsr_common2/imp/DSR_ROBOT2.py:3357-3381 | one record per segment, and no posb is modified although None items are overwritten |
| `BlendSegment.CppPack` | dsr_common2/src/dsr_robot.cpp:547-559 | the C++ loops put six, six, type and radius in this order |
| `BlendSegment.PackRoundTrip` | dsr_common2/imp/DSR_ROBOT2.py:3379-3381 | each record has 14 numbers in the C++ order and reads back as its segment, an absent second point included |
| `BlendSegment.SendAndReadBack` | dsr_common2/imp/DSR_ROBOT2.py:574-594 | packing, converting to messages and back recovers every segment |
| `Coverage.GeneratePath` | scripts/demo2.py:56-75 | two waypoints per line, alternating direction |
| `Coverage.BoxCentred` | scripts/demo2.py:56-60 | the sides of the box lie half its width and height from the centre |
| `Coverage.PathStartsLowerLeft` | scripts/demo2.py:56-75 | the path starts in the lower left corner and goes right first |
| `Coverage.PathStaysInBox` | scripts/demo2.py:57-75 | every waypoint is on a side of the box, within its height, with the centre's z and orientation |
| `Coverage.PathTurnsSquare` | scripts/demo2.py:65-75 | consecutive waypoints differ in one axis only: full width, then one spacing |
| `Coverage.BoxCovered` | scripts/demo2.py:61-75 | every height of the box is less than a spacing above a line, and within half a spacing of one below the last line |
| `Coverage.BoxCoveredExactly` | scripts/demo2.py:57-75 | every height of the box is within half a spacing of a line if and only if the strip above the last line is at most half a spacing wide |

## Left out

- Sleeping, printing and logging: `time.sleep`, messages and ROS plumbing have no effect on the modelled state.
- Reads and flushes in `TcpModule` take the outcome of each `recv` and `select` as an argument; what a peer may do is any list of outcomes.
- `TcpRegistry.SocketConservation`: only bind, listen, accept and connect may fail; an exception from `close` or `settimeout` is not modelled, nor is the garbage collector, which may close a lost socket. Ids are unique also after a socket is closed, as they are while the caller still holds it.
- `server_socket_write`, `server_socket_end_data` and their client twins: sending and terminator framing; the end-data table is only seen to be emptied.
- The default timeouts of a read with timeout -1 and of a flush: neither loop is bounded by the code, so both are followed only as far as the given outcomes go.
- Floating point: all geometry, timing and limits are over the reals; `np.linalg.norm` enters as a number whose square is the sum of squares.
- Ray-mesh intersection, spline and SLERP interpolation, matrix to quaternion and Euler conversion: library results that enter as arguments.
- Trajectory slices with `skip` below 1: Python raises on 0 and reverses on negative values.
- `JointBridge.GazeboPublishesChanges`: positions are NaN-free and digits are ASCII; the message class std_msgs is not part of this model, only that its `data` is an array, which never equals a list.
- `MotionLayer.EveryRequestSafe`: list items and positions are numbers; numpy positions, NaN and infinite numbers, the string handling of `is_number`, `set_ref_coord` (the default reference stays base) and the service results are not modelled.
- `MotionLayer.Robot.MoveB`: a time that float() does not accept counts as a type error, whichever exception float() raises.
- The other motion commands of DSR_ROBOT2.py and the `CDsrRobot` class: the same checks repeated.
- The C++ `CRobotSync` in dsr_util.h: its condition-variable waits have no predicate, so wake-ups can be lost or spurious and the barrier does not carry over.
- Mesh import, picking, plotting, image grabbing and CSV output of scripts/blow_from_mesh.py.
