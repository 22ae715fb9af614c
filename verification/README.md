# Verified model of the See3CAM camera driver

This project models, in Dafny, the protocols underneath the camera driver node and proves what they
keep over every run: the V4L2 buffer circulation with the node's grab loop, the drop accounting of
both backends, the mapped image log and the lifetimes of the threads around it, and the HID command
channel. Objects whose methods update fields are classes; protocols with several threads are step
machines with one lemma per reachable state or per run. Classes and machines share their transition
functions.

| file | what it models |
|---|---|
| `Common.dfy` | bytes, wrapping 64-bit counters, counting lemmas |
| `Config.dfy` | resolution profiles and derived sizes |
| `CameraBackend.dfy` | frames and formats of the backend interface |
| `V4l2Stream.dfy` | the kernel's streaming queue as an adversary (Video4Linux2 API, chapter "Input/Output", section "Streaming I/O (Memory Mapping)") |
| `OpencvBackend.dfy` | the V4L2 backend object over a device whose every call may fail |
| `CaptureRun.dfy` | backend, driver and grab loop interleaved, one byte read per step |
| `CaptureRefinement.dfy` | the backend object's calls are runs of that machine |
| `DropAccounting.dfy` | the loop's counter arithmetic and what it adds up to over any list of push counts |
| `GstBackend.dfy` | the GStreamer backend object and its references |
| `GstPipeline.dfy` | push probe, pipeline, one-slot sink and grab thread interleaved |
| `MonotonicClock.dfy` | the clock every stamp is read from |
| `GrabLoop.dfy` | the node object: loop, publish, log records |
| `TimedLoop.dfy` | clock, push probe and grab loop interleaved, each stamp taken at its own step |
| `BlackboxLog.dfy`, `BlackboxBox.dfy` | log records, the log object and its life cycle |
| `ConcurrentLog.dfy` | any number of log callers interleaved, one field store per step |
| `Lifetimes.dfy` | main, grab, streaming and writer threads from constructor to destructor |
| `HidProtocol.dfy` | the HID channel on values: the retry scan, the device, one exchange of request, arrivals and reads |
| `HidHandshake.dfy` | the trigger handshake as a run of exchanges, and exactly when its success can be believed |
| `HidControl.dfy` | the HID calls of the driver, tied to those exchanges |
| `LogDirectory.dfy` | creating the log's directories |

Environment choices (which call fails, what is read, how far the clock has gone, scheduling) are
arbitrary: they are event lists, parameters, or nondeterministic results of the device classes.

## Where the code does not keep what its documentation says

- A grabbed frame is not always released. A frame that comes back empty (zero bytes) sends the loop to
  its next iteration without `release()`, against the grab, use, release cycle of
  `include/camera_backend.hpp:4`. `EmptyFrameLeaks` is a concrete run; `OwnershipExact` says that all
  buffers come back at a loop head if and only if no dequeued frame was empty and no requeue failed;
  `StarvedIff` and `StarvedForever` say when and that the camera then stops for good. For GStreamer,
  `BalancedIff` is the matching statement: nothing is outstanding exactly when no frame mapped empty.
- The repository's own `README.md:175` defines drops as the push delta minus one. With the GStreamer
  backend that total can be too high (`OverReports` is a run that drops nothing and reports one);
  `DropsExactly` gives the exact excess and `ExactIff` says for which schedules there is none. With
  V4L2 it is right exactly while the last frame grabbed is among the driver's first 2^32
  (`DropsConserved`, `ExactIffUnwrapped`); `DropError` says how far off it is afterwards. That the
  counters balance is a different matter (`ConservedThroughoutIff`): after a wrap they may balance on a
  total that is 2^32 too low (`BalancedButWrong`). `WrapRun` is a run over the first wrap that loses
  nothing there and reports 2^64 - 1 drops.
- `include/blackbox.hpp:59` calls a record's `t_capture_ns` the backend's capture stamp. With GStreamer
  it can be the stamp of a later push than the frame's (`LateStamp`); `RecordStamps` says which stamp it
  is and when it is the frame's own.
- `src/opencv_backend.cpp:153` takes the number of buffers the device grants as it is, for a table of
  four. Start is defined exactly when at most four are granted or a call fails before the fifth; the
  contracts of `Start` and `RequestBuffers` say so.
- A HID acknowledgement is believed by its header alone. `AckSoundIff` says when that is safe for one
  request and `HandshakeSoundIff` for the whole handshake; `StaleRepliesBelieved` is a handshake that
  succeeds on old replies while the device obeys nothing.

## Model

| member | source | states |
|---|---|---|
| `CaptureRun.PublishedFaithfully` | src/econ_ros2_driver.cpp:125-183 | in every interleaving with the driver, each published message equals byte for byte what the driver left under that frame's serial number (raw: any conversion of it), and published serials strictly increase |
| `CaptureRun.PublishedCompletely` | src/econ_ros2_driver.cpp:125-172 | for every setup, the published frames at a loop head are the validly grabbed ones, each once and in order, without exactly those whose recorded image converts to less than the expected size |
| `CaptureRun.NeverStuck` | src/econ_ros2_driver.cpp:150-172 | every read of the borrowed frame is in bounds and no iteration can block after its grab |
| `CaptureRun.OwnershipExact` | src/opencv_backend.cpp:58-105 | every buffer is in exactly one place; those outside the driver are one per empty dequeued frame, one per failed requeue and the one in use; all are back iff the first two are zero; then the driver never owns fewer than all but one |
| `CaptureRun.EmptyFrameLeaks` | src/econ_ros2_driver.cpp:128-129 | a concrete run in which one zero-byte JPEG is dequeued and not released |
| `CaptureRun.StarvedIff` | src/opencv_backend.cpp:72-81 | at a loop head the driver has no buffer left iff empty frames plus failed requeues reach the pool size |
| `CaptureRun.StarvedForever` | src/opencv_backend.cpp:58-71 | from then on no continuation grabs or publishes anything |
| `CaptureRun.DropsConserved` | src/econ_ros2_driver.cpp:130-143 | the counters are always those of the grabbed 32-bit sequence numbers; they balance after every frame iff each sequence number grabbed was higher than all before; below 2^64 frames the drop total is the number of earlier frames never validly grabbed iff the last frame grabbed is among the first 2^32, despite gaps, timeouts, failures and empty frames |
| `CaptureRun.WrapRun` | src/opencv_backend.cpp:73 | a run that grabs two frames in a row over the first wrap and reports 2^64 - 1 drops |
| `CaptureRun.ProfilesNeverShort` | include/config.hpp:104-124 | for every profile and flip method the OpenCV conversion has exactly the expected size, so no raw frame is skipped |
| `CaptureRun.ConvertAlone` | src/opencv_backend.cpp:83-92 | the byte-by-byte conversion steps, uninterrupted, yield the conversion of the whole buffer |
| `CaptureRun.StepInv` | src/econ_ros2_driver.cpp:125-148 | each step of driver or loop keeps ownership, counting, partial-copy and output invariants |
| `CaptureRun.RunInv` | src/econ_ros2_driver.cpp:125-148 | the invariant holds after every allowed event list |
| `V4l2Stream.DriverKeepsPartition` | src/opencv_backend.cpp:65-74 | a driver step keeps each buffer in exactly one place |
| `V4l2Stream.DriverKeepsRecord` | src/opencv_backend.cpp:76-81 | a driver step never changes a completed or dequeued buffer's contents |
| `V4l2Stream.BorrowedStays` | src/opencv_backend.cpp:76-81 | whatever the driver does, a dequeued buffer keeps what it held when it was completed |
| `V4l2Stream.DqbufKeepsPartition` | src/opencv_backend.cpp:65-74 | DQBUF moves exactly one buffer to the application |
| `V4l2Stream.QbufKeepsPartition` | src/opencv_backend.cpp:95-105 | a requeue that succeeds moves exactly that buffer back, one that fails moves nothing |
| `V4l2Stream.PoolSize` | src/opencv_backend.cpp:144-177 | queued, completed and dequeued buffers always add up to the pool |
| `OpencvBackend.V4l2OpencvBackend.constructor` | include/opencv_backend.hpp:47-58 | a new backend is idle and owns nothing |
| `OpencvBackend.V4l2OpencvBackend.Start` | src/opencv_backend.cpp:24-56 | true exactly when no flip is asked for, no call failed and at most four buffers were granted, and then all granted buffers are mapped and queued; otherwise, up to four buffers, what was acquired is exactly what the fields show |
| `OpencvBackend.V4l2OpencvBackend.RequestBuffers` | src/opencv_backend.cpp:143-177 | for any number of buffers the device grants: true exactly when no call failed and the table's four entries suffice; whichever call fails at whichever buffer, the table lists exactly the live mappings |
| `OpencvBackend.V4l2OpencvBackend.MapBuffer` | src/opencv_backend.cpp:155-174 | one buffer is queried, mapped and queued, or the failing call leaves the others as they were |
| `OpencvBackend.V4l2OpencvBackend.Grab` | src/opencv_backend.cpp:58-93 | takes the oldest completed buffer exactly when no call failed, with the driver active before and after the take; records index and 32-bit sequence + 1; JPEG lends the mapped bytes, raw the conversion of exactly what the driver had completed; otherwise nothing of the backend changes |
| `OpencvBackend.V4l2OpencvBackend.Borrow` | src/opencv_backend.cpp:76-92 | the frame lent for the held buffer: mapped bytes, or bgr as the conversion of the buffer |
| `OpencvBackend.V4l2OpencvBackend.Release` | src/opencv_backend.cpp:95-105 | requeues the held buffer if the device accepts it; nothing is held afterwards either way |
| `OpencvBackend.V4l2OpencvBackend.Stop` | src/opencv_backend.cpp:107-122 | from any point of start, unmaps exactly the live mappings once each in table order, closes the descriptor once, restores the initial fields; on an idle backend nothing changes |
| `OpencvBackend.V4l2OpencvBackend.UnmapAll` | src/opencv_backend.cpp:111-117 | the unmapping loop skips failed and unused entries and clears the table |
| `CaptureRefinement.StartIsInitial` | src/opencv_backend.cpp:24-56 | a successful start is an initial state of the capture machine |
| `CaptureRefinement.GrabIsRun` | src/opencv_backend.cpp:58-93 | every grab is a run of the machine: driver events, then a failing grab or a take with driver events and the conversion; frame size is the machine's, and the frame is valid iff the machine goes on, for both formats |
| `CaptureRefinement.TakeRun` | src/opencv_backend.cpp:65-92 | take, concurrent driver activity and conversion end in the state the source's return value shows |
| `CaptureRefinement.ReleaseIsStep` | src/opencv_backend.cpp:95-105 | every release is a requeue step of the machine |
| `DropAccounting.ConservedIffForward` | src/econ_ros2_driver.cpp:133-138 | with wrapping 64-bit arithmetic, balanced counters stay balanced and monotone iff the push count moved forward, and then grow by the pushes skipped |
| `DropAccounting.ConservedThroughoutIff` | src/econ_ros2_driver.cpp:133-138 | for any list of push counts, balance after every frame with a total that never falls iff each count is a new maximum |
| `DropAccounting.BalanceHolds` | src/econ_ros2_driver.cpp:130-138 | while push counts never go back, pulls plus drops equal the last count plus the number of repeats, without overflow |
| `DropAccounting.AccountTallies` | src/econ_ros2_driver.cpp:130-138 | accounting one more frame keeps the counters in step with the list of grabbed sequences |
| `DropAccounting.TalliesUntilWrap` | src/opencv_backend.cpp:73 | up to 2^32 frames the wrapped 32-bit sequence numbers give counters in step with the grabbed frames |
| `DropAccounting.TallyIsExact` | src/econ_ros2_driver.cpp:136-138 | the drop total is the number of missing sequence numbers |
| `DropAccounting.ExactIffUnwrapped` | src/econ_ros2_driver.cpp:133-138 | for any frames grabbed in order, below 2^64 frames: the total is the number of frames not grabbed iff the last is among the first 2^32, so a wrap is never made good |
| `DropAccounting.DropError` | src/opencv_backend.cpp:73 | the total is off by 2^32 for each wrap and one the other way for each sequence number read twice in a row, modulo 2^64 |
| `DropAccounting.BalancedButWrong` | src/opencv_backend.cpp:73 | two grabbed frames after which the counters balance and the total is 2^32 too low |
| `DropAccounting.SequenceWrapMiscounts` | src/opencv_backend.cpp:73 | the frames numbered 2^32 - 1 and 2^32, grabbed in a row, leave a total of 2^64 - 1 where 2^32 - 1 frames are missing |
| `GstPipeline.DropsExactly` | src/econ_ros2_driver.cpp:130-143 | for all interleavings of probe, pipeline, one-slot sink and loop: total = true drops + pushes seen past the last delivered frame + frames whose delta was 0; never too low; exact iff the last two are zero |
| `GstPipeline.ExactIff` | src/econ_ros2_driver.cpp:130-143 | the reported total is the true one iff, in the schedule, every count comes after a new push and no push lies between the last delivered frame's own and its count |
| `GstPipeline.ScheduleCounts` | src/econ_ros2_driver.cpp:133-135 | from any state, which schedules count a frame with delta 0, and which push count the last Count reads |
| `GstPipeline.OverReports` | src/gst_backend.cpp:200-205 | a run without any drop that reports one |
| `GstPipeline.StepFlow` | src/gst_backend.cpp:26-30 | samples reach the loop in push order, never more than pushed |
| `GstPipeline.RunInv` | src/econ_ros2_driver.cpp:130-143 | the accounting invariant holds after every event list |
| `GstBackend.LoopBalance` | src/gst_backend.cpp:57-80 | at every loop head outstanding samples, memories and mappings each equal the number of frames that mapped empty |
| `GstBackend.BalancedIff` | src/gst_backend.cpp:57-80 | nothing is outstanding iff no frame mapped empty |
| `GstBackend.StopBalance` | src/gst_backend.cpp:82-90 | what stop leaves behind, from a loop head or after a successful grab; nothing if no frame mapped empty |
| `GstBackend.GstBackend.Grab` | src/gst_backend.cpp:57-75 | each outcome (timeout, no buffer, no memory, map failure, empty, frame) changes the references as specified, without double unref |
| `GstBackend.GstBackend.MapSample` | src/gst_backend.cpp:62-74 | on failure gives back everything this call took; on success holds one memory and one mapping more |
| `GstBackend.GstBackend.Release` | src/gst_backend.cpp:77-80 | gives back exactly what is tracked, once |
| `GstBackend.GstBackend.Stop` | src/gst_backend.cpp:82-90 | releases and drops the pipeline |
| `GstBackend.GstBackend.OnSrcPush` | src/gst_backend.cpp:200-205 | one push more and its time stamp |
| `GrabLoop.EconRos2Driver.Loop` | src/econ_ros2_driver.cpp:125-148 | for any number of iterations before stop, the state is the specified run of some turns, and the calls on the backend are exactly those turns' grab, push_count, t_capture_ns and release, in order and with the values used; the log stays in time order |
| `GrabLoop.EconRos2Driver.Iteration` | src/econ_ros2_driver.cpp:127-147 | one iteration is one turn of the specification and makes its calls in order: an invalid frame is neither counted nor released, a valid one is counted once and released last; with V4L2 the capture stamp is that frame's |
| `GrabLoop.EconRos2Driver.CountFrame` | src/econ_ros2_driver.cpp:130-143 | one push count is read and accounted as specified; nothing else of the node changes |
| `GrabLoop.EconRos2Driver.Publish` | src/econ_ros2_driver.cpp:150-183 | in-place copy into the message, log record, publication and completion as specified; the capture stamp is the backend's when read, the callback and publish stamps are later clock readings in that order; a short raw frame changes nothing |
| `GrabLoop.EconRos2Driver.Deliver` | src/econ_ros2_driver.cpp:174-182 | t_capture_ns, log_cbk, publish, log_pub in that order, keeping the log a timeline |
| `GrabLoop.LogAgrees` | src/econ_ros2_driver.cpp:145-183 | over every run idx = published frames = valid grabs minus short ones; record i is exactly the completed record of publication i; later slots are zero |
| `GrabLoop.ReleasedButEmpty` | src/econ_ros2_driver.cpp:128-146 | over any run of the loop the frames not given back are exactly those that came back empty |
| `GrabLoop.DropTotal` | src/econ_ros2_driver.cpp:130-143 | over every run of the loop with push counts that never go back, whatever the backend, n_pull + total_drops = last push count seen + number of repeated counts |
| `GrabLoop.CountersFollowPushes` | src/econ_ros2_driver.cpp:130-143 | the counters of any run of the loop are those of the push counts it read; balanced throughout iff every count read was a new maximum |
| `GrabLoop.OpencvFrameFits` | src/econ_ros2_driver.cpp:163-171 | an OpenCV raw frame passes the short-frame guard and fills the message of step * height bytes exactly |
| `TimedLoop.LogIsTimeline` | include/blackbox.hpp:160-181 | at every moment of every interleaving of clock, push probe and loop, with either backend and no assumption on stamps: capture <= callback <= publish in each record, publish <= next callback, captures nondecreasing, only the last record possibly incomplete |
| `TimedLoop.HeadIsRun` | src/econ_ros2_driver.cpp:125-183 | in every such interleaving the node at a loop head is the specified run of its finished turns, and record i is the completed record of publication i |
| `TimedLoop.RecordStamps` | src/gst_backend.cpp:200-205 | in every interleaving each record is of a later frame than the one before and its capture stamp is one stored at or after the frame's own: the frame's own with V4L2, with GStreamer iff no stamp was stored between that push and t_capture_ns() once time has moved on |
| `TimedLoop.LateStamp` | src/gst_backend.cpp:93 | a GStreamer run whose record carries the stamp of the push after its frame's |
| `TimedLoop.PushesNeverBack` | src/gst_backend.cpp:203 | in every interleaving with fewer than 2^64 pushes the counts the loop reads never go back, so pulls plus drops are the last count plus the repeats |
| `TimedLoop.RunInv` | src/gst_backend.cpp:200-205 | the probe moving stamp and count between the loop's own steps disturbs neither the run nor the timeline |
| `BlackboxBox.LifecycleCoherent` | include/blackbox.hpp:96-133 | after any init and shutdown calls with any failures and any writer progress: open file, mapping, running, joinable thread object and live writer coincide; of all writers ever started exactly that one is alive; no joinable thread object is ever assigned over; nothing leaks or is closed twice |
| `BlackboxBox.WriterDrains` | include/blackbox.hpp:115-121 | once running is false every writer step brings it nearer its end |
| `BlackboxBox.Box.Init` | include/blackbox.hpp:96-122 | idempotent when open; throws exactly on a failure and then gives the file back; otherwise a zeroed mapping and one live joinable writer |
| `BlackboxBox.Box.Join` | include/blackbox.hpp:115-121 | with running false the join terminates with the writer ended |
| `BlackboxBox.Box.Shutdown` | include/blackbox.hpp:124-133 | the join terminates; the mapping and the file are given back once; idempotent |
| `BlackboxBox.Box.LogCbk` | include/blackbox.hpp:160-173 | claims the next slot and fills exactly that record, reading the clock at its own store; a closed or full log is left alone |
| `BlackboxBox.Box.LogPub` | include/blackbox.hpp:176-181 | completes exactly the given record with the clock as it then is |
| `MonotonicClock.Clock.MonoRawNs` | include/blackbox.hpp:48-53 | a reading is never before the one before it |
| `ConcurrentLog.ClaimsDistinct` | include/blackbox.hpp:135-142 | for any number of interleaved callers, two calls never work on the same slot, slots are below N, numbers are distinct, seq never exceeds min(idx, N) |
| `ConcurrentLog.QuiescentPermutation` | include/blackbox.hpp:135-142 | with no log_cbk in progress the recorded numbers are a permutation of 1..min(idx, N) |
| `ConcurrentLog.SingleCallerNumbers` | include/blackbox.hpp:160-173 | with one caller record i carries number i + 1 |
| `ConcurrentLog.SnapshotConsistent` | include/blackbox.hpp:160-181 | in any memory image cap_done vouches for number, header and capture stamp, ros_done for cap_done and t_cbk <= t_pub; ungranted slots are zero |
| `ConcurrentLog.CompletedIsFinal` | include/blackbox.hpp:160-181 | what cap_done or ros_done vouches for never changes again, given log_pub at most once per slot |
| `ConcurrentLog.CallAlone` | include/blackbox.hpp:160-173 | a call nobody interrupts does in its steps what the sequential log_cbk does |
| `ConcurrentLog.StepInv` | include/blackbox.hpp:135-181 | each fetch-add, field store or clock step keeps the slot and record invariants |
| `Lifetimes.NoUseAfterFree` | src/econ_ros2_driver.cpp:36-67 | in every interleaving, with every constructor early return or exception, the grab thread and the push probe touch the backend only while it streams, the shared time stamp is read only before it is unmapped, records are written only while mapped, the writer syncs only an open file |
| `Lifetimes.JoinedBeforeFreed` | src/econ_ros2_driver.cpp:185-194 | each thread, GStreamer's streaming thread included, has ended before what it uses is stopped, unmapped, closed or destroyed; no thread object is destroyed while joinable; at the end file, mapping, time stamp, HID device and pipeline are all closed |
| `Lifetimes.AbortIsEarly` | src/econ_ros2_driver.cpp:53-60 | an exception leaves the constructor only before a grab thread or a mapped time stamp exists |
| `Lifetimes.GrabThreadEnds` | src/econ_ros2_driver.cpp:125-148 | once stop_ is set the grab thread takes a bounded number of further steps, whatever each call returns, and never blocks before finishing |
| `Lifetimes.NoDeadlock` | src/econ_ros2_driver.cpp:63-67 | until the destructor is done it can step, or the thread it joins can and is nearer its end |
| `Lifetimes.RunInv` | include/blackbox.hpp:113-133 | the thread and resource invariant holds after every event list |
| `HidProtocol.ScanIff` | include/hid_control.hpp:43-52 | the retry loop matches iff one of the first ten outcomes is a full report with the echoed header and all earlier ones are EAGAIN or other reads |
| `HidProtocol.ScanPrefix` | include/hid_control.hpp:43-52 | a finished scan does not depend on later reads |
| `HidProtocol.ScanReport` | include/hid_control.hpp:43-46 | the matched report is the first reply among the reports read |
| `HidControl.WriteRead` | include/hid_control.hpp:29-53 | true exactly when write and select worked and the scan matched; resp is then exactly the matching report; every report read or left is accounted for in order |
| `HidControl.ReadMatching` | include/hid_control.hpp:43-52 | the loop reads exactly until the scan ends and no further; what it read and what is left are what was there |
| `HidProtocol.ExposureRoundTrip` | include/hid_control.hpp:113-116 | the big-endian encoding decodes back for every 32-bit exposure |
| `HidProtocol.AckSoundIff` | include/hid_control.hpp:43-46 | every acknowledgement a setter can get on a channel means the device accepted this request iff the first matching report within reach is not an old positive one |
| `HidHandshake.HandshakeSound` | include/hid_control.hpp:156-165 | over all device behaviours, a confirmed handshake leaves exposure, trigger mode and AFL as asked if the reports the drain left cannot deceive it |
| `HidHandshake.HandshakeSoundIff` | include/hid_control.hpp:147-166 | every success of the handshake from given leftover reports is right about the device iff those reports cannot deceive it: no positive exposure reply comes first, after at most three lost to the wake-up, with what follows letting the mode requests through |
| `HidHandshake.StaleRepliesBelieved` | include/hid_control.hpp:43-45 | for any settings and request, a run of the whole handshake that is confirmed by three old replies while the device's settings stay as they were |
| `HidProtocol.CommandsObeyed` | include/hid_control.hpp:92-131 | each packet the driver builds makes the device set exactly what was asked |
| `HidControl.Drain` | include/hid_control.hpp:55-61 | reads on exactly until a read gives no data; the reports read and the ones left are what was there, in order |
| `HidControl.Init` | include/hid_control.hpp:63-90 | drains first, then one request with three reads; false exactly when the write fails |
| `HidControl.SetExposure` | include/hid_control.hpp:108-124 | true exactly when sent and acknowledged; without a stale acknowledgement first in line the device then has that exposure, nothing else changed, and the channel is clean |
| `HidControl.SetStreamMode` | include/hid_control.hpp:92-106 | the same for mode and AFL |
| `HidControl.GetStreamMode` | include/hid_control.hpp:126-140 | out-parameters are exactly the matching report's mode and AFL, or untouched when nothing matched; on a clean channel they are the device's |
| `HidControl.WakeAndExpose` | include/hid_control.hpp:156-157 | drain, wake-up and exposure as exchanges with the device, starting from what the drain left |
| `HidControl.SelectTrigger` | include/hid_control.hpp:158-164 | the mode is set and read back as the handshake's last two exchanges |
| `HidControl.OpenAndInitTrigger` | include/hid_control.hpp:147-166 | what happened is a handshake from what the drain left, each request made exactly when the ones before were acknowledged; true exactly when nothing failed, both settings were acknowledged and trigger mode was read back; the device then has exposure, trigger mode and AFL mode as asked unless those leftovers can deceive it |
| `LogDirectory.MkdirForFile` | include/blackbox.hpp:75-84 | terminates and calls mkdir on exactly the slash prefixes, in order |
| `LogDirectory.ParentsCreated` | include/blackbox.hpp:75-84 | those calls add exactly the file's directory and its ancestors |
| `LogDirectory.PrefixesGrow` | include/blackbox.hpp:80-82 | the prefixes are called shortest first, each once |
| `Config.RawSizesAgree` | include/config.hpp:118-122 | for every profile and flip method, OpenCV image size = expected_size = step * height, positive and below 2^31 |
| `Config.DimensionsAgreeIff` | include/config.hpp:63 | published dimensions are the unrotated ones iff no quarter turn is asked for |
| `Config.ProfileTables` | include/config.hpp:67-83 | both tables agree but for the wuxga frame rate; only sd and unknown profiles downscale |

## Left out

- RequestBuffers: with more than four buffers granted the model gives up where the code would go on past its table.
- Grab: OpenCV's conversion is one function of the whole buffer, read after the driver's activity during the call; the byte-by-byte interleaving is in `CaptureRun`.
- Loop: the node sees either backend through one interface object that hands out frames as values; what the driver does to borrowed bytes meanwhile is in `CaptureRun`, the pipeline in front of the sink in `GstPipeline`.
- Drain: finitely many reports are queued or on their way when the drain starts; an endless stream would keep it reading.
- OpenAndInitTrigger: the device answers truthfully and its state changes only by accepted commands; opening the node is a parameter, and the exposure is already an unsigned 32-bit value.
- LogCbk: the slot counter is unbounded, so a wrap of the 64-bit fetch-add is not modelled.
- LifecycleCoherent: init and shutdown are single events because `init_mtx` serialises them; their steps against the other threads are in `Lifetimes`.
- NoUseAfterFree: opening and mapping the log is one step of the constructor.
- JoinedBeforeFreed: setting the pipeline to NULL ends the streaming thread at its next buffer boundary; GStreamer's other threads are not part of the model.
- GrabThreadEnds: each call into a library returns.
- ParentsCreated: mkdir fails only when the parent is missing, and no component is `.` or `..`.
- Pixel conversion and JPEG contents: the conversion is an arbitrary function of the whole captured buffer.
- GStreamer element construction and caps negotiation, bus messages, and failing links.
- ROS time, QoS and message transport: publishing appends a copy of the message to the output.
- Weak memory: field stores and counters are sequentially consistent; fdatasync has no effect on the model.
- A restarted backend or re-initialised log in the whole-run counting results: counters are not reset, and the node runs one session.
- The viewer, the image saver, launch files, scripts and XML profiles: only easy counters or no logic.
