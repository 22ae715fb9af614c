/**
 * Threads and the resources they touch, from the node's constructor to its destructor: the main
 * thread, the grab thread, GStreamer's streaming thread with the push probe, and the log's writer
 * thread, in any interleaving, with every early return and every exception of the constructor. Each
 * access to the backend, to the shared time stamp or to a log record is a step.
 */
module Lifetimes {
  import opened BlackboxBox
  import opened BlackboxLog

  // The main thread's steps, numbered in program order; a constructor that returns early skips some.
  const INIT_BOX: nat := 0
  const INIT_HID: nat := 1
  const INIT_BACKEND: nat := 2
  const SPAWN: nat := 3
  const SPINNING: nat := 4
  const SET_STOP: nat := 5
  const JOIN_GRAB: nat := 6
  const STOP_PIPELINE: nat := 7   // the first of three steps of the backend's stop()
  const JOIN_PROBE: nat := 8
  const STOP_BACKEND: nat := 9
  const CLOSE_STAMPER: nat := 10
  const CLOSE_HID: nat := 11
  const CLEAR_RUNNING: nat := 12
  const JOIN_WRITER: nat := 13
  const UNMAP: nat := 14
  const CLOSE_FILE: nat := 15
  const DESTROY_MEMBERS: nat := 16
  const GONE: nat := 17

  // The backend object: not created, created but not streaming, streaming, stopped, destroyed.
  datatype Backend = Absent | Idle | Streaming | Stopped | Destroyed

  datatype GrabPc =
    | NotStarted
    | Check                  // the loop condition
    | Grabbing | Counting    // grab(), push_count()
    | OpeningStamp           // try_open() of the shared time stamp
    | ReadingStamp
    | Copying(left: nat)     // bytes of the borrowed frame still to copy
    | Capturing              // t_capture_ns()
    | LogTest | LogStore(left: nat)
    | Sending
    | PubTest | PubStore(left: nat)
    | Releasing
    | Finished

  // GStreamer's streaming thread: between buffers, in the probe's two stores, ended.
  datatype ProbePc = NoProbe | Between | StoringStamp | StoringCount | Ended

  datatype State = State(
    main: nat, aborted: bool,                                      // aborted: an exception left main()
    fileOpen: bool, mapped: bool, running: bool, writer: Writer,   // the log
    backend: Backend, playing: bool, probe: ProbePc,               // the backend and its pipeline
    joinable: bool, grab: GrabPc,                                  // grab_thread_
    stampMapped: bool, hidOpen: bool,
    stop: bool, contextOk: bool)

  datatype Event =
    | MainStep(ok: bool, partly: bool, gst: bool)   // ok: the call succeeds; partly: a failing one got half way
    | GrabStep(yes: bool, size: nat)                // yes: the favourable outcome; size: the frame's bytes
    | ProbeRuns
    | WriterRuns
    | ContextEnds                                   // rclcpp::ok() turns false

  const BEGIN := State(INIT_BOX, false, false, false, false, NoThread, Absent, false, NoProbe,
                       false, NotStarted, false, false, false, true)

  predicate ProbeAlive(p: ProbePc) {
    p.Between? || p.StoringStamp? || p.StoringCount?
  }

  // When the process has aborted nothing runs any more.
  predicate May(cap: nat, s: State, ev: Event) {
    !s.aborted &&
    match ev
    case MainStep(_, _, _) =>
      && s.main < GONE
      && (s.main == JOIN_GRAB && s.joinable ==> s.grab.Finished?)
      && (s.main == JOIN_PROBE ==> !ProbeAlive(s.probe))
      && (s.main == JOIN_WRITER ==> !Alive(s.writer))
    case GrabStep(_, size) => !s.grab.NotStarted? && !s.grab.Finished? && size <= cap
    case ProbeRuns => ProbeAlive(s.probe)
    case WriterRuns => Alive(s.writer)
    case ContextEnds => true
  }

  // The constructor: a failing HID or backend step leaves the node spinning, an exception ends the process.
  function ConstructorDoes(s: State, ok: bool, partly: bool, gst: bool): State {
    s.(main := if ok then s.main + 1 else if s.main == INIT_HID || s.main == INIT_BACKEND then SPINNING else s.main,
       aborted := !ok && (s.main == INIT_BOX || s.main == SPAWN),
       fileOpen := s.fileOpen || (ok && s.main == INIT_BOX),
       mapped := s.mapped || (ok && s.main == INIT_BOX),
       running := s.running || (ok && s.main == INIT_BOX),
       writer := if ok && s.main == INIT_BOX then Testing else s.writer,
       hidOpen := s.hidOpen || (s.main == INIT_HID && (ok || partly)),
       backend := if s.main != INIT_BACKEND then s.backend
                  else if ok then Streaming else if partly then Idle else Absent,
       playing := s.playing || (s.main == INIT_BACKEND && ok && gst),
       probe := if s.main == INIT_BACKEND && ok && gst then Between else s.probe,
       joinable := s.joinable || (s.main == SPAWN && ok),
       grab := if s.main == SPAWN && ok then Check else s.grab)
  }

  // From the spinning node on: each step of the destructor does its one thing.
  function DestructorDoes(s: State): State {
    s.(main := s.main + 1,
       stop := s.stop || s.main == SET_STOP,
       joinable := s.joinable && s.main != JOIN_GRAB,
       playing := s.playing && s.main != STOP_PIPELINE,
       backend := if s.main == STOP_BACKEND && !s.backend.Absent? then Stopped
                  else if s.main == DESTROY_MEMBERS then Destroyed else s.backend,
       stampMapped := s.stampMapped && s.main != CLOSE_STAMPER,
       hidOpen := s.hidOpen && s.main != CLOSE_HID,
       running := s.running && s.main != CLEAR_RUNNING,
       mapped := s.mapped && s.main != UNMAP,
       fileOpen := s.fileOpen && s.main != CLOSE_FILE)
  }

  function MainDoes(s: State, ok: bool, partly: bool, gst: bool): State {
    if s.main < SPINNING then ConstructorDoes(s, ok, partly, gst) else DestructorDoes(s)
  }

  function GrabNext(s: State, yes: bool, size: nat): GrabPc {
    match s.grab
    case Check => if s.stop || !s.contextOk then Finished else Grabbing
    case Grabbing => if yes then Counting else Check
    case Counting => OpeningStamp
    case OpeningStamp => ReadingStamp
    case ReadingStamp => if yes then Copying(size) else Releasing  // a short raw frame is skipped
    case Copying(n) => if n > 0 then Copying(n - 1) else Capturing
    case Capturing => LogTest
    case LogTest => if s.fileOpen && yes then LogStore(FILL_STORES) else Sending
    case LogStore(n) => if n > 1 then LogStore(n - 1) else Sending
    case Sending => PubTest
    case PubTest => if s.fileOpen && yes then PubStore(PUB_STORES) else Releasing
    case PubStore(n) => if n > 1 then PubStore(n - 1) else Releasing
    case Releasing => Check
    case _ => s.grab
  }

  function ProbeNext(p: ProbePc, playing: bool): ProbePc {
    match p
    case Between => if playing then StoringStamp else Ended
    case StoringStamp => StoringCount
    case StoringCount => Between
    case _ => p
  }

  function Do(s: State, ev: Event): State {
    match ev
    case MainStep(ok, partly, gst) => MainDoes(s, ok, partly, gst)
    case GrabStep(yes, size) =>
      s.(grab := GrabNext(s, yes, size), stampMapped := s.stampMapped || (s.grab.OpeningStamp? && yes))
    case ProbeRuns => s.(probe := ProbeNext(s.probe, s.playing))
    case WriterRuns => s.(writer := WriterNext(s.writer, s.running))
    case ContextEnds => s.(contextOk := false)
  }

  predicate Allowed(cap: nat, s: State, evs: seq<Event>)
    decreases |evs|
  {
    evs == [] || (May(cap, s, evs[0]) && Allowed(cap, Do(s, evs[0]), evs[1..]))
  }

  function Run(s: State, evs: seq<Event>): State
    decreases |evs|
  {
    if evs == [] then s else Run(Do(s, evs[0]), evs[1..])
  }

  predicate UsesBackend(pc: GrabPc) {
    pc.Grabbing? || pc.Counting? || pc.Copying? || pc.Capturing? || pc.Releasing?
  }

  predicate UsesRecords(pc: GrabPc) {
    pc.LogStore? || pc.PubStore?
  }

  // The grab thread runs only while it is joinable, between its start and the join.
  ghost predicate GrabInv(cap: nat, s: State) {
    && (!s.grab.NotStarted? && !s.grab.Finished? ==> s.joinable && s.backend.Streaming?)
    && (s.joinable ==> !s.grab.NotStarted? && SPINNING <= s.main < STOP_PIPELINE)
    && (s.main < SPINNING ==> s.grab.NotStarted?)
    && (s.main == SPAWN ==> s.backend.Streaming?)
    && (s.backend.Stopped? ==> s.main >= CLOSE_STAMPER)
    && (s.backend.Destroyed? <==> s.main >= GONE)
    && (s.stop <==> s.main >= JOIN_GRAB)
    && (s.grab.Copying? ==> s.grab.left <= cap)
    && (s.aborted ==> s.main < SPINNING)
    && s.main <= GONE
  }

  // The probe's thread runs only while the pipeline exists; the stamp and the HID device are closed once.
  ghost predicate DeviceInv(s: State) {
    && (ProbeAlive(s.probe) ==> s.backend.Streaming? && (s.playing || s.main == JOIN_PROBE))
    && (s.playing ==> ProbeAlive(s.probe) && s.main < JOIN_PROBE)
    && (s.main < SPAWN ==> s.probe.NoProbe?)
    && (s.stampMapped ==> SPINNING <= s.main < CLOSE_HID)
    && (s.hidOpen ==> INIT_BACKEND <= s.main < CLEAR_RUNNING)
  }

  // The log's file, mapping and writer follow the main thread.
  ghost predicate LogInv(s: State) {
    && (s.fileOpen <==> INIT_HID <= s.main < DESTROY_MEMBERS)
    && (s.mapped <==> INIT_HID <= s.main < CLOSE_FILE)
    && (s.running <==> INIT_HID <= s.main < JOIN_WRITER)
    && (s.running ==> Alive(s.writer))
    && (Alive(s.writer) ==> s.running || s.main == JOIN_WRITER)
  }

  ghost predicate Inv(cap: nat, s: State) {
    GrabInv(cap, s) && DeviceInv(s) && LogInv(s)
  }

  lemma ConstructorStep(cap: nat, s: State, ok: bool, partly: bool, gst: bool)
    requires GrabInv(cap, s) && !s.aborted && s.main < SPINNING
    ensures GrabInv(cap, ConstructorDoes(s, ok, partly, gst))
    ensures DeviceInv(s) ==> DeviceInv(ConstructorDoes(s, ok, partly, gst))
  {
  }

  lemma ConstructorKeepsLog(s: State, ok: bool, partly: bool, gst: bool)
    requires LogInv(s) && s.main < SPINNING
    ensures LogInv(ConstructorDoes(s, ok, partly, gst))
  {
  }

  // The steps up to the join, and the steps after it.
  lemma DestructorStep(cap: nat, s: State)
    requires GrabInv(cap, s) && SPINNING <= s.main < GONE
    requires s.main == JOIN_GRAB && s.joinable ==> s.grab.Finished?
    ensures GrabInv(cap, DestructorDoes(s))
  {
  }

  lemma DestructorKeepsDevices(cap: nat, s: State)
    requires GrabInv(cap, s) && DeviceInv(s) && SPINNING <= s.main < GONE
    requires s.main == JOIN_PROBE ==> !ProbeAlive(s.probe)
    ensures DeviceInv(DestructorDoes(s))
  {
  }

  lemma DestructorKeepsLog(s: State)
    requires LogInv(s) && SPINNING <= s.main < GONE && (s.main == JOIN_WRITER ==> !Alive(s.writer))
    ensures LogInv(DestructorDoes(s))
  {
  }

  // What the other threads do.
  lemma ThreadStep(cap: nat, s: State, ev: Event)
    requires GrabInv(cap, s) && May(cap, s, ev) && !ev.MainStep?
    ensures GrabInv(cap, Do(s, ev))
    ensures DeviceInv(s) ==> DeviceInv(Do(s, ev))
  {
  }

  lemma ThreadKeepsLog(cap: nat, s: State, ev: Event)
    requires LogInv(s) && May(cap, s, ev) && !ev.MainStep?
    ensures LogInv(Do(s, ev))
  {
  }

  lemma StepInv(cap: nat, s: State, ev: Event)
    requires Inv(cap, s) && May(cap, s, ev)
    ensures Inv(cap, Do(s, ev))
  {
    if !ev.MainStep? {
      ThreadStep(cap, s, ev);
      ThreadKeepsLog(cap, s, ev);
    } else if s.main < SPINNING {
      ConstructorStep(cap, s, ev.ok, ev.partly, ev.gst);
      ConstructorKeepsLog(s, ev.ok, ev.partly, ev.gst);
    } else {
      DestructorStep(cap, s);
      DestructorKeepsDevices(cap, s);
      DestructorKeepsLog(s);
    }
  }

  lemma {:induction false} RunInv(cap: nat, s: State, evs: seq<Event>)
    requires Inv(cap, s) && Allowed(cap, s, evs)
    ensures Inv(cap, Run(s, evs))
    decreases |evs|
  {
    if evs != [] {
      StepInv(cap, s, evs[0]);
      RunInv(cap, Do(s, evs[0]), evs[1..]);
    }
  }

  /**
   * No use after free: whatever thread runs when, the grab thread and the push probe touch the backend
   * only while it streams, the time stamp is read only before it is unmapped, the log's records are
   * written only while they are mapped, and the writer syncs only an open file.
   */
  lemma NoUseAfterFree(cap: nat, evs: seq<Event>)
    requires Allowed(cap, BEGIN, evs)
    ensures var s := Run(BEGIN, evs);
            && (UsesBackend(s.grab) || s.probe == StoringStamp || s.probe == StoringCount ==> s.backend == Streaming)
            && (s.grab == OpeningStamp || s.grab == ReadingStamp ==> s.main < CLOSE_STAMPER)
            && (UsesRecords(s.grab) ==> s.mapped && s.fileOpen)
            && (s.writer == Syncing ==> s.fileOpen)
  {
    RunInv(cap, BEGIN, evs);
  }

  /**
   * Joins come first: the backend is stopped or destroyed, the time stamp closed, the records unmapped
   * and the file closed only when every thread using them has ended; no thread object is destroyed
   * while joinable; and at the end nothing is left open.
   */
  lemma JoinedBeforeFreed(cap: nat, evs: seq<Event>)
    requires Allowed(cap, BEGIN, evs)
    ensures var s := Run(BEGIN, evs);
            && (s.backend == Stopped || s.backend == Destroyed || s.main == STOP_BACKEND || s.main == CLOSE_STAMPER ==>
                  !s.joinable && (s.grab == NotStarted || s.grab == Finished) && !ProbeAlive(s.probe))
            && (s.main == UNMAP || s.main == CLOSE_FILE || s.main == GONE ==> !Alive(s.writer) && !s.joinable)
            && (s.main == GONE ==> !s.fileOpen && !s.mapped && !s.stampMapped && !s.hidOpen && !s.playing)
  {
    RunInv(cap, BEGIN, evs);
  }

  /** An exception in the constructor can only come before there is a grab thread or a mapped time stamp. */
  lemma AbortIsEarly(cap: nat, evs: seq<Event>)
    requires Allowed(cap, BEGIN, evs) && Run(BEGIN, evs).aborted
    ensures var s := Run(BEGIN, evs);
            && s.grab == NotStarted && !s.joinable && !s.stampMapped
            && forall ev :: !May(cap, s, ev)
  {
    RunInv(cap, BEGIN, evs);
  }

  /** Steps the grab thread still takes, at most, once stop_ is set. */
  function GrabRank(cap: nat, pc: GrabPc): nat {
    match pc
    case NotStarted => 0
    case Finished => 0
    case Check => 1
    case Releasing => 2
    case PubStore(n) => 2 + (if n > 1 then n else 1)
    case PubTest => 3 + PUB_STORES
    case Sending => 4 + PUB_STORES
    case LogStore(n) => 4 + PUB_STORES + (if n > 1 then n else 1)
    case LogTest => 5 + PUB_STORES + FILL_STORES
    case Capturing => 6 + PUB_STORES + FILL_STORES
    case Copying(n) => 7 + PUB_STORES + FILL_STORES + n
    case ReadingStamp => 8 + PUB_STORES + FILL_STORES + cap
    case OpeningStamp => 9 + PUB_STORES + FILL_STORES + cap
    case Counting => 10 + PUB_STORES + FILL_STORES + cap
    case Grabbing => 11 + PUB_STORES + FILL_STORES + cap
  }

  lemma GrabRankFalls(cap: nat, s: State, yes: bool, size: nat)
    requires s.stop && May(cap, s, GrabStep(yes, size)) && (s.grab.Copying? ==> s.grab.left <= cap)
    ensures GrabRank(cap, GrabNext(s, yes, size)) < GrabRank(cap, s.grab)
  {
  }

  // Once stop_ is set, every grab step lowers the rank and no other step raises it.
  lemma StepsDown(cap: nat, s: State, ev: Event)
    requires Inv(cap, s) && s.stop && May(cap, s, ev)
    ensures GrabRank(cap, Do(s, ev).grab) + (if ev.GrabStep? then 1 else 0) <= GrabRank(cap, s.grab)
    ensures Do(s, ev).stop
  {
    if ev.GrabStep? {
      GrabRankFalls(cap, s, ev.yes, ev.size);
    }
  }

  // A grab thread that has not finished can always take its next step.
  lemma NeverBlocked(cap: nat, s: State)
    requires Inv(cap, s) && s.stop
    ensures GrabRank(cap, s.grab) == 0 || May(cap, s, GrabStep(false, 0))
  {
  }

  function GrabSteps(evs: seq<Event>): nat {
    if evs == [] then 0 else (if evs[0].GrabStep? then 1 else 0) + GrabSteps(evs[1..])
  }

  /**
   * Shutdown terminates: once stop_ is set, whatever every call returns, the grab thread takes at
   * most GrabRank more steps, and it never blocks before it has finished.
   */
  lemma {:induction false} GrabThreadEnds(cap: nat, s: State, evs: seq<Event>)
    requires Inv(cap, s) && s.stop && Allowed(cap, s, evs)
    ensures GrabSteps(evs) + GrabRank(cap, Run(s, evs).grab) <= GrabRank(cap, s.grab)
    ensures Run(s, evs).stop
    ensures GrabRank(cap, Run(s, evs).grab) == 0 || May(cap, Run(s, evs), GrabStep(false, 0))
    decreases |evs|
  {
    if evs != [] {
      StepInv(cap, s, evs[0]);
      StepsDown(cap, s, evs[0]);
      GrabThreadEnds(cap, Do(s, evs[0]), evs[1..]);
    } else {
      NeverBlocked(cap, s);
    }
  }

  // Steps the streaming thread still takes once the pipeline is no longer playing.
  function ProbeRank(p: ProbePc): nat {
    match p
    case Between => 1
    case StoringCount => 2
    case StoringStamp => 3
    case _ => 0
  }

  /** The destructor never deadlocks: it can step, or the thread it joins can, and that thread is ending. */
  lemma NoDeadlock(cap: nat, evs: seq<Event>)
    requires Allowed(cap, BEGIN, evs) && Run(BEGIN, evs).stop && Run(BEGIN, evs).main != GONE
    ensures var s := Run(BEGIN, evs);
            || May(cap, s, MainStep(true, true, true))
            || (s.main == JOIN_GRAB && May(cap, s, GrabStep(true, 0))
                && GrabRank(cap, Do(s, GrabStep(true, 0)).grab) < GrabRank(cap, s.grab))
            || (s.main == JOIN_PROBE && May(cap, s, ProbeRuns)
                && ProbeRank(Do(s, ProbeRuns).probe) < ProbeRank(s.probe))
            || (s.main == JOIN_WRITER && May(cap, s, WriterRuns)
                && StepsToExit(Do(s, WriterRuns).writer) < StepsToExit(s.writer))
  {
    RunInv(cap, BEGIN, evs);
    var s := Run(BEGIN, evs);
    if s.main == JOIN_GRAB && s.joinable && s.grab != Finished {
      GrabRankFalls(cap, s, true, 0);
    } else if s.main == JOIN_WRITER {
      WriterDrains(s.writer);
    }
  }
}
