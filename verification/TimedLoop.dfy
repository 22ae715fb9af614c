/**
 * The grab loop against one clock, as a step machine: time passes between any two steps, and with the
 * GStreamer backend the push probe runs in a thread of its own, so that the capture stamp and the push
 * count may move while the loop is busy with a frame. Every stamp is taken where the program takes it.
 */
module TimedLoop {
  import opened Common
  import opened Config
  import opened DropAccounting
  import opened BlackboxLog
  import opened GrabLoop

  // The turn is filled in as the iteration goes on.
  datatype Pc =
    | Head
    | Counting(t: Turn)                         // before push_count()
    | Stamping(t: Turn)                         // before the header stamp and the copy
    | Capturing(t: Turn)                        // before t_capture_ns()
    | Logging(t: Turn)                          // before log_cbk()
    | Sending(t: Turn, slot: Option<nat>)       // before publish()
    | Completing(t: Turn, slot: Option<nat>)    // before log_pub()

  datatype Probe = Waiting | HasRead(t: uint64) | HasStored

  // Of a logged frame: the number of its own stamp, and how many had been stored when one was read.
  datatype Origin = Origin(own: nat, seen: nat)

  /**
   * Ghost history: `stored` lists every capture stamp in the order stored, numbered from 1: with
   * GStreamer one per push, with V4L2 one per DQBUF. Frames are known by the number of their stamp.
   */
  datatype State = State(
    now: uint64,
    threaded: bool,          // GStreamer
    probe: Probe,
    stamp: uint64,           // t_push_ns_ or t_capture_ns_
    nPush: uint64,
    pc: Pc,
    node: Node,
    turns: seq<Turn>,        // the iterations finished so far
    stored: seq<uint64>,
    own: nat,                // the last frame grabbed
    seen: nat,               // stamps stored when the last capture stamp was read
    logged: seq<Origin>)     // one per log_cbk()

  datatype Event =
    | Tick(t: uint64)
    | ProbeStep                                                   // reads the clock, stores it, counts
    | Grab(isNull: bool, bytes: seq<byte>, sequence: uint32, own: nat)
    | Next(sharedNs: int, rosNow: uint64)                         // the loop's next step

  // Pushes that have passed the probe.
  function Passed(s: State): int {
    |s.stored| - if s.probe.HasStored? then 1 else 0
  }

  // The sink hands out frames in push order, once they have passed the probe.
  predicate May(s: State, ev: Event) {
    match ev
    case Tick(t) => s.now <= t
    case ProbeStep => s.threaded
    case Grab(isNull, _, _, own) => s.pc.Head? && (s.threaded && !isNull ==> s.own < own <= Passed(s))
    case Next(_, _) => !s.pc.Head?
  }

  function ProbeDoes(s: State): State {
    match s.probe
    case Waiting => s.(probe := HasRead(s.now))
    case HasRead(t) => s.(probe := HasStored, stamp := t, stored := s.stored + [t])
    case HasStored => s.(probe := Waiting, nPush := Add64(s.nPush, 1))
  }

  // V4L2 takes its stamp and its count once DQBUF has succeeded.
  function Dequeued(s: State, sequence: uint32): State {
    s.(stamp := s.now, stored := s.stored + [s.now], nPush := sequence + 1, own := |s.stored| + 1)
  }

  function GrabDoes(s: State, isNull: bool, bytes: seq<byte>, sequence: uint32, own: nat): State {
    var t := NO_TURN.(isNull := isNull, bytes := bytes);
    var s' := if isNull then s else if s.threaded then s.(own := own) else Dequeued(s, sequence);
    if ValidFrame(t) then s'.(pc := Counting(t)) else s'.(turns := s.turns + [t])
  }

  function NextDoes(p: Params, s: State, sharedNs: int, rosNow: uint64): State
    requires !s.pc.Head?
  {
    match s.pc
    case Counting(t) =>
      s.(pc := Stamping(t.(pushNow := s.nPush)), node := s.node.(counters := Account(s.node.counters, s.nPush)))
    case Stamping(t) =>
      var t' := t.(sharedNs := sharedNs, rosNow := rosNow);
      if Short(p, t') then s.(pc := Head, turns := s.turns + [t']) else s.(pc := Capturing(t'))
    case Capturing(t) => s.(pc := Logging(t.(capture := s.stamp)), seen := |s.stored|)
    case Logging(t) =>
      var (log, slot) := LogCbk(s.node.log, Stamp(t), t.capture, s.now);
      s.(pc := Sending(t.(cbkNow := s.now), slot), node := s.node.(log := log),
         logged := s.logged + [Origin(s.own, s.seen)])
    case Sending(t, slot) =>
      s.(pc := Completing(t, slot), node := s.node.(out := s.node.out + [Message(p, t)]))
    case Completing(t, slot) =>
      s.(pc := Head, node := s.node.(log := LogPub(s.node.log, slot, s.now)),
         turns := s.turns + [t.(pubNow := s.now)])
  }

  function Message(p: Params, t: Turn): Published {
    Published(Stamp(t), if Short(p, t) then [] else Data(p, t))
  }

  function Do(p: Params, s: State, ev: Event): State
    requires May(s, ev)
  {
    match ev
    case Tick(t) => s.(now := t)
    case ProbeStep => ProbeDoes(s)
    case Grab(isNull, bytes, sequence, own) => GrabDoes(s, isNull, bytes, sequence, own)
    case Next(sharedNs, rosNow) => NextDoes(p, s, sharedNs, rosNow)
  }

  predicate Allowed(p: Params, s: State, evs: seq<Event>)
    decreases |evs|
  {
    evs == [] || (May(s, evs[0]) && Allowed(p, Do(p, s, evs[0]), evs[1..]))
  }

  function Run(p: Params, s: State, evs: seq<Event>): State
    requires Allowed(p, s, evs)
    decreases |evs|
  {
    if evs == [] then s else Run(p, Do(p, s, evs[0]), evs[1..])
  }

  /** A node about to enter its loop for the first time. */
  ghost predicate Initial(n: Node, s: State) {
    && FreshNode(n) && s.node == n && s.turns == [] && s.pc.Head? && s.probe.Waiting?
    && s.stamp == 0 && s.nPush == 0 && s.stored == [] && s.own == 0 && s.seen == 0 && s.logged == []
  }

  // The node in the middle of an iteration, from the node before it.
  function Within(p: Params, n: Node, pc: Pc): Node {
    if pc.Head? || pc.Counting? then n
    else
      var n' := n.(counters := Account(n.counters, pc.t.pushNow));
      if !pc.Sending? && !pc.Completing? then n'
      else
        var n'' := n'.(log := LogCbk(n.log, Stamp(pc.t), pc.t.capture, pc.t.cbkNow).0);
        if pc.Sending? then n'' else n''.(out := n.out + [Message(p, pc.t)])
  }

  // `node` is what the current iteration has made so far of the node `base` it started from.
  ghost predicate MidTurn(p: Params, base: Node, pc: Pc, node: Node) {
    && node == Within(p, base, pc)
    && (!pc.Head? ==> ValidFrame(pc.t))
    && (pc.Capturing? || pc.Logging? || pc.Sending? || pc.Completing? ==> !Short(p, pc.t))
    && (pc.Sending? || pc.Completing? ==> pc.slot == LogCbk(base.log, Stamp(pc.t), pc.t.capture, pc.t.cbkNow).1)
  }

  // The machine's node is the specified run of the finished turns, plus the current one so far.
  ghost predicate TurnInv(p: Params, n: Node, s: State) {
    MidTurn(p, RunTurns(p, n, s.turns), s.pc, s.node)
  }

  // The slot log_cbk claimed last.
  function LastSlot(log: Log): Option<nat> {
    if 0 < log.idx <= |log.records| then Some(log.idx - 1) else None
  }

  // The log between the steps of an iteration.
  ghost predicate LogInv(log: Log, pc: Pc, now: uint64, stamp: uint64) {
    if pc.Logging? then pc.t.capture <= stamp && Timeline(log, false, now, pc.t.capture)
    else if pc.Sending? || pc.Completing? then
      log.idx > 0 && pc.slot == LastSlot(log) && Timeline(log, true, now, stamp)
    else Timeline(log, false, now, stamp)
  }

  ghost predicate TimeInv(s: State) {
    && s.stamp <= s.now && LogInv(s.node.log, s.pc, s.now, s.stamp)
    && (s.probe.HasRead? ==> s.stamp <= s.probe.t <= s.now)
    && (!s.threaded ==> s.probe.Waiting?)
  }

  // A step inside an iteration.
  lemma MidStep(p: Params, base: Node, s: State, sharedNs: int, rosNow: uint64)
    requires !s.pc.Head? && MidTurn(p, base, s.pc, s.node) && NextDoes(p, s, sharedNs, rosNow).turns == s.turns
    ensures MidTurn(p, base, NextDoes(p, s, sharedNs, rosNow).pc, NextDoes(p, s, sharedNs, rosNow).node)
  {
  }

  // The last step of an iteration.
  lemma LastStep(p: Params, base: Node, s: State, sharedNs: int, rosNow: uint64)
    requires !s.pc.Head? && MidTurn(p, base, s.pc, s.node) && NextDoes(p, s, sharedNs, rosNow).turns != s.turns
    ensures var s' := NextDoes(p, s, sharedNs, rosNow);
            s'.pc.Head? && |s'.turns| == |s.turns| + 1 && s'.node == Iterate(p, base, s'.turns[|s.turns|])
  {
  }

  lemma NextTurn(p: Params, n: Node, s: State, sharedNs: int, rosNow: uint64)
    requires TurnInv(p, n, s) && !s.pc.Head?
    ensures TurnInv(p, n, NextDoes(p, s, sharedNs, rosNow))
  {
    var s', base := NextDoes(p, s, sharedNs, rosNow), RunTurns(p, n, s.turns);
    if s'.turns == s.turns {
      MidStep(p, base, s, sharedNs, rosNow);
    } else {
      LastStep(p, base, s, sharedNs, rosNow);
      OneMoreTurn(p, n, s.turns, s'.turns[|s.turns|]);
      assert s'.turns == s.turns + [s'.turns[|s.turns|]];
    }
  }

  lemma StepTurn(p: Params, n: Node, s: State, ev: Event)
    requires TurnInv(p, n, s) && May(s, ev)
    ensures TurnInv(p, n, Do(p, s, ev))
  {
    match ev
    case Next(sharedNs, rosNow) => NextTurn(p, n, s, sharedNs, rosNow);
    case Grab(isNull, bytes, _, _) => OneMoreTurn(p, n, s.turns, NO_TURN.(isNull := isNull, bytes := bytes));
    case _ =>
  }

  // What the clock and the push probe do leaves the log in order.
  lemma LogMovesOn(log: Log, pc: Pc, now: uint64, stamp: uint64, now': uint64, stamp': uint64)
    requires LogInv(log, pc, now, stamp) && now <= now' && stamp <= stamp'
    ensures LogInv(log, pc, now', stamp')
  {
  }

  lemma CbkStep(log: Log, t: Turn, now: uint64, stamp: uint64)
    requires LogInv(log, Logging(t), now, stamp) && stamp <= now
    ensures var (log', slot) := LogCbk(log, Stamp(t), t.capture, now);
            LogInv(log', Sending(t.(cbkNow := now), slot), now, stamp)
  {
    CbkKeepsTimeline(log, Stamp(t), t.capture, now);
    var log' := LogCbk(log, Stamp(t), t.capture, now).0;
    TimePasses(log', true, now, t.capture, now, stamp);
  }

  lemma PubStep(log: Log, t: Turn, slot: Option<nat>, now: uint64, stamp: uint64)
    requires LogInv(log, Completing(t, slot), now, stamp)
    ensures LogInv(LogPub(log, slot, now), Head, now, stamp)
  {
    PubKeepsTimeline(log, now, stamp);
  }

  lemma NextTime(p: Params, s: State, sharedNs: int, rosNow: uint64)
    requires TimeInv(s) && !s.pc.Head?
    ensures TimeInv(NextDoes(p, s, sharedNs, rosNow))
  {
    match s.pc
    case Logging(t) => CbkStep(s.node.log, t, s.now, s.stamp);
    case Completing(t, slot) => PubStep(s.node.log, t, slot, s.now, s.stamp);
    case _ =>
  }

  lemma StepTime(p: Params, s: State, ev: Event)
    requires TimeInv(s) && May(s, ev)
    ensures TimeInv(Do(p, s, ev))
  {
    if ev.Next? {
      NextTime(p, s, ev.sharedNs, ev.rosNow);
    } else {
      var s' := Do(p, s, ev);
      LogMovesOn(s.node.log, s.pc, s.now, s.stamp, s'.now, s'.stamp);
    }
  }

  ghost predicate NotBefore(stored: seq<uint64>) {
    forall i, j :: 0 <= i < j < |stored| ==> stored[i] <= stored[j]
  }

  // A frame's own stamp comes first; with V4L2 nothing is stored between it and the reading.
  predicate OriginOk(threaded: bool, stored: seq<uint64>, o: Origin) {
    1 <= o.own <= o.seen <= |stored| && (!threaded ==> o.seen == o.own)
  }

  // The frame in hand has not been logged yet.
  predicate Unlogged(pc: Pc) {
    pc.Counting? || pc.Stamping? || pc.Capturing? || pc.Logging?
  }

  ghost predicate StampInv(s: State) {
    && NotBefore(s.stored) && s.stamp == Last(s.stored)
    && s.own <= |s.stored| && (s.threaded ==> s.own <= Passed(s))
    && (!s.threaded ==> s.own == |s.stored|)
    && (!s.pc.Head? ==> s.own >= 1)
    && (s.pc.Logging? ==>
          OriginOk(s.threaded, s.stored, Origin(s.own, s.seen)) && s.pc.t.capture == s.stored[s.seen - 1])
  }

  // Every logged record carries a stamp stored not before its frame's own; `pending`: a newer frame is in hand.
  ghost predicate Logged(threaded: bool, stored: seq<uint64>, log: Log, logged: seq<Origin>, own: nat, pending: bool) {
    && |logged| == log.idx
    && (forall i :: 0 <= i < |logged| ==>
          OriginOk(threaded, stored, logged[i]) && (if pending then logged[i].own < own else logged[i].own <= own))
    && (forall i, j :: 0 <= i < j < |logged| ==> logged[i].own < logged[j].own)
    && (forall i :: 0 <= i < Filled(log) ==> log.records[i].tCapture == stored[logged[i].seen - 1])
  }

  ghost predicate LoggedInv(s: State) {
    Logged(s.threaded, s.stored, s.node.log, s.logged, s.own, Unlogged(s.pc))
  }

  // The push counts read so far, the current frame's included.
  function ReadBy(turns: seq<Turn>, pc: Pc): seq<uint64> {
    if pc.Head? || pc.Counting? then Pushes(turns) else Pushes(turns) + [pc.t.pushNow]
  }

  function PushesRead(s: State): seq<uint64> {
    ReadBy(s.turns, s.pc)
  }

  // Below 2^64 pushes the probe's count is the number of pushes, and readings of it never go back.
  ghost predicate PushInv(s: State) {
    s.threaded && |s.stored| < TWO_64 ==>
      && s.nPush == Passed(s) && NeverBack(PushesRead(s))
      && forall i :: 0 <= i < |PushesRead(s)| ==> PushesRead(s)[i] <= s.nPush
  }

  ghost predicate Inv(p: Params, n: Node, s: State) {
    TurnInv(p, n, s) && TimeInv(s) && StampInv(s) && LoggedInv(s) && PushInv(s)
  }

  lemma ProbeStamps(s: State)
    requires TimeInv(s) && StampInv(s) && s.threaded
    ensures StampInv(ProbeDoes(s))
  {
  }

  lemma GrabStamps(s: State, ev: Event)
    requires TimeInv(s) && StampInv(s) && ev.Grab? && May(s, ev)
    ensures StampInv(GrabDoes(s, ev.isNull, ev.bytes, ev.sequence, ev.own))
  {
  }

  lemma NextStamps(p: Params, s: State, sharedNs: int, rosNow: uint64)
    requires StampInv(s) && !s.pc.Head?
    ensures StampInv(NextDoes(p, s, sharedNs, rosNow))
  {
  }

  lemma StepStamps(p: Params, s: State, ev: Event)
    requires TimeInv(s) && StampInv(s) && May(s, ev)
    ensures StampInv(Do(p, s, ev))
  {
    match ev
    case Tick(_) =>
    case ProbeStep => ProbeStamps(s);
    case Grab(_, _, _, _) => GrabStamps(s, ev);
    case Next(sharedNs, rosNow) => NextStamps(p, s, sharedNs, rosNow);
  }

  // More stamps, a newer frame, or a completed record leave the log's stamps as they are.
  lemma LoggedStays(threaded: bool, stored: seq<uint64>, log: Log, logged: seq<Origin>, own: nat, pending: bool,
                    stored': seq<uint64>, log': Log, own': nat, pending': bool)
    requires Logged(threaded, stored, log, logged, own, pending) && stored <= stored'
    requires log'.idx == log.idx && |log'.records| == |log.records|
    requires forall i :: 0 <= i < |log.records| ==> log'.records[i].tCapture == log.records[i].tCapture
    requires if pending || !pending' then own <= own' else own < own'
    ensures Logged(threaded, stored', log', logged, own', pending')
  {
  }

  lemma CbkLogged(s: State, t: Turn)
    requires StampInv(s) && LoggedInv(s) && s.pc == Logging(t)
    ensures var log := LogCbk(s.node.log, Stamp(t), t.capture, s.now).0;
            Logged(s.threaded, s.stored, log, s.logged + [Origin(s.own, s.seen)], s.own, false)
  {
  }

  lemma NextLogged(p: Params, s: State, sharedNs: int, rosNow: uint64)
    requires LoggedInv(s) && !s.pc.Head? && !s.pc.Logging?
    ensures LoggedInv(NextDoes(p, s, sharedNs, rosNow))
  {
    var s' := NextDoes(p, s, sharedNs, rosNow);
    LoggedStays(s.threaded, s.stored, s.node.log, s.logged, s.own, Unlogged(s.pc),
                s.stored, s'.node.log, s.own, Unlogged(s'.pc));
  }

  // The clock, the probe and a grab leave the log alone.
  lemma OthersLogged(p: Params, s: State, ev: Event)
    requires LoggedInv(s) && StampInv(s) && May(s, ev) && !ev.Next?
    ensures LoggedInv(Do(p, s, ev))
  {
    var s' := Do(p, s, ev);
    LoggedStays(s.threaded, s.stored, s.node.log, s.logged, s.own, Unlogged(s.pc),
                s'.stored, s.node.log, s'.own, Unlogged(s'.pc));
  }

  lemma StepLogged(p: Params, s: State, ev: Event)
    requires StampInv(s) && LoggedInv(s) && May(s, ev)
    ensures LoggedInv(Do(p, s, ev))
  {
    if !ev.Next? {
      OthersLogged(p, s, ev);
    } else if s.pc.Logging? {
      CbkLogged(s, s.pc.t);
    } else {
      NextLogged(p, s, ev.sharedNs, ev.rosNow);
    }
  }

  lemma MorePushes(pushes: seq<uint64>, push: uint64)
    requires NeverBack(pushes) && forall i :: 0 <= i < |pushes| ==> pushes[i] <= push
    ensures NeverBack(pushes + [push])
  {
  }

  lemma PushesSnoc(turns: seq<Turn>, t: Turn)
    ensures Pushes(turns + [t]) == if ValidFrame(t) then Pushes(turns) + [t.pushNow] else Pushes(turns)
  {
    assert (turns + [t])[..|turns|] == turns;
  }

  // Only push_count() adds to the counts read.
  lemma NextReads(p: Params, s: State, sharedNs: int, rosNow: uint64)
    requires !s.pc.Head? && ValidFrame(s.pc.t)
    ensures PushesRead(NextDoes(p, s, sharedNs, rosNow))
            == if s.pc.Counting? then PushesRead(s) + [s.nPush] else PushesRead(s)
  {
    match s.pc
    case Stamping(t) => PushesSnoc(s.turns, t.(sharedNs := sharedNs, rosNow := rosNow));
    case Completing(t, _) => PushesSnoc(s.turns, t.(pubNow := s.now));
    case _ =>
  }

  lemma GrabReads(s: State, ev: Event)
    requires s.pc.Head? && ev.Grab?
    ensures PushesRead(GrabDoes(s, ev.isNull, ev.bytes, ev.sequence, ev.own)) == PushesRead(s)
  {
    PushesSnoc(s.turns, NO_TURN.(isNull := ev.isNull, bytes := ev.bytes));
  }

  lemma GrabPushes(s: State, ev: Event)
    requires PushInv(s) && ev.Grab? && May(s, ev)
    ensures PushInv(GrabDoes(s, ev.isNull, ev.bytes, ev.sequence, ev.own))
  {
    GrabReads(s, ev);
  }

  lemma NextPushes(p: Params, s: State, sharedNs: int, rosNow: uint64)
    requires PushInv(s) && !s.pc.Head? && ValidFrame(s.pc.t)
    ensures PushInv(NextDoes(p, s, sharedNs, rosNow))
  {
    NextReads(p, s, sharedNs, rosNow);
    if s.threaded && |s.stored| < TWO_64 && s.pc.Counting? {
      MorePushes(PushesRead(s), s.nPush);
    }
  }

  lemma ProbePushes(s: State)
    requires PushInv(s)
    ensures PushInv(ProbeDoes(s))
  {
    if s.threaded && |ProbeDoes(s).stored| < TWO_64 {
      assert PushesRead(ProbeDoes(s)) == PushesRead(s) && s.nPush <= ProbeDoes(s).nPush == Passed(ProbeDoes(s));
    }
  }

  lemma StepPushes(p: Params, n: Node, s: State, ev: Event)
    requires TurnInv(p, n, s) && PushInv(s) && May(s, ev)
    ensures PushInv(Do(p, s, ev))
  {
    match ev
    case Tick(_) =>
    case ProbeStep => ProbePushes(s);
    case Grab(_, _, _, _) => GrabPushes(s, ev);
    case Next(sharedNs, rosNow) => NextPushes(p, s, sharedNs, rosNow);
  }

  lemma {:induction false} RunInv(p: Params, n: Node, s: State, evs: seq<Event>)
    requires Inv(p, n, s) && Allowed(p, s, evs)
    ensures Inv(p, n, Run(p, s, evs))
    decreases |evs|
  {
    if evs != [] {
      StepTurn(p, n, s, evs[0]);
      StepTime(p, s, evs[0]);
      StepStamps(p, s, evs[0]);
      StepLogged(p, s, evs[0]);
      StepPushes(p, n, s, evs[0]);
      RunInv(p, n, Do(p, s, evs[0]), evs[1..]);
    }
  }

  /** States some interleaving of clock, push probe and loop reaches from a fresh node. */
  ghost predicate Reachable(p: Params, n: Node, s: State) {
    exists s0, evs :: Initial(n, s0) && Allowed(p, s0, evs) && s == Run(p, s0, evs)
  }

  lemma ReachableInv(p: Params, n: Node, s: State)
    requires Reachable(p, n, s)
    ensures Inv(p, n, s) && FreshNode(n)
  {
    var s0, evs :| Initial(n, s0) && Allowed(p, s0, evs) && s == Run(p, s0, evs);
    RunInv(p, n, s0, evs);
  }

  /**
   * The log is a timeline, at every moment of every run and with either backend: in each record the
   * capture stamp is not after the callback stamp, nor that after the publish stamp; a record is
   * published before the next one's callback; capture stamps do not go back. Every record but the
   * last is complete, and the last one is too when the loop is at its head.
   */
  lemma LogIsTimeline(p: Params, n: Node, s: State)
    requires Reachable(p, n, s)
    ensures var log := s.node.log;
            forall i :: 0 <= i < Filled(log) ==>
              && log.records[i].capDone && log.records[i].tCapture <= log.records[i].tCbk <= s.now
              && (i < Filled(log) - 1 || s.pc.Head? ==> log.records[i].rosDone)
              && (log.records[i].rosDone ==> log.records[i].tCbk <= log.records[i].tPub <= s.now)
    ensures var log := s.node.log;
            forall i :: 0 < i < Filled(log) ==>
              && log.records[i - 1].tPub <= log.records[i].tCbk
              && log.records[i - 1].tCapture <= log.records[i].tCapture
  {
    ReachableInv(p, n, s);
  }

  /**
   * Whatever the interleaving, at a loop head the node is what its finished turns make of a fresh one:
   * record i is the completed record of publication i.
   */
  lemma HeadIsRun(p: Params, n: Node, s: State)
    requires Reachable(p, n, s) && s.pc.Head?
    ensures s.node == RunTurns(p, n, s.turns)
    ensures |s.turns| < TWO_64 ==> Agrees(p, s.turns, s.node)
  {
    ReachableInv(p, n, s);
    if |s.turns| < TWO_64 {
      assert FreshNode(n);
      LogAgrees(p, n, s.turns);
    }
  }

  /**
   * Where a record's capture stamp comes from. Records are those of ever later frames. The stamp is one
   * stored at or after the frame's own; with V4L2 it is the frame's own; with GStreamer it is the
   * frame's own exactly when no stamp was stored between that push and the reading, provided time had
   * moved on by the next push.
   */
  lemma RecordStamps(p: Params, n: Node, s: State, i: nat)
    requires Reachable(p, n, s) && i < Filled(s.node.log)
    ensures |s.logged| == s.node.log.idx && OriginOk(s.threaded, s.stored, s.logged[i])
    ensures forall j :: i < j < |s.logged| ==> s.logged[i].own < s.logged[j].own
    ensures s.node.log.records[i].tCapture == s.stored[s.logged[i].seen - 1] >= s.stored[s.logged[i].own - 1]
    ensures !s.threaded ==> s.node.log.records[i].tCapture == s.stored[s.logged[i].own - 1]
    ensures s.logged[i].own < |s.stored| && s.stored[s.logged[i].own - 1] < s.stored[s.logged[i].own] ==>
              (s.node.log.records[i].tCapture == s.stored[s.logged[i].own - 1]
               <==> s.logged[i].seen == s.logged[i].own)
  {
    ReachableInv(p, n, s);
    assert OriginOk(s.threaded, s.stored, s.logged[i]);
  }

  /**
   * The GStreamer push counts the loop reads never go back while there were fewer than 2^64 pushes, so
   * pulls plus drops are the last count plus the repeats at every loop head.
   */
  lemma PushesNeverBack(p: Params, n: Node, s: State)
    requires Reachable(p, n, s) && s.threaded && |s.stored| < TWO_64
    ensures NeverBack(Pushes(s.turns)) && forall i :: 0 <= i < |Pushes(s.turns)| ==> Pushes(s.turns)[i] <= |s.stored|
    ensures s.pc.Head? && |s.turns| < TWO_64 ==> Balance(s.node.counters, Pushes(s.turns))
  {
    ReachableInv(p, n, s);
    assert forall i :: 0 <= i < |Pushes(s.turns)| ==> Pushes(s.turns)[i] == PushesRead(s)[i];
    if s.pc.Head? && |s.turns| < TWO_64 {
      DropTotal(p, n, s.turns);
    }
  }

  lemma Unfold(p: Params, s: State, evs: seq<Event>)
    requires evs != [] && May(s, evs[0])
    ensures Allowed(p, s, evs) <==> Allowed(p, Do(p, s, evs[0]), evs[1..])
    ensures Allowed(p, s, evs) ==> Run(p, s, evs) == Run(p, Do(p, s, evs[0]), evs[1..])
  {
  }

  // Push 1 at time 1 reaches the loop and is counted; push 2 follows at time 2 before the stamp is read.
  function FirstPush(): seq<Event> {
    [Tick(1), ProbeStep, ProbeStep, ProbeStep, Grab(false, [0], 0, 1), Next(0, 0)]
  }

  function SecondPush(): seq<Event> {
    [Next(0, 0), Tick(2), ProbeStep, ProbeStep, Next(0, 0), Next(0, 0)]
  }

  lemma FirstPushRun(p: Params, n: Node, s: State)
    requires Initial(n, s) && s.threaded && s.now <= 1
    ensures Allowed(p, s, FirstPush())
    ensures var s' := Run(p, s, FirstPush());
            && s'.threaded && s'.now == 1 && s'.probe.Waiting? && s'.stored == [1] && s'.own == 1
            && s'.logged == [] && s'.node.log == n.log && s'.pc.Stamping? && s'.pc.t.bytes == [0]
  {
    var evs := FirstPush();
    var s1 := Do(p, s, evs[0]);
    var s2 := Do(p, s1, evs[1]);
    var s3 := Do(p, s2, evs[2]);
    var s4 := Do(p, s3, evs[3]);
    var s5 := Do(p, s4, evs[4]);
    Unfold(p, s5, evs[5..]);
    Unfold(p, s4, evs[4..]);
    Unfold(p, s3, evs[3..]);
    Unfold(p, s2, evs[2..]);
    Unfold(p, s1, evs[1..]);
    Unfold(p, s, evs);
  }

  lemma SecondPushRun(p: Params, s: State)
    requires p.declared.compressed && s.threaded && s.now == 1 && s.probe.Waiting? && s.stored == [1] && s.own == 1
    requires s.logged == [] && s.node.log.idx == 0 && |s.node.log.records| > 0 && s.pc.Stamping?
    ensures Allowed(p, s, SecondPush())
    ensures var s' := Run(p, s, SecondPush());
            && s'.stored == [1, 2] && s'.logged == [Origin(1, 2)]
            && |s'.node.log.records| > 0 && s'.node.log.records[0].tCapture == 2
  {
    var evs := SecondPush();
    var s1 := Do(p, s, evs[0]);
    var s2 := Do(p, s1, evs[1]);
    var s3 := Do(p, s2, evs[2]);
    var s4 := Do(p, s3, evs[3]);
    var s5 := Do(p, s4, evs[4]);
    Unfold(p, s5, evs[5..]);
    Unfold(p, s4, evs[4..]);
    Unfold(p, s3, evs[3..]);
    Unfold(p, s2, evs[2..]);
    Unfold(p, s1, evs[1..]);
    Unfold(p, s, evs);
  }

  lemma {:induction false} RunAppend(p: Params, s: State, evs: seq<Event>, more: seq<Event>)
    requires Allowed(p, s, evs) && Allowed(p, Run(p, s, evs), more)
    ensures Allowed(p, s, evs + more) && Run(p, s, evs + more) == Run(p, Run(p, s, evs), more)
    decreases |evs|
  {
    if evs == [] {
      assert evs + more == more;
    } else {
      RunAppend(p, Do(p, s, evs[0]), evs[1..], more);
      assert (evs + more)[1..] == evs[1..] + more;
    }
  }

  /** With GStreamer a record can carry the stamp of a later push: here push 1, pushed at 1, is logged with 2. */
  lemma LateStamp(p: Params, n: Node, s: State)
    requires Initial(n, s) && s.threaded && s.now <= 1 && p.declared.compressed && |n.log.records| > 0
    ensures var evs := FirstPush() + SecondPush();
            && Allowed(p, s, evs)
            && var s' := Run(p, s, evs);
               && s'.stored == [1, 2] && s'.logged == [Origin(1, 2)]
               && |s'.node.log.records| > 0 && s'.node.log.records[0].tCapture == 2
  {
    FirstPushRun(p, n, s);
    SecondPushRun(p, Run(p, s, FirstPush()));
    RunAppend(p, s, FirstPush(), SecondPush());
  }
}
