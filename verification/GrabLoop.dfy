/** The node: its grab loop, the copy into the reusable message, and the log records it leaves. */
module GrabLoop {
  import opened Common
  import opened DropAccounting
  import opened BlackboxLog
  import opened BlackboxBox
  import opened Config
  import opened MonotonicClock

  /** What one loop iteration got from its surroundings: the frame, the push count, and every clock. */
  datatype Turn = Turn(
    isNull: bool, bytes: seq<byte>,      // the Frame grab() returned
    pushNow: uint64,                     // push_count()
    sharedNs: int, rosNow: uint64,       // the shared time stamp (0 or less: none) and ROS time
    capture: uint64,                     // t_capture_ns()
    cbkNow: uint64, pubNow: uint64)      // the clock in log_cbk and in log_pub

  const NO_TURN := Turn(true, [], 0, 0, 0, 0, 0, 0)

  datatype Published = Published(stamp: uint64, data: seq<byte>)

  /** What the node has done so far. */
  datatype Node = Node(counters: Counters, log: Log, out: seq<Published>)

  predicate ValidFrame(t: Turn) {
    !t.isNull && |t.bytes| > 0
  }

  function Stamp(t: Turn): uint64 {
    if t.sharedNs > 0 then t.sharedNs % TWO_64 else t.rosNow
  }

  // A raw frame below the expected size is not published.
  predicate Short(p: Params, t: Turn) {
    !p.declared.compressed && |t.bytes| < p.expectedSize
  }

  function Data(p: Params, t: Turn): seq<byte>
    requires !Short(p, t)
  {
    if p.declared.compressed then t.bytes else t.bytes[..p.expectedSize]
  }

  function PublishTurn(p: Params, n: Node, t: Turn): Node {
    if Short(p, t) then n else
      var (log, slot) := BlackboxLog.LogCbk(n.log, Stamp(t), t.capture, t.cbkNow);
      Node(n.counters, BlackboxLog.LogPub(log, slot, t.pubNow), n.out + [Published(Stamp(t), Data(p, t))])
  }

  function Iterate(p: Params, n: Node, t: Turn): Node {
    if !ValidFrame(t) then n
    else PublishTurn(p, n.(counters := Account(n.counters, t.pushNow)), t)
  }

  function RunTurns(p: Params, n: Node, turns: seq<Turn>): Node {
    if turns == [] then n
    else Iterate(p, RunTurns(p, n, turns[..|turns| - 1]), turns[|turns| - 1])
  }

  /**
   * A log written under one clock that now shows `now`: stamps do not go back within a record or from
   * a record to the next, and no capture stamp is past `bound`. With `open`, the last slot claimed
   * has been filled by log_cbk but not yet completed by log_pub.
   */
  ghost predicate Timeline(log: Log, open: bool, now: uint64, bound: uint64) {
    && (forall i :: 0 <= i < Filled(log) ==>
          var r := log.records[i];
          && r.capDone && r.tCapture <= r.tCbk <= now && r.tCapture <= bound
          && (r.rosDone <==> !(open && i == log.idx - 1)) && (r.rosDone ==> r.tCbk <= r.tPub <= now))
    && (forall i :: 0 < i < Filled(log) ==>
          && log.records[i - 1].tPub <= log.records[i].tCbk
          && log.records[i - 1].tCapture <= log.records[i].tCapture)
  }

  lemma TimePasses(log: Log, open: bool, now: uint64, bound: uint64, now': uint64, bound': uint64)
    requires Timeline(log, open, now, bound) && now <= now' && bound <= bound'
    ensures Timeline(log, open, now', bound')
  {
  }

  lemma CbkKeepsTimeline(log: Log, header: uint64, capture: uint64, now: uint64)
    requires Timeline(log, false, now, capture) && capture <= now
    ensures Timeline(BlackboxLog.LogCbk(log, header, capture, now).0, true, now, capture)
  {
  }

  lemma PubKeepsTimeline(log: Log, now: uint64, bound: uint64)
    requires log.idx > 0 && Timeline(log, true, now, bound)
    ensures var slot := if log.idx - 1 < |log.records| then Some(log.idx - 1) else None;
            Timeline(BlackboxLog.LogPub(log, slot, now), false, now, bound)
  {
  }

  // A record begun and completed after everything logged so far.
  lemma DeliverTimeline(log: Log, now: uint64, bound: uint64,
                        header: uint64, capture: uint64, cbkNow: uint64, pubNow: uint64)
    requires bound <= capture <= cbkNow && now <= cbkNow <= pubNow
    ensures var (log', slot) := BlackboxLog.LogCbk(log, header, capture, cbkNow);
            Timeline(log, false, now, bound) ==>
              Timeline(BlackboxLog.LogPub(log', slot, pubNow), false, pubNow, capture)
  {
    if Timeline(log, false, now, bound) {
      TimePasses(log, false, now, bound, cbkNow, capture);
      CbkKeepsTimeline(log, header, capture, cbkNow);
      var log' := BlackboxLog.LogCbk(log, header, capture, cbkNow).0;
      TimePasses(log', true, cbkNow, capture, pubNow, capture);
      PubKeepsTimeline(log', pubNow, capture);
    }
  }

  /** A call of the node on its backend, with what it returned. */
  datatype Call = Grabbed(isNull: bool, bytes: seq<byte>) | Counted(n: uint64) | Stamped(t: uint64) | Released

  /** The capture interface as the node uses it: borrowed frames, a push count and a capture stamp. */
  class Capture {
    const clock: Clock
    const threaded: bool   // GStreamer: the push probe runs in a thread of its own
    var nPush: uint64
    var stamp: uint64
    ghost var calls: seq<Call>

    ghost predicate Valid()
      reads this, clock
    {
      stamp <= clock.now
    }

    constructor (clock: Clock, threaded: bool)
      ensures this.clock == clock && this.threaded == threaded && Valid() && calls == []
    {
      this.clock, this.threaded, nPush, stamp := clock, threaded, 0, 0;
      calls := [];
    }

    // What the push probe did since the node last looked.
    method Streams()
      requires Valid()
      modifies `nPush, `stamp, clock
      ensures Valid() && old(stamp) <= stamp && old(clock.now) <= clock.now
      ensures !threaded ==> unchanged(this, clock)
    {
      var pushes: int := *;
      while threaded && pushes > 0
        invariant Valid() && old(stamp) <= stamp && old(clock.now) <= clock.now
        invariant !threaded ==> unchanged(this, clock)
        decreases pushes
      {
        stamp := clock.MonoRawNs();
        nPush := Add64(nPush, 1);
        pushes := pushes - 1;
      }
    }

    /** grab(): V4L2 takes its stamp and its count when DQBUF succeeds. */
    method Grab() returns (isNull: bool, bytes: seq<byte>)
      requires Valid()
      modifies `nPush, `stamp, `calls, clock
      ensures Valid() && old(stamp) <= stamp && old(clock.now) <= clock.now
      ensures calls == old(calls) + [Grabbed(isNull, bytes)]
      ensures !threaded && isNull ==> unchanged(`nPush, `stamp, clock)
      ensures !threaded && !isNull ==> stamp == clock.now && 0 < nPush <= TWO_32
    {
      Streams();
      isNull, bytes := *, *;
      calls := calls + [Grabbed(isNull, bytes)];
      if !threaded && !isNull {
        stamp := clock.MonoRawNs();
        var sequence: int := *;
        nPush := sequence % TWO_32 + 1;
      }
    }

    method PushCount() returns (n: uint64)
      requires Valid()
      modifies `nPush, `stamp, `calls, clock
      ensures Valid() && old(stamp) <= stamp && old(clock.now) <= clock.now
      ensures n == nPush && calls == old(calls) + [Counted(n)]
      ensures !threaded ==> unchanged(`nPush, `stamp, clock)
    {
      Streams();
      n := nPush;
      calls := calls + [Counted(n)];
    }

    method TCaptureNs() returns (t: uint64)
      requires Valid()
      modifies `nPush, `stamp, `calls, clock
      ensures Valid() && old(stamp) <= stamp == t && old(clock.now) <= clock.now
      ensures calls == old(calls) + [Stamped(t)]
      ensures !threaded ==> unchanged(`nPush, `stamp, clock)
    {
      Streams();
      t := stamp;
      calls := calls + [Stamped(t)];
    }

    /** release(): the frame of the last grab() goes back. */
    method Release()
      modifies `calls
      ensures calls == old(calls) + [Released]
    {
      calls := calls + [Released];
    }
  }

  /** The node's calls on its backend in one turn: an invalid frame is neither counted nor released. */
  function CallsOf(p: Params, t: Turn): seq<Call> {
    [Grabbed(t.isNull, t.bytes)]
    + if !ValidFrame(t) then []
      else [Counted(t.pushNow)] + (if Short(p, t) then [] else [Stamped(t.capture)]) + [Released]
  }

  function Calls(p: Params, turns: seq<Turn>): seq<Call> {
    if turns == [] then [] else Calls(p, turns[..|turns| - 1]) + CallsOf(p, turns[|turns| - 1])
  }

  /** The push counts the loop read, one per valid frame. */
  function Pushes(turns: seq<Turn>): seq<uint64> {
    if turns == [] then [] else
      var t := turns[|turns| - 1];
      Pushes(turns[..|turns| - 1]) + if ValidFrame(t) then [t.pushNow] else []
  }

  // The calls of a valid turn, one after the other.
  lemma CallsInOrder(p: Params, calls: seq<Call>, t: Turn)
    requires ValidFrame(t)
    ensures calls + [Grabbed(t.isNull, t.bytes)] + [Counted(t.pushNow)]
            + (if Short(p, t) then [] else [Stamped(t.capture)]) + [Released]
            == calls + CallsOf(p, t)
  {
  }

  lemma CallsOfOneMore(p: Params, calls: seq<Call>, turns: seq<Turn>, t: Turn)
    ensures calls + Calls(p, turns) + CallsOf(p, t) == calls + Calls(p, turns + [t])
  {
    assert (turns + [t])[..|turns|] == turns;
  }

  lemma OneMoreTurn(p: Params, n: Node, turns: seq<Turn>, t: Turn)
    ensures RunTurns(p, n, turns + [t]) == Iterate(p, RunTurns(p, n, turns), t)
    ensures Pushes(turns + [t]) == Pushes(turns) + if ValidFrame(t) then [t.pushNow] else []
  {
    assert (turns + [t])[..|turns|] == turns;
  }

  class EconRos2Driver {
    const p: Params
    const box: Box
    const backend: Capture
    const msgData: array<byte>     // msg_.data, sized once
    var cmsgData: seq<byte>        // cmsg_.data, resized per frame
    var nPull: uint64
    var lastPushSeen: uint64
    var totalDrops: uint64
    ghost var out: seq<Published>  // everything handed to publish()

    ghost predicate Valid()
      reads this, box, backend, backend.clock
    {
      && box.Valid() && box.fd >= 0 && backend.Valid()
      && msgData.Length == (if p.declared.compressed then 0 else p.expectedSize)
    }

    ghost function State(): Node
      requires Valid()
      reads this, box, box.base, backend, backend.clock
    {
      Node(Counters(nPull, lastPushSeen, totalDrops), box.Contents(), out)
    }

    // At a loop head: everything logged so far is in time order.
    ghost predicate InTime()
      requires Valid()
      reads this, box, box.base, backend, backend.clock
    {
      Timeline(box.Contents(), false, backend.clock.now, backend.stamp)
    }

    constructor (p: Params, box: Box, backend: Capture)
      requires box.Valid() && box.fd >= 0 && backend.Valid()
      ensures this.p == p && this.box == box && this.backend == backend && fresh(msgData) && Valid()
      ensures State() == Node(FRESH, box.Contents(), [])
    {
      this.p := p;
      this.box := box;
      this.backend := backend;
      msgData := new byte[if p.declared.compressed then 0 else p.expectedSize](_ => 0);
      cmsgData := [];
      nPull, lastPushSeen, totalDrops := 0, 0, 0;
      out := [];
    }

    // The copy into the reusable message: false, and nothing copied, when a raw frame is too short.
    method FillMessage(bytes: seq<byte>) returns (ok: bool)
      requires msgData.Length == if p.declared.compressed then 0 else p.expectedSize
      modifies `cmsgData, msgData
      ensures ok <==> p.declared.compressed || p.expectedSize <= |bytes|
      ensures ok ==> Message() == if p.declared.compressed then bytes else bytes[..p.expectedSize]
    {
      if p.declared.compressed {
        cmsgData := bytes;
        return true;
      }
      if |bytes| < p.expectedSize {
        return false;
      }
      forall i | 0 <= i < p.expectedSize {
        msgData[i] := bytes[i];
      }
      return true;
    }

    function Message(): seq<byte>
      reads this, msgData
    {
      if p.declared.compressed then cmsgData else msgData[..]
    }

    // Log record, publication, completion of the record.
    method Deliver(stamp: uint64) returns (ghost capture: uint64, ghost cbkNow: uint64, ghost pubNow: uint64)
      requires Valid() && msgData as object != box.base
      modifies `out, box`idx, box`seqNo, box.base
      modifies backend`nPush, backend`stamp, backend`calls, backend.clock
      ensures Valid()
      ensures var (log, slot) := BlackboxLog.LogCbk(old(box.Contents()), stamp, capture, cbkNow);
              box.Contents() == BlackboxLog.LogPub(log, slot, pubNow)
      ensures out == old(out) + [Published(stamp, old(Message()))]
      ensures old(backend.stamp) <= capture == backend.stamp
      ensures !backend.threaded ==> unchanged(backend`nPush, backend`stamp)
      ensures capture <= cbkNow && old(backend.clock.now) <= cbkNow <= pubNow == backend.clock.now
      ensures backend.calls == old(backend.calls) + [Stamped(capture)]
      ensures old(InTime()) ==> InTime()
    {
      var t := backend.TCaptureNs();
      capture := t;
      var slot;
      slot, cbkNow := box.LogCbk(stamp, t, backend.clock);
      out := out + [Published(stamp, Message())];
      pubNow := box.LogPub(slot, backend.clock);
      DeliverTimeline(old(box.Contents()), old(backend.clock.now), old(backend.stamp), stamp, t, cbkNow, pubNow);
    }

    /** Stamps, copies, logs and publishes one frame; what it read on the way is the turn it returns. */
    method Publish(bytes: seq<byte>, ghost pushNow: uint64) returns (ghost t: Turn)
      requires Valid() && msgData as object != box.base && bytes != []
      modifies `cmsgData, `out, msgData, box`idx, box`seqNo, box.base
      modifies backend`nPush, backend`stamp, backend`calls, backend.clock
      ensures Valid() && State() == PublishTurn(p, old(State()), t)
      ensures t.bytes == bytes && t.pushNow == pushNow && ValidFrame(t)
      ensures old(backend.stamp) <= t.capture == backend.stamp
      ensures !backend.threaded ==> unchanged(backend`nPush, backend`stamp)
      ensures t.capture <= t.cbkNow && old(backend.clock.now) <= t.cbkNow <= t.pubNow == backend.clock.now
      ensures backend.calls == old(backend.calls) + if Short(p, t) then [] else [Stamped(t.capture)]
      ensures old(InTime()) ==> InTime()
    {
      var sharedNs: int := *;
      var now: int := *;
      var rosNow := now % TWO_64;
      t := Turn(false, bytes, pushNow, sharedNs, rosNow, backend.stamp, backend.clock.now, backend.clock.now);
      var stamp: uint64 := if sharedNs > 0 then sharedNs % TWO_64 else rosNow;
      var ok := FillMessage(bytes);
      if !ok {
        return;
      }
      ghost var capture, cbkNow, pubNow := Deliver(stamp);
      t := t.(capture := capture, cbkNow := cbkNow, pubNow := pubNow);
    }

    // Moving the clock and the capture stamp on does not disturb the log.
    lemma StillInTime(log: Log, now: uint64, bound: uint64)
      requires Valid() && box.Contents() == log && now <= backend.clock.now && bound <= backend.stamp
      ensures Timeline(log, false, now, bound) ==> InTime()
    {
      if Timeline(log, false, now, bound) {
        TimePasses(log, false, now, bound, backend.clock.now, backend.stamp);
      }
    }

    // The drop accounting of one valid frame.
    method CountFrame() returns (pushNow: uint64)
      requires Valid()
      modifies `nPull, `lastPushSeen, `totalDrops, backend`nPush, backend`stamp, backend`calls, backend.clock
      ensures Valid() && State() == old(State()).(counters := Account(old(State()).counters, pushNow))
      ensures backend.calls == old(backend.calls) + [Counted(pushNow)] && pushNow == backend.nPush
      ensures !backend.threaded ==> unchanged(backend`nPush, backend`stamp)
      ensures old(InTime()) ==> InTime()
    {
      nPull := Add64(nPull, 1);
      pushNow := backend.PushCount();
      StillInTime(old(box.Contents()), old(backend.clock.now), old(backend.stamp));
      var pushedSince := Sub64(pushNow, lastPushSeen);
      lastPushSeen := pushNow;
      if pushedSince > 1 {
        totalDrops := Add64(totalDrops, pushedSince - 1);
      }
    }

    // One iteration: an invalid frame is dropped without a release, a valid one counted, published, released.
    method Iteration() returns (ghost t: Turn)
      requires Valid() && msgData as object != box.base
      modifies this, msgData, box`idx, box`seqNo, box.base, backend, backend.clock
      ensures Valid() && State() == Iterate(p, old(State()), t)
      ensures backend.calls == old(backend.calls) + CallsOf(p, t)
      ensures ValidFrame(t) && !backend.threaded ==> t.pushNow == backend.nPush && t.capture == backend.stamp
      ensures old(InTime()) ==> InTime()
    {
      ghost var log, now, bound := box.Contents(), backend.clock.now, backend.stamp;
      var isNull, bytes := backend.Grab();
      StillInTime(log, now, bound);
      if isNull || |bytes| == 0 {
        t := NO_TURN.(isNull := isNull, bytes := bytes);
        return;
      }
      var pushNow := CountFrame();
      t := Publish(bytes, pushNow);
      backend.Release();
      CallsInOrder(p, old(backend.calls), t);
    }

    /**
     * The grab loop up to the iteration in which stop_ is seen: its effect is that of the turns it
     * took, and the log stays in time order whatever the clock and the push probe did meanwhile.
     */
    method Loop(iterations: nat) returns (ghost turns: seq<Turn>)
      requires Valid() && msgData as object != box.base
      modifies this, msgData, box`idx, box`seqNo, box.base, backend, backend.clock
      ensures Valid() && |turns| == iterations && State() == RunTurns(p, old(State()), turns)
      ensures backend.calls == old(backend.calls) + Calls(p, turns)
      ensures old(InTime()) ==> InTime()
    {
      turns := [];
      for i := 0 to iterations
        invariant Valid() && |turns| == i && State() == RunTurns(p, old(State()), turns)
        invariant backend.calls == old(backend.calls) + Calls(p, turns)
        invariant old(InTime()) ==> InTime()
      {
        ghost var t := Iteration();
        OneMoreTurn(p, old(State()), turns, t);
        CallsOfOneMore(p, old(backend.calls), turns, t);
        turns := turns + [t];
      }
    }
  }

  /**
   * A raw frame of the OpenCV backend passes the short-frame guard, fills the message exactly, and
   * the copy stays within both frame and message, whose size is step * height.
   */
  lemma OpencvFrameFits(d: Declared, t: Turn)
    requires !d.compressed && |t.bytes| == BgrSize(LoadParams(d).res)
    ensures var p := LoadParams(d);
            !Short(p, t) && Data(p, t) == t.bytes && |t.bytes| == p.expectedSize == p.pubWidth * 3 * p.pubHeight
  {
    RawSizesAgree(d);
  }

  // Frames lent to the node, and frames given back.
  function Lent(calls: seq<Call>): nat {
    if calls == [] then 0
    else Lent(calls[..|calls| - 1]) + if calls[|calls| - 1].Grabbed? && !calls[|calls| - 1].isNull then 1 else 0
  }

  function GivenBack(calls: seq<Call>): nat {
    if calls == [] then 0
    else GivenBack(calls[..|calls| - 1]) + if calls[|calls| - 1].Released? then 1 else 0
  }

  /** Turns in which grab() succeeded with a frame of no bytes. */
  function EmptyFrames(turns: seq<Turn>): nat {
    if turns == [] then 0
    else
      var t := turns[|turns| - 1];
      EmptyFrames(turns[..|turns| - 1]) + if !t.isNull && t.bytes == [] then 1 else 0
  }

  lemma {:induction false} CallsAppend(calls: seq<Call>, more: seq<Call>)
    ensures Lent(calls + more) == Lent(calls) + Lent(more)
    ensures GivenBack(calls + more) == GivenBack(calls) + GivenBack(more)
  {
    if more == [] {
      assert calls + more == calls;
    } else {
      CallsAppend(calls, more[..|more| - 1]);
      assert (calls + more)[..|calls + more| - 1] == calls + more[..|more| - 1];
    }
  }

  lemma OneTurnsCalls(p: Params, t: Turn)
    ensures Lent(CallsOf(p, t)) == if t.isNull then 0 else 1
    ensures GivenBack(CallsOf(p, t)) == if ValidFrame(t) then 1 else 0
  {
    var grab := [Grabbed(t.isNull, t.bytes)];
    assert grab[..0] == [] && Lent(grab) == (if t.isNull then 0 else 1) && GivenBack(grab) == 0;
    if ValidFrame(t) {
      var read := [Counted(t.pushNow)] + if Short(p, t) then [] else [Stamped(t.capture)];
      assert [Counted(t.pushNow)][..0] == [] && Lent([Counted(t.pushNow)]) == GivenBack([Counted(t.pushNow)]) == 0;
      assert read[..|read| - 1] == [] || read[..|read| - 1] == [Counted(t.pushNow)];
      assert Lent(read) == GivenBack(read) == 0;
      assert (read + [Released])[..|read|] == read;
      CallsAppend(grab, read + [Released]);
      assert CallsOf(p, t) == grab + (read + [Released]);
    } else {
      assert CallsOf(p, t) == grab;
    }
  }

  /**
   * Grab, use, release at the node: between iterations the frames not given back are exactly the ones
   * that came back empty, so everything is given back if and only if no frame was empty.
   */
  lemma {:induction false} ReleasedButEmpty(p: Params, turns: seq<Turn>)
    ensures Lent(Calls(p, turns)) == GivenBack(Calls(p, turns)) + EmptyFrames(turns)
  {
    if turns != [] {
      var prefix, t := turns[..|turns| - 1], turns[|turns| - 1];
      ReleasedButEmpty(p, prefix);
      CallsAppend(Calls(p, prefix), CallsOf(p, t));
      OneTurnsCalls(p, t);
    }
  }

  /** The turns whose frame was published, in order. */
  function Delivered(p: Params, turns: seq<Turn>): seq<Turn> {
    if turns == [] then [] else
      var t := turns[|turns| - 1];
      Delivered(p, turns[..|turns| - 1]) + if ValidFrame(t) && !Short(p, t) then [t] else []
  }

  /** The number of turns with a valid frame that was too short to publish. */
  function Skipped(p: Params, turns: seq<Turn>): nat {
    if turns == [] then 0 else
      var t := turns[|turns| - 1];
      Skipped(p, turns[..|turns| - 1]) + if ValidFrame(t) && Short(p, t) then 1 else 0
  }

  ghost predicate FreshNode(n: Node) {
    && n.counters == FRESH && n.log.idx == 0 && n.log.seqNo == 0 && n.out == []
    && forall i :: 0 <= i < |n.log.records| ==> n.log.records[i] == ZERO
  }

  // The completed record of the turn published as number i, counting from 0.
  function RecordOf(i: nat, t: Turn): Record {
    Record(i + 1, Stamp(t), t.capture, t.cbkNow, t.pubNow, true, true)
  }

  /**
   * The log agrees with the run: idx counts the published frames, which are the valid grabs minus
   * the short ones; record i is the completed record of publication i; all later slots are zero.
   */
  ghost predicate Agrees(p: Params, turns: seq<Turn>, n: Node) {
    var d := Delivered(p, turns);
    && n.log.idx == |d| == |n.out|
    && n.counters.nPull == |d| + Skipped(p, turns) <= |turns|
    && n.log.seqNo == Filled(n.log)
    && (forall i :: 0 <= i < |d| ==> !Short(p, d[i]) && n.out[i] == Published(Stamp(d[i]), Data(p, d[i])))
    && (forall i :: 0 <= i < |n.log.records| ==>
          n.log.records[i] == if i < |d| then RecordOf(i, d[i]) else ZERO)
  }

  lemma StepAgrees(p: Params, turns: seq<Turn>, n: Node, t: Turn)
    requires Agrees(p, turns, n) && |turns| + 1 < TWO_64
    ensures Agrees(p, turns + [t], Iterate(p, n, t))
  {
    assert (turns + [t])[..|turns|] == turns;
  }

  lemma {:induction false} LogAgrees(p: Params, n: Node, turns: seq<Turn>)
    requires FreshNode(n) && |turns| < TWO_64
    ensures Agrees(p, turns, RunTurns(p, n, turns))
  {
    if turns != [] {
      var prefix := turns[..|turns| - 1];
      LogAgrees(p, n, prefix);
      StepAgrees(p, prefix, RunTurns(p, n, prefix), turns[|turns| - 1]);
      assert prefix + [turns[|turns| - 1]] == turns;
    }
  }

  /**
   * The counters of a run are those of the push counts it read, and pulls plus drops have equalled the
   * last push count after every frame exactly when every count read was a new maximum.
   */
  lemma {:induction false} CountersFollowPushes(p: Params, n: Node, turns: seq<Turn>)
    requires FreshNode(n) && |turns| < TWO_64
    ensures |Pushes(turns)| <= |turns| && RunTurns(p, n, turns).counters == CountPushes(Pushes(turns))
    ensures ConservedThroughout(Pushes(turns)) <==> Increasing([0] + Pushes(turns))
  {
    if turns == [] {
      assert Pushes(turns) == [];
    } else {
      var prefix, t := turns[..|turns| - 1], turns[|turns| - 1];
      CountersFollowPushes(p, n, prefix);
      if ValidFrame(t) {
        assert Pushes(turns)[..|Pushes(prefix)|] == Pushes(prefix);
      } else {
        assert Pushes(turns) == Pushes(prefix);
      }
    }
    ConservedThroughoutIff(Pushes(turns));
  }

  /**
   * The loop's drop total for either backend: while push counts never go back, pulls plus drops
   * equal the last push count seen plus the number of repeated counts. A GStreamer push count may
   * repeat at any time, a V4L2 sequence number only after a wrap.
   */
  lemma DropTotal(p: Params, n: Node, turns: seq<Turn>)
    requires FreshNode(n) && |turns| < TWO_64 && NeverBack(Pushes(turns))
    ensures Balance(RunTurns(p, n, turns).counters, Pushes(turns))
  {
    CountersFollowPushes(p, n, turns);
    BalanceHolds(Pushes(turns));
  }
}
