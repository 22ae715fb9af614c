/** The HID control calls of the driver, on a camera behind its hidraw node. */
module HidControl {
  import opened Common
  import opened HidProtocol
  import opened HidHandshake

  /** The camera behind its hidraw node. */
  class Camera {
    var settings: Settings
    var inbox: seq<seq<byte>>          // reports not yet read, oldest first
    ghost var readLog: seq<ReadOutcome>  // every read so far
    ghost var faults: nat                // writes and waits that failed

    ghost predicate Valid()
      reads this
    {
      forall i :: 0 <= i < |inbox| ==> 1 <= |inbox[i]| <= HID_RESP
    }

    ghost function TheCam(): Cam
      reads this
    {
      Cam(settings, inbox)
    }

    /**
     * write(): fails, or the device takes the packet. It may refuse a camera request; it may send
     * unrelated reports around its reply, or lose the reply. Nothing is read yet.
     */
    method Write(cmd: array<byte>) returns (ok: bool, ghost e: Exchange)
      requires Valid() && cmd.Length == HID_PKT
      modifies `settings, `inbox, `faults
      ensures Valid() && faults == old(faults) + if ok then 0 else 1
      ensures Exchanged(old(TheCam()), cmd[..], e, TheCam()) && e.outcomes == []
      ensures !ok ==> TheCam() == old(TheCam())
    {
      ok := *;
      e := Exchange(false, [], -1, []);
      if !ok {
        faults := faults + 1;
        return;
      }
      var accepts: bool := *;
      if accepts {
        settings := Obey(settings, cmd[..]);
      }
      var before := Noise();
      var after := Noise();
      var replies: bool := *;
      var reply := MakeReply(cmd[1], cmd[2], settings, if accepts then SUCCESS else 0);
      var arrivals := if replies then before + [reply] + after else before + after;
      e := Exchange(accepts, arrivals, if replies then |before| else -1, []);
      inbox := inbox + arrivals;
    }

    // Any number of unrelated reports.
    method Noise() returns (noise: seq<seq<byte>>)
      ensures Clean(noise) && forall i :: 0 <= i < |noise| ==> 1 <= |noise[i]| <= HID_RESP
    {
      noise := [];
      var count: int := *;
      while count > 0
        invariant Clean(noise) && forall i :: 0 <= i < |noise| ==> 1 <= |noise[i]| <= HID_RESP
      {
        var report: seq<byte> := *;
        if 1 <= |report| <= HID_RESP && Unrelated(report) {
          noise := noise + [report];
        }
        count := count - 1;
      }
    }

    method Select() returns (ready: bool)
      modifies `faults
      ensures faults == old(faults) + if ready then 0 else 1
    {
      ready := *;
      faults := faults + if ready then 0 else 1;
    }

    /** read(): the oldest report, or nothing yet, or an error. A short report overwrites only its length. */
    method Read(buf: array<byte>) returns (r: ReadOutcome)
      requires Valid() && buf.Length == HID_RESP
      modifies `inbox, `readLog, buf
      ensures Valid() && readLog == old(readLog) + [r]
      ensures old(inbox) == (if r.Data? then [r.report] else []) + inbox
      ensures r.Data? ==> 1 <= |r.report| <= HID_RESP && buf[..] == r.report + old(buf[..])[|r.report|..]
      ensures !r.Data? ==> buf[..] == old(buf[..])
    {
      var delivers: bool := *;
      if delivers && inbox != [] {
        var report := inbox[0];
        r := Data(report);
        inbox := inbox[1..];
        forall i | 0 <= i < |report| {
          buf[i] := report[i];
        }
      } else {
        var fails: bool := *;
        r := if fails then Failed else WouldBlock;
      }
      readLog := readLog + [r];
    }
  }

  // The retry loop of a request: reads until the scan of the outcomes ends.
  method ReadMatching(camera: Camera, h0: byte, h1: byte, resp: array<byte>)
    returns (ok: bool, ghost rs: seq<ReadOutcome>)
    requires camera.Valid() && resp.Length == HID_RESP
    modifies camera`inbox, camera`readLog, resp
    ensures camera.Valid() && camera.readLog == old(camera.readLog) + rs
    ensures Scan(rs, h0, h1, RETRIES) == if ok then Matched(resp[..]) else GaveUp
    ensures Stops(rs, h0, h1)
    ensures old(camera.inbox) == Reports(rs) + camera.inbox
  {
    rs := [];
    for i := 0 to RETRIES
      invariant camera.Valid()
      invariant |rs| == i && camera.readLog == old(camera.readLog) + rs
      invariant forall j :: 0 <= j < |rs| ==> Skippable(rs[j], h0, h1)
      invariant Stops(rs, h0, h1)
      invariant old(camera.inbox) == Reports(rs) + camera.inbox
    {
      ghost var left := camera.inbox;
      var r := camera.Read(resp);
      ScanSnoc(rs, r, h0, h1, RETRIES);
      ScanUnfinished(rs, h0, h1, RETRIES);
      assert (rs + [r])[..|rs|] == rs;
      ReadOne(old(camera.inbox), rs, r, left, camera.inbox);
      rs := rs + [r];
      if r.Data? {
        assert resp[..|r.report|] == r.report;
      }
      if r.Data? && |r.report| == HID_RESP && resp[0] == h0 && resp[1] == h1 {
        return true, rs;
      }
      if r.WouldBlock? {
        continue;
      }
      if r.Data? {
        continue;
      }
      return false, rs;
    }
    ScanExhausted(rs, h0, h1, RETRIES);
    return false, rs;
  }

  /**
   * One request and its reply: true exactly when the packet was sent, the device became ready, and
   * the scan of at most ten reads matched; `resp` is then exactly the matching report.
   */
  method WriteRead(camera: Camera, cmd: array<byte>, resp: array<byte>) returns (ok: bool, ghost e: Exchange)
    requires camera.Valid() && cmd.Length == HID_PKT && resp.Length == HID_RESP && cmd != resp
    modifies camera, resp
    ensures camera.Valid() && camera.readLog == old(camera.readLog) + e.outcomes
    ensures Made(old(camera.TheCam()), cmd[..], e, camera.TheCam(), false)
    ensures camera.faults == old(camera.faults) ==> Scan(e.outcomes, cmd[1], cmd[2], RETRIES) != Unfinished
    ensures camera.faults != old(camera.faults) ==> camera.faults > old(camera.faults) && e.outcomes == []
    ensures ok <==> camera.faults == old(camera.faults) && Scan(e.outcomes, cmd[1], cmd[2], RETRIES).Matched?
    ensures ok ==> resp[..] == Scan(e.outcomes, cmd[1], cmd[2], RETRIES).report
  {
    ok, e := camera.Write(cmd);
    if !ok {
      return;
    }
    ok := camera.Select();
    if !ok {
      return;
    }
    ghost var rs;
    ok, rs := ReadMatching(camera, cmd[1], cmd[2], resp);
    e := e.(outcomes := rs);
  }

  method ExposurePacket(exposureUs: uint32) returns (cmd: array<byte>)
    ensures fresh(cmd) && cmd[..] == ExposureCommand(exposureUs)
  {
    cmd := new byte[HID_PKT](_ => 0);
    cmd[1] := CAMERA_CONTROL;
    cmd[2] := SET_EXPOSURE;
    cmd[3] := ExposureByte(exposureUs, 0x100_0000);
    cmd[4] := ExposureByte(exposureUs, 0x1_0000);
    cmd[5] := ExposureByte(exposureUs, 0x100);
    cmd[6] := ExposureByte(exposureUs, 1);
  }

  method ModePacket(mode: byte, afl: byte) returns (cmd: array<byte>)
    ensures fresh(cmd) && cmd[..] == ModeCommand(mode, afl)
  {
    cmd := new byte[HID_PKT](_ => 0);
    cmd[1] := CAMERA_CONTROL;
    cmd[2] := SET_STREAM_MODE;
    cmd[3] := mode;
    cmd[4] := afl;
  }

  /** True exactly when sent and acknowledged; an acknowledgement that is not a stale one means obeyed. */
  method SetExposure(camera: Camera, exposureUs: uint32) returns (ok: bool, ghost e: Exchange)
    requires camera.Valid()
    modifies camera
    ensures camera.Valid() && camera.readLog == old(camera.readLog) + e.outcomes
    ensures Made(old(camera.TheCam()), ExposureCommand(exposureUs), e, camera.TheCam(), false)
    ensures camera.faults == old(camera.faults) ==>
              Scan(e.outcomes, CAMERA_CONTROL, SET_EXPOSURE, RETRIES) != Unfinished
    ensures camera.faults >= old(camera.faults)
    ensures ok <==> camera.faults == old(camera.faults) && Acked(e.outcomes, SET_EXPOSURE)
    ensures ok && !StaleAck(old(camera.inbox), SET_EXPOSURE) ==>
              camera.settings == old(camera.settings).(exposure := exposureUs) && Clean(camera.inbox)
  {
    var cmd := ExposurePacket(exposureUs);
    CommandsObeyed(camera.settings, exposureUs, 0, 0);
    var resp := new byte[HID_RESP](_ => 0);
    ghost var before := camera.TheCam();
    ok, e := WriteRead(camera, cmd, resp);
    if !ok {
      return;
    }
    ok := resp[6] == SUCCESS;
    if ok && !StaleAck(before.inbox, SET_EXPOSURE) {
      AckIsReply(before, ExposureCommand(exposureUs), e, camera.TheCam());
    }
  }

  method SetStreamMode(camera: Camera, mode: byte, afl: byte) returns (ok: bool, ghost e: Exchange)
    requires camera.Valid()
    modifies camera
    ensures camera.Valid() && camera.readLog == old(camera.readLog) + e.outcomes
    ensures Made(old(camera.TheCam()), ModeCommand(mode, afl), e, camera.TheCam(), false)
    ensures camera.faults == old(camera.faults) ==>
              Scan(e.outcomes, CAMERA_CONTROL, SET_STREAM_MODE, RETRIES) != Unfinished
    ensures camera.faults >= old(camera.faults)
    ensures ok <==> camera.faults == old(camera.faults) && Acked(e.outcomes, SET_STREAM_MODE)
    ensures ok && !StaleAck(old(camera.inbox), SET_STREAM_MODE) ==>
              camera.settings == old(camera.settings).(mode := mode, afl := afl) && Clean(camera.inbox)
  {
    var cmd := ModePacket(mode, afl);
    CommandsObeyed(camera.settings, 0, mode, afl);
    var resp := new byte[HID_RESP](_ => 0);
    ghost var before := camera.TheCam();
    ok, e := WriteRead(camera, cmd, resp);
    if !ok {
      return;
    }
    ok := resp[6] == SUCCESS;
    if ok && !StaleAck(before.inbox, SET_STREAM_MODE) {
      AckIsReply(before, ModeCommand(mode, afl), e, camera.TheCam());
    }
  }

  /** The out-parameters keep their values unless a reply matched; on a clean channel they are the device's. */
  method GetStreamMode(camera: Camera, mode0: byte, afl0: byte)
    returns (ok: bool, mode: byte, afl: byte, ghost e: Exchange)
    requires camera.Valid()
    modifies camera
    ensures camera.Valid() && camera.readLog == old(camera.readLog) + e.outcomes
    ensures Made(old(camera.TheCam()), QueryCommand(), e, camera.TheCam(), false)
    ensures camera.settings == old(camera.settings)
    ensures camera.faults == old(camera.faults) ==>
              Scan(e.outcomes, CAMERA_CONTROL, GET_STREAM_MODE, RETRIES) != Unfinished
    ensures camera.faults >= old(camera.faults)
    ensures ok <==> camera.faults == old(camera.faults) && Acked(e.outcomes, GET_STREAM_MODE)
    ensures var r := Scan(e.outcomes, CAMERA_CONTROL, GET_STREAM_MODE, RETRIES);
            (mode, afl) == if camera.faults == old(camera.faults) && r.Matched?
                           then (r.report[2], r.report[3]) else (mode0, afl0)
    ensures camera.faults == old(camera.faults) && Clean(old(camera.inbox)) ==>
              Scan(e.outcomes, CAMERA_CONTROL, GET_STREAM_MODE, RETRIES).Matched? ==>
                mode == camera.settings.mode && afl == camera.settings.afl && Clean(camera.inbox)
  {
    var cmd := new byte[HID_PKT](_ => 0);
    cmd[1] := CAMERA_CONTROL;
    cmd[2] := GET_STREAM_MODE;
    assert cmd[..] == QueryCommand();
    CommandsObeyed(camera.settings, 0, 0, 0);
    var resp := new byte[HID_RESP](_ => 0);
    mode, afl := mode0, afl0;
    ghost var before := camera.TheCam();
    ok, e := WriteRead(camera, cmd, resp);
    if !ok {
      return;
    }
    mode := resp[2];
    afl := resp[3];
    ok := resp[6] == SUCCESS;
    if Clean(before.inbox) {
      MatchIsReply(before, QueryCommand(), e, camera.TheCam());
    }
  }

  // Every read but the last gave data.
  ghost predicate Drained(rs: seq<ReadOutcome>) {
    && rs != [] && !rs[|rs| - 1].Data?
    && forall i :: 0 <= i < |rs| - 1 ==> rs[i].Data?
  }

  /** Reads until a read gives no data; what was read and what is left are what was there. */
  method Drain(camera: Camera) returns (ghost rs: seq<ReadOutcome>)
    requires camera.Valid()
    modifies camera`inbox, camera`readLog
    ensures camera.Valid() && camera.readLog == old(camera.readLog) + rs
    ensures Drained(rs) && old(camera.inbox) == Reports(rs) + camera.inbox
  {
    var junk := new byte[HID_RESP](_ => 0);
    var drained := 0;
    rs := [];
    var more := true;
    while more
      invariant camera.Valid() && camera.readLog == old(camera.readLog) + rs
      invariant if more then forall i :: 0 <= i < |rs| ==> rs[i].Data? else Drained(rs)
      invariant old(camera.inbox) == Reports(rs) + camera.inbox
      decreases |camera.inbox|, more
    {
      ghost var left := camera.inbox;
      var r := camera.Read(junk);
      ReadOne(old(camera.inbox), rs, r, left, camera.inbox);
      rs := rs + [r];
      more := r.Data?;
      if more {
        drained := drained + 1;
      }
    }
  }

  /** Drains, announces the operating system, and gives the device three chances to say something. */
  method Init(camera: Camera) returns (ok: bool, ghost r0: seq<ReadOutcome>, ghost e: Exchange)
    requires camera.Valid()
    modifies camera
    ensures camera.Valid() && camera.readLog == old(camera.readLog) + r0 + e.outcomes
    ensures Drained(r0) && Reports(r0) <= old(camera.inbox)
    ensures Made(Cam(old(camera.settings), old(camera.inbox)[|Reports(r0)|..]), OsCommand(), e, camera.TheCam(), true)
    ensures ok <==> camera.faults == old(camera.faults)
    ensures camera.faults >= old(camera.faults)
    ensures |e.outcomes| == if ok then WAKE_READS else 0
  {
    r0 := Drain(camera);
    ghost var before := camera.TheCam();
    var out := new byte[HID_PKT](_ => 0);
    out[1] := OS_CODE;
    out[2] := LINUX_OS;
    assert out[..] == OsCommand();
    ok, e := camera.Write(out);
    if !ok {
      return;
    }
    ghost var rs, after := [], camera.settings;
    for attempt := 0 to WAKE_READS
      invariant camera.Valid() && camera.readLog == old(camera.readLog) + r0 + rs && |rs| == attempt
      invariant camera.settings == after && camera.faults == old(camera.faults)
      invariant before.inbox + e.arrived == Reports(rs) + camera.inbox
    {
      var reply := new byte[HID_RESP](_ => 0);
      ghost var left := camera.inbox;
      var r := camera.Read(reply);
      ReadOne(before.inbox + e.arrived, rs, r, left, camera.inbox);
      rs := rs + [r];
    }
    e := e.(outcomes := rs);
  }

  // The exchanges since `log` lead to the device as it is now.
  ghost predicate Traced(camera: Camera, x: uint32, afl: byte, log: seq<ReadOutcome>, cams: seq<Cam>, es: seq<Exchange>)
    reads camera
  {
    && camera.Valid() && camera.readLog == log + Outcomes(es)
    && Handshake(x, afl, cams, es) && cams[|es|] == camera.TheCam()
  }

  /** The first half of the handshake: drains, wakes the device up and sets the exposure. */
  method WakeAndExpose(camera: Camera, exposureUs: uint32, ghost afl: byte)
    returns (ok: bool, ghost r0: seq<ReadOutcome>, ghost cams: seq<Cam>, ghost es: seq<Exchange>)
    requires camera.Valid()
    modifies camera
    ensures Drained(r0) && Reports(r0) <= old(camera.inbox)
    ensures Traced(camera, exposureUs, afl, old(camera.readLog) + r0, cams, es)
    ensures cams[0] == Cam(old(camera.settings), old(camera.inbox)[|Reports(r0)|..])
    ensures camera.faults >= old(camera.faults)
    ensures camera.faults == old(camera.faults) ==> |es| == 2 && |es[0].outcomes| == WAKE_READS
    ensures ok <==> camera.faults == old(camera.faults) && |es| == 2 && Acked(es[1].outcomes, SET_EXPOSURE)
  {
    ghost var e;
    ok, r0, e := Init(camera);
    ghost var log := old(camera.readLog) + r0;
    ghost var start := Cam(old(camera.settings), old(camera.inbox)[|Reports(r0)|..]);
    FirstOne(exposureUs, afl, start, e, camera.TheCam(), log);
    cams, es := [start, camera.TheCam()], [e];
    if !ok {
      return;
    }
    ghost var before := camera.readLog;
    ok, e := SetExposure(camera, exposureUs);
    OneMore(exposureUs, afl, cams, es, e, camera.TheCam(), log, before);
    cams, es := cams + [camera.TheCam()], es + [e];
  }

  /** The second half of the handshake: selects trigger mode and reads it back. */
  method SelectTrigger(camera: Camera, ghost x: uint32, aflMode: byte, ghost log: seq<ReadOutcome>,
                       ghost cams0: seq<Cam>, ghost es0: seq<Exchange>)
    returns (ok: bool, ghost cams: seq<Cam>, ghost es: seq<Exchange>)
    requires Traced(camera, x, aflMode, log, cams0, es0) && |es0| == 2 && |es0[0].outcomes| == WAKE_READS
    modifies camera
    ensures Traced(camera, x, aflMode, log, cams, es) && cams0 <= cams && es0 <= es
    ensures camera.faults >= old(camera.faults)
    ensures camera.faults == old(camera.faults) ==>
              3 <= |es| <= 4 && (|es| == 4 <==> Acked(es[2].outcomes, SET_STREAM_MODE))
    ensures ok <==> camera.faults == old(camera.faults) && |es| == 4
                    && Acked(es[2].outcomes, SET_STREAM_MODE) && ReadsTrigger(es[3].outcomes)
  {
    ghost var e;
    ghost var before := camera.readLog;
    ok, e := SetStreamMode(camera, TRIGGER, aflMode);
    OneMore(x, aflMode, cams0, es0, e, camera.TheCam(), log, before);
    cams, es := cams0 + [camera.TheCam()], es0 + [e];
    if !ok {
      return;
    }
    before := camera.readLog;
    var mode, afl, got;
    got, mode, afl, e := GetStreamMode(camera, 0, 0);
    OneMore(x, aflMode, cams, es, e, camera.TheCam(), log, before);
    cams, es := cams + [camera.TheCam()], es + [e];
    ok := mode == TRIGGER;
  }

  /**
   * The whole handshake, as far as it gets: true exactly when nothing failed, both settings were
   * acknowledged and the mode read back as trigger. The device then has the exposure, the trigger
   * mode and the AFL mode asked for, unless the reports the drain left can deceive it.
   */
  method OpenAndInitTrigger(camera: Camera, opens: bool, exposureUs: uint32, aflMode: byte)
    returns (ok: bool, ghost r0: seq<ReadOutcome>, ghost cams: seq<Cam>, ghost es: seq<Exchange>)
    requires camera.Valid()
    modifies camera
    ensures !opens ==> !ok && unchanged(camera)
    ensures opens ==> Drained(r0) && Reports(r0) <= old(camera.inbox)
    ensures opens ==> Traced(camera, exposureUs, aflMode, old(camera.readLog) + r0, cams, es)
    ensures opens ==> cams[0] == Cam(old(camera.settings), old(camera.inbox)[|Reports(r0)|..])
    ensures opens && camera.faults == old(camera.faults) ==> InStep(es)
    ensures ok <==> opens && camera.faults == old(camera.faults) && Confirmed(es)
    ensures ok && !Deceivable(old(camera.inbox)[|Reports(r0)|..]) ==>
              camera.settings == Settings(TRIGGER, aflMode, exposureUs) && Clean(camera.inbox)
  {
    ok, r0, cams, es := false, [], [], [];
    if !opens {
      return;
    }
    ok, r0, cams, es := WakeAndExpose(camera, exposureUs, aflMode);
    if !ok {
      return;
    }
    ghost var log := old(camera.readLog) + r0;
    ok, cams, es := SelectTrigger(camera, exposureUs, aflMode, log, cams, es);
    if ok && !Deceivable(cams[0].inbox) {
      HandshakeSound(exposureUs, aflMode, cams, es);
    }
  }
}
