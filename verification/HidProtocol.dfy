/**
 * The camera's HID control channel on values: framed commands, noisy replies, a bounded matching retry,
 * and what one request can do to the device and to the reports on their way.
 */
module HidProtocol {
  import opened Common

  const CAMERA_CONTROL: byte := 0xA8
  const GET_STREAM_MODE: byte := 0x1B
  const SET_STREAM_MODE: byte := 0x1C
  const OS_CODE: byte := 0x70
  const LINUX_OS: byte := 0x01
  const SET_EXPOSURE: byte := 0x12
  const SUCCESS: byte := 0x01
  const TRIGGER: byte := 0x01
  const HID_PKT: nat := 65
  const HID_RESP: nat := 64
  const RETRIES: nat := 10
  const WAKE_READS: nat := 3

  /** What one read() of the hidraw device gives. */
  datatype ReadOutcome =
    | Data(report: seq<byte>)   // n > 0 bytes, at most 64
    | WouldBlock                // EAGAIN
    | Failed                    // end of file or another error

  predicate Matches(report: seq<byte>, h0: byte, h1: byte) {
    |report| == HID_RESP && report[0] == h0 && report[1] == h1
  }

  datatype ScanResult = Matched(report: seq<byte>) | GaveUp | Unfinished

  /** The retry loop over a stream of read outcomes. */
  function Scan(rs: seq<ReadOutcome>, h0: byte, h1: byte, tries: nat): (r: ScanResult)
    ensures r.Matched? ==> Matches(r.report, h0, h1) && Data(r.report) in rs
    decreases tries
  {
    if tries == 0 then GaveUp
    else if rs == [] then Unfinished
    else
      match rs[0]
      case Data(report) => if Matches(report, h0, h1) then Matched(report) else Scan(rs[1..], h0, h1, tries - 1)
      case WouldBlock => Scan(rs[1..], h0, h1, tries - 1)
      case Failed => GaveUp
  }

  // The reply to a camera request, as the scan finds it, reports success.
  predicate Acked(rs: seq<ReadOutcome>, h1: byte) {
    var r := Scan(rs, CAMERA_CONTROL, h1, RETRIES);
    r.Matched? && r.report[6] == SUCCESS
  }

  // The reply to the mode query, as the scan finds it, shows trigger mode.
  predicate ReadsTrigger(rs: seq<ReadOutcome>) {
    var r := Scan(rs, CAMERA_CONTROL, GET_STREAM_MODE, RETRIES);
    r.Matched? && r.report[2] == TRIGGER
  }

  predicate Skippable(r: ReadOutcome, h0: byte, h1: byte) {
    match r
    case Data(report) => !Matches(report, h0, h1)
    case WouldBlock => true
    case Failed => false
  }

  // Outcome k is the first full report with the echoed header, and everything before it is skipped.
  ghost predicate FirstMatch(rs: seq<ReadOutcome>, h0: byte, h1: byte, k: nat, report: seq<byte>) {
    && k < |rs| && rs[k] == Data(report) && Matches(report, h0, h1)
    && forall j :: 0 <= j < k ==> Skippable(rs[j], h0, h1)
  }

  /** The scan finds a report exactly when one of the first `tries` outcomes is the first match. */
  lemma {:induction false} ScanIff(rs: seq<ReadOutcome>, h0: byte, h1: byte, tries: nat, report: seq<byte>)
    ensures Scan(rs, h0, h1, tries) == Matched(report)
            <==> exists k: nat :: k < tries && FirstMatch(rs, h0, h1, k, report)
    decreases tries
  {
    if tries > 0 && rs != [] && Skippable(rs[0], h0, h1) {
      ScanIff(rs[1..], h0, h1, tries - 1, report);
      forall k: nat | k < tries - 1 && FirstMatch(rs[1..], h0, h1, k, report)
        ensures FirstMatch(rs, h0, h1, k + 1, report)
      {
      }
      forall k: nat | k < tries && FirstMatch(rs, h0, h1, k, report)
        ensures k > 0 && FirstMatch(rs[1..], h0, h1, k - 1, report)
      {
        assert k > 0;
      }
    } else if tries > 0 && rs != [] && Scan(rs, h0, h1, tries).Matched? {
      assert FirstMatch(rs, h0, h1, 0, Scan(rs, h0, h1, tries).report);
      assert forall k: nat :: FirstMatch(rs, h0, h1, k, report) ==> k == 0;
    } else {
      assert forall k: nat :: k < tries ==> !FirstMatch(rs, h0, h1, k, report);
    }
  }

  /** A finished scan does not depend on what would have been read afterwards. */
  lemma {:induction false} ScanPrefix(rs: seq<ReadOutcome>, more: seq<ReadOutcome>, h0: byte, h1: byte, tries: nat)
    requires Scan(rs, h0, h1, tries) != Unfinished
    ensures Scan(rs + more, h0, h1, tries) == Scan(rs, h0, h1, tries)
    decreases tries
  {
    if tries > 0 && Skippable(rs[0], h0, h1) {
      assert (rs + more)[1..] == rs[1..] + more;
      ScanPrefix(rs[1..], more, h0, h1, tries - 1);
    }
  }

  // One more outcome at the end of a stream of skipped ones.
  lemma {:induction false} ScanSnoc(rs: seq<ReadOutcome>, r: ReadOutcome, h0: byte, h1: byte, tries: nat)
    requires |rs| < tries && forall j :: 0 <= j < |rs| ==> Skippable(rs[j], h0, h1)
    ensures Scan(rs + [r], h0, h1, tries) == Scan([r], h0, h1, tries - |rs|)
    decreases tries
  {
    if rs != [] {
      assert (rs + [r])[1..] == rs[1..] + [r];
      ScanSnoc(rs[1..], r, h0, h1, tries - 1);
    } else {
      assert rs + [r] == [r];
    }
  }

  lemma {:induction false} ScanExhausted(rs: seq<ReadOutcome>, h0: byte, h1: byte, tries: nat)
    requires |rs| == tries && forall j :: 0 <= j < |rs| ==> Skippable(rs[j], h0, h1)
    ensures Scan(rs, h0, h1, tries) == GaveUp
  {
    if tries > 0 {
      ScanExhausted(rs[1..], h0, h1, tries - 1);
    }
  }

  lemma {:induction false} ScanUnfinished(rs: seq<ReadOutcome>, h0: byte, h1: byte, tries: nat)
    requires |rs| < tries && forall j :: 0 <= j < |rs| ==> Skippable(rs[j], h0, h1)
    ensures Scan(rs, h0, h1, tries) == Unfinished
  {
    if rs != [] {
      ScanUnfinished(rs[1..], h0, h1, tries - 1);
    }
  }

  // Nothing is read once the scan has ended.
  predicate Stops(rs: seq<ReadOutcome>, h0: byte, h1: byte) {
    rs == [] || Scan(rs[..|rs| - 1], h0, h1, RETRIES) == Unfinished
  }

  /** The reports among the outcomes of some reads, in order. */
  function Reports(rs: seq<ReadOutcome>): seq<seq<byte>> {
    if rs == [] then [] else (if rs[0].Data? then [rs[0].report] else []) + Reports(rs[1..])
  }

  lemma {:induction false} ReportsSnoc(rs: seq<ReadOutcome>, r: ReadOutcome)
    ensures Reports(rs + [r]) == Reports(rs) + if r.Data? then [r.report] else []
  {
    if rs == [] {
      assert rs + [r] == [r] && [r][1..] == [];
    } else {
      ReportsSnoc(rs[1..], r);
      assert (rs + [r])[1..] == rs[1..] + [r];
    }
  }

  // One more read of what is left over.
  lemma ReadOne(all: seq<seq<byte>>, rs: seq<ReadOutcome>, r: ReadOutcome, left: seq<seq<byte>>, rest: seq<seq<byte>>)
    requires all == Reports(rs) + left && left == (if r.Data? then [r.report] else []) + rest
    ensures all == Reports(rs + [r]) + rest
  {
    ReportsSnoc(rs, r);
  }

  lemma {:induction false} FewReports(rs: seq<ReadOutcome>)
    ensures |Reports(rs)| <= |rs|
  {
    if rs != [] {
      FewReports(rs[1..]);
    }
  }

  function AsData(reports: seq<seq<byte>>): (rs: seq<ReadOutcome>)
    ensures |rs| == |reports| && forall i :: 0 <= i < |rs| ==> rs[i] == Data(reports[i])
  {
    seq(|reports|, i requires 0 <= i < |reports| => Data(reports[i]))
  }

  lemma {:induction false} ReportsAsData(reports: seq<seq<byte>>)
    ensures Reports(AsData(reports)) == reports
  {
    if reports != [] {
      ReportsAsData(reports[1..]);
      assert AsData(reports)[1..] == AsData(reports[1..]);
      assert reports == [reports[0]] + reports[1..];
    }
  }

  // Report m is the first reply to request h1.
  ghost predicate FirstReply(reports: seq<seq<byte>>, h1: byte, m: nat) {
    && m < |reports| && Matches(reports[m], CAMERA_CONTROL, h1)
    && forall j :: 0 <= j < m ==> !Matches(reports[j], CAMERA_CONTROL, h1)
  }

  // One more report in front of the first reply.
  lemma LaterReply(reports: seq<seq<byte>>, report: seq<byte>, h1: byte, m: nat)
    requires FirstReply(reports, h1, m) && !Matches(report, CAMERA_CONTROL, h1)
    ensures FirstReply([report] + reports, h1, m + 1)
  {
  }

  /** The scan's report is the first reply among the reports read, and it is among the first `tries`. */
  lemma {:induction false} ScanReport(rs: seq<ReadOutcome>, h1: byte, tries: nat) returns (m: nat)
    requires Scan(rs, CAMERA_CONTROL, h1, tries).Matched?
    ensures m < tries && FirstReply(Reports(rs), h1, m)
    ensures Reports(rs)[m] == Scan(rs, CAMERA_CONTROL, h1, tries).report
    decreases tries
  {
    if Skippable(rs[0], CAMERA_CONTROL, h1) {
      m := ScanReport(rs[1..], h1, tries - 1);
      if rs[0].Data? {
        LaterReply(Reports(rs[1..]), rs[0].report, h1, m);
        m := m + 1;
      } else {
        assert Reports(rs) == Reports(rs[1..]);
      }
    } else {
      m := 0;
    }
  }

  lemma EarlierReply(reports: seq<seq<byte>>, report: seq<byte>, h1: byte, m: nat)
    requires FirstReply([report] + reports, h1, m) && !Matches(report, CAMERA_CONTROL, h1)
    ensures m > 0 && FirstReply(reports, h1, m - 1)
  {
    var all := [report] + reports;
    assert all[m] == reports[m - 1];
    assert forall j :: 0 <= j < m - 1 ==> reports[j] == all[j + 1];
  }

  lemma ReportsCons(rs: seq<ReadOutcome>)
    requires rs != []
    ensures Reports(rs) == if rs[0].Data? then [rs[0].report] + Reports(rs[1..]) else Reports(rs[1..])
  {
  }

  // A scan that stops at its match has read nothing after the reply.
  lemma {:induction false} MatchIsLast(rs: seq<ReadOutcome>, h1: byte, tries: nat, m: nat)
    requires Scan(rs, CAMERA_CONTROL, h1, tries).Matched?
    requires Scan(rs[..|rs| - 1], CAMERA_CONTROL, h1, tries) == Unfinished && FirstReply(Reports(rs), h1, m)
    ensures |Reports(rs)| == m + 1
    decreases tries
  {
    ReportsCons(rs);
    if |rs| == 1 {
      assert rs[1..] == [];
    } else {
      var prefix := rs[..|rs| - 1];
      assert prefix[0] == rs[0] && prefix[1..] == rs[1..][..|rs[1..]| - 1];
      assert Skippable(rs[0], CAMERA_CONTROL, h1);
      if rs[0].Data? {
        EarlierReply(Reports(rs[1..]), rs[0].report, h1, m);
        MatchIsLast(rs[1..], h1, tries - 1, m - 1);
      } else {
        MatchIsLast(rs[1..], h1, tries - 1, m);
      }
    }
  }

  // Reading the reports up to and including the first reply finds it, and no read is made after that.
  lemma ScanAsData(reports: seq<seq<byte>>, h1: byte)
    requires 0 < |reports| <= RETRIES && FirstReply(reports, h1, |reports| - 1)
    ensures Scan(AsData(reports), CAMERA_CONTROL, h1, RETRIES) == Matched(reports[|reports| - 1])
    ensures Stops(AsData(reports), CAMERA_CONTROL, h1)
  {
    var rs, m := AsData(reports), |reports| - 1;
    assert FirstMatch(rs, CAMERA_CONTROL, h1, m, reports[m]);
    ScanIff(rs, CAMERA_CONTROL, h1, RETRIES, reports[m]);
    ScanUnfinished(rs[..m], CAMERA_CONTROL, h1, RETRIES);
  }

  /** Big-endian exposure bytes: shift and mask. */
  function ExposureByte(x: uint32, shift: nat): byte
    requires shift in {1, 0x100, 0x1_0000, 0x100_0000}
  {
    (x / shift % 256) as byte
  }

  function DecodeExposure(b0: byte, b1: byte, b2: byte, b3: byte): uint32 {
    b0 as int * 0x100_0000 + b1 as int * 0x1_0000 + b2 as int * 0x100 + b3 as int
  }

  /** The device decodes exactly the exposure the driver encoded, for every 32-bit value. */
  lemma ExposureRoundTrip(x: uint32)
    ensures DecodeExposure(ExposureByte(x, 0x100_0000), ExposureByte(x, 0x1_0000),
                           ExposureByte(x, 0x100), ExposureByte(x, 1)) == x
  {
    var a := x / 0x100;
    var b := a / 0x100;
    var c := b / 0x100;
    assert x / 0x1_0000 == b && x / 0x100_0000 == c;
    assert c < 256 && c % 256 == c;
    assert b == c * 256 + b % 256 && a == b * 256 + a % 256 && x == a * 256 + x % 256;
  }

  /** The device's own state. */
  datatype Settings = Settings(mode: byte, afl: byte, exposure: uint32)

  // A request as the device sees it.
  predicate IsRequest(h1: byte) {
    h1 == SET_EXPOSURE || h1 == SET_STREAM_MODE || h1 == GET_STREAM_MODE
  }

  /** What a command packet makes of the device's state when it is accepted. */
  function Obey(s: Settings, cmd: seq<byte>): Settings
    requires |cmd| == HID_PKT
  {
    if cmd[1] != CAMERA_CONTROL then s
    else if cmd[2] == SET_EXPOSURE then s.(exposure := DecodeExposure(cmd[3], cmd[4], cmd[5], cmd[6]))
    else if cmd[2] == SET_STREAM_MODE then s.(mode := cmd[3], afl := cmd[4])
    else s
  }

  /** A packet: report number 0, the given bytes, zeros. */
  function Packet(bytes: seq<byte>): (cmd: seq<byte>)
    requires |bytes| < HID_PKT
    ensures |cmd| == HID_PKT
  {
    [0] + bytes + seq(HID_PKT - 1 - |bytes|, i => 0)
  }

  function OsCommand(): seq<byte> {
    Packet([OS_CODE, LINUX_OS])
  }

  function ExposureCommand(x: uint32): seq<byte> {
    Packet([CAMERA_CONTROL, SET_EXPOSURE, ExposureByte(x, 0x100_0000), ExposureByte(x, 0x1_0000),
            ExposureByte(x, 0x100), ExposureByte(x, 1)])
  }

  function ModeCommand(mode: byte, afl: byte): seq<byte> {
    Packet([CAMERA_CONTROL, SET_STREAM_MODE, mode, afl])
  }

  function QueryCommand(): seq<byte> {
    Packet([CAMERA_CONTROL, GET_STREAM_MODE])
  }

  /** What the device makes of each packet the driver builds. */
  lemma CommandsObeyed(s: Settings, x: uint32, mode: byte, afl: byte)
    ensures Obey(s, OsCommand()) == s && Obey(s, QueryCommand()) == s
    ensures Obey(s, ExposureCommand(x)) == s.(exposure := x)
    ensures Obey(s, ModeCommand(mode, afl)) == s.(mode := mode, afl := afl)
  {
    ExposureRoundTrip(x);
  }

  function MakeReply(h0: byte, h1: byte, s: Settings, status: byte): seq<byte> {
    [h0, h1, s.mode, s.afl, 0, 0, status] + seq(HID_RESP - 7, i => 0)
  }

  // Not a reply to any of the three camera requests.
  predicate Unrelated(report: seq<byte>) {
    !(|report| == HID_RESP && report[0] == CAMERA_CONTROL && IsRequest(report[1]))
  }

  /** A truthful reply: header echoed, status tells whether the request was accepted, mode as it is. */
  predicate Faithful(reply: seq<byte>, cmd: seq<byte>, accepted: bool, s: Settings)
    requires |cmd| == HID_PKT
  {
    && |reply| == HID_RESP && reply[0] == cmd[1] && reply[1] == cmd[2]
    && (reply[6] == SUCCESS <==> accepted)
    && (cmd[2] == GET_STREAM_MODE ==> reply[2] == s.mode && reply[3] == s.afl)
  }

  ghost predicate Clean(inbox: seq<seq<byte>>) {
    forall i :: 0 <= i < |inbox| ==> Unrelated(inbox[i])
  }

  // At most one report, at position `at`, is not unrelated.
  ghost predicate CleanBut(inbox: seq<seq<byte>>, at: int) {
    forall i :: 0 <= i < |inbox| && i != at ==> Unrelated(inbox[i])
  }

  /** The device and the reports on their way to the host, oldest first. */
  datatype Cam = Cam(settings: Settings, inbox: seq<seq<byte>>)

  /** One request: whether the device took it, what it sent, which of that is the reply, and every read. */
  datatype Exchange = Exchange(accepted: bool, arrived: seq<seq<byte>>, at: int, outcomes: seq<ReadOutcome>)

  /**
   * What one request can do: only an accepted command changes the settings; at most one arrival is
   * the reply, and it is truthful; reports are read in the order they were sent.
   */
  ghost predicate Exchanged(c: Cam, cmd: seq<byte>, e: Exchange, c': Cam)
    requires |cmd| == HID_PKT
  {
    && c'.settings == (if e.accepted then Obey(c.settings, cmd) else c.settings)
    && CleanBut(e.arrived, e.at)
    && (0 <= e.at < |e.arrived| ==> Faithful(e.arrived[e.at], cmd, e.accepted, c'.settings))
    && c.inbox + e.arrived == Reports(e.outcomes) + c'.inbox
  }

  // The first reply among the reports a scan can reach is an old one, and positive.
  ghost predicate StaleAck(inbox: seq<seq<byte>>, h1: byte) {
    exists m: nat :: m < RETRIES && FirstReply(inbox, h1, m) && inbox[m][6] == SUCCESS
  }

  predicate IsSetter(cmd: seq<byte>) {
    |cmd| == HID_PKT && cmd[1] == CAMERA_CONTROL && (cmd[2] == SET_EXPOSURE || cmd[2] == SET_STREAM_MODE)
  }

  /** Every acknowledgement of this request that can follow these leftover reports is the device's own. */
  ghost predicate AckMeansAccepted(inbox: seq<seq<byte>>, cmd: seq<byte>)
    requires IsSetter(cmd)
  {
    forall s, e, c' :: Exchanged(Cam(s, inbox), cmd, e, c') && Acked(e.outcomes, cmd[2]) ==> e.accepted
  }

  // The first reply read is an old report, or one of this request's arrivals with only later arrivals left.
  lemma ReplyPlace(inbox: seq<seq<byte>>, arrived: seq<seq<byte>>, got: seq<seq<byte>>, rest: seq<seq<byte>>,
                   h1: byte, m: nat)
    requires inbox + arrived == got + rest && FirstReply(got, h1, m)
    ensures m < |inbox| ==> FirstReply(inbox, h1, m) && inbox[m] == got[m]
    ensures m >= |inbox| ==> m - |inbox| < |arrived| && arrived[m - |inbox|] == got[m]
    ensures m >= |inbox| ==> rest == arrived[|got| - |inbox|..]
  {
    var all := inbox + arrived;
    assert forall j :: 0 <= j < |got| ==> got[j] == all[j];
    assert rest == all[|got|..];
    assert forall j :: 0 <= j < |inbox| ==> inbox[j] == all[j];
  }

  // A first reply that was not there before is the device's answer, and what is left is unrelated.
  lemma NewReply(c: Cam, cmd: seq<byte>, e: Exchange, c': Cam, m: nat)
    requires |cmd| == HID_PKT && cmd[1] == CAMERA_CONTROL && IsRequest(cmd[2])
    requires Exchanged(c, cmd, e, c') && FirstReply(Reports(e.outcomes), cmd[2], m) && m >= |c.inbox|
    ensures Clean(c'.inbox) && Faithful(Reports(e.outcomes)[m], cmd, e.accepted, c'.settings)
  {
    ReplyPlace(c.inbox, e.arrived, Reports(e.outcomes), c'.inbox, cmd[2], m);
    assert !Unrelated(e.arrived[m - |c.inbox|]);
    assert forall i :: 0 <= i < |c'.inbox| ==> c'.inbox[i] == e.arrived[|Reports(e.outcomes)| - |c.inbox| + i];
  }

  // Without a stale positive reply the acknowledgement is the new reply.
  lemma AckIsReply(c: Cam, cmd: seq<byte>, e: Exchange, c': Cam)
    requires IsSetter(cmd) && Exchanged(c, cmd, e, c') && Acked(e.outcomes, cmd[2])
    requires !StaleAck(c.inbox, cmd[2])
    ensures e.accepted && Clean(c'.inbox)
  {
    var m := ScanReport(e.outcomes, cmd[2], RETRIES);
    ReplyPlace(c.inbox, e.arrived, Reports(e.outcomes), c'.inbox, cmd[2], m);
    NewReply(c, cmd, e, c', m);
  }

  // On a clean channel every matched report is the new reply.
  lemma MatchIsReply(c: Cam, cmd: seq<byte>, e: Exchange, c': Cam)
    requires |cmd| == HID_PKT && cmd[1] == CAMERA_CONTROL && IsRequest(cmd[2])
    requires Exchanged(c, cmd, e, c') && Clean(c.inbox) && Scan(e.outcomes, cmd[1], cmd[2], RETRIES).Matched?
    ensures Clean(c'.inbox)
    ensures Faithful(Scan(e.outcomes, cmd[1], cmd[2], RETRIES).report, cmd, e.accepted, c'.settings)
  {
    var m := ScanReport(e.outcomes, cmd[2], RETRIES);
    ReplyPlace(c.inbox, e.arrived, Reports(e.outcomes), c'.inbox, cmd[2], m);
    NewReply(c, cmd, e, c', m);
  }

  // A request the device ignores, answered by old reports only.
  lemma StaleExchange(inbox: seq<seq<byte>>, cmd: seq<byte>, m: nat) returns (s: Settings, e: Exchange, c': Cam)
    requires IsSetter(cmd) && m < RETRIES && FirstReply(inbox, cmd[2], m) && inbox[m][6] == SUCCESS
    ensures Exchanged(Cam(s, inbox), cmd, e, c') && Acked(e.outcomes, cmd[2]) && !e.accepted
  {
    s := Settings(0, 0, 0);
    e := Exchange(false, [], -1, AsData(inbox[..m + 1]));
    c' := Cam(s, inbox[m + 1..]);
    ReportsAsData(inbox[..m + 1]);
    assert inbox == inbox[..m + 1] + inbox[m + 1..];
    assert FirstMatch(e.outcomes, CAMERA_CONTROL, cmd[2], m, inbox[m]);
    ScanIff(e.outcomes, CAMERA_CONTROL, cmd[2], RETRIES, inbox[m]);
  }

  /** A setter's acknowledgement can be trusted exactly when no stale positive reply comes first. */
  lemma AckSoundIff(inbox: seq<seq<byte>>, cmd: seq<byte>)
    requires IsSetter(cmd)
    ensures AckMeansAccepted(inbox, cmd) <==> !StaleAck(inbox, cmd[2])
  {
    if StaleAck(inbox, cmd[2]) {
      var m: nat :| m < RETRIES && FirstReply(inbox, cmd[2], m) && inbox[m][6] == SUCCESS;
      var s, e, c' := StaleExchange(inbox, cmd, m);
    } else {
      forall s, e, c' | Exchanged(Cam(s, inbox), cmd, e, c') && Acked(e.outcomes, cmd[2])
        ensures e.accepted
      {
        AckIsReply(Cam(s, inbox), cmd, e, c');
      }
    }
  }
}
