/**
 * The trigger handshake as a sequence of exchanges with the device, and exactly when its success can be
 * believed.
 */
module HidHandshake {
  import opened Common
  import opened HidProtocol

  /** The four requests of the handshake. */
  function Commands(x: uint32, afl: byte): (cmds: seq<seq<byte>>)
    ensures |cmds| == 4 && forall i :: 0 <= i < 4 ==> |cmds[i]| == HID_PKT
  {
    [OsCommand(), ExposureCommand(x), ModeCommand(TRIGGER, afl), QueryCommand()]
  }

  /** An exchange as the driver makes it: it reads a few times to wake the device, or until its scan ends. */
  ghost predicate Made(c: Cam, cmd: seq<byte>, e: Exchange, c': Cam, wake: bool)
    requires |cmd| == HID_PKT
  {
    && Exchanged(c, cmd, e, c')
    && if wake then |e.outcomes| <= WAKE_READS else Stops(e.outcomes, cmd[1], cmd[2])
  }

  /** The exchanges made so far, with the device before, between and after them. */
  ghost predicate Handshake(x: uint32, afl: byte, cams: seq<Cam>, es: seq<Exchange>) {
    && |cams| == |es| + 1 <= 5
    && (forall i {:trigger es[i]} :: 0 <= i < |es| ==>
          Made(cams[i], Commands(x, afl)[i], es[i], cams[i + 1], i == 0))
    && (|es| > 1 ==> |es[0].outcomes| == WAKE_READS)
  }

  // Both settings were acknowledged and the mode read back as trigger.
  predicate Confirmed(es: seq<Exchange>) {
    && |es| == 4 && Acked(es[1].outcomes, SET_EXPOSURE) && Acked(es[2].outcomes, SET_STREAM_MODE)
    && ReadsTrigger(es[3].outcomes)
  }

  // What a request hopes to see in its reply.
  predicate Good(report: seq<byte>, h1: byte)
    requires |report| == HID_RESP
  {
    if h1 == GET_STREAM_MODE then report[2] == TRIGGER else report[6] == SUCCESS
  }

  // Report m is the first reply to request h1, within reach of its reads, and a good one.
  ghost predicate GoodFirst(inbox: seq<seq<byte>>, h1: byte, m: nat) {
    m < RETRIES && FirstReply(inbox, h1, m) && Good(inbox[m], h1)
  }

  // These reads end in a good reply to request h1.
  predicate Answers(rs: seq<ReadOutcome>, h1: byte) {
    var r := Scan(rs, CAMERA_CONTROL, h1, RETRIES);
    Stops(rs, CAMERA_CONTROL, h1) && r.Matched? && Good(r.report, h1)
  }

  ghost predicate NoReply(inbox: seq<seq<byte>>, h1: byte) {
    forall j :: 0 <= j < |inbox| ==> !Matches(inbox[j], CAMERA_CONTROL, h1)
  }

  // Nothing old answers the request, and its reads reach what comes behind.
  ghost predicate Passable(inbox: seq<seq<byte>>, h1: byte) {
    |inbox| < RETRIES && NoReply(inbox, h1)
  }

  // With these reports left over the mode query can read trigger mode.
  ghost predicate CanRead(inbox: seq<seq<byte>>) {
    Passable(inbox, GET_STREAM_MODE) || exists m: nat :: GoodFirst(inbox, GET_STREAM_MODE, m)
  }

  // With these reports left over the mode can be acknowledged and then read back.
  ghost predicate CanConfirm(inbox: seq<seq<byte>>) {
    Passable(inbox, SET_STREAM_MODE)
    || exists m: nat :: GoodFirst(inbox, SET_STREAM_MODE, m) && CanRead(inbox[m + 1..])
  }

  // An old exposure acknowledgement comes first, and what follows it lets the handshake go through.
  ghost predicate Deceptive(inbox: seq<seq<byte>>) {
    exists m: nat :: GoodFirst(inbox, SET_EXPOSURE, m) && CanConfirm(inbox[m + 1..])
  }

  /** These leftover reports can deceive the handshake, once the wake-up reads have taken some of them away. */
  ghost predicate Deceivable(inbox: seq<seq<byte>>) {
    exists d: nat :: d <= WAKE_READS && d <= |inbox| && Deceptive(inbox[d..])
  }

  lemma FourParts(x: uint32, afl: byte, cams: seq<Cam>, es: seq<Exchange>)
    requires Handshake(x, afl, cams, es) && |es| == 4
    ensures Made(cams[0], OsCommand(), es[0], cams[1], true)
    ensures Made(cams[1], ExposureCommand(x), es[1], cams[2], false)
    ensures Made(cams[2], ModeCommand(TRIGGER, afl), es[2], cams[3], false)
    ensures Made(cams[3], QueryCommand(), es[3], cams[4], false)
  {
    var e0, e1, e2, e3 := es[0], es[1], es[2], es[3];
  }

  // The first reply read lies among the stale reports, or none of them answers.
  lemma ReplyAmong(stale: seq<seq<byte>>, others: seq<seq<byte>>, arrived: seq<seq<byte>>,
                   got: seq<seq<byte>>, rest: seq<seq<byte>>, h1: byte, m: nat)
    requires (stale + others) + arrived == got + rest && |got| == m + 1 && FirstReply(got, h1, m)
    ensures m < |stale| ==>
              FirstReply(stale, h1, m) && stale[m] == got[m] && rest == stale[m + 1..] + (others + arrived)
    ensures m >= |stale| ==> NoReply(stale, h1)
  {
    var all := (stale + others) + arrived;
    assert forall j :: 0 <= j <= m ==> got[j] == all[j];
    assert rest == all[m + 1..];
    assert forall j :: 0 <= j < |stale| ==> stale[j] == all[j];
  }

  // Reads that end in a good answer, from stale reports and others behind them.
  lemma AnsweredFrom(rs: seq<ReadOutcome>, h1: byte, stale: seq<seq<byte>>, others: seq<seq<byte>>,
                     arrived: seq<seq<byte>>, rest: seq<seq<byte>>)
    returns (m: nat)
    requires Answers(rs, h1) && (stale + others) + arrived == Reports(rs) + rest
    ensures m < |stale| ==> GoodFirst(stale, h1, m) && rest == stale[m + 1..] + (others + arrived)
    ensures m >= |stale| ==> Passable(stale, h1)
  {
    m := ScanReport(rs, h1, RETRIES);
    MatchIsLast(rs, h1, RETRIES, m);
    ReplyAmong(stale, others, arrived, Reports(rs), rest, h1, m);
  }

  // What the wake-up leaves: the rest of what was there, and nothing that answers a request.
  lemma AfterWake(c: Cam, e: Exchange, c': Cam) returns (d: nat)
    requires Made(c, OsCommand(), e, c', true)
    ensures d <= WAKE_READS
    ensures d <= |c.inbox| ==> c'.inbox == c.inbox[d..] + e.arrived
    ensures d > |c.inbox| ==> Clean(c'.inbox)
    ensures Clean(e.arrived) && c'.settings == c.settings
  {
    FewReports(e.outcomes);
    d := |Reports(e.outcomes)|;
    var all := c.inbox + e.arrived;
    assert c'.inbox == all[d..];
    assert Clean(e.arrived);
    if d > |c.inbox| {
      assert forall i :: 0 <= i < |c'.inbox| ==> c'.inbox[i] == e.arrived[d - |c.inbox| + i];
    }
  }

  // The second half of a confirmed handshake, from stale reports and others behind them.
  lemma ConfirmedFrom(rs2: seq<ReadOutcome>, rs3: seq<ReadOutcome>, stale: seq<seq<byte>>, others: seq<seq<byte>>,
                      a2: seq<seq<byte>>, rest2: seq<seq<byte>>, a3: seq<seq<byte>>, rest3: seq<seq<byte>>)
    requires Answers(rs2, SET_STREAM_MODE) && (stale + others) + a2 == Reports(rs2) + rest2
    requires Answers(rs3, GET_STREAM_MODE) && rest2 + a3 == Reports(rs3) + rest3
    ensures CanConfirm(stale)
  {
    var m := AnsweredFrom(rs2, SET_STREAM_MODE, stale, others, a2, rest2);
    if m < |stale| {
      var k := AnsweredFrom(rs3, GET_STREAM_MODE, stale[m + 1..], others + a2, a3, rest3);
      assert CanRead(stale[m + 1..]);
    }
  }

  // An acknowledgement that was there after the wake-up was there before it.
  lemma WakeStale(c: Cam, e: Exchange, c': Cam) returns (d: nat)
    requires Made(c, OsCommand(), e, c', true) && StaleAck(c'.inbox, SET_EXPOSURE)
    ensures d <= WAKE_READS && d <= |c.inbox| && c'.inbox == c.inbox[d..] + e.arrived
    ensures !NoReply(c.inbox[d..], SET_EXPOSURE)
  {
    d := AfterWake(c, e, c');
    var k: nat :| k < RETRIES && FirstReply(c'.inbox, SET_EXPOSURE, k) && c'.inbox[k][6] == SUCCESS;
    assert !Unrelated(c'.inbox[k]);
    var left := c.inbox[d..];
    assert k < |left| && left[k] == c'.inbox[k];
  }

  // All the reads of a confirmed handshake whose first stale report answers the exposure request.
  lemma DeceivedReads(stale: seq<seq<byte>>, others: seq<seq<byte>>, rs1: seq<ReadOutcome>, a1: seq<seq<byte>>,
                      rest1: seq<seq<byte>>, rs2: seq<ReadOutcome>, a2: seq<seq<byte>>, rest2: seq<seq<byte>>,
                      rs3: seq<ReadOutcome>, a3: seq<seq<byte>>, rest3: seq<seq<byte>>)
    requires !NoReply(stale, SET_EXPOSURE)
    requires Answers(rs1, SET_EXPOSURE) && (stale + others) + a1 == Reports(rs1) + rest1
    requires Answers(rs2, SET_STREAM_MODE) && rest1 + a2 == Reports(rs2) + rest2
    requires Answers(rs3, GET_STREAM_MODE) && rest2 + a3 == Reports(rs3) + rest3
    ensures Deceptive(stale)
  {
    var m := AnsweredFrom(rs1, SET_EXPOSURE, stale, others, a1, rest1);
    ConfirmedFrom(rs2, rs3, stale[m + 1..], others + a1, a2, rest2, a3, rest3);
  }

  // A confirmed handshake that began with an old acknowledgement went through on old reports all along.
  lemma DeceivedBy(x: uint32, afl: byte, cams: seq<Cam>, es: seq<Exchange>)
    requires Handshake(x, afl, cams, es) && Confirmed(es) && StaleAck(cams[1].inbox, SET_EXPOSURE)
    ensures Deceivable(cams[0].inbox)
  {
    FourParts(x, afl, cams, es);
    var d := WakeStale(cams[0], es[0], cams[1]);
    DeceivedReads(cams[0].inbox[d..], es[0].arrived, es[1].outcomes, es[1].arrived, cams[2].inbox,
                  es[2].outcomes, es[2].arrived, cams[3].inbox, es[3].outcomes, es[3].arrived, cams[4].inbox);
  }

  /**
   * A confirmed handshake means what it says: unless the reports the drain left can deceive it, the
   * device has the exposure, the trigger mode and the AFL mode that were asked for, whatever it
   * refused, lost or sent in between.
   */
  lemma HandshakeSound(x: uint32, afl: byte, cams: seq<Cam>, es: seq<Exchange>)
    requires Handshake(x, afl, cams, es) && Confirmed(es) && !Deceivable(cams[0].inbox)
    ensures cams[4].settings == Settings(TRIGGER, afl, x) && Clean(cams[4].inbox)
  {
    FourParts(x, afl, cams, es);
    if StaleAck(cams[1].inbox, SET_EXPOSURE) {
      DeceivedBy(x, afl, cams, es);
      assert false;
    }
    AckIsReply(cams[1], ExposureCommand(x), es[1], cams[2]);
    MatchIsReply(cams[2], ModeCommand(TRIGGER, afl), es[2], cams[3]);
    MatchIsReply(cams[3], QueryCommand(), es[3], cams[4]);
    CommandsObeyed(cams[1].settings, x, TRIGGER, afl);
    CommandsObeyed(cams[2].settings, x, TRIGGER, afl);
    CommandsObeyed(cams[3].settings, x, TRIGGER, afl);
  }

  // A handshake goes on with its next request.
  lemma {:induction false} NextExchange(
    x: uint32, afl: byte, cams: seq<Cam>, es: seq<Exchange>, e: Exchange, c: Cam)
    requires Handshake(x, afl, cams, es) && 0 < |es| < 4 && |es[0].outcomes| == WAKE_READS
    requires Made(cams[|es|], Commands(x, afl)[|es|], e, c, false)
    ensures Handshake(x, afl, cams + [c], es + [e])
  {
    var cams', es' := cams + [c], es + [e];
    forall i {:trigger es'[i]} | 0 <= i < |es'|
      ensures Made(cams'[i], Commands(x, afl)[i], es'[i], cams'[i + 1], i == 0)
    {
      if i < |es| {
        assert es'[i] == es[i] && cams'[i] == cams[i] && cams'[i + 1] == cams[i + 1];
      }
    }
  }

  lemma FourExchanges(x: uint32, afl: byte, c0: Cam, e0: Exchange, c1: Cam, e1: Exchange, c2: Cam,
                      e2: Exchange, c3: Cam, e3: Exchange, c4: Cam)
    requires Made(c0, OsCommand(), e0, c1, true) && |e0.outcomes| == WAKE_READS
    requires Made(c1, ExposureCommand(x), e1, c2, false) && Made(c2, ModeCommand(TRIGGER, afl), e2, c3, false)
    requires Made(c3, QueryCommand(), e3, c4, false)
    ensures Handshake(x, afl, [c0, c1, c2, c3, c4], [e0, e1, e2, e3])
  {
    var cams, es := [c0, c1, c2, c3, c4], [e0, e1, e2, e3];
    forall i {:trigger es[i]} | 0 <= i < |es|
      ensures Made(cams[i], Commands(x, afl)[i], es[i], cams[i + 1], i == 0)
    {
      if i == 0 {
      } else if i == 1 {
      } else if i == 2 {
      } else {
        assert i == 3;
      }
    }
  }

  // Reading up to and including a good first reply.
  lemma ReadUpTo(inbox: seq<seq<byte>>, h1: byte, m: nat)
    requires m < RETRIES && FirstReply(inbox, h1, m)
    ensures Scan(AsData(inbox[..m + 1]), CAMERA_CONTROL, h1, RETRIES) == Matched(inbox[m])
    ensures Stops(AsData(inbox[..m + 1]), CAMERA_CONTROL, h1)
    ensures inbox == Reports(AsData(inbox[..m + 1])) + inbox[m + 1..]
  {
    var got := inbox[..m + 1];
    assert FirstReply(got, h1, m);
    ScanAsData(got, h1);
    ReportsAsData(got);
  }

  // A request the device ignores, answered by an old report.
  lemma OldAnswer(s: Settings, inbox: seq<seq<byte>>, cmd: seq<byte>, m: nat) returns (e: Exchange)
    requires |cmd| == HID_PKT && cmd[1] == CAMERA_CONTROL && GoodFirst(inbox, cmd[2], m)
    ensures Made(Cam(s, inbox), cmd, e, Cam(s, inbox[m + 1..]), false)
    ensures Scan(e.outcomes, CAMERA_CONTROL, cmd[2], RETRIES) == Matched(inbox[m])
  {
    ReadUpTo(inbox, cmd[2], m);
    e := Exchange(false, [], -1, AsData(inbox[..m + 1]));
    assert inbox + [] == inbox;
  }

  // A request that changes nothing, accepted and answered behind whatever was left over.
  lemma NewAnswer(s: Settings, inbox: seq<seq<byte>>, cmd: seq<byte>, reply: seq<byte>) returns (e: Exchange)
    requires |cmd| == HID_PKT && cmd[1] == CAMERA_CONTROL && Passable(inbox, cmd[2])
    requires Obey(s, cmd) == s && Faithful(reply, cmd, true, s)
    ensures Made(Cam(s, inbox), cmd, e, Cam(s, []), false)
    ensures Scan(e.outcomes, CAMERA_CONTROL, cmd[2], RETRIES) == Matched(reply)
  {
    var all := inbox + [reply];
    assert FirstReply(all, cmd[2], |inbox|);
    ReadUpTo(all, cmd[2], |inbox|);
    assert all[..|inbox| + 1] == all && all[|inbox| + 1..] == [];
    e := Exchange(true, [reply], 0, AsData(all));
  }

  // n reads that give nothing.
  function Idle(n: nat): (rs: seq<ReadOutcome>)
    ensures |rs| == n
  {
    if n == 0 then [] else Idle(n - 1) + [WouldBlock]
  }

  lemma {:induction false} ReportsIdle(rs: seq<ReadOutcome>, n: nat)
    ensures Reports(rs + Idle(n)) == Reports(rs)
  {
    if n == 0 {
      assert rs + Idle(0) == rs;
    } else {
      ReportsIdle(rs, n - 1);
      ReportsSnoc(rs + Idle(n - 1), WouldBlock);
      assert rs + Idle(n) == rs + Idle(n - 1) + [WouldBlock];
    }
  }

  // The wake-up reads take d reports and nothing else happens.
  lemma WakeTaking(s: Settings, inbox: seq<seq<byte>>, d: nat) returns (e: Exchange)
    requires d <= WAKE_READS && d <= |inbox|
    ensures Made(Cam(s, inbox), OsCommand(), e, Cam(s, inbox[d..]), true) && |e.outcomes| == WAKE_READS
  {
    e := Exchange(false, [], -1, AsData(inbox[..d]) + Idle(WAKE_READS - d));
    ReportsIdle(AsData(inbox[..d]), WAKE_READS - d);
    ReportsAsData(inbox[..d]);
    assert inbox + [] == inbox[..d] + inbox[d..];
  }

  lemma ReadRun(s: Settings, inbox: seq<seq<byte>>) returns (e: Exchange, c: Cam)
    requires CanRead(inbox) && s.mode == TRIGGER
    ensures Made(Cam(s, inbox), QueryCommand(), e, c, false) && ReadsTrigger(e.outcomes) && c.settings == s
  {
    if Passable(inbox, GET_STREAM_MODE) {
      e := NewAnswer(s, inbox, QueryCommand(), MakeReply(CAMERA_CONTROL, GET_STREAM_MODE, s, SUCCESS));
      c := Cam(s, []);
    } else {
      var m: nat :| GoodFirst(inbox, GET_STREAM_MODE, m);
      e := OldAnswer(s, inbox, QueryCommand(), m);
      c := Cam(s, inbox[m + 1..]);
    }
  }

  lemma ConfirmRun(s: Settings, inbox: seq<seq<byte>>) returns (e2: Exchange, c3: Cam, e3: Exchange, c4: Cam)
    requires CanConfirm(inbox) && s.mode == TRIGGER && s.afl == 0
    ensures Made(Cam(s, inbox), ModeCommand(TRIGGER, 0), e2, c3, false) && Acked(e2.outcomes, SET_STREAM_MODE)
    ensures Made(c3, QueryCommand(), e3, c4, false) && ReadsTrigger(e3.outcomes) && c4.settings == s
  {
    if Passable(inbox, SET_STREAM_MODE) {
      e2 := NewAnswer(s, inbox, ModeCommand(TRIGGER, 0), MakeReply(CAMERA_CONTROL, SET_STREAM_MODE, s, SUCCESS));
      c3 := Cam(s, []);
      assert Passable([], GET_STREAM_MODE);
      e3, c4 := ReadRun(s, []);
    } else {
      var m: nat :| GoodFirst(inbox, SET_STREAM_MODE, m) && CanRead(inbox[m + 1..]);
      e2 := OldAnswer(s, inbox, ModeCommand(TRIGGER, 0), m);
      c3 := Cam(s, inbox[m + 1..]);
      e3, c4 := ReadRun(s, inbox[m + 1..]);
    }
  }

  /** No confirmed handshake from these leftover reports is wrong about the device, whatever was asked for. */
  ghost predicate AlwaysSound(inbox: seq<seq<byte>>) {
    forall x, afl, cams: seq<Cam>, es: seq<Exchange> ::
      Handshake(x, afl, cams, es) && Confirmed(es) && cams[0].inbox == inbox ==>
        cams[4].settings == Settings(TRIGGER, afl, x)
  }

  // The first half of the deception: the wake-up takes d reports, the exposure is acknowledged by an old one.
  lemma ExposeRun(s: Settings, inbox: seq<seq<byte>>, d: nat, m: nat) returns (e0: Exchange, e1: Exchange)
    requires d <= WAKE_READS && d <= |inbox| && GoodFirst(inbox[d..], SET_EXPOSURE, m)
    ensures Made(Cam(s, inbox), OsCommand(), e0, Cam(s, inbox[d..]), true) && |e0.outcomes| == WAKE_READS
    ensures Made(Cam(s, inbox[d..]), ExposureCommand(0), e1, Cam(s, inbox[d..][m + 1..]), false)
    ensures Acked(e1.outcomes, SET_EXPOSURE)
  {
    e0 := WakeTaking(s, inbox, d);
    e1 := OldAnswer(s, inbox[d..], ExposureCommand(0), m);
  }

  lemma DeceptionRun(s: Settings, inbox: seq<seq<byte>>, d: nat, m: nat) returns (cams: seq<Cam>, es: seq<Exchange>)
    requires d <= WAKE_READS && d <= |inbox| && GoodFirst(inbox[d..], SET_EXPOSURE, m)
    requires CanConfirm(inbox[d..][m + 1..]) && s.mode == TRIGGER && s.afl == 0
    ensures Handshake(0, 0, cams, es) && Confirmed(es) && cams[0].inbox == inbox && cams[4].settings == s
  {
    var e0, e1 := ExposeRun(s, inbox, d, m);
    var e2, c3, e3, c4 := ConfirmRun(s, inbox[d..][m + 1..]);
    var c0, c1, c2 := Cam(s, inbox), Cam(s, inbox[d..]), Cam(s, inbox[d..][m + 1..]);
    FourExchanges(0, 0, c0, e0, c1, e1, c2, e2, c3, e3, c4);
    cams, es := [c0, c1, c2, c3, c4], [e0, e1, e2, e3];
  }

  // From reports that can deceive it, a handshake for exposure 0 is confirmed while the device stays at 1.
  lemma DeceivedRun(inbox: seq<seq<byte>>) returns (cams: seq<Cam>, es: seq<Exchange>)
    requires Deceivable(inbox)
    ensures Handshake(0, 0, cams, es) && Confirmed(es) && cams[0].inbox == inbox
    ensures cams[4].settings == Settings(TRIGGER, 0, 1)
  {
    var d: nat :| d <= WAKE_READS && d <= |inbox| && Deceptive(inbox[d..]);
    var m: nat :| GoodFirst(inbox[d..], SET_EXPOSURE, m) && CanConfirm(inbox[d..][m + 1..]);
    cams, es := DeceptionRun(Settings(TRIGGER, 0, 1), inbox, d, m);
  }

  /**
   * Exactly when the handshake can be trusted: its success always means that the device is as asked if
   * and only if the reports the drain left cannot deceive it. They can if, after at most three are
   * lost to the wake-up, an old exposure acknowledgement comes first, and what then is left either
   * holds no reply to the mode requests within their reads or holds old positive ones in front.
   */
  lemma HandshakeSoundIff(inbox: seq<seq<byte>>)
    ensures AlwaysSound(inbox) <==> !Deceivable(inbox)
  {
    if Deceivable(inbox) {
      var cams, es := DeceivedRun(inbox);
    } else {
      forall x, afl, cams: seq<Cam>, es: seq<Exchange> |
        Handshake(x, afl, cams, es) && Confirmed(es) && cams[0].inbox == inbox
        ensures cams[4].settings == Settings(TRIGGER, afl, x)
      {
        HandshakeSound(x, afl, cams, es);
      }
    }
  }

  // An exchange in which the device does nothing and one old report is read.
  function OldReport(report: seq<byte>): Exchange {
    Exchange(false, [], -1, [Data(report)])
  }

  lemma OldReportRun(s: Settings, cmd: seq<byte>, report: seq<byte>, rest: seq<seq<byte>>)
    requires |cmd| == HID_PKT && cmd[1] == CAMERA_CONTROL && Matches(report, CAMERA_CONTROL, cmd[2])
    ensures Made(Cam(s, [report] + rest), cmd, OldReport(report), Cam(s, rest), false)
    ensures Scan(OldReport(report).outcomes, CAMERA_CONTROL, cmd[2], RETRIES) == Matched(report)
  {
    assert [Data(report)][1..] == [] && [Data(report)][..0] == [];
    assert Reports([Data(report)]) == [report];
  }

  lemma QuietWake(c: Cam)
    ensures Made(c, OsCommand(), Exchange(false, [], -1, [WouldBlock, WouldBlock, WouldBlock]), c, true)
  {
    var rs := [WouldBlock, WouldBlock, WouldBlock];
    assert rs[1..] == [WouldBlock, WouldBlock] && rs[1..][1..] == [WouldBlock] && rs[1..][1..][1..] == [];
    assert Reports(rs) == [];
  }

  /**
   * Why the drain matters: with three old replies left over, a device that refuses and answers
   * nothing passes the whole handshake, whatever its settings are and whatever was asked for.
   */
  lemma StaleRepliesBelieved(x: uint32, afl: byte, s: Settings)
    ensures exists cams: seq<Cam>, es: seq<Exchange> ::
              Handshake(x, afl, cams, es) && Confirmed(es) && cams[0].settings == s == cams[4].settings
  {
    var old1 := MakeReply(CAMERA_CONTROL, SET_EXPOSURE, s, SUCCESS);
    var old2 := MakeReply(CAMERA_CONTROL, SET_STREAM_MODE, s, SUCCESS);
    var old3 := MakeReply(CAMERA_CONTROL, GET_STREAM_MODE, s.(mode := TRIGGER), SUCCESS);
    var c4 := Cam(s, []);
    var c3 := Cam(s, [old3] + c4.inbox);
    var c2 := Cam(s, [old2] + c3.inbox);
    var c1 := Cam(s, [old1] + c2.inbox);
    var e0 := Exchange(false, [], -1, [WouldBlock, WouldBlock, WouldBlock]);
    QuietWake(c1);
    OldReportRun(s, ExposureCommand(x), old1, c2.inbox);
    OldReportRun(s, ModeCommand(TRIGGER, afl), old2, c3.inbox);
    OldReportRun(s, QueryCommand(), old3, c4.inbox);
    FourExchanges(x, afl, c1, e0, c1, OldReport(old1), c2, OldReport(old2), c3, OldReport(old3), c4);
    assert Confirmed([e0, OldReport(old1), OldReport(old2), OldReport(old3)]);
  }

  // The reads of all exchanges, in order.
  function Outcomes(es: seq<Exchange>): seq<ReadOutcome> {
    if es == [] then [] else Outcomes(es[..|es| - 1]) + es[|es| - 1].outcomes
  }

  // With no failing call, each request is made exactly when the ones before it were acknowledged.
  predicate InStep(es: seq<Exchange>) {
    && 2 <= |es| <= 4 && |es[0].outcomes| == WAKE_READS
    && (|es| > 2 <==> Acked(es[1].outcomes, SET_EXPOSURE))
    && (|es| > 3 <==> |es| > 2 && Acked(es[2].outcomes, SET_STREAM_MODE))
  }

  lemma MoreOutcomes(es: seq<Exchange>, e: Exchange, log: seq<ReadOutcome>)
    ensures log + Outcomes(es) + e.outcomes == log + Outcomes(es + [e])
  {
    assert (es + [e])[..|es|] == es;
  }

  lemma FirstOne(x: uint32, afl: byte, c: Cam, e: Exchange, c': Cam, log: seq<ReadOutcome>)
    requires Made(c, OsCommand(), e, c', true)
    ensures Handshake(x, afl, [c, c'], [e]) && log + e.outcomes == log + Outcomes([e])
  {
    assert Outcomes([e]) == Outcomes([]) + e.outcomes;
  }

  lemma {:induction false} OneMore(x: uint32, afl: byte, cams: seq<Cam>, es: seq<Exchange>, e: Exchange, c: Cam,
                                   log: seq<ReadOutcome>, before: seq<ReadOutcome>)
    requires before == log + Outcomes(es) && Handshake(x, afl, cams, es)
    requires 0 < |es| < 4 && |es[0].outcomes| == WAKE_READS && Made(cams[|es|], Commands(x, afl)[|es|], e, c, false)
    ensures Handshake(x, afl, cams + [c], es + [e])
    ensures before + e.outcomes == log + Outcomes(es + [e])
  {
    NextExchange(x, afl, cams, es, e, c);
    MoreOutcomes(es, e, log);
  }
}
