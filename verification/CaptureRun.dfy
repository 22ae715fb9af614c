/**
 * The V4L2 backend driven by the node's grab loop, as a step machine. Every shared access is a step
 * of its own: the conversion and the copy into the message read one byte per step, and the driver may
 * act between any two of them. Ghost history: `grabbed` lists the serial numbers of valid grabs,
 * `empties` counts dequeued frames that turned out invalid, `refusals` counts failed requeues.
 */
module CaptureRun {
  import opened Common
  import opened CameraBackend
  import opened Config
  import opened V4l2Stream
  import opened DropAccounting

  // The pixel conversion is any function of the whole captured buffer.
  datatype Setup = Setup(format: ImageFormat, expectedSize: nat, convert: seq<byte> -> seq<byte>)

  datatype Message = Message(serial: nat, data: seq<byte>)

  datatype Pc = Head | Converting | Counting | Copying | Sending | Releasing

  datatype State = State(
    k: Kernel,
    current: int,              // current_index_
    taken: nat,                // one past the serial number of the last frame dequeued
    nPush: uint64,             // n_push_
    fill: Fill,                // the v4l2_buffer of the last DQBUF
    scratch: seq<byte>,        // what the conversion has read so far
    bgr: seq<byte>,            // bgr_
    pc: Pc,
    counters: Counters,
    buffer: seq<byte>,         // what has been copied into the message so far
    published: seq<Message>,
    grabbed: seq<nat>,
    empties: nat,
    refusals: nat)

  datatype Event =
    | Driver(e: DriverEvent)
    | GrabFails                // select timeout or error, or a failing DQBUF
    | Take                     // DQBUF succeeds
    | Advance                  // the loop's next step
    | Requeue(succeeds: bool)  // release()

  /** What the node should publish for a completed buffer. */
  function Payload(setup: Setup, f: Fill): seq<byte>
    requires f.bytesused <= |f.image|
  {
    match setup.format
    case Jpeg => f.image[..f.bytesused]
    case RawBgr8 =>
      var image := setup.convert(f.image);
      if |image| < setup.expectedSize then [] else image[..setup.expectedSize]
  }

  function FrameSize(setup: Setup, s: State): nat {
    if setup.format.Jpeg? then s.fill.bytesused else |s.bgr|
  }

  function CopySize(setup: Setup, s: State): nat {
    if setup.format.Jpeg? then s.fill.bytesused else setup.expectedSize
  }

  // The borrowed bytes: the mapped buffer itself (jpeg) or the converted image (raw).
  function Borrowed(setup: Setup, s: State): seq<byte>
    requires s.fill.index < |s.k.memory|
  {
    if setup.format.Jpeg? then s.k.memory[s.fill.index] else s.bgr
  }

  predicate May(setup: Setup, s: State, ev: Event) {
    match ev
    case Driver(e) => DriverMay(s.k, e)
    case GrabFails => s.pc == Head
    case Take => s.pc == Head && s.k.done != []
    case Advance =>
      && (s.pc.Converting? || s.pc.Counting? || s.pc.Copying? || s.pc.Sending?)
      && (s.pc.Converting? || s.pc.Copying? ==> s.fill.index < |s.k.memory|)
      && (s.pc == Copying && |s.buffer| < CopySize(setup, s) ==> |s.buffer| < |Borrowed(setup, s)|)
    case Requeue(_) => s.pc == Releasing && s.current >= 0
  }

  // grab() returns: an empty frame sends the loop back to its head without a release.
  function Grabbed(setup: Setup, s: State): State {
    if FrameSize(setup, s) == 0 then s.(pc := Head, empties := s.empties + 1) else s.(pc := Counting)
  }

  function Do(setup: Setup, s: State, ev: Event): State
    requires May(setup, s, ev)
  {
    match ev
    case Driver(e) => s.(k := DriverDoes(s.k, e))
    case GrabFails => s
    case Take =>
      var f := s.k.done[0];
      var s' := s.(k := Dqbuf(s.k), current := f.index, taken := f.serial + 1, nPush := f.Sequence() + 1, fill := f);
      if setup.format.Jpeg? then Grabbed(setup, s') else s'.(pc := Converting, scratch := [])
    case Requeue(succeeds) =>
      s.(k := Qbuf(s.k, s.current, succeeds), current := -1, pc := Head,
         refusals := s.refusals + if succeeds then 0 else 1)
    case Advance =>
      match s.pc
      case Converting =>
        var image := s.k.memory[s.fill.index];
        if |s.scratch| < |image| then s.(scratch := s.scratch + [image[|s.scratch|]])
        else Grabbed(setup, s.(bgr := setup.convert(s.scratch)))
      case Counting =>
        var s' := s.(counters := Account(s.counters, s.nPush), grabbed := s.grabbed + [s.fill.serial]);
        if setup.format.RawBgr8? && |s.bgr| < setup.expectedSize then s'.(pc := Releasing)
        else s'.(pc := Copying, buffer := [])
      case Copying =>
        if |s.buffer| < CopySize(setup, s) then s.(buffer := s.buffer + [Borrowed(setup, s)[|s.buffer|]])
        else s.(pc := Sending)
      case Sending => s.(published := s.published + [Message(s.fill.serial, s.buffer)], pc := Releasing)
  }

  predicate Allowed(setup: Setup, s: State, evs: seq<Event>)
    decreases |evs|
  {
    evs == [] || (May(setup, s, evs[0]) && Allowed(setup, Do(setup, s, evs[0]), evs[1..]))
  }

  function Run(setup: Setup, s: State, evs: seq<Event>): State
    requires Allowed(setup, s, evs)
    decreases |evs|
  {
    if evs == [] then s else Run(setup, Do(setup, s, evs[0]), evs[1..])
  }

  lemma {:induction false} RunAppend(setup: Setup, s: State, evs: seq<Event>, more: seq<Event>)
    requires Allowed(setup, s, evs) && Allowed(setup, Run(setup, s, evs), more)
    ensures Allowed(setup, s, evs + more)
    ensures Run(setup, s, evs + more) == Run(setup, Run(setup, s, evs), more)
    decreases |evs|
  {
    if evs == [] {
      assert evs + more == more;
    } else {
      RunAppend(setup, Do(setup, s, evs[0]), evs[1..], more);
      assert (evs + more)[1..] == evs[1..] + more;
    }
  }

  function Drivers(es: seq<DriverEvent>): (evs: seq<Event>)
    ensures |evs| == |es|
  {
    seq(|es|, i requires 0 <= i < |es| => Driver(es[i]))
  }

  // Driver activity does to the machine what it does to the queue.
  lemma {:induction false} DriverAlone(setup: Setup, s: State, es: seq<DriverEvent>)
    requires DriverAllowed(s.k, es)
    ensures Allowed(setup, s, Drivers(es)) && Run(setup, s, Drivers(es)) == s.(k := DriverRun(s.k, es))
    decreases |es|
  {
    if es != [] {
      DriverAlone(setup, s.(k := DriverDoes(s.k, es[0])), es[1..]);
      assert Drivers(es)[1..] == Drivers(es[1..]);
    }
  }

  function Advances(n: nat): seq<Event> {
    if n == 0 then [] else [Advance] + Advances(n - 1)
  }

  /** A conversion nobody interrupts: the rest of the buffer is read, then the image is there. */
  lemma {:induction false} ConvertAlone(setup: Setup, s: State)
    requires s.pc == Converting && s.fill.index < |s.k.memory|
    requires |s.scratch| <= |s.k.memory[s.fill.index]|
    requires s.scratch == s.k.memory[s.fill.index][..|s.scratch|]
    ensures var image := s.k.memory[s.fill.index];
            var evs := Advances(|image| - |s.scratch| + 1);
            && Allowed(setup, s, evs)
            && Run(setup, s, evs) == Grabbed(setup, s.(scratch := image, bgr := setup.convert(image)))
    decreases |s.k.memory[s.fill.index]| - |s.scratch|
  {
    var image := s.k.memory[s.fill.index];
    var evs := Advances(|image| - |s.scratch| + 1);
    assert evs[0] == Advance && evs[1..] == Advances(|image| - |s.scratch|);
    if |s.scratch| < |image| {
      ConvertAlone(setup, Do(setup, s, Advance));
    } else {
      assert s.scratch == image;
      assert Allowed(setup, Do(setup, s, Advance), evs[1..]);
    }
  }

  /** Right after STREAMON: all buffers queued, nothing dequeued or counted yet. */
  ghost predicate Initial(s: State) {
    && FreshStream(s.k, |s.k.memory|)
    && s.current == -1 && s.taken == 0 && s.nPush == 0 && s.pc == Head && s.counters == FRESH
    && s.published == [] && s.grabbed == [] && s.empties == 0 && s.refusals == 0
  }

  // A frame is being processed: dequeued and not yet released.
  predicate Busy(s: State) {
    s.pc != Head
  }

  ghost predicate OwnershipInv(s: State) {
    && Partitioned(s.k) && DoneIntact(s.k)
    && (s.current >= 0 ==> s.current in s.k.user)
    && (Busy(s) ==> s.current == s.fill.index && Recorded(s.k, s.fill))
    && (Busy(s) ==> s.current >= 0)
    && |s.k.user| == s.empties + s.refusals + if Busy(s) then 1 else 0
  }

  // Serial numbers come in order: grabbed, held, completed, still to be used.
  ghost predicate OrderInv(s: State) {
    && s.taken <= s.k.nextSerial
    && (forall f :: f in s.k.done ==> s.taken <= f.serial)
    && (Busy(s) ==> s.taken == s.fill.serial + 1 && s.nPush == PushOf(s.fill.serial))
    && After(s.grabbed) <= (if s.pc.Converting? || s.pc.Counting? then s.fill.serial else s.taken)
  }

  ghost predicate CountInv(s: State) {
    OrderInv(s) && Increasing(s.grabbed) && s.counters == CountPushes(PushesOf(s.grabbed))
  }

  ghost predicate DataInv(setup: Setup, s: State) {
    && (s.pc == Converting ==>
          && setup.format.RawBgr8? && |s.scratch| <= |s.fill.image|
          && s.scratch == s.fill.image[..|s.scratch|])
    && (s.pc.Counting? || s.pc.Copying? || s.pc.Sending? ==>
          setup.format.RawBgr8? ==> s.bgr == setup.convert(s.fill.image))
    && (s.pc.Copying? || s.pc.Sending? ==> setup.format.RawBgr8? ==> setup.expectedSize <= |s.bgr|)
    && (Busy(s) ==> s.fill.bytesused <= |s.fill.image|)
    && (s.pc == Copying ==>
          && |s.buffer| <= |Payload(setup, s.fill)|
          && s.buffer == Payload(setup, s.fill)[..|s.buffer|])
    && (s.pc == Sending ==> s.buffer == Payload(setup, s.fill))
  }

  /** A message carries exactly what the driver left in the buffer with that serial number. */
  ghost predicate Faithful(setup: Setup, k: Kernel, m: Message) {
    && m.serial in k.history
    && k.history[m.serial].bytesused <= |k.history[m.serial].image|
    && m.data == Payload(setup, k.history[m.serial])
  }

  ghost predicate OutputInv(setup: Setup, s: State) {
    && (forall m :: m in s.published ==> Faithful(setup, s.k, m) && m.serial < s.taken)
    && (s.pc.Converting? || s.pc.Counting? || s.pc.Copying? || s.pc.Sending? ==>
          forall m :: m in s.published ==> m.serial < s.fill.serial)
    && (forall i, j :: 0 <= i < j < |s.published| ==> s.published[i].serial < s.published[j].serial)
  }

  // The conversion always yields at least the expected bytes, so publish() never skips a frame.
  ghost predicate NoShortFrames(setup: Setup) {
    setup.format.Jpeg? || forall image :: setup.expectedSize <= |setup.convert(image)|
  }

  function Serials(messages: seq<Message>): (r: seq<nat>)
    ensures |r| == |messages|
  {
    seq(|messages|, i requires 0 <= i < |messages| => messages[i].serial)
  }

  // The frame recorded under this serial number is long enough to publish.
  predicate LongEnough(setup: Setup, history: map<nat, Fill>, serial: nat) {
    serial in history && (setup.format.Jpeg? || setup.expectedSize <= |setup.convert(history[serial].image)|)
  }

  /** The grabbed serial numbers without those whose frame came out short. */
  function Kept(setup: Setup, history: map<nat, Fill>, grabbed: seq<nat>): seq<nat> {
    if grabbed == [] then []
    else
      var q := grabbed[|grabbed| - 1];
      Kept(setup, history, grabbed[..|grabbed| - 1]) + if LongEnough(setup, history, q) then [q] else []
  }

  ghost predicate CompleteInv(setup: Setup, s: State) {
    && (forall q :: q in s.grabbed ==> q in s.k.history)
    && Kept(setup, s.k.history, s.grabbed)
       == Serials(s.published) + if s.pc.Copying? || s.pc.Sending? then [s.fill.serial] else []
  }

  // What is recorded of a serial number never changes.
  lemma {:induction false} KeptStable(setup: Setup, h: map<nat, Fill>, h': map<nat, Fill>, grabbed: seq<nat>)
    requires forall q :: q in grabbed ==> q in h && q in h' && h'[q] == h[q]
    ensures Kept(setup, h', grabbed) == Kept(setup, h, grabbed)
  {
    if grabbed != [] {
      KeptStable(setup, h, h', grabbed[..|grabbed| - 1]);
    }
  }

  lemma {:induction false} KeptAll(setup: Setup, history: map<nat, Fill>, grabbed: seq<nat>)
    requires NoShortFrames(setup) && forall q :: q in grabbed ==> q in history
    ensures Kept(setup, history, grabbed) == grabbed
  {
    if grabbed != [] {
      KeptAll(setup, history, grabbed[..|grabbed| - 1]);
      assert LongEnough(setup, history, grabbed[|grabbed| - 1]);
    }
  }

  ghost predicate Inv(setup: Setup, s: State) {
    OwnershipInv(s) && CountInv(s) && DataInv(setup, s) && OutputInv(setup, s) && CompleteInv(setup, s)
  }

  lemma InitialOwnership(s: State)
    requires Initial(s)
    ensures OwnershipInv(s)
  {
    FreshSound(s.k, |s.k.memory|);
  }

  lemma InitialOrder(s: State)
    requires Initial(s)
    ensures OrderInv(s)
  {
  }

  lemma InitialOutput(setup: Setup, s: State)
    requires Initial(s)
    ensures DataInv(setup, s) && OutputInv(setup, s) && CompleteInv(setup, s)
  {
  }

  lemma InitialInv(setup: Setup, s: State)
    requires Initial(s)
    ensures Inv(setup, s)
  {
    InitialOwnership(s);
    InitialOrder(s);
    assert PushesOf(s.grabbed) == [];
    InitialOutput(setup, s);
  }

  lemma DriverStep(setup: Setup, s: State, e: DriverEvent)
    requires Inv(setup, s) && DriverMay(s.k, e)
    ensures OwnershipInv(s.(k := DriverDoes(s.k, e)))
    ensures OutputInv(setup, s.(k := DriverDoes(s.k, e)))
  {
    DriverKeepsPartition(s.k, e);
    DriverKeepsIntact(s.k, e);
    if Busy(s) {
      DriverKeepsRecord(s.k, e, s.fill);
    }
    forall m | m in s.published
      ensures Faithful(setup, DriverDoes(s.k, e), m)
    {
      assert Faithful(setup, s.k, m);
    }
  }

  lemma TakeOwnership(setup: Setup, s: State)
    requires OwnershipInv(s) && May(setup, s, Take)
    ensures OwnershipInv(Do(setup, s, Take))
  {
    DqbufKeepsPartition(s.k);
    DqbufKeepsIntact(s.k);
  }

  lemma TakeCount(setup: Setup, s: State)
    requires DoneIntact(s.k) && CountInv(s) && May(setup, s, Take)
    ensures CountInv(Do(setup, s, Take))
    ensures s.taken <= s.k.done[0].serial
  {
    DqbufKeepsIntact(s.k);
    assert Recorded(s.k, s.k.done[0]);
  }

  lemma TakeOutput(setup: Setup, s: State)
    requires Inv(setup, s) && May(setup, s, Take)
    ensures DataInv(setup, Do(setup, s, Take)) && OutputInv(setup, Do(setup, s, Take))
  {
    TakeCount(setup, s);
    assert Recorded(s.k, s.k.done[0]);
    forall m | m in s.published
      ensures Faithful(setup, Dqbuf(s.k), m)
    {
      assert Faithful(setup, s.k, m);
    }
  }

  lemma RequeueStep(setup: Setup, s: State, succeeds: bool)
    requires Inv(setup, s) && May(setup, s, Requeue(succeeds))
    ensures Inv(setup, Do(setup, s, Requeue(succeeds)))
  {
    QbufKeepsPartition(s.k, s.current, succeeds);
    QbufKeepsIntact(s.k, s.current, succeeds);
    forall m | m in s.published
      ensures Faithful(setup, Qbuf(s.k, s.current, succeeds), m)
    {
      assert Faithful(setup, s.k, m);
    }
  }

  lemma AdvanceOwnership(setup: Setup, s: State)
    requires OwnershipInv(s) && May(setup, s, Advance)
    ensures OwnershipInv(Do(setup, s, Advance))
  {
    var s' := Do(setup, s, Advance);
    assert s'.k == s.k && s'.current == s.current && s'.fill == s.fill && s'.refusals == s.refusals;
    assert Busy(s) && s'.empties == s.empties + if Busy(s') then 0 else 1;
  }

  lemma AdvanceOrder(setup: Setup, s: State)
    requires OrderInv(s) && May(setup, s, Advance)
    ensures OrderInv(Do(setup, s, Advance))
  {
  }

  // Counting one more frame.
  lemma CountOne(s: State, s': State)
    requires Increasing(s.grabbed) && s.counters == CountPushes(PushesOf(s.grabbed))
    requires After(s.grabbed) <= s.fill.serial && s.nPush == PushOf(s.fill.serial)
    requires s'.grabbed == s.grabbed + [s.fill.serial] && s'.counters == Account(s.counters, s.nPush)
    ensures Increasing(s'.grabbed) && s'.counters == CountPushes(PushesOf(s'.grabbed))
  {
    PushesOfSnoc(s.grabbed, s.fill.serial);
    AppendIncreasing(s.grabbed, s.fill.serial);
  }

  lemma AdvanceCount(setup: Setup, s: State)
    requires CountInv(s) && May(setup, s, Advance)
    ensures CountInv(Do(setup, s, Advance))
  {
    AdvanceOrder(setup, s);
    if s.pc.Counting? {
      CountOne(s, Do(setup, s, Advance));
    }
  }

  lemma AdvanceData(setup: Setup, s: State)
    requires OwnershipInv(s) && DataInv(setup, s) && May(setup, s, Advance)
    ensures DataInv(setup, Do(setup, s, Advance))
  {
    if s.pc == Converting && |s.scratch| == |s.fill.image| {
      assert s.scratch == s.fill.image;
    }
  }

  lemma SendFaithful(setup: Setup, k: Kernel, f: Fill)
    requires Recorded(k, f)
    ensures Faithful(setup, k, Message(f.serial, Payload(setup, f)))
  {
  }

  lemma AdvanceOutput(setup: Setup, s: State)
    requires OwnershipInv(s) && CountInv(s) && DataInv(setup, s) && OutputInv(setup, s)
    requires May(setup, s, Advance)
    ensures OutputInv(setup, Do(setup, s, Advance))
  {
    if s.pc == Sending {
      SendFaithful(setup, s.k, s.fill);
      var s' := Do(setup, s, Advance);
      assert forall m :: m in s'.published ==> m in s.published || m == Message(s.fill.serial, s.buffer);
      assert forall i :: 0 <= i < |s.published| ==> s.published[i] in s.published;
    }
  }

  lemma DriverComplete(setup: Setup, s: State, e: DriverEvent)
    requires DoneIntact(s.k) && CompleteInv(setup, s) && DriverMay(s.k, e)
    ensures CompleteInv(setup, s.(k := DriverDoes(s.k, e)))
  {
    KeptStable(setup, s.k.history, DriverDoes(s.k, e).history, s.grabbed);
  }

  lemma CountComplete(setup: Setup, s: State)
    requires OwnershipInv(s) && CompleteInv(setup, s) && DataInv(setup, s) && s.pc == Counting && May(setup, s, Advance)
    ensures CompleteInv(setup, Do(setup, s, Advance))
  {
    assert (s.grabbed + [s.fill.serial])[..|s.grabbed|] == s.grabbed;
    assert Recorded(s.k, s.fill);
  }

  lemma StepComplete(setup: Setup, s: State, ev: Event)
    requires OwnershipInv(s) && CompleteInv(setup, s) && DataInv(setup, s) && May(setup, s, ev)
    ensures CompleteInv(setup, Do(setup, s, ev))
  {
    if ev.Driver? {
      DriverComplete(setup, s, ev.e);
    } else if ev == Advance && s.pc == Counting {
      CountComplete(setup, s);
    } else if ev == Advance && s.pc == Sending {
      var message := Message(s.fill.serial, s.buffer);
      assert Serials(s.published + [message]) == Serials(s.published) + [message.serial];
    }
  }

  lemma StepInv(setup: Setup, s: State, ev: Event)
    requires Inv(setup, s) && May(setup, s, ev)
    ensures Inv(setup, Do(setup, s, ev))
  {
    StepComplete(setup, s, ev);
    match ev
    case Driver(e) => DriverStep(setup, s, e);
    case GrabFails =>
    case Take =>
      TakeOwnership(setup, s);
      TakeCount(setup, s);
      TakeOutput(setup, s);
    case Advance =>
      AdvanceOwnership(setup, s);
      AdvanceCount(setup, s);
      AdvanceData(setup, s);
      AdvanceOutput(setup, s);
    case Requeue(succeeds) => RequeueStep(setup, s, succeeds);
  }

  /** Every reachable state satisfies the invariant, whatever the driver does and whatever fails. */
  lemma {:induction false} RunInv(setup: Setup, s: State, evs: seq<Event>)
    requires Inv(setup, s) && Allowed(setup, s, evs)
    ensures Inv(setup, Run(setup, s, evs))
    decreases |evs|
  {
    if evs != [] {
      StepInv(setup, s, evs[0]);
      RunInv(setup, Do(setup, s, evs[0]), evs[1..]);
    }
  }

  lemma {:induction false} RunKeepsPool(setup: Setup, s: State, evs: seq<Event>)
    requires Allowed(setup, s, evs)
    ensures |Run(setup, s, evs).k.memory| == |s.k.memory|
    decreases |evs|
  {
    if evs != [] {
      RunKeepsPool(setup, Do(setup, s, evs[0]), evs[1..]);
    }
  }

  /** States some interleaving reaches from a freshly started stream over `pool` buffers. */
  ghost predicate Reachable(setup: Setup, pool: nat, s: State) {
    exists s0, evs :: Initial(s0) && |s0.k.memory| == pool && Allowed(setup, s0, evs) && s == Run(setup, s0, evs)
  }

  lemma ReachableInv(setup: Setup, pool: nat, s: State)
    requires Reachable(setup, pool, s)
    ensures Inv(setup, s) && |s.k.memory| == pool
  {
    var s0, evs :| Initial(s0) && |s0.k.memory| == pool && Allowed(setup, s0, evs) && s == Run(setup, s0, evs);
    InitialInv(setup, s0);
    RunInv(setup, s0, evs);
    RunKeepsPool(setup, s0, evs);
  }

  /**
   * In every interleaving with the driver, each published message equals byte for byte what the
   * driver left in the buffer it completed under that serial number (raw: the conversion of it),
   * and the published serial numbers strictly increase.
   */
  lemma PublishedFaithfully(setup: Setup, pool: nat, s: State)
    requires Reachable(setup, pool, s)
    ensures forall m :: m in s.published ==> Faithful(setup, s.k, m)
    ensures forall i, j :: 0 <= i < j < |s.published| ==> s.published[i].serial < s.published[j].serial
  {
    ReachableInv(setup, pool, s);
  }

  /**
   * At every loop head the published serial numbers are the validly grabbed ones, each once and in
   * order, without exactly those whose recorded frame converts to less than the expected size; if no
   * conversion can come out short, every valid grab is published.
   */
  lemma PublishedCompletely(setup: Setup, pool: nat, s: State)
    requires Reachable(setup, pool, s) && s.pc == Head
    ensures forall q :: q in s.grabbed ==> q in s.k.history
    ensures Serials(s.published) == Kept(setup, s.k.history, s.grabbed)
    ensures NoShortFrames(setup) ==> Serials(s.published) == s.grabbed
  {
    ReachableInv(setup, pool, s);
    if NoShortFrames(setup) {
      KeptAll(setup, s.k.history, s.grabbed);
    }
  }

  /** For every profile and flip method, a conversion into the backend's BGR image is never short. */
  lemma ProfilesNeverShort(d: Declared, convert: seq<byte> -> seq<byte>)
    requires !d.compressed && forall image :: |convert(image)| == BgrSize(LoadParams(d).res)
    ensures NoShortFrames(Setup(RawBgr8, LoadParams(d).expectedSize, convert))
    ensures forall image :: 0 < LoadParams(d).expectedSize == |convert(image)|
  {
    RawSizesAgree(d);
  }

  /** The loop never reads past a buffer, and inside an iteration its next step is always possible. */
  lemma NeverStuck(setup: Setup, pool: nat, s: State, succeeds: bool)
    requires Reachable(setup, pool, s) && s.pc != Head
    ensures May(setup, s, if s.pc == Releasing then Requeue(succeeds) else Advance)
  {
    ReachableInv(setup, pool, s);
    assert Recorded(s.k, s.fill);
  }

  /**
   * Exact ownership: each buffer is in exactly one place, and what is outside the driver is one
   * buffer per invalid dequeued frame, one per failed requeue, and the one being processed.
   */
  lemma OwnershipExact(setup: Setup, pool: nat, s: State)
    requires Reachable(setup, pool, s)
    ensures Partitioned(s.k)
    ensures |s.k.user| == s.empties + s.refusals + if s.pc == Head then 0 else 1
    ensures |s.k.queued| + |s.k.done| + |s.k.user| == pool
    ensures s.pc == Head ==> (s.k.user == {} <==> s.empties + s.refusals == 0)
    ensures s.empties + s.refusals == 0 ==> |s.k.queued| + |s.k.done| >= pool - 1
  {
    ReachableInv(setup, pool, s);
    PoolSize(s.k);
  }

  lemma ReachableCounts(setup: Setup, pool: nat, s: State)
    requires Reachable(setup, pool, s)
    ensures Increasing(s.grabbed) && s.counters == CountPushes(PushesOf(s.grabbed))
  {
    ReachableInv(setup, pool, s);
  }

  /**
   * Drop accounting despite gaps, timeouts, failing DQBUFs and invalid frames. The counters are always
   * those of the grabbed frames' 32-bit sequence numbers. They have balanced after every frame exactly
   * when each sequence number grabbed was higher than the ones before. The drop total is the number of
   * earlier frames never validly grabbed exactly when the last frame grabbed is one of the first 2^32;
   * after that no further frames can make it right (below 2^64 frames).
   */
  lemma DropsConserved(setup: Setup, pool: nat, s: State)
    requires Reachable(setup, pool, s)
    ensures Increasing(s.grabbed) && s.counters == CountPushes(PushesOf(s.grabbed))
    ensures |s.grabbed| < TWO_64 ==>
              && s.counters.nPull == |s.grabbed|
              && (ConservedThroughout(PushesOf(s.grabbed)) <==> Increasing([0] + PushesOf(s.grabbed)))
    ensures After(s.grabbed) <= TWO_64 ==> (Exact(s.counters, s.grabbed) <==> After(s.grabbed) <= TWO_32)
    ensures After(s.grabbed) <= TWO_32 ==> Tallies(s.counters, s.grabbed)
  {
    ReachableCounts(setup, pool, s);
    if |s.grabbed| < TWO_64 {
      PullsAndPushes(PushesOf(s.grabbed));
      ConservedThroughoutIff(PushesOf(s.grabbed));
    }
    ExactIffUnwrapped(s.grabbed);
    if After(s.grabbed) <= TWO_32 {
      TalliesUntilWrap(s.grabbed);
    }
  }

  lemma Unfold(setup: Setup, s: State, evs: seq<Event>)
    requires evs != [] && May(setup, s, evs[0])
    ensures Allowed(setup, s, evs) <==> Allowed(setup, Do(setup, s, evs[0]), evs[1..])
    ensures Allowed(setup, s, evs) ==> Run(setup, s, evs) == Run(setup, Do(setup, s, evs[0]), evs[1..])
  {
  }

  // Buffer 0 is filled with one byte, dequeued and counted; the frame is copied, sent and requeued.
  function TakeOne(skipped: nat): seq<Event> {
    [Driver(Complete(0, skipped, 1)), Take, Advance]
  }

  function FinishOne(): seq<Event> {
    [Advance, Advance, Advance, Requeue(true)]
  }

  // Only buffer 0 matters here: it is with the driver and holds at least one byte.
  ghost predicate ReadyForOne(setup: Setup, s: State) {
    && setup.format.Jpeg? && s.pc == Head && 0 in s.k.queued && s.k.done == []
    && |s.k.memory| > 0 && |s.k.memory[0]| > 0
  }

  lemma TakeOneRun(setup: Setup, s: State, skipped: nat)
    requires ReadyForOne(setup, s)
    ensures Allowed(setup, s, TakeOne(skipped))
    ensures var s' := Run(setup, s, TakeOne(skipped));
            var serial := s.k.nextSerial + skipped;
            && s'.pc == Copying && s'.buffer == [] && s'.current == 0 && s'.fill.index == 0 && s'.fill.bytesused == 1
            && s'.k.done == [] && 0 in s'.k.user && s'.k.memory == s.k.memory && s'.k.nextSerial == serial + 1
            && s'.grabbed == s.grabbed + [serial]
  {
    var evs := TakeOne(skipped);
    var s1 := Do(setup, s, evs[0]);
    var s2 := Do(setup, s1, Take);
    assert s1.k.done == [s2.fill];
    Unfold(setup, s2, evs[2..]);
    Unfold(setup, s1, evs[1..]);
    Unfold(setup, s, evs);
  }

  lemma FinishOneRun(setup: Setup, s: State)
    requires setup.format.Jpeg? && s.pc == Copying && s.buffer == [] && s.current == 0 && s.fill.index == 0
    requires s.fill.bytesused == 1 && |s.k.memory| > 0 && |s.k.memory[0]| > 0 && 0 in s.k.user && s.k.done == []
    ensures Allowed(setup, s, FinishOne())
    ensures var s' := Run(setup, s, FinishOne());
            && ReadyForOne(setup, s') && s'.k.nextSerial == s.k.nextSerial && s'.grabbed == s.grabbed
  {
    var evs := FinishOne();
    var s1 := Do(setup, s, Advance);
    var s2 := Do(setup, s1, Advance);
    var s3 := Do(setup, s2, Advance);
    Unfold(setup, s3, evs[3..]);
    Unfold(setup, s2, evs[2..]);
    Unfold(setup, s1, evs[1..]);
    Unfold(setup, s, evs);
  }

  // A frame after `first` skipped ones, and right behind it another.
  function TwoFrames(first: nat): seq<Event> {
    TakeOne(first) + FinishOne() + TakeOne(0)
  }

  lemma TwoFramesRun(setup: Setup, s: State, first: nat)
    requires ReadyForOne(setup, s)
    ensures Allowed(setup, s, TwoFrames(first))
    ensures var serial := s.k.nextSerial + first;
            Run(setup, s, TwoFrames(first)).grabbed == s.grabbed + [serial, serial + 1]
  {
    TakeOneRun(setup, s, first);
    var s1 := Run(setup, s, TakeOne(first));
    FinishOneRun(setup, s1);
    RunAppend(setup, s, TakeOne(first), FinishOne());
    TakeOneRun(setup, Run(setup, s1, FinishOne()), 0);
    RunAppend(setup, s, TakeOne(first) + FinishOne(), TakeOne(0));
  }

  lemma FreshReady(setup: Setup, s0: State)
    requires Initial(s0) && setup.format.Jpeg? && |s0.k.memory| > 0 && |s0.k.memory[0]| > 0
    ensures ReadyForOne(setup, s0) && s0.grabbed == []
  {
  }

  lemma TwoFramesReached(setup: Setup, s0: State, first: nat)
    requires Initial(s0) && ReadyForOne(setup, s0) && Allowed(setup, s0, TwoFrames(first))
    ensures Reachable(setup, |s0.k.memory|, Run(setup, s0, TwoFrames(first)))
  {
  }

  /** Two frames in a row over the first wrap: nothing is lost between them, and 2^64 - 1 drops are reported. */
  lemma WrapRun(setup: Setup, s0: State)
    requires Initial(s0) && setup.format.Jpeg? && s0.k.nextSerial == 0
    requires |s0.k.memory| > 0 && |s0.k.memory[0]| > 0
    ensures Allowed(setup, s0, TwoFrames(TWO_32 - 1))
    ensures var s := Run(setup, s0, TwoFrames(TWO_32 - 1));
            s.grabbed == [TWO_32 - 1, TWO_32] && s.counters.totalDrops == TWO_64 - 1
  {
    FreshReady(setup, s0);
    TwoFramesRun(setup, s0, TWO_32 - 1);
    TwoFramesReached(setup, s0, TWO_32 - 1);
    var s := Run(setup, s0, TwoFrames(TWO_32 - 1));
    ReachableCounts(setup, |s0.k.memory|, s);
    assert |s.grabbed| == 2 && s.grabbed[0] == TWO_32 - 1 && s.grabbed[1] == TWO_32;
    SequenceWrapMiscounts();
  }

  /** One zero-byte JPEG is enough to lose a buffer: the loop is back at its head and did not release it. */
  lemma EmptyFrameLeaks(setup: Setup, s0: State)
    requires Initial(s0) && setup.format.Jpeg? && |s0.k.memory| > 0
    ensures var evs := [Driver(Complete(0, 0, 0)), Take];
            && Allowed(setup, s0, evs)
            && var s := Run(setup, s0, evs); s.pc == Head && s.k.user == {0} && s.empties == 1
  {
    var evs := [Driver(Complete(0, 0, 0)), Take];
    var s1 := Do(setup, s0, evs[0]);
    var s2 := Do(setup, s1, Take);
    assert evs[1..] == [Take] && evs[1..][1..] == [];
    assert Allowed(setup, s2, []) && Run(setup, s2, []) == s2;
    assert Allowed(setup, s1, evs[1..]) && Run(setup, s1, evs[1..]) == s2;
  }

  // Nothing is left for the driver to fill.
  ghost predicate Starved(s: State) {
    s.pc == Head && s.k.queued == {} && s.k.done == []
  }

  /** At a loop head the camera is starved exactly when as many buffers leaked as the pool has. */
  lemma StarvedIff(setup: Setup, pool: nat, s: State)
    requires Reachable(setup, pool, s) && s.pc == Head
    ensures Starved(s) <==> s.empties + s.refusals == pool
  {
    OwnershipExact(setup, pool, s);
  }

  /** A starved node never publishes again: nothing but failing grabs is possible. */
  lemma {:induction false} StarvedForever(setup: Setup, s: State, evs: seq<Event>)
    requires Starved(s) && Allowed(setup, s, evs)
    ensures Run(setup, s, evs) == s
    decreases |evs|
  {
    if evs != [] {
      assert Do(setup, s, evs[0]) == s;
      StarvedForever(setup, s, evs[1..]);
    }
  }
}
