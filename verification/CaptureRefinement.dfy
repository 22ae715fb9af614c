/** The backend object takes exactly the steps of the capture machine. */
module CaptureRefinement {
  import opened Common
  import opened CameraBackend
  import opened Config
  import opened V4l2Stream
  import opened OpencvBackend
  import CaptureRun

  /** The object's fields and its device are those of a machine state. */
  ghost predicate Mirrors(b: V4l2OpencvBackend, setup: CaptureRun.Setup, s: CaptureRun.State)
    reads b, b.dev
  {
    && b.dev.k == s.k && b.current == s.current && b.nPush == s.nPush && b.bgr == s.bgr
    && b.format == setup.format && b.convert == setup.convert
  }

  /** start() on a fresh backend leaves it in one of the machine's initial states. */
  method StartIsInitial(b: V4l2OpencvBackend, p: Params, wanted: ImageFormat, setup: CaptureRun.Setup)
    returns (ok: bool, ghost s: CaptureRun.State)
    requires b.Valid() && b.Idle() && b.nPush == 0 && setup.format == wanted && setup.convert == b.convert
    modifies b, b.dev, b.bufs
    ensures b.nBufs <= BUF_COUNT ==> b.Valid()
    ensures ok ==> b.Valid() && b.Streaming() && Mirrors(b, setup, s) && CaptureRun.Initial(s)
  {
    ok := b.Start(p, wanted);
    s := CaptureRun.State(b.dev.k, b.current, 0, b.nPush, Fill(0, 0, 0, []), [], b.bgr, CaptureRun.Head,
                          CaptureRun.DropAccounting.FRESH, [], [], [], 0, 0);
  }

  // The machine's steps of a grab() that takes a frame: the take, driver activity, and the conversion.
  ghost function TakeEvents(setup: CaptureRun.Setup, meanwhile: seq<DriverEvent>, size: nat): seq<CaptureRun.Event> {
    [CaptureRun.Take] + CaptureRun.Drivers(meanwhile)
    + if setup.format.Jpeg? then [] else CaptureRun.Advances(size + 1)
  }

  /** The machine's steps of one grab(): driver activity, then a failing grab or a take. */
  ghost predicate IsGrab(setup: CaptureRun.Setup, taken: bool, evs: seq<CaptureRun.Event>) {
    if taken then exists waited, meanwhile, size ::
        evs == CaptureRun.Drivers(waited) + TakeEvents(setup, meanwhile, size)
    else exists waited :: evs == CaptureRun.Drivers(waited) + [CaptureRun.GrabFails]
  }

  // A take and what the driver does before grab() returns.
  lemma TakeAndWait(setup: CaptureRun.Setup, s: CaptureRun.State, meanwhile: seq<DriverEvent>)
    requires s.pc == CaptureRun.Head && s.k.done != [] && DriverAllowed(Dqbuf(s.k), meanwhile)
    ensures var evs := [CaptureRun.Take] + CaptureRun.Drivers(meanwhile);
            && CaptureRun.Allowed(setup, s, evs)
            && CaptureRun.Run(setup, s, evs)
               == CaptureRun.Do(setup, s, CaptureRun.Take).(k := DriverRun(Dqbuf(s.k), meanwhile))
  {
    var take := [CaptureRun.Take];
    var s1 := CaptureRun.Do(setup, s, CaptureRun.Take);
    assert take[1..] == [] && CaptureRun.Run(setup, s, take) == s1;
    CaptureRun.DriverAlone(setup, s1, meanwhile);
    CaptureRun.RunAppend(setup, s, take, CaptureRun.Drivers(meanwhile));
  }

  /** A take, what the driver does during the call, and the conversion. */
  lemma TakeRun(setup: CaptureRun.Setup, pool: nat, s: CaptureRun.State, meanwhile: seq<DriverEvent>)
    requires StreamSound(s.k, pool, s.current) && s.pc == CaptureRun.Head && s.k.done != []
    requires DriverAllowed(Dqbuf(s.k), meanwhile)
    ensures var f := s.k.done[0];
            var evs := TakeEvents(setup, meanwhile, |f.image|);
            && CaptureRun.Allowed(setup, s, evs)
            && var s' := CaptureRun.Run(setup, s, evs);
               && s'.k == DriverRun(Dqbuf(s.k), meanwhile) && s'.current == f.index && s'.nPush == f.Sequence() + 1
               && s'.fill == f && s'.bgr == (if setup.format.Jpeg? then s.bgr else setup.convert(f.image))
               && s'.pc == if CaptureRun.FrameSize(setup, s') > 0 then CaptureRun.Counting else CaptureRun.Head
  {
    var f := s.k.done[0];
    var evs := [CaptureRun.Take] + CaptureRun.Drivers(meanwhile);
    TakeAndWait(setup, s, meanwhile);
    if setup.format.Jpeg? {
      assert TakeEvents(setup, meanwhile, |f.image|) == evs;
    } else {
      var s2 := CaptureRun.Run(setup, s, evs);
      assert s2.k.memory[f.index] == f.image && f.index < |s2.k.memory| by {
        FrameStays(s.k, pool, s.current, meanwhile);
      }
      CaptureRun.ConvertAlone(setup, s2);
      CaptureRun.RunAppend(setup, s, evs, CaptureRun.Advances(|f.image| + 1));
    }
  }

  // Driver activity while grab() waits, then the given steps.
  lemma WaitRun(setup: CaptureRun.Setup, s: CaptureRun.State, waited: seq<DriverEvent>, rest: seq<CaptureRun.Event>)
    requires DriverAllowed(s.k, waited) && CaptureRun.Allowed(setup, s.(k := DriverRun(s.k, waited)), rest)
    ensures CaptureRun.Allowed(setup, s, CaptureRun.Drivers(waited) + rest)
    ensures CaptureRun.Run(setup, s, CaptureRun.Drivers(waited) + rest)
            == CaptureRun.Run(setup, s.(k := DriverRun(s.k, waited)), rest)
  {
    CaptureRun.DriverAlone(setup, s, waited);
    CaptureRun.RunAppend(setup, s, CaptureRun.Drivers(waited), rest);
  }

  lemma FailRun(setup: CaptureRun.Setup, s: CaptureRun.State)
    requires s.pc == CaptureRun.Head
    ensures CaptureRun.Allowed(setup, s, [CaptureRun.GrabFails])
    ensures CaptureRun.Run(setup, s, [CaptureRun.GrabFails]) == s
  {
    assert [CaptureRun.GrabFails][1..] == [];
  }

  /**
   * grab() is a run of the machine from its loop head: what the driver does meanwhile, then a failing
   * grab, or a take with its conversion. The frame has the machine's size, and it is valid exactly
   * when the machine goes on with the iteration, for both formats.
   */
  method GrabIsRun(b: V4l2OpencvBackend, setup: CaptureRun.Setup, ghost s: CaptureRun.State, now: uint64)
    returns (frame: Frame, ghost evs: seq<CaptureRun.Event>)
    requires b.Valid() && b.Streaming() && Mirrors(b, setup, s) && s.pc == CaptureRun.Head
    modifies b, b.dev
    ensures b.Valid() && b.Streaming()
    ensures CaptureRun.Allowed(setup, s, evs) && Mirrors(b, setup, CaptureRun.Run(setup, s, evs))
    ensures IsGrab(setup, frame != NO_FRAME, evs)
    ensures var s' := CaptureRun.Run(setup, s, evs);
            && (frame.Valid() <==> s'.pc == CaptureRun.Counting)
            && (frame != NO_FRAME ==> frame.size == CaptureRun.FrameSize(setup, s'))
            && (s'.pc == CaptureRun.Counting || s'.pc == CaptureRun.Head)
  {
    ghost var pool := b.nBufs;
    ghost var taken, waited, meanwhile;
    frame, taken, waited, meanwhile := b.Grab(now);
    DriverSound(s.k, pool, s.current, waited);
    ghost var s1 := s.(k := DriverRun(s.k, waited));
    if taken {
      TakeRun(setup, pool, s1, meanwhile);
      WaitRun(setup, s, waited, TakeEvents(setup, meanwhile, |s1.k.done[0].image|));
      evs := CaptureRun.Drivers(waited) + TakeEvents(setup, meanwhile, |s1.k.done[0].image|);
    } else {
      FailRun(setup, s1);
      WaitRun(setup, s, waited, [CaptureRun.GrabFails]);
      evs := CaptureRun.Drivers(waited) + [CaptureRun.GrabFails];
    }
  }

  /** release() after a processed frame is a Requeue step, whether or not the device accepts it. */
  method ReleaseIsStep(b: V4l2OpencvBackend, setup: CaptureRun.Setup, ghost s: CaptureRun.State)
    returns (ghost ev: CaptureRun.Event)
    requires b.Valid() && b.Streaming() && Mirrors(b, setup, s)
    requires s.pc == CaptureRun.Releasing && s.current >= 0
    modifies b, b.dev
    ensures b.Valid() && b.Streaming() && ev.Requeue?
    ensures CaptureRun.May(setup, s, ev) && Mirrors(b, setup, CaptureRun.Do(setup, s, ev))
  {
    ghost var succeeds := b.Release();
    ev := CaptureRun.Requeue(succeeds);
  }
}
