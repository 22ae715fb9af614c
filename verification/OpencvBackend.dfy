/** The V4L2 backend object and the device it talks to. */
module OpencvBackend {
  import opened Common
  import opened CameraBackend
  import opened Config
  import opened V4l2Stream

  const BUF_COUNT: nat := 4

  // What a mapping call left in MmapBuf::start.
  datatype Address = Null | MapFailed | At(a: nat)

  datatype MmapBuf = MmapBuf(start: Address, length: nat)

  const NO_BUF := MmapBuf(Null, 0)

  /** The live mapping addresses of a buffer table, in table order. */
  function Live(bufs: seq<MmapBuf>): seq<nat> {
    if bufs == [] then []
    else (if bufs[0].start.At? then [bufs[0].start.a] else []) + Live(bufs[1..])
  }

  lemma {:induction false} LiveAppend(a: seq<MmapBuf>, b: seq<MmapBuf>)
    ensures Live(a + b) == Live(a) + Live(b)
  {
    if a == [] {
      assert a + b == b;
    } else {
      LiveAppend(a[1..], b);
      var first := if a[0].start.At? then [a[0].start.a] else [];
      assert (a + b)[0] == a[0] && (a + b)[1..] == a[1..] + b;
      assert first + (Live(a[1..]) + Live(b)) == first + Live(a[1..]) + Live(b);
    }
  }

  lemma {:induction false} LiveNone(a: seq<MmapBuf>)
    requires forall i :: 0 <= i < |a| ==> !a[i].start.At?
    ensures Live(a) == []
  {
    if a != [] {
      LiveNone(a[1..]);
    }
  }

  /** The table's mappings are distinct and are exactly the live ones. */
  ghost predicate Owns(bufs: seq<MmapBuf>, maps: set<nat>) {
    Distinct(Live(bufs)) && Elements(Live(bufs)) == maps
  }

  // A table without mappings owns none.
  lemma EmptyTable(bufs: seq<MmapBuf>, maps: set<nat>)
    requires forall i :: 0 <= i < |bufs| ==> bufs[i] == NO_BUF
    ensures Owns(bufs, maps) <==> maps == {}
  {
    LiveNone(bufs);
  }

  /** A started stream over `pool` buffers whose held buffer, if any, is the application's. */
  ghost predicate StreamSound(k: Kernel, pool: nat, current: int) {
    && |k.memory| == pool && Partitioned(k) && DoneIntact(k)
    && (current >= 0 ==> current in k.user)
  }

  lemma TakeSound(k: Kernel, pool: nat, current: int)
    requires StreamSound(k, pool, current) && k.done != []
    ensures StreamSound(Dqbuf(k), pool, k.done[0].index)
  {
    DqbufKeepsPartition(k);
    DqbufKeepsIntact(k);
  }

  lemma DriverSound(k: Kernel, pool: nat, current: int, es: seq<DriverEvent>)
    requires StreamSound(k, pool, current) && DriverAllowed(k, es)
    ensures StreamSound(DriverRun(k, es), pool, current)
  {
    DriverRunKeeps(k, es);
  }

  // The frame just taken stays as it is whatever the driver does meanwhile.
  lemma FrameStays(k: Kernel, pool: nat, current: int, es: seq<DriverEvent>)
    requires StreamSound(k, pool, current) && k.done != [] && DriverAllowed(Dqbuf(k), es)
    ensures StreamSound(DriverRun(Dqbuf(k), es), pool, k.done[0].index)
    ensures Recorded(DriverRun(Dqbuf(k), es), k.done[0])
  {
    TakeSound(k, pool, current);
    DqbufKeepsIntact(k);
    DriverSound(Dqbuf(k), pool, k.done[0].index, es);
    BorrowedStays(Dqbuf(k), es, k.done[0]);
  }

  lemma RequeueSound(k: Kernel, pool: nat, current: int, succeeds: bool)
    requires StreamSound(k, pool, current) && current >= 0
    ensures StreamSound(Qbuf(k, current, succeeds), pool, -1)
  {
    QbufKeepsPartition(k, current, succeeds);
    QbufKeepsIntact(k, current, succeeds);
  }

  /**
   * The kernel side: descriptors, mappings and the streaming queue. Every call may fail, and REQBUFS
   * may grant fewer or more buffers than asked for.
   */
  class VideoDevice {
    var nextId: nat
    var fds: set<int>           // open descriptors
    var maps: set<nat>          // live mappings
    ghost var closed: seq<int>      // every close(), in order
    ghost var unmapped: seq<nat>    // every munmap(), in order
    ghost var failures: nat         // calls that failed so far
    var k: Kernel

    ghost predicate Valid()
      reads this
    {
      && (forall fd :: fd in fds ==> 0 <= fd < nextId)
      && (forall a :: a in maps ==> a < nextId)
    }

    method Open() returns (fd: int)
      requires Valid()
      modifies `nextId, `fds, `failures
      ensures Valid() && failures == old(failures) + if fd < 0 then 1 else 0
      ensures fd < 0 ==> fds == old(fds)
      ensures fd >= 0 ==> fd !in old(fds) && fds == old(fds) + {fd}
    {
      var ok: bool := *;
      if !ok {
        failures := failures + 1;
        return -1;
      }
      fd := nextId;
      nextId := nextId + 1;
      fds := fds + {fd};
    }

    method Close(fd: int)
      requires Valid()
      modifies `fds, `closed
      ensures Valid() && fds == old(fds) - {fd} && closed == old(closed) + [fd]
    {
      fds := fds - {fd};
      closed := closed + [fd];
    }

    method Mmap(length: nat) returns (start: Address)
      requires Valid()
      modifies `nextId, `maps, `failures
      ensures Valid() && start != Null && failures == old(failures) + if start == MapFailed then 1 else 0
      ensures start == MapFailed ==> maps == old(maps)
      ensures start.At? ==> start.a !in old(maps) && maps == old(maps) + {start.a}
    {
      var ok: bool := *;
      if !ok {
        failures := failures + 1;
        return MapFailed;
      }
      start := At(nextId);
      maps := maps + {nextId};
      nextId := nextId + 1;
    }

    method Munmap(a: nat)
      requires Valid()
      modifies `maps, `unmapped
      ensures Valid() && maps == old(maps) - {a} && unmapped == old(unmapped) + [a]
    {
      maps := maps - {a};
      unmapped := unmapped + [a];
    }

    /** VIDIOC_S_FMT, VIDIOC_STREAMON or select(): succeeds or not. */
    method Attempt() returns (ok: bool)
      modifies `failures
      ensures failures == old(failures) + if ok then 0 else 1
    {
      ok := *;
      failures := failures + if ok then 0 else 1;
    }

    /** VIDIOC_REQBUFS: on success the granted buffers belong to the application. */
    method RequestBuffers(count: nat) returns (ok: bool, granted: nat)
      modifies `k, `failures
      ensures failures == old(failures) + if ok then 0 else 1
      ensures !ok ==> k == old(k)
      ensures ok ==> Priming(k, granted, 0)
    {
      ok := *;
      var some: int := *;
      failures := failures + if ok then 0 else 1;
      granted := if some >= 0 then some else count;
      if ok {
        var first: nat := *;
        k := Kernel({}, [], Below(granted), seq(granted, i => []), first, map[]);
      }
    }

    method QueryBuf(i: nat) returns (ok: bool, length: nat)
      modifies `failures
      ensures failures == old(failures) + if ok then 0 else 1
    {
      ok := *;
      failures := failures + if ok then 0 else 1;
      var some: int := *;
      length := if some < 0 then 0 else some;
    }

    method QueueBuf(i: nat) returns (ok: bool)
      modifies `k, `failures
      ensures k == Qbuf(old(k), i, ok) && failures == old(failures) + if ok then 0 else 1
    {
      ok := *;
      failures := failures + if ok then 0 else 1;
      k := Qbuf(k, i, ok);
    }

    method DequeueBuf() returns (ok: bool, buf: Fill)
      modifies `k, `failures
      ensures failures == old(failures) + if ok then 0 else 1
      ensures !ok ==> k == old(k)
      ensures ok ==> old(k).done != [] && buf == old(k).done[0] && k == Dqbuf(old(k))
    {
      ok := *;
      ok := ok && k.done != [];
      failures := failures + if ok then 0 else 1;
      buf := Fill(0, 0, 0, []);
      if ok {
        buf := k.done[0];
        k := Dqbuf(k);
      }
    }

    /** The driver's own activity since the application's last call. */
    method DriverRuns() returns (ghost es: seq<DriverEvent>)
      modifies `k
      ensures DriverAllowed(old(k), es) && k == DriverRun(old(k), es)
    {
      es := [];
      var count: int := *;
      while count > 0
        invariant DriverAllowed(old(k), es) && k == DriverRun(old(k), es)
      {
        var e := SomeEvent();
        if DriverMay(k, e) {
          DriverRunSnoc(old(k), es, e);
          es := es + [e];
          k := DriverDoes(k, e);
        }
        count := count - 1;
      }
    }

    // Any driver event.
    method SomeEvent() returns (e: DriverEvent)
    {
      var i, n, m: int := *, *, *;
      var scribbles: bool := *;
      var index, first, second := if i < 0 then 0 else i, if n < 0 then 0 else n, if m < 0 then 0 else m;
      e := if scribbles then Scribble(index, first, (second % 256) as byte) else Complete(index, first, second);
    }

    /** VIDIOC_STREAMOFF: all buffers are dequeued. */
    method StreamOff()
      modifies `k
      ensures k == old(k).(queued := {}, done := [], user := Below(|old(k).memory|))
    {
      k := k.(queued := {}, done := [], user := Below(|k.memory|));
    }
  }

  class V4l2OpencvBackend {
    const dev: VideoDevice
    const bufs: array<MmapBuf>
    const convert: seq<byte> -> seq<byte>   // colour conversion and resize, any function of the buffer
    var fd: int
    var format: ImageFormat
    var res: Resolution
    var nBufs: nat
    var current: int
    var nPush: uint64
    var tCapture: uint64
    var bgr: seq<byte>

    /** The backend's resources are exactly the device's: one descriptor or none, and its live mappings. */
    ghost predicate Owned()
      reads this, dev, bufs
    {
      && bufs.Length == BUF_COUNT && dev.Valid()
      && dev.fds == (if fd >= 0 then {fd} else {})
      && Owns(bufs[..], dev.maps)
    }

    ghost predicate Valid()
      reads this, dev, bufs
    {
      && Owned() && nBufs <= BUF_COUNT
      && (forall i :: nBufs <= i < BUF_COUNT ==> bufs[i] == NO_BUF)
      && (fd < 0 ==> Idle())
    }

    ghost predicate Idle()
      reads this
    {
      fd < 0 && nBufs == 0 && current == -1
    }

    /** start() succeeded: every granted buffer is mapped and accounted for. */
    ghost predicate Streaming()
      requires bufs.Length == BUF_COUNT
      reads this, dev, bufs
    {
      && fd >= 0 && nBufs <= BUF_COUNT && StreamSound(dev.k, nBufs, current)
      && (forall i :: 0 <= i < nBufs ==> bufs[i].start.At?)
    }

    constructor (dev: VideoDevice, convert: seq<byte> -> seq<byte>)
      requires dev.Valid() && dev.fds == {} && dev.maps == {}
      ensures this.dev == dev && this.convert == convert && fresh(bufs) && Valid() && Idle() && nPush == 0
    {
      this.dev := dev;
      this.convert := convert;
      bufs := new MmapBuf[BUF_COUNT](_ => NO_BUF);
      fd, format, nBufs, current, nPush, tCapture := -1, RawBgr8, 0, -1, 0, 0;
      res := Resolution(0, 0, 0, 0, 0);
      bgr := [];
      new;
      LiveNone(bufs[..]);
    }

    /** As far as it is defined: the table has four entries, and the device may grant more buffers. */
    method Start(p: Params, wanted: ImageFormat) returns (ok: bool)
      requires Valid() && Idle()
      modifies `format, `res, `fd, `nBufs, bufs, dev`nextId, dev`fds, dev`maps, dev`failures, dev`k
      ensures current == -1 && (nBufs <= BUF_COUNT ==> Valid())
      ensures ok <==> p.declared.flipMethod == 0 && dev.failures == old(dev.failures) && nBufs <= BUF_COUNT
      ensures p.declared.flipMethod != 0 ==> !ok && Idle() && dev.fds == {}
      ensures ok ==> Streaming() && format == wanted && res == p.res
      ensures ok ==> FreshStream(dev.k, nBufs)
    {
      format := wanted;
      res := p.res;
      if p.declared.flipMethod != 0 {
        return false;
      }
      fd := dev.Open();
      if fd < 0 {
        return false;
      }
      ok := dev.Attempt();
      if !ok {
        return;
      }
      ok := RequestBuffers();
      if !ok {
        return;
      }
      ok := dev.Attempt();
    }

    /**
     * Nothing in the code bounds the number of buffers granted. With more than four, and no call
     * failing before that, the fifth turn writes past the table: the model stops there and gives up.
     */
    method RequestBuffers() returns (ok: bool)
      requires Valid() && fd >= 0 && nBufs == 0 && current == -1
      modifies `nBufs, bufs, dev`nextId, dev`maps, dev`failures, dev`k
      ensures dev.failures >= old(dev.failures) && (nBufs <= BUF_COUNT ==> Valid())
      ensures ok <==> dev.failures == old(dev.failures) && nBufs <= BUF_COUNT
      ensures ok ==> Streaming() && FreshStream(dev.k, nBufs)
    {
      var granted;
      ok, granted := dev.RequestBuffers(BUF_COUNT);
      if !ok {
        return;
      }
      nBufs := granted;
      for i := 0 to nBufs
        invariant nBufs == granted && i <= BUF_COUNT && Owned()
        invariant forall j :: 0 <= j < i ==> bufs[j].start.At?
        invariant forall j :: i <= j < BUF_COUNT ==> bufs[j] == NO_BUF
        invariant Priming(dev.k, granted, i) && dev.failures == old(dev.failures)
      {
        if i == BUF_COUNT {
          return false;
        }
        ok := MapBuffer(i);
        if !ok {
          return;
        }
      }
      Primed(dev.k, granted);
      ok := true;
    }

    // The body of the request loop: query, map and queue buffer i.
    method MapBuffer(i: nat) returns (ok: bool)
      requires Owned() && i < nBufs && i < BUF_COUNT && Priming(dev.k, nBufs, i)
      requires forall j :: i <= j < BUF_COUNT ==> bufs[j] == NO_BUF
      modifies bufs, dev`nextId, dev`maps, dev`failures, dev`k
      ensures Owned() && forall j :: 0 <= j < BUF_COUNT && j != i ==> bufs[j] == old(bufs[j])
      ensures ok ==> dev.failures == old(dev.failures) && bufs[i].start.At? && Priming(dev.k, nBufs, i + 1)
      ensures !ok ==> dev.failures > old(dev.failures)
    {
      var length;
      ok, length := dev.QueryBuf(i);
      if !ok {
        return;
      }
      ghost var before, was := bufs[..], dev.maps;
      var start := dev.Mmap(length);
      bufs[i] := MmapBuf(start, length);
      assert bufs[..] == before[i := bufs[i]];
      OwnsMore(before, was, i, bufs[i], dev.maps);
      if start == MapFailed {
        return false;
      }
      PrimeNext(dev.k, nBufs, i);
      ok := dev.QueueBuf(i);
    }

    /** The backend holds this completed buffer, counts it, and lends its bytes or their conversion. */
    ghost predicate GrabbedFill(f: Fill, frame: Frame)
      reads this
    {
      && current == f.index && nPush == f.Sequence() + 1
      && if format.Jpeg? then frame == Frame(Mapped(f.index), f.bytesused)
         else bgr == convert(f.image) && frame == Frame(Converted, |bgr|)
    }

    // The frame grab() returns for the buffer it holds.
    method Borrow(ghost f: Fill, bytesused: nat) returns (frame: Frame)
      requires Recorded(dev.k, f) && current == f.index && nPush == f.Sequence() + 1 && bytesused == f.bytesused
      modifies `bgr
      ensures GrabbedFill(f, frame) && (format.Jpeg? ==> bgr == old(bgr))
    {
      if format.Jpeg? {
        return Frame(Mapped(current), bytesused);
      }
      bgr := convert(dev.k.memory[current]);
      frame := Frame(Converted, |bgr|);
    }

    // select() and DQBUF.
    method Dequeue() returns (ok: bool, buf: Fill, ghost waited: seq<DriverEvent>)
      requires StreamSound(dev.k, nBufs, current)
      modifies dev`k, dev`failures
      ensures ok <==> dev.failures == old(dev.failures)
      ensures DriverAllowed(old(dev.k), waited) && StreamSound(DriverRun(old(dev.k), waited), nBufs, current)
      ensures ok ==> DriverRun(old(dev.k), waited).done != [] && buf == DriverRun(old(dev.k), waited).done[0]
      ensures dev.k == if ok then Dqbuf(DriverRun(old(dev.k), waited)) else DriverRun(old(dev.k), waited)
    {
      buf := Fill(0, 0, 0, []);
      waited := dev.DriverRuns();
      DriverSound(old(dev.k), nBufs, current, waited);
      ok := dev.Attempt();
      if !ok {
        return;
      }
      ok, buf := dev.DequeueBuf();
    }

    /**
     * Waits for a frame and takes it; without one nothing of the backend changes. The driver may act
     * before the call takes the frame and while it converts it.
     */
    method Grab(now: uint64)
      returns (frame: Frame, ghost taken: bool, ghost waited: seq<DriverEvent>, ghost meanwhile: seq<DriverEvent>)
      requires Valid() && Streaming()
      modifies `current, `nPush, `tCapture, `bgr, dev`k, dev`failures
      ensures Valid() && Streaming() && DriverAllowed(old(dev.k), waited)
      ensures taken <==> dev.failures == old(dev.failures)
      ensures !taken ==> frame == NO_FRAME && unchanged(this) && dev.k == DriverRun(old(dev.k), waited)
      ensures taken ==> DriverRun(old(dev.k), waited).done != [] && tCapture == now
      ensures taken ==> DriverAllowed(Dqbuf(DriverRun(old(dev.k), waited)), meanwhile)
      ensures taken ==> dev.k == DriverRun(Dqbuf(DriverRun(old(dev.k), waited)), meanwhile)
      ensures taken ==> GrabbedFill(DriverRun(old(dev.k), waited).done[0], frame)
      ensures taken && format.Jpeg? ==> bgr == old(bgr)
    {
      frame, taken, meanwhile := NO_FRAME, false, [];
      var ok, buf;
      ok, buf, waited := Dequeue();
      if !ok {
        return;
      }
      taken := true;
      tCapture := now;
      nPush := buf.Sequence() + 1;
      current := buf.index;
      meanwhile := dev.DriverRuns();
      FrameStays(DriverRun(old(dev.k), waited), nBufs, old(current), meanwhile);
      frame := Borrow(buf, buf.bytesused);
    }

    /** Requeues the held buffer, if any; whether or not that works, nothing is held afterwards. */
    method Release() returns (ghost succeeds: bool)
      requires Valid() && Streaming()
      modifies `current, dev`k, dev`failures
      ensures Valid() && Streaming() && current == -1
      ensures succeeds <==> dev.failures == old(dev.failures)
      ensures dev.k == if old(current) < 0 then old(dev.k) else Qbuf(old(dev.k), old(current), succeeds)
    {
      succeeds := true;
      if current < 0 {
        current := -1;
        return;
      }
      ghost var before := dev.k;
      var ok := dev.QueueBuf(current);
      RequeueSound(before, nBufs, current, ok);
      succeeds := ok;
      current := -1;
    }

    // The body of the unmapping loop.
    method UnmapEntry(i: nat, ghost was: seq<MmapBuf>, ghost log: seq<nat>)
      requires i < bufs.Length == |was| && bufs[i] == was[i] && dev.Valid() && Owns(was[i..], dev.maps)
      requires dev.unmapped == log + Live(was[..i])
      modifies bufs, dev`maps, dev`unmapped
      ensures dev.Valid() && bufs[i] == NO_BUF && Owns(was[i + 1..], dev.maps)
      ensures forall j :: 0 <= j < bufs.Length && j != i ==> bufs[j] == old(bufs[j])
      ensures dev.unmapped == log + Live(was[..i + 1])
    {
      OwnsLess(was, dev.maps, i);
      if bufs[i].start.At? {
        dev.Munmap(bufs[i].start.a);
      }
      bufs[i] := NO_BUF;
    }

    // The unmapping loop of stop().
    method UnmapAll()
      requires Valid()
      modifies bufs, dev`maps, dev`unmapped
      ensures dev.Valid() && dev.maps == {}
      ensures forall i :: 0 <= i < BUF_COUNT ==> bufs[i] == NO_BUF
      ensures dev.unmapped == old(dev.unmapped) + Live(old(bufs[..]))
    {
      ghost var was := bufs[..];
      for i := 0 to nBufs
        invariant dev.Valid()
        invariant forall j :: 0 <= j < i ==> bufs[j] == NO_BUF
        invariant forall j :: i <= j < BUF_COUNT ==> bufs[j] == was[j]
        invariant dev.unmapped == old(dev.unmapped) + Live(was[..i])
        invariant Owns(was[i..], dev.maps)
      {
        UnmapEntry(i, was, old(dev.unmapped));
      }
      OwnsNothing(was, dev.maps, nBufs);
    }

    /**
     * Gives everything back, from whatever point start() got to: each live mapping is unmapped once,
     * the descriptor is closed once. On an idle backend it does nothing.
     */
    method Stop()
      requires Valid()
      modifies this, dev, bufs
      ensures Valid() && Idle() && dev.maps == {} && dev.fds == {}
      ensures forall i :: 0 <= i < BUF_COUNT ==> bufs[i] == NO_BUF
      ensures old(fd) < 0 ==> unchanged(this, dev, bufs)
      ensures old(fd) >= 0 ==> dev.closed == old(dev.closed) + [old(fd)]
      ensures old(fd) >= 0 ==> dev.unmapped == old(dev.unmapped) + Live(old(bufs[..]))
    {
      if fd < 0 {
        EmptyTable(bufs[..], dev.maps);
        return;
      }
      dev.StreamOff();
      UnmapAll();
      EmptyTable(bufs[..], dev.maps);
      nBufs := 0;
      current := -1;
      dev.Close(fd);
      fd := -1;
    }
  }

  lemma DistinctTail(a: nat, rest: seq<nat>)
    requires Distinct([a] + rest)
    ensures Distinct(rest) && Elements(rest) == Elements([a] + rest) - {a}
  {
    var all := [a] + rest;
    assert forall i :: 0 <= i < |rest| ==> rest[i] == all[i + 1];
    assert all[0] == a;
    assert forall x :: x in all <==> x == a || x in rest;
  }

  /** Filling one empty table entry adds its mapping, if it got one. */
  lemma OwnsMore(bufs: seq<MmapBuf>, maps: set<nat>, i: nat, b: MmapBuf, maps': set<nat>)
    requires i < |bufs| && Owns(bufs, maps)
    requires forall j :: i <= j < |bufs| ==> !bufs[j].start.At?
    requires if b.start.At? then b.start.a !in maps && maps' == maps + {b.start.a} else maps' == maps
    ensures Owns(bufs[i := b], maps')
  {
    LiveNone(bufs[i..]);
    LiveNone(bufs[i + 1..]);
    LiveAppend(bufs[..i], bufs[i..]);
    assert bufs == bufs[..i] + bufs[i..];
    LiveAppend(bufs[..i], [b] + bufs[i + 1..]);
    assert bufs[i := b] == bufs[..i] + ([b] + bufs[i + 1..]);
    assert ([b] + bufs[i + 1..])[1..] == bufs[i + 1..];
    assert Live(bufs[i := b]) == Live(bufs) + if b.start.At? then [b.start.a] else [];
  }

  /** Unmapping entry i leaves the mappings of the entries after it. */
  lemma OwnsLess(bufs: seq<MmapBuf>, maps: set<nat>, i: nat)
    requires i < |bufs| && Owns(bufs[i..], maps)
    ensures var one := if bufs[i].start.At? then [bufs[i].start.a] else [];
            && Live(bufs[..i + 1]) == Live(bufs[..i]) + one
            && Owns(bufs[i + 1..], maps - Elements(one))
  {
    LiveAppend(bufs[..i], [bufs[i]]);
    assert bufs[..i + 1] == bufs[..i] + [bufs[i]];
    assert bufs[i..][1..] == bufs[i + 1..];
    var rest := Live(bufs[i + 1..]);
    if bufs[i].start.At? {
      DistinctTail(bufs[i].start.a, rest);
    } else {
      assert Live(bufs[i..]) == rest;
    }
  }

  /** Past the table's last used entry nothing is mapped. */
  lemma OwnsNothing(bufs: seq<MmapBuf>, maps: set<nat>, n: nat)
    requires n <= |bufs| && Owns(bufs[n..], maps)
    requires forall j :: n <= j < |bufs| ==> !bufs[j].start.At?
    ensures maps == {} && Live(bufs[..n]) == Live(bufs)
  {
    LiveNone(bufs[n..]);
    LiveAppend(bufs[..n], bufs[n..]);
    assert bufs == bufs[..n] + bufs[n..];
  }
}
