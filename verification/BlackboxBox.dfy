/** The log object: its file, mapping and writer thread, and the calls of the hot path. */
module BlackboxBox {
  import opened Common
  import opened BlackboxLog
  import opened MonotonicClock

  // Where the sync thread is; it looks at `running` and the file, never at the init mutex.
  datatype Writer = NoThread | Testing | Sleeping | Rechecking | Syncing | Exited

  predicate Alive(w: Writer) {
    w != NoThread && w != Exited
  }

  function WriterNext(w: Writer, running: bool): Writer {
    match w
    case Testing => if running then Sleeping else Exited
    case Sleeping => Rechecking
    case Rechecking => if running then Syncing else Exited
    case Syncing => Testing
    case _ => w
  }

  // Steps the writer still takes once `running` is false.
  function StepsToExit(w: Writer): nat {
    match w
    case Testing => 1
    case Sleeping => 2
    case Rechecking => 1
    case Syncing => 2
    case _ => 0
  }

  lemma WriterDrains(w: Writer)
    ensures StepsToExit(WriterNext(w, false)) == if Alive(w) then StepsToExit(w) - 1 else 0
    ensures StepsToExit(w) == 0 <==> !Alive(w)
  {
  }

  // How the system calls of init() turn out.
  datatype InitOutcome = OpenFails | FallocateFails | MmapFails | AllSucceed

  /**
   * The file, the mapping and the writer thread, with counts of every open, close, mmap, munmap,
   * started and ended writer so far. `writer` is where the last started thread is; `joinable` is the
   * thread object's state, and assigning over a joinable one ends the process.
   */
  datatype Life = Life(
    open: bool, mapped: bool, running: bool, writer: Writer, joinable: bool, terminated: bool,
    opens: nat, closes: nat, maps: nat, unmaps: nat, spawned: nat, exited: nat)

  function InitLife(l: Life, env: InitOutcome): Life {
    if l.open then l else
      match env
      case OpenFails => l
      case FallocateFails => l.(opens := l.opens + 1, closes := l.closes + 1)
      case MmapFails => l.(opens := l.opens + 1, closes := l.closes + 1)
      case AllSucceed =>
        l.(open := true, mapped := true, running := true, writer := Testing, joinable := true,
           terminated := l.terminated || l.joinable,
           opens := l.opens + 1, maps := l.maps + 1, spawned := l.spawned + 1)
  }

  // writer.join() returns when the thread has ended.
  function JoinLife(l: Life): Life {
    if !l.joinable then l
    else l.(joinable := false, writer := Exited, exited := l.exited + if Alive(l.writer) then 1 else 0)
  }

  function ShutdownLife(l: Life): Life {
    if !l.open then l
    else
      JoinLife(l).(open := false, mapped := false, running := false, closes := l.closes + 1,
                   unmaps := l.unmaps + if l.mapped then 1 else 0)
  }

  function WriterLife(l: Life): Life {
    var w := WriterNext(l.writer, l.running);
    l.(writer := w, exited := l.exited + if Alive(l.writer) && !Alive(w) then 1 else 0)
  }

  datatype LifeEvent = Init(env: InitOutcome) | Shutdown | WriterStep

  function LifeStep(l: Life, ev: LifeEvent): Life {
    match ev
    case Init(env) => InitLife(l, env)
    case Shutdown => ShutdownLife(l)
    case WriterStep => WriterLife(l)
  }

  function LifeRun(l: Life, evs: seq<LifeEvent>): Life
    decreases |evs|
  {
    if evs == [] then l else LifeRun(LifeStep(l, evs[0]), evs[1..])
  }

  const UNBORN := Life(false, false, false, NoThread, false, false, 0, 0, 0, 0, 0, 0)

  /**
   * Open file, mapping, `running`, joinable thread object and live writer go together; of all writers
   * ever started at most that one is still alive; nothing is leaked or given back twice; and no
   * joinable thread object was ever assigned over.
   */
  ghost predicate Coherent(l: Life) {
    && l.open == l.mapped == l.running == l.joinable == Alive(l.writer)
    && l.opens == l.closes + (if l.open then 1 else 0)
    && l.maps == l.unmaps + (if l.mapped then 1 else 0)
    && l.spawned == l.exited + (if l.open then 1 else 0)
    && !l.terminated
  }

  lemma {:induction false} RunCoherent(l: Life, evs: seq<LifeEvent>)
    requires Coherent(l)
    ensures Coherent(LifeRun(l, evs))
    decreases |evs|
  {
    if evs != [] {
      RunCoherent(LifeStep(l, evs[0]), evs[1..]);
    }
  }

  /** At every call boundary, after any calls with any failures and any writer progress in between. */
  lemma LifecycleCoherent(evs: seq<LifeEvent>)
    ensures Coherent(LifeRun(UNBORN, evs))
    ensures Coherent(LifeRun(UNBORN, evs + [Shutdown])) && !LifeRun(UNBORN, evs + [Shutdown]).open
  {
    RunCoherent(UNBORN, evs);
    RunAppend(UNBORN, evs, Shutdown);
  }

  lemma {:induction false} RunAppend(l: Life, evs: seq<LifeEvent>, ev: LifeEvent)
    ensures LifeRun(l, evs + [ev]) == LifeStep(LifeRun(l, evs), ev)
    decreases |evs|
  {
    if evs == [] {
      assert [ev][1..] == [] && evs + [ev] == [ev];
    } else {
      RunAppend(LifeStep(l, evs[0]), evs[1..], ev);
      assert (evs + [ev])[1..] == evs[1..] + [ev];
    }
  }

  class Box {
    const capacity: nat
    var fd: int
    var base: array?<Record>
    var idx: nat
    var seqNo: nat
    var running: bool
    var writer: Writer
    var joinable: bool
    ghost var terminated: bool
    ghost var opens: nat
    ghost var closes: nat
    ghost var maps: nat
    ghost var unmaps: nat
    ghost var spawned: nat
    ghost var exited: nat

    ghost function TheLife(): Life
      reads this
    {
      Life(fd >= 0, base != null, running, writer, joinable, terminated,
           opens, closes, maps, unmaps, spawned, exited)
    }

    ghost predicate Valid()
      reads this
    {
      Coherent(TheLife()) && fd >= -1 && (base != null ==> base.Length == capacity)
    }

    ghost function Contents(): Log
      requires base != null
      reads this, base
    {
      Log(idx, seqNo, base[..])
    }

    constructor (capacity: nat)
      ensures this.capacity == capacity && Valid() && TheLife() == UNBORN && idx == 0 && seqNo == 0
    {
      this.capacity := capacity;
      fd, base, idx, seqNo, running, writer := -1, null, 0, 0, false, NoThread;
      joinable, terminated := false, false;
      opens, closes, maps, unmaps, spawned, exited := 0, 0, 0, 0, 0, 0;
    }

    // running.store(true), and a new thread assigned to the thread object.
    method StartWriter()
      modifies `running, `writer, `joinable, `terminated, `spawned
      ensures running && writer == Testing && joinable && spawned == old(spawned) + 1
      ensures terminated == (old(terminated) || old(joinable))
    {
      running := true;
      terminated := terminated || joinable;
      writer, joinable := Testing, true;
      spawned := spawned + 1;
    }

    /** Opens, sizes and maps the log and starts the writer; a failure gives the file back and throws. */
    method Init(env: InitOutcome, newFd: nat) returns (thrown: bool)
      requires Valid()
      modifies `fd, `base, `running, `writer, `joinable, `terminated, `opens, `closes, `maps, `spawned
      ensures Valid() && TheLife() == InitLife(old(TheLife()), env)
      ensures thrown <==> old(fd) < 0 && env != AllSucceed
      ensures if old(fd) < 0 && env == AllSucceed
              then fd == newFd && fresh(base) && forall i :: 0 <= i < capacity ==> base[i] == ZERO
              else fd == old(fd) && base == old(base)
    {
      if fd >= 0 {
        return false;
      }
      if env == OpenFails {
        fd := -1;
        return true;
      }
      fd := newFd;
      opens := opens + 1;
      if env == FallocateFails || env == MmapFails {
        closes := closes + 1;
        fd := -1;
        return true;
      }
      base := new Record[capacity](_ => ZERO);
      maps := maps + 1;
      StartWriter();
      return false;
    }

    /** writer.join(): the writer runs on until it has ended. */
    method Join()
      requires !running && joinable && Alive(writer)
      modifies `writer, `joinable, `exited
      ensures writer == Exited && !joinable && exited == old(exited) + 1
    {
      while Alive(writer)
        invariant if Alive(writer) then exited == old(exited) else writer == Exited && exited == old(exited) + 1
        decreases StepsToExit(writer)
      {
        WriterDrains(writer);
        writer := WriterNext(writer, running);
        exited := exited + if Alive(writer) then 0 else 1;
      }
      joinable := false;
    }

    /** Stops and joins the writer, then unmaps and closes; the join ends because every writer step helps. */
    method Shutdown()
      requires Valid()
      modifies `fd, `base, `running, `writer, `joinable, `closes, `unmaps, `exited
      ensures Valid() && TheLife() == ShutdownLife(old(TheLife())) && fd < 0
    {
      if fd < 0 {
        return;
      }
      running := false;
      if joinable {
        Join();
      }
      base := null;
      unmaps := unmaps + 1;
      closes := closes + 1;
      fd := -1;
    }

    method NextIdx() returns (slot: Option<nat>)
      modifies `idx
      ensures idx == old(idx) + 1 && slot == if old(idx) < capacity then Some(old(idx)) else None
    {
      var i := idx;
      idx := idx + 1;
      slot := if i < capacity then Some(i) else None;
    }

    method NextSeq() returns (n: nat)
      modifies `seqNo
      ensures seqNo == old(seqNo) + 1 == n
    {
      seqNo := seqNo + 1;
      n := seqNo;
    }

    // The stores of log_cbk, in order.
    method Fill(i: nat, n: nat, header: uint64, capture: uint64, clock: Clock) returns (ghost now: uint64)
      requires base != null && i < base.Length
      modifies base, clock
      ensures old(clock.now) <= now == clock.now
      ensures base[..] == old(base[..])[i := Record(n, header, capture, now, 0, true, false)]
    {
      base[i] := base[i].(seqNo := n);
      base[i] := base[i].(headerStamp := header);
      base[i] := base[i].(tCapture := capture);
      var t := clock.MonoRawNs();
      now := t;
      base[i] := base[i].(tCbk := t);
      base[i] := base[i].(tPub := 0);
      base[i] := base[i].(capDone := true);
      base[i] := base[i].(rosDone := false);
    }

    /** Claims a slot and a number and fills the record; a closed or full log is left alone. */
    method LogCbk(header: uint64, capture: uint64, clock: Clock)
      returns (slot: Option<nat>, ghost now: uint64)
      requires Valid()
      modifies `idx, `seqNo, base, clock
      ensures Valid() && old(clock.now) <= now == clock.now
      ensures fd < 0 ==> slot == None && idx == old(idx) && seqNo == old(seqNo)
      ensures fd >= 0 ==> (Contents(), slot) == BlackboxLog.LogCbk(old(Contents()), header, capture, now)
    {
      now := clock.now;
      if fd < 0 {
        return None, now;
      }
      slot := NextIdx();
      if slot == None {
        return;
      }
      var n := NextSeq();
      now := Fill(slot.value, n, header, capture, clock);
    }

    /** Stamps and completes the given record; a closed log or no record is left alone. */
    method LogPub(slot: Option<nat>, clock: Clock) returns (ghost now: uint64)
      requires Valid()
      modifies base, clock
      ensures Valid() && old(clock.now) <= now == clock.now
      ensures fd >= 0 ==> Contents() == BlackboxLog.LogPub(old(Contents()), slot, now)
    {
      now := clock.now;
      if fd < 0 || slot == None || slot.value >= capacity {
        return;
      }
      var i := slot.value;
      var t := clock.MonoRawNs();
      now := t;
      base[i] := base[i].(tPub := t);
      base[i] := base[i].(rosDone := true);
      assert base[..] == old(base[..])[i := old(base[i]).(tPub := now, rosDone := true)];
    }
  }
}
