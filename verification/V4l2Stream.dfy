/**
 * Memory-mapped streaming I/O as the Video4Linux2 API describes it (chapter "Input/Output",
 * section "Streaming I/O (Memory Mapping)"), seen as an adversary: while a buffer is queued the
 * driver may write any byte of it at any time, it completes queued buffers in any order, and it may
 * skip sequence numbers, which wrap after 2^32. DQBUF hands completed buffers out in completion order.
 */
module V4l2Stream {
  import opened Common

  /** A completed buffer as DQBUF reports it, with a record of what the driver left in it. */
  // `serial` numbers the frames without wrapping; DQBUF reports only its low 32 bits.
  datatype Fill = Fill(index: nat, serial: nat, bytesused: nat, image: seq<byte>) {
    function Sequence(): uint32 {
      serial % TWO_32
    }
  }

  datatype Kernel = Kernel(
    queued: set<nat>,            // owned by the driver, waiting to be filled
    done: seq<Fill>,             // filled, not yet dequeued
    user: set<nat>,              // dequeued by the application
    memory: seq<seq<byte>>,      // contents of the mapped buffers
    nextSerial: nat,             // smallest serial number the driver may still use
    history: map<nat, Fill>)     // everything the driver ever completed, by serial number

  datatype DriverEvent =
    | Scribble(index: nat, offset: nat, value: byte)
    | Complete(index: nat, skipped: nat, bytesused: nat)

  // The driver only touches queued buffers.
  predicate DriverMay(k: Kernel, e: DriverEvent) {
    && e.index in k.queued && e.index < |k.memory|
    && match e
       case Scribble(i, offset, _) => offset < |k.memory[i]|
       case Complete(i, _, bytesused) => bytesused <= |k.memory[i]|
  }

  function DriverDoes(k: Kernel, e: DriverEvent): Kernel
    requires DriverMay(k, e)
  {
    match e
    case Scribble(i, offset, value) => k.(memory := k.memory[i := k.memory[i][offset := value]])
    case Complete(i, skipped, bytesused) =>
      var serial := k.nextSerial + skipped;
      var fill := Fill(i, serial, bytesused, k.memory[i]);
      k.(queued := k.queued - {i}, done := k.done + [fill],
         nextSerial := serial + 1, history := k.history[serial := fill])
  }

  /** A successful VIDIOC_DQBUF: the oldest completed buffer goes to the application. */
  function Dqbuf(k: Kernel): Kernel
    requires k.done != []
  {
    k.(done := k.done[1..], user := k.user + {k.done[0].index})
  }

  /** VIDIOC_QBUF of buffer i: it fails, or a dequeued buffer goes back to the driver. */
  function Qbuf(k: Kernel, i: nat, succeeds: bool): Kernel {
    if succeeds && i in k.user then k.(user := k.user - {i}, queued := k.queued + {i}) else k
  }

  function DoneIndices(done: seq<Fill>): set<nat> {
    if done == [] then {} else {done[0].index} + DoneIndices(done[1..])
  }

  ghost predicate NoRepeats(done: seq<Fill>) {
    done == [] || (done[0].index !in DoneIndices(done[1..]) && NoRepeats(done[1..]))
  }

  /** Every buffer is in exactly one place: with the driver, completed, or with the application. */
  ghost predicate Partitioned(k: Kernel) {
    && NoRepeats(k.done)
    && (forall i :: i in k.queued ==> i < |k.memory| && i !in DoneIndices(k.done) && i !in k.user)
    && (forall i :: i in DoneIndices(k.done) ==> i < |k.memory| && i !in k.user)
    && (forall i :: i in k.user ==> i < |k.memory|)
    && (forall i :: 0 <= i < |k.memory| ==> i in k.queued || i in DoneIndices(k.done) || i in k.user)
  }

  ghost predicate Recorded(k: Kernel, f: Fill) {
    && f.index < |k.memory|
    && k.memory[f.index] == f.image
    && f.bytesused <= |f.image|
    && f.serial in k.history && k.history[f.serial] == f
  }

  /** Completed buffers still hold what the driver left there, in increasing serial order. */
  ghost predicate DoneIntact(k: Kernel) {
    && (forall q :: q in k.history ==> q < k.nextSerial)
    && (forall f :: f in k.done ==> Recorded(k, f))
    && (forall i, j :: 0 <= i < j < |k.done| ==> k.done[i].serial < k.done[j].serial)
  }

  lemma {:induction false} DoneSize(done: seq<Fill>)
    requires NoRepeats(done)
    ensures |DoneIndices(done)| == |done|
  {
    if done != [] {
      DoneSize(done[1..]);
    }
  }

  lemma {:induction false} DoneMember(done: seq<Fill>, f: Fill)
    requires f in done
    ensures f.index in DoneIndices(done)
  {
    if f != done[0] {
      assert f in done[1..];
      DoneMember(done[1..], f);
    }
  }

  lemma {:induction false} DoneAppend(done: seq<Fill>, f: Fill)
    requires NoRepeats(done) && f.index !in DoneIndices(done)
    ensures DoneIndices(done + [f]) == DoneIndices(done) + {f.index} && NoRepeats(done + [f])
  {
    if done == [] {
      assert [f][1..] == [];
    } else {
      DoneAppend(done[1..], f);
      assert (done + [f])[1..] == done[1..] + [f];
    }
  }

  /** No buffer is ever duplicated or dropped from the count. */
  lemma PoolSize(k: Kernel)
    requires Partitioned(k)
    ensures |k.queued| + |k.done| + |k.user| == |k.memory|
  {
    DoneSize(k.done);
    var completed := DoneIndices(k.done);
    assert |k.queued + completed| == |k.queued| + |completed|;
    assert |k.queued + completed + k.user| == |k.queued + completed| + |k.user|;
    assert k.queued + completed + k.user == Below(|k.memory|);
  }

  lemma DriverKeepsPartition(k: Kernel, e: DriverEvent)
    requires Partitioned(k) && DriverMay(k, e)
    ensures Partitioned(DriverDoes(k, e))
  {
    var k' := DriverDoes(k, e);
    if e.Complete? {
      DoneAppend(k.done, k'.done[|k.done|]);
    }
  }

  /** What the driver left in a buffer stays recorded while the buffer is not back in its queue. */
  lemma DriverKeepsRecord(k: Kernel, e: DriverEvent, f: Fill)
    requires DoneIntact(k) && DriverMay(k, e)
    requires Recorded(k, f) && f.index !in k.queued
    ensures Recorded(DriverDoes(k, e), f)
  {
  }

  lemma DriverKeepsIntact(k: Kernel, e: DriverEvent)
    requires Partitioned(k) && DoneIntact(k) && DriverMay(k, e)
    ensures DoneIntact(DriverDoes(k, e))
  {
    var k' := DriverDoes(k, e);
    forall f | f in k'.done
      ensures Recorded(k', f)
    {
      if f in k.done {
        DoneMember(k.done, f);
        DriverKeepsRecord(k, e, f);
      }
    }
    forall i, j | 0 <= i < j < |k'.done|
      ensures k'.done[i].serial < k'.done[j].serial
    {
      assert Recorded(k, k.done[i]);
    }
  }

  /** Any driver activity while the application does nothing. */
  predicate DriverAllowed(k: Kernel, es: seq<DriverEvent>)
    decreases |es|
  {
    es == [] || (DriverMay(k, es[0]) && DriverAllowed(DriverDoes(k, es[0]), es[1..]))
  }

  function DriverRun(k: Kernel, es: seq<DriverEvent>): Kernel
    requires DriverAllowed(k, es)
    decreases |es|
  {
    if es == [] then k else DriverRun(DriverDoes(k, es[0]), es[1..])
  }

  lemma {:induction false} DriverRunSnoc(k: Kernel, es: seq<DriverEvent>, e: DriverEvent)
    requires DriverAllowed(k, es) && DriverMay(DriverRun(k, es), e)
    ensures DriverAllowed(k, es + [e]) && DriverRun(k, es + [e]) == DriverDoes(DriverRun(k, es), e)
    decreases |es|
  {
    if es == [] {
      assert es + [e] == [e] && [e][1..] == [];
    } else {
      DriverRunSnoc(DriverDoes(k, es[0]), es[1..], e);
      assert (es + [e])[1..] == es[1..] + [e];
    }
  }

  lemma {:induction false} DriverRunKeeps(k: Kernel, es: seq<DriverEvent>)
    requires Partitioned(k) && DoneIntact(k) && DriverAllowed(k, es)
    ensures Partitioned(DriverRun(k, es)) && DoneIntact(DriverRun(k, es))
    ensures DriverRun(k, es).user == k.user && |DriverRun(k, es).memory| == |k.memory|
    decreases |es|
  {
    if es != [] {
      DriverKeepsPartition(k, es[0]);
      DriverKeepsIntact(k, es[0]);
      DriverRunKeeps(DriverDoes(k, es[0]), es[1..]);
    }
  }

  /** Whatever the driver does meanwhile, a dequeued buffer holds what it held when it was completed. */
  lemma {:induction false} BorrowedStays(k: Kernel, es: seq<DriverEvent>, f: Fill)
    requires Partitioned(k) && DoneIntact(k) && DriverAllowed(k, es) && Recorded(k, f) && f.index in k.user
    ensures Recorded(DriverRun(k, es), f)
    decreases |es|
  {
    if es != [] {
      DriverKeepsPartition(k, es[0]);
      DriverKeepsIntact(k, es[0]);
      DriverKeepsRecord(k, es[0], f);
      BorrowedStays(DriverDoes(k, es[0]), es[1..], f);
    }
  }

  /** Taking the oldest completed buffer keeps the partition; that buffer is now the application's. */
  lemma DqbufKeepsPartition(k: Kernel)
    requires Partitioned(k) && k.done != []
    ensures Partitioned(Dqbuf(k))
    ensures k.done[0].index !in k.user && |Dqbuf(k).user| == |k.user| + 1
  {
    var k' := Dqbuf(k);
    assert DoneIndices(k.done) == {k.done[0].index} + DoneIndices(k'.done);
  }

  lemma DqbufKeepsIntact(k: Kernel)
    requires DoneIntact(k) && k.done != []
    ensures DoneIntact(Dqbuf(k)) && Recorded(Dqbuf(k), k.done[0])
    ensures forall f :: f in Dqbuf(k).done ==> k.done[0].serial < f.serial
  {
    var k' := Dqbuf(k);
    forall f | f in k'.done
      ensures Recorded(k', f)
    {
      assert Recorded(k, f);
    }
    assert Recorded(k, k.done[0]);
  }

  lemma QbufKeepsPartition(k: Kernel, i: nat, succeeds: bool)
    requires Partitioned(k) && i in k.user
    ensures Partitioned(Qbuf(k, i, succeeds))
    ensures |Qbuf(k, i, succeeds).user| == |k.user| - (if succeeds then 1 else 0)
  {
  }

  lemma QbufKeepsIntact(k: Kernel, i: nat, succeeds: bool)
    requires DoneIntact(k)
    ensures DoneIntact(Qbuf(k, i, succeeds))
  {
    forall f | f in k.done
      ensures Recorded(Qbuf(k, i, succeeds), f)
    {
      assert Recorded(k, f);
    }
  }

  // While the pool is set up, buffers below `next` are queued and the others still dequeued.
  ghost predicate Priming(k: Kernel, pool: nat, next: nat) {
    && |k.memory| == pool && k.done == [] && k.history == map[]
    && (forall i :: i in k.queued <==> 0 <= i < next)
    && (forall i :: i in k.user <==> next <= i < pool)
  }

  lemma PrimeNext(k: Kernel, pool: nat, next: nat)
    requires Priming(k, pool, next) && next < pool
    ensures Priming(Qbuf(k, next, true), pool, next + 1)
  {
  }

  /** All buffers queued, none filled yet. */
  ghost predicate FreshStream(k: Kernel, pool: nat) {
    && |k.memory| == pool && k.queued == Below(pool) && k.done == [] && k.user == {} && k.history == map[]
  }

  lemma FreshSound(k: Kernel, pool: nat)
    requires FreshStream(k, pool)
    ensures Partitioned(k) && DoneIntact(k)
  {
    assert DoneIndices(k.done) == {};
  }

  lemma Primed(k: Kernel, pool: nat)
    requires Priming(k, pool, pool)
    ensures Partitioned(k) && DoneIntact(k) && FreshStream(k, pool)
  {
  }
}
