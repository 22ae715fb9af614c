/** The GStreamer backend object and the references it holds on samples, memories and mappings. */
module GstBackend {
  import opened Common
  import opened CameraBackend

  // How one grab() goes.
  datatype GrabOutcome = Timeout | NoBuffer | NoMemory | MapFails | MapsEmpty | MapsFrame

  /** Outstanding references, and whether the backend still tracks one of each. */
  datatype Refs = Refs(samples: nat, memories: nat, mappings: nat, tracksSample: bool, tracksMemory: bool)

  const NO_REFS := Refs(0, 0, 0, false, false)

  function GrabRefs(r: Refs, o: GrabOutcome): Refs {
    match o
    case Timeout => r.(tracksSample := false)
    case NoBuffer => r.(tracksSample := false)
    case NoMemory => r.(tracksSample := false, tracksMemory := false)
    case MapFails => r.(tracksSample := false, tracksMemory := false)
    case _ => Refs(r.samples + 1, r.memories + 1, r.mappings + 1, true, true)
  }

  function ReleaseRefs(r: Refs): Refs
    requires (r.tracksSample ==> r.samples > 0) && (r.tracksMemory ==> r.memories > 0 && r.mappings > 0)
  {
    Refs(
      r.samples - (if r.tracksSample then 1 else 0),
      r.memories - (if r.tracksMemory then 1 else 0),
      r.mappings - (if r.tracksMemory then 1 else 0),
      false, false)
  }

  // One loop iteration: only a valid frame is released.
  function IterationRefs(r: Refs, o: GrabOutcome): Refs {
    if o == MapsFrame then ReleaseRefs(GrabRefs(r, o)) else GrabRefs(r, o)
  }

  function LoopRefs(outcomes: seq<GrabOutcome>): Refs {
    if outcomes == [] then NO_REFS
    else IterationRefs(LoopRefs(outcomes[..|outcomes| - 1]), outcomes[|outcomes| - 1])
  }

  function EmptyMaps(outcomes: seq<GrabOutcome>): nat {
    if outcomes == [] then 0
    else EmptyMaps(outcomes[..|outcomes| - 1]) + if outcomes[|outcomes| - 1] == MapsEmpty then 1 else 0
  }

  /** Whether stop() can still give back the memory of an empty frame: nothing has replaced it since. */
  function MemoryTracked(outcomes: seq<GrabOutcome>): bool {
    outcomes != [] &&
    match outcomes[|outcomes| - 1]
    case MapsEmpty => true
    case Timeout => MemoryTracked(outcomes[..|outcomes| - 1])
    case NoBuffer => MemoryTracked(outcomes[..|outcomes| - 1])
    case _ => false
  }

  /**
   * Reference balance at every loop head: outstanding samples, memories and mappings all equal the
   * number of frames that mapped empty, so they are zero exactly when no frame did.
   */
  lemma {:induction false} LoopBalance(outcomes: seq<GrabOutcome>)
    ensures var r := LoopRefs(outcomes);
            && r.samples == r.memories == r.mappings == EmptyMaps(outcomes)
            && (r.tracksSample <==> outcomes != [] && outcomes[|outcomes| - 1] == MapsEmpty)
            && (r.tracksMemory <==> MemoryTracked(outcomes))
            && (r.tracksSample ==> r.tracksMemory) && (r.tracksMemory ==> r.samples > 0)
  {
    if outcomes != [] {
      LoopBalance(outcomes[..|outcomes| - 1]);
    }
  }

  /** No frame mapped empty exactly when nothing is outstanding at the loop head. */
  lemma {:induction false} BalancedIff(outcomes: seq<GrabOutcome>)
    ensures (LoopRefs(outcomes).samples == 0 && LoopRefs(outcomes).memories == 0 && LoopRefs(outcomes).mappings == 0)
            <==> MapsEmpty !in outcomes
  {
    LoopBalance(outcomes);
    EmptyMapsZero(outcomes);
  }

  lemma {:induction false} EmptyMapsZero(outcomes: seq<GrabOutcome>)
    ensures EmptyMaps(outcomes) == 0 <==> MapsEmpty !in outcomes
  {
    if outcomes != [] {
      var prefix := outcomes[..|outcomes| - 1];
      EmptyMapsZero(prefix);
      assert outcomes == prefix + [outcomes[|outcomes| - 1]];
    }
  }

  /**
   * What stop() leaves behind, whether the thread stopped at the loop head or inside an iteration
   * that grabbed a frame: every empty frame's sample but one still tracked, and likewise its memory.
   */
  lemma StopBalance(outcomes: seq<GrabOutcome>, grabbed: bool)
    ensures var r := LoopRefs(outcomes);
            var held := if grabbed then GrabRefs(r, MapsFrame) else r;
            && (held.tracksSample ==> held.samples > 0)
            && (held.tracksMemory ==> held.memories > 0 && held.mappings > 0)
            && var after := ReleaseRefs(held);
               && after.samples == EmptyMaps(outcomes) - (if r.tracksSample && !grabbed then 1 else 0)
               && after.memories == after.mappings
               && after.memories == EmptyMaps(outcomes) - (if r.tracksMemory && !grabbed then 1 else 0)
               && (MapsEmpty !in outcomes ==> after == NO_REFS)
  {
    LoopBalance(outcomes);
    EmptyMapsZero(outcomes);
  }

  /** The GStreamer library: what it hands out and what has been given back. */
  class GStreamer {
    var nextId: nat
    var samples: set<nat>
    var memories: set<nat>
    var mappings: set<nat>

    ghost predicate Valid()
      reads this
    {
      && (forall x :: x in samples ==> x < nextId)
      && (forall x :: x in memories ==> x < nextId)
      && mappings <= memories
    }

    method TryPullSample() returns (sample: Option<nat>)
      requires Valid()
      modifies `nextId, `samples
      ensures Valid() && (sample.Some? ==> sample.value !in old(samples))
      ensures samples == if sample.Some? then old(samples) + {sample.value} else old(samples)
    {
      var some: bool := *;
      if !some {
        return None;
      }
      sample := Some(nextId);
      samples := samples + {nextId};
      nextId := nextId + 1;
    }

    method GetBuffer(sample: nat) returns (ok: bool)
      requires sample in samples
    {
      ok := *;
    }

    method GetMemory() returns (memory: Option<nat>)
      requires Valid()
      modifies `nextId, `memories
      ensures Valid() && (memory.Some? ==> memory.value !in old(memories))
      ensures memories == if memory.Some? then old(memories) + {memory.value} else old(memories)
    {
      var some: bool := *;
      if !some {
        return None;
      }
      memory := Some(nextId);
      memories := memories + {nextId};
      nextId := nextId + 1;
    }

    method MemoryMap(memory: nat) returns (ok: bool, size: nat)
      requires Valid() && memory in memories && memory !in mappings
      modifies `mappings
      ensures Valid() && mappings == if ok then old(mappings) + {memory} else old(mappings)
    {
      ok := *;
      var some: int := *;
      size := if some < 0 then 0 else some;
      if ok {
        mappings := mappings + {memory};
      }
    }

    method MemoryUnmap(memory: nat)
      requires Valid() && memory in mappings
      modifies `mappings
      ensures Valid() && mappings == old(mappings) - {memory}
    {
      mappings := mappings - {memory};
    }

    method MemoryUnref(memory: nat)
      requires Valid() && memory in memories && memory !in mappings
      modifies `memories
      ensures Valid() && memories == old(memories) - {memory}
    {
      memories := memories - {memory};
    }

    method SampleUnref(sample: nat)
      requires Valid() && sample in samples
      modifies `samples
      ensures Valid() && samples == old(samples) - {sample}
    {
      samples := samples - {sample};
    }
  }

  class GstBackend {
    const gst: GStreamer
    var pipeline: bool
    var sample: Option<nat>
    var memory: Option<nat>
    var infoSize: nat
    var nPush: uint64
    var tPush: uint64

    // What the backend tracks is live: it never gives anything back twice or uses it after that.
    ghost predicate Valid()
      reads this, gst
    {
      && gst.Valid()
      && (sample.Some? ==> sample.value in gst.samples)
      && (memory.Some? ==> memory.value in gst.mappings)
    }

    ghost function TheRefs(): Refs
      reads this, gst
    {
      Refs(|gst.samples|, |gst.memories|, |gst.mappings|, sample.Some?, memory.Some?)
    }

    constructor (gst: GStreamer)
      requires gst.Valid() && gst.samples == {} && gst.memories == {} && gst.mappings == {}
      ensures this.gst == gst && Valid() && TheRefs() == NO_REFS && nPush == 0
    {
      this.gst := gst;
      pipeline, sample, memory, infoSize, nPush, tPush := true, None, None, 0, 0, 0;
    }

    method DiscardSample()
      requires Valid() && sample.Some?
      modifies `sample, gst`samples
      ensures Valid() && sample == None && gst.samples == old(gst.samples) - {old(sample).value}
    {
      gst.SampleUnref(sample.value);
      sample := None;
    }

    // The part of grab() that maps the pulled sample's memory.
    method MapSample() returns (frame: Frame, ghost outcome: GrabOutcome)
      requires Valid() && sample.Some?
      modifies `sample, `memory, `infoSize, gst
      ensures Valid() && outcome in {NoMemory, MapFails, MapsEmpty, MapsFrame}
      ensures frame.Valid() <==> outcome == MapsFrame
      ensures frame.data != Nowhere <==> outcome in {MapsEmpty, MapsFrame}
      ensures frame.data != Nowhere ==>
                && sample == old(sample) && memory.Some? && gst.samples == old(gst.samples)
                && |gst.memories| == |old(gst.memories)| + 1 && |gst.mappings| == |old(gst.mappings)| + 1
      ensures frame.data == Nowhere ==>
                && sample == None && memory == None && gst.samples == old(gst.samples) - {old(sample).value}
                && gst.memories == old(gst.memories) && gst.mappings == old(gst.mappings)
    {
      frame := NO_FRAME;
      memory := gst.GetMemory();
      if memory == None {
        DiscardSample();
        outcome := NoMemory;
        return;
      }
      var mapped;
      mapped, infoSize := gst.MemoryMap(memory.value);
      if !mapped {
        gst.MemoryUnref(memory.value);
        memory := None;
        DiscardSample();
        outcome := MapFails;
        return;
      }
      frame := Frame(Mapped(memory.value), infoSize);
      outcome := if infoSize > 0 then MapsFrame else MapsEmpty;
    }

    /** Pulls one sample and maps it; every way of failing gives back what this call took. */
    method Grab() returns (frame: Frame, ghost outcome: GrabOutcome)
      requires Valid()
      modifies `sample, `memory, `infoSize, gst
      ensures Valid() && TheRefs() == GrabRefs(old(TheRefs()), outcome)
      ensures frame.Valid() <==> outcome == MapsFrame
      ensures frame.data != Nowhere <==> outcome in {MapsEmpty, MapsFrame}
    {
      frame := NO_FRAME;
      sample := gst.TryPullSample();
      if sample == None {
        outcome := Timeout;
        return;
      }
      assert gst.samples - {sample.value} == old(gst.samples);
      var hasBuffer := gst.GetBuffer(sample.value);
      if !hasBuffer {
        DiscardSample();
        outcome := NoBuffer;
        return;
      }
      frame, outcome := MapSample();
    }

    method Release()
      requires Valid()
      modifies `sample, `memory, gst
      ensures Valid() && sample == None && memory == None
      ensures TheRefs() == ReleaseRefs(old(TheRefs()))
    {
      if memory.Some? {
        gst.MemoryUnmap(memory.value);
        gst.MemoryUnref(memory.value);
        memory := None;
      }
      if sample.Some? {
        DiscardSample();
      }
    }

    /** Releases what is tracked and drops the pipeline; a second call changes nothing. */
    method Stop()
      requires Valid()
      modifies this, gst
      ensures Valid() && !pipeline && sample == None && memory == None
      ensures TheRefs() == ReleaseRefs(old(TheRefs()))
      ensures nPush == old(nPush) && tPush == old(tPush)
    {
      Release();
      if pipeline {
        pipeline := false;
      }
    }

    /** The source pad probe: one clock reading, one more push. */
    method OnSrcPush(now: uint64)
      modifies `nPush, `tPush
      ensures tPush == now && nPush == Add64(old(nPush), 1)
    {
      tPush := now;
      nPush := Add64(nPush, 1);
    }
  }
}
