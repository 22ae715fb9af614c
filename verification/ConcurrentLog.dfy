/**
 * The image log under any number of interleaved callers. Both fetch-adds, every field store and the
 * clock are steps of their own; a memory image may be taken between any two steps.
 */
module ConcurrentLog {
  import opened Common
  import opened BlackboxLog

  datatype Call = Call(header: uint64, capture: uint64)

  datatype Pc =
    | Entering(c: Call)                            // before idx.fetch_add
    | Claimed(slot: nat, c: Call)                  // before seq.fetch_add
    | Filling(slot: nat, c: Call, s: nat, k: nat)  // k fields of the record stored
    | Publishing(slot: nat, k: nat)                // k fields stored by log_pub

  // A slot's history: the sequence number it was given, and for which call.
  datatype Grant = Grant(seqNo: nat, c: Call)

  datatype State = State(
    log: Log,
    now: uint64,
    threads: map<nat, Pc>,     // calls in progress, by thread
    pending: map<nat, nat>,    // slots whose log_cbk is still in progress, with its thread
    grants: map<nat, Grant>,   // slots that got their sequence number
    returned: set<nat>)        // slots log_cbk returned and log_pub was not yet called for

  datatype Event =
    | Tick(t: uint64)
    | Cbk(thread: nat, c: Call)
    | Pub(thread: nat, slot: nat)
    | Step(thread: nat)

  // Stores of log_cbk, in program order.
  function Store(r: Record, c: Call, s: nat, k: nat, now: uint64): Record {
    match k
    case 0 => r.(seqNo := s)
    case 1 => r.(headerStamp := c.header)
    case 2 => r.(tCapture := c.capture)
    case 3 => r.(tCbk := now)
    case 4 => r.(tPub := 0)
    case 5 => r.(capDone := true)
    case _ => r.(rosDone := false)
  }

  function StorePub(r: Record, k: nat, now: uint64): Record {
    if k == 0 then r.(tPub := now) else r.(rosDone := true)
  }

  // log_pub is called at most once per slot log_cbk returned.
  predicate May(s: State, ev: Event) {
    match ev
    case Tick(t) => s.now <= t
    case Cbk(thread, _) => thread !in s.threads
    case Pub(thread, slot) => thread !in s.threads && slot in s.returned
    case Step(thread) =>
      && thread in s.threads
      && (!s.threads[thread].Entering? ==> s.threads[thread].slot < |s.log.records|)
  }

  function Do(s: State, ev: Event): State
    requires May(s, ev)
  {
    match ev
    case Tick(t) => s.(now := t)
    case Cbk(thread, c) => s.(threads := s.threads[thread := Entering(c)])
    case Pub(thread, slot) =>
      s.(threads := s.threads[thread := Publishing(slot, 0)], returned := s.returned - {slot})
    case Step(thread) =>
      match s.threads[thread]
      case Entering(c) =>
        var i := s.log.idx;
        var s' := s.(log := s.log.(idx := i + 1));
        if i < |s.log.records| then
          s'.(threads := s.threads[thread := Claimed(i, c)], pending := s.pending[i := thread])
        else s'.(threads := s.threads - {thread})
      case Claimed(i, c) =>
        var n := s.log.seqNo + 1;
        s.(log := s.log.(seqNo := n), threads := s.threads[thread := Filling(i, c, n, 0)],
           grants := s.grants[i := Grant(n, c)])
      case Filling(i, c, n, k) =>
        var s' := s.(log := s.log.(records := s.log.records[i := Store(s.log.records[i], c, n, k, s.now)]));
        if k + 1 < FILL_STORES then s'.(threads := s.threads[thread := Filling(i, c, n, k + 1)])
        else s'.(threads := s.threads - {thread}, pending := s.pending - {i}, returned := s.returned + {i})
      case Publishing(i, k) =>
        var s' := s.(log := s.log.(records := s.log.records[i := StorePub(s.log.records[i], k, s.now)]));
        if k + 1 < PUB_STORES then s'.(threads := s.threads[thread := Publishing(i, k + 1)])
        else s'.(threads := s.threads - {thread})
  }

  predicate Allowed(s: State, evs: seq<Event>)
    decreases |evs|
  {
    evs == [] || (May(s, evs[0]) && Allowed(Do(s, evs[0]), evs[1..]))
  }

  function Run(s: State, evs: seq<Event>): State
    requires Allowed(s, evs)
    decreases |evs|
  {
    if evs == [] then s else Run(Do(s, evs[0]), evs[1..])
  }

  /** A freshly initialized log. */
  ghost predicate Initial(s: State) {
    && s.log.idx == 0 && s.log.seqNo == 0 && (forall i :: 0 <= i < |s.log.records| ==> s.log.records[i] == ZERO)
    && s.threads == map[] && s.pending == map[] && s.grants == map[] && s.returned == {}
  }

  // The fields a slot's record holds after k of its stores, given when its callback stamp was taken.
  function Partial(g: Grant, k: nat, tCbk: uint64): Record {
    Record(if k > 0 then g.seqNo else 0,
           if k > 1 then g.c.header else 0,
           if k > 2 then g.c.capture else 0,
           if k > 3 then tCbk else 0,
           0, k > 5, false)
  }

  predicate Holds(s: State, t: nat, i: nat) {
    t in s.threads && !s.threads[t].Entering? && s.threads[t].slot == i
  }

  ghost predicate Granted(s: State, i: nat, n: nat, c: Call) {
    i < Filled(s.log) && i in s.grants && s.grants[i] == Grant(n, c) && 1 <= n <= s.log.seqNo
  }

  // What a thread knows about the slot it works on.
  ghost predicate ThreadInv(s: State, t: nat)
    requires t in s.threads
  {
    match s.threads[t]
    case Entering(_) => true
    case Claimed(i, _) =>
      i < Filled(s.log) && i !in s.grants && i !in s.returned && s.log.records[i] == ZERO
    case Filling(i, c, n, k) =>
      && Granted(s, i, n, c) && i !in s.returned && k < FILL_STORES
      && s.log.records[i] == Partial(Grant(n, c), k, s.log.records[i].tCbk)
      && s.log.records[i].tCbk <= s.now
    case Publishing(i, k) =>
      && i < Filled(s.log) && i in s.grants && i !in s.returned && k < PUB_STORES
      && s.log.records[i].capDone && !s.log.records[i].rosDone
      && (k == 1 ==> s.log.records[i].tCbk <= s.log.records[i].tPub <= s.now)
  }

  ghost predicate Exclusive(s: State) {
    forall t, u, i :: Holds(s, t, i) && Holds(s, u, i) ==> t == u
  }

  /** What a memory image of slot i may show at any moment. */
  ghost predicate ImageInv(s: State, i: nat)
    requires i < |s.log.records|
  {
    var r := s.log.records[i];
    && (i < Filled(s.log) && i !in s.pending ==> i in s.grants && r.capDone)
    && (i >= Filled(s.log) ==> r == ZERO && i !in s.grants && i !in s.returned)
    && (r.capDone ==>
          && i in s.grants
          && r.(tPub := 0, rosDone := false) == Partial(s.grants[i], FILL_STORES, r.tCbk)
          && r.tCbk <= s.now)
    && (r.rosDone ==> r.capDone && r.tCbk <= r.tPub <= s.now)
    && (i in s.returned ==> r.capDone && !r.rosDone)
  }

  // Every claimed slot either has its sequence number or a call in progress.
  ghost predicate Granting(filled: nat, seqNo: nat, grants: map<nat, Grant>, pending: map<nat, nat>) {
    && (forall i :: i in grants ==> i < filled && 1 <= grants[i].seqNo <= seqNo)
    && (forall i, j :: i in grants && j in grants && i != j ==> grants[i].seqNo != grants[j].seqNo)
    && (forall i :: 0 <= i < filled && i !in grants ==> i in pending)
    && |grants| == seqNo
  }

  ghost predicate GrantInv(s: State) {
    Granting(Filled(s.log), s.log.seqNo, s.grants, s.pending)
  }

  // Thread t has claimed slot i and not yet returned from log_cbk.
  predicate InLogCbk(s: State, t: nat, i: nat) {
    t in s.threads && (s.threads[t].Claimed? || s.threads[t].Filling?) && s.threads[t].slot == i
  }

  ghost predicate PendingInv(s: State) {
    forall i :: i in s.pending ==> InLogCbk(s, s.pending[i], i)
  }

  ghost predicate Inv(s: State) {
    && Exclusive(s) && GrantInv(s) && PendingInv(s)
    && (forall t :: t in s.threads ==> ThreadInv(s, t))
    && (forall i :: 0 <= i < |s.log.records| ==> ImageInv(s, i))
    && (forall i :: i in s.returned ==> i < |s.log.records|)
  }

  // The invariant's facts about one thread and the slot it works on.
  lemma ThreadFacts(s: State, t: nat)
    requires Inv(s) && t in s.threads
    ensures ThreadInv(s, t)
    ensures !s.threads[t].Entering? ==> ImageInv(s, s.threads[t].slot)
  {
    assert ThreadInv(s, t);
  }

  lemma StepExclusive(s: State, ev: Event, t: nat, u: nat, i: nat)
    requires Exclusive(s) && May(s, ev)
    requires t in s.threads ==> ThreadInv(s, t)
    requires u in s.threads ==> ThreadInv(s, u)
    requires Holds(Do(s, ev), t, i) && Holds(Do(s, ev), u, i)
    ensures t == u
  {
    assert Holds(s, t, i) && Holds(s, u, i) ==> t == u;
  }

  lemma MoreGrants(grants: map<nat, Grant>, i: nat, g: Grant)
    requires i !in grants
    ensures |grants[i := g]| == |grants| + 1
  {
    assert grants[i := g].Keys == grants.Keys + {i};
  }

  lemma StepGrants(s: State, ev: Event)
    requires GrantInv(s) && May(s, ev)
    requires ev.Step? ==> ThreadInv(s, ev.thread)
    ensures GrantInv(Do(s, ev))
  {
    if ev.Step? {
      match s.threads[ev.thread]
      case Entering(_) => EnterGrants(s, ev.thread);
      case Claimed(_, _) => GrantOne(s, ev.thread);
      case _ => assert Filled(Do(s, ev).log) == Filled(s.log);
    }
  }

  lemma OneMoreSlot(filled: nat, seqNo: nat, grants: map<nat, Grant>, pending: map<nat, nat>, t: nat)
    requires Granting(filled, seqNo, grants, pending)
    ensures Granting(filled + 1, seqNo, grants, pending[filled := t])
  {
  }

  lemma EnterGrants(s: State, t: nat)
    requires GrantInv(s) && May(s, Step(t)) && s.threads[t].Entering?
    ensures GrantInv(Do(s, Step(t)))
  {
    if s.log.idx < |s.log.records| {
      OneMoreSlot(s.log.idx, s.log.seqNo, s.grants, s.pending, t);
    }
  }

  lemma GrantOne(s: State, t: nat)
    requires GrantInv(s) && May(s, Step(t)) && s.threads[t].Claimed? && ThreadInv(s, t)
    ensures GrantInv(Do(s, Step(t)))
  {
    var pc := s.threads[t];
    MoreGrants(s.grants, pc.slot, Grant(s.log.seqNo + 1, pc.c));
  }

  lemma EnterPending(s: State, t: nat)
    requires GrantInv(s) && PendingInv(s) && May(s, Step(t)) && s.threads[t].Entering?
    ensures PendingInv(Do(s, Step(t)))
  {
  }

  lemma ClaimPending(s: State, t: nat)
    requires PendingInv(s) && May(s, Step(t)) && s.threads[t].Claimed?
    ensures PendingInv(Do(s, Step(t)))
  {
  }

  lemma StorePending(s: State, t: nat)
    requires Exclusive(s) && PendingInv(s) && May(s, Step(t)) && (s.threads[t].Filling? || s.threads[t].Publishing?)
    ensures PendingInv(Do(s, Step(t)))
  {
  }

  lemma StepPending(s: State, ev: Event)
    requires Inv(s) && May(s, ev)
    ensures PendingInv(Do(s, ev))
  {
    if ev.Step? {
      match s.threads[ev.thread]
      case Entering(_) => EnterPending(s, ev.thread);
      case Claimed(_, _) => ClaimPending(s, ev.thread);
      case _ => StorePending(s, ev.thread);
    }
  }

  // A thread's own step.
  lemma OwnEnter(s: State, t: nat)
    requires May(s, Step(t)) && s.threads[t].Entering? && t in Do(s, Step(t)).threads
    requires s.log.idx < |s.log.records| ==> ImageInv(s, s.log.idx)
    ensures ThreadInv(Do(s, Step(t)), t)
  {
  }

  lemma OwnClaim(s: State, t: nat)
    requires May(s, Step(t)) && s.threads[t].Claimed? && ThreadInv(s, t)
    ensures ThreadInv(Do(s, Step(t)), t)
  {
  }

  lemma OwnFill(s: State, t: nat)
    requires May(s, Step(t)) && s.threads[t].Filling? && ThreadInv(s, t) && t in Do(s, Step(t)).threads
    ensures ThreadInv(Do(s, Step(t)), t)
  {
  }

  lemma OwnStep(s: State, t: nat)
    requires Inv(s) && May(s, Step(t)) && t in Do(s, Step(t)).threads
    ensures ThreadInv(Do(s, Step(t)), t)
  {
    ThreadFacts(s, t);
    match s.threads[t]
    case Entering(_) => OwnEnter(s, t);
    case Claimed(_, _) => OwnClaim(s, t);
    case Filling(_, _, _, _) => OwnFill(s, t);
    case Publishing(_, _) => assert ImageInv(s, s.threads[t].slot);
  }

  // Another thread's step does not disturb t.
  lemma OtherStep(s: State, u: nat, t: nat)
    requires Exclusive(s) && May(s, Step(u)) && t in s.threads && t != u
    requires ThreadInv(s, t) && ThreadInv(s, u)
    ensures ThreadInv(Do(s, Step(u)), t)
  {
    if !s.threads[t].Entering? && !s.threads[u].Entering? {
      assert Holds(s, t, s.threads[t].slot) && Holds(s, u, s.threads[u].slot);
    }
  }

  lemma StepThread(s: State, ev: Event, t: nat)
    requires Inv(s) && May(s, ev) && t in Do(s, ev).threads
    ensures ThreadInv(Do(s, ev), t)
  {
    match ev
    case Step(u) =>
      if t == u {
        OwnStep(s, t);
      } else {
        ThreadFacts(s, t);
        ThreadFacts(s, u);
        OtherStep(s, u, t);
      }
    case Pub(_, slot) =>
      assert ImageInv(s, slot);
      if t in s.threads {
        ThreadFacts(s, t);
      }
    case _ =>
      if t in s.threads {
        ThreadFacts(s, t);
      }
  }

  // The stores of log_cbk and log_pub on the slot they work on.
  lemma FillImage(s: State, t: nat)
    requires t in s.threads && s.threads[t].Filling? && May(s, Step(t)) && ThreadInv(s, t)
    requires ImageInv(s, s.threads[t].slot)
    ensures ImageInv(Do(s, Step(t)), s.threads[t].slot)
  {
  }

  lemma PublishImage(s: State, t: nat)
    requires t in s.threads && s.threads[t].Publishing? && May(s, Step(t)) && ThreadInv(s, t)
    requires ImageInv(s, s.threads[t].slot)
    ensures ImageInv(Do(s, Step(t)), s.threads[t].slot)
  {
  }

  lemma StepImage(s: State, ev: Event, i: nat)
    requires May(s, ev) && i < |s.log.records| && ImageInv(s, i)
    requires ev.Step? ==> ThreadInv(s, ev.thread)
    ensures ImageInv(Do(s, ev), i)
  {
    if ev.Step? && Holds(s, ev.thread, i) {
      match s.threads[ev.thread]
      case Filling(_, _, _, _) => FillImage(s, ev.thread);
      case Publishing(_, _) => PublishImage(s, ev.thread);
      case _ =>
    }
  }

  lemma StepInv(s: State, ev: Event)
    requires Inv(s) && May(s, ev)
    ensures Inv(Do(s, ev))
  {
    var s' := Do(s, ev);
    if ev.Step? {
      ThreadFacts(s, ev.thread);
    }
    StepGrants(s, ev);
    StepPending(s, ev);
    forall t, u, i | Holds(s', t, i) && Holds(s', u, i)
      ensures t == u
    {
      StepExclusive(s, ev, t, u, i);
    }
    forall t | t in s'.threads
      ensures ThreadInv(s', t)
    {
      StepThread(s, ev, t);
    }
    forall i | 0 <= i < |s'.log.records|
      ensures ImageInv(s', i)
    {
      StepImage(s, ev, i);
    }
  }

  lemma {:induction false} RunInv(s: State, evs: seq<Event>)
    requires Inv(s) && Allowed(s, evs)
    ensures Inv(Run(s, evs))
    decreases |evs|
  {
    if evs != [] {
      StepInv(s, evs[0]);
      RunInv(Do(s, evs[0]), evs[1..]);
    }
  }

  lemma {:induction false} RunKeepsCapacity(s: State, evs: seq<Event>)
    requires Allowed(s, evs)
    ensures |Run(s, evs).log.records| == |s.log.records|
    decreases |evs|
  {
    if evs != [] {
      RunKeepsCapacity(Do(s, evs[0]), evs[1..]);
    }
  }

  /** States some interleaving reaches from a fresh log of `capacity` records. */
  ghost predicate Reachable(capacity: nat, s: State) {
    exists s0, evs :: Initial(s0) && |s0.log.records| == capacity && Allowed(s0, evs) && s == Run(s0, evs)
  }

  lemma ReachableInv(capacity: nat, s: State)
    requires Reachable(capacity, s)
    ensures Inv(s) && |s.log.records| == capacity
  {
    var s0, evs :| Initial(s0) && |s0.log.records| == capacity && Allowed(s0, evs) && s == Run(s0, evs);
    RunInv(s0, evs);
    RunKeepsCapacity(s0, evs);
  }

  /** Two calls never work on the same slot, granted slots are below the capacity, no two slots share a number. */
  lemma ClaimsDistinct(capacity: nat, s: State)
    requires Reachable(capacity, s)
    ensures forall t, u, i: nat :: Holds(s, t, i) && Holds(s, u, i) ==> t == u && i < capacity
    ensures forall i, j :: i in s.grants && j in s.grants && i != j ==> s.grants[i].seqNo != s.grants[j].seqNo
    ensures s.log.seqNo <= Filled(s.log)
  {
    ReachableInv(capacity, s);
    forall t, i: nat | Holds(s, t, i)
      ensures i < capacity
    {
      ThreadFacts(s, t);
    }
    assert s.grants.Keys <= Below(Filled(s.log));
    SubsetSize(s.grants.Keys, Below(Filled(s.log)));
  }

  // No log_cbk is in progress; log_pub calls may be.
  ghost predicate Quiescent(s: State) {
    forall t :: t in s.threads ==> s.threads[t].Publishing?
  }

  function Numbers(records: seq<Record>): (r: seq<nat>)
    ensures |r| == |records|
  {
    seq(|records|, i requires 0 <= i < |records| => records[i].seqNo)
  }

  lemma QuiescentRecord(s: State, i: nat)
    requires Inv(s) && Quiescent(s) && i < Filled(s.log)
    ensures i in s.grants && s.log.records[i].seqNo == s.grants[i].seqNo
    ensures 1 <= s.grants[i].seqNo <= s.log.seqNo
  {
    assert ImageInv(s, i);
    assert i !in s.pending;
  }

  /** Once no log_cbk is in progress, the sequence numbers on record are a permutation of 1..min(idx, N). */
  lemma QuiescentPermutation(capacity: nat, s: State)
    requires Reachable(capacity, s) && Quiescent(s)
    ensures s.log.seqNo == Filled(s.log)
    ensures Distinct(Numbers(s.log.records[..Filled(s.log)]))
    ensures Elements(Numbers(s.log.records[..Filled(s.log)])) == Below(Filled(s.log) + 1) - {0}
  {
    ReachableInv(capacity, s);
    var n := Filled(s.log);
    var numbers := Numbers(s.log.records[..n]);
    forall i: nat | i < n
      ensures i in s.grants && numbers[i] == s.grants[i].seqNo && 1 <= numbers[i] <= s.log.seqNo
    {
      QuiescentRecord(s, i);
    }
    assert s.grants.Keys == Below(n);
    AllNumbers(numbers, n);
  }

  // n distinct numbers between 1 and n are all of them.
  lemma AllNumbers(numbers: seq<nat>, n: nat)
    requires |numbers| == n && Distinct(numbers)
    requires forall i :: 0 <= i < n ==> 1 <= numbers[i] <= n
    ensures Elements(numbers) == Below(n + 1) - {0}
  {
    DistinctSize(numbers);
    var all := Below(n + 1) - {0};
    assert Below(n + 1) == all + {0};
    assert Elements(numbers) <= all;
    SubsetSize(Elements(numbers), all);
  }

  /**
   * Snapshot consistency: in any memory image, cap_done shows a record whose number, header and
   * capture stamps are those of the call the slot was granted to; ros_done shows cap_done and
   * t_cbk <= t_pub; slots never granted are still zero.
   */
  lemma SnapshotConsistent(capacity: nat, s: State, i: nat)
    requires Reachable(capacity, s) && i < capacity
    ensures i < |s.log.records|
    ensures s.log.records[i].capDone ==>
              && i in s.grants && s.log.records[i].seqNo == s.grants[i].seqNo
              && s.log.records[i].headerStamp == s.grants[i].c.header
              && s.log.records[i].tCapture == s.grants[i].c.capture
    ensures s.log.records[i].rosDone ==>
              s.log.records[i].capDone && s.log.records[i].tCbk <= s.log.records[i].tPub <= s.now
    ensures i >= Filled(s.log) ==> s.log.records[i] == ZERO
  {
    ReachableInv(capacity, s);
    assert ImageInv(s, i);
  }

  // What later steps may no longer change in a record.
  predicate Settled(r: Record, r': Record) {
    && (r.capDone ==> r'.(tPub := 0, rosDone := false) == r.(tPub := 0, rosDone := false))
    && (r.rosDone ==> r' == r)
  }

  lemma StepSettled(s: State, ev: Event, i: nat)
    requires Inv(s) && May(s, ev) && i < |s.log.records|
    ensures Settled(s.log.records[i], Do(s, ev).log.records[i])
  {
    assert ImageInv(s, i);
    if ev.Step? {
      ThreadFacts(s, ev.thread);
    }
  }

  lemma SettledTwice(r: Record, r': Record, r'': Record)
    requires Settled(r, r') && Settled(r', r'')
    ensures Settled(r, r'')
  {
    assert r.capDone ==> r.(tPub := 0, rosDone := false).capDone && r'.(tPub := 0, rosDone := false).capDone;
  }

  lemma {:induction false} RunSettled(s: State, evs: seq<Event>, i: nat)
    requires Inv(s) && Allowed(s, evs) && i < |s.log.records|
    ensures |Run(s, evs).log.records| == |s.log.records|
    ensures Settled(s.log.records[i], Run(s, evs).log.records[i])
    decreases |evs|
  {
    if evs != [] {
      var s' := Do(s, evs[0]);
      StepInv(s, evs[0]);
      StepSettled(s, evs[0], i);
      RunSettled(s', evs[1..], i);
      SettledTwice(s.log.records[i], s'.log.records[i], Run(s', evs[1..]).log.records[i]);
    }
  }

  /** What cap_done or ros_done vouches for is final: no continuation of the run changes it. */
  lemma CompletedIsFinal(capacity: nat, s: State, evs: seq<Event>, i: nat)
    requires Reachable(capacity, s) && Allowed(s, evs) && i < capacity
    ensures i < |s.log.records| == |Run(s, evs).log.records|
    ensures Settled(s.log.records[i], Run(s, evs).log.records[i])
  {
    ReachableInv(capacity, s);
    RunSettled(s, evs, i);
  }

  // Only thread t ever calls.
  predicate Solo(evs: seq<Event>, t: nat) {
    forall i :: 0 <= i < |evs| ==> evs[i].Tick? || evs[i].thread == t
  }

  ghost predicate SoloInv(s: State, t: nat) {
    && s.threads.Keys <= {t}
    && (forall i :: i in s.grants ==> s.grants[i].seqNo == i + 1)
    && s.log.seqNo == Filled(s.log) - (if t in s.threads && s.threads[t].Claimed? then 1 else 0)
    && (t in s.threads && s.threads[t].Claimed? ==> s.threads[t].slot + 1 == Filled(s.log))
  }

  lemma SoloStep(s: State, ev: Event, t: nat)
    requires SoloInv(s, t) && May(s, ev) && (ev.Tick? || ev.thread == t)
    ensures SoloInv(Do(s, ev), t)
  {
  }

  lemma {:induction false} SoloRun(s: State, evs: seq<Event>, t: nat)
    requires SoloInv(s, t) && Allowed(s, evs) && Solo(evs, t)
    ensures SoloInv(Run(s, evs), t)
    decreases |evs|
  {
    if evs != [] {
      SoloStep(s, evs[0], t);
      SoloRun(Do(s, evs[0]), evs[1..], t);
    }
  }

  /** With a single caller the record in slot i carries number i + 1. */
  lemma SingleCallerNumbers(s0: State, evs: seq<Event>, t: nat, i: nat)
    requires Initial(s0) && Allowed(s0, evs) && Solo(evs, t)
    requires var s := Run(s0, evs); i < |s.log.records| && s.log.records[i].capDone
    ensures Run(s0, evs).log.records[i].seqNo == i + 1
  {
    RunInv(s0, evs);
    SoloRun(s0, evs, t);
    assert ImageInv(Run(s0, evs), i);
  }

  function Steps(t: nat, n: nat): seq<Event> {
    if n == 0 then [] else [Step(t)] + Steps(t, n - 1)
  }

  lemma StepsUnfold(s: State, t: nat, n: nat)
    requires n > 0 && May(s, Step(t))
    ensures Allowed(s, Steps(t, n)) <==> Allowed(Do(s, Step(t)), Steps(t, n - 1))
    ensures Allowed(s, Steps(t, n)) ==> Run(s, Steps(t, n)) == Run(Do(s, Step(t)), Steps(t, n - 1))
  {
    assert Steps(t, n)[1..] == Steps(t, n - 1);
  }

  // The remaining stores of a log_cbk call that nobody interrupts.
  lemma {:induction false} FillAlone(s: State, t: nat, slot: nat, c: Call, n: nat, k: nat)
    requires k < FILL_STORES && t in s.threads && s.threads[t] == Filling(slot, c, n, k)
    requires slot < |s.log.records| && s.log.records[slot] == Partial(Grant(n, c), k, s.now)
    ensures Allowed(s, Steps(t, FILL_STORES - k))
    ensures var s' := Run(s, Steps(t, FILL_STORES - k));
            && s'.log == s.log.(records := s.log.records[slot := Partial(Grant(n, c), FILL_STORES, s.now)])
            && s'.threads == s.threads - {t} && s'.returned == s.returned + {slot}
    decreases FILL_STORES - k
  {
    StepsUnfold(s, t, FILL_STORES - k);
    var s1 := Do(s, Step(t));
    if k + 1 < FILL_STORES {
      FillAlone(s1, t, slot, c, n, k + 1);
      assert (s.threads[t := Filling(slot, c, n, k + 1)]) - {t} == s.threads - {t};
    } else {
      assert Steps(t, 0) == [];
    }
  }

  /** A log_cbk call nobody interrupts does in nine steps what LogCbk says, and returns the same slot. */
  lemma CallAlone(s: State, t: nat, c: Call)
    requires t !in s.threads
    requires s.log.idx < |s.log.records| ==> s.log.records[s.log.idx] == ZERO
    ensures var evs := Steps(t, if s.log.idx < |s.log.records| then 2 + FILL_STORES else 1);
            var s1 := Do(s, Cbk(t, c));
            && Allowed(s1, evs)
            && var (log, slot) := LogCbk(s.log, c.header, c.capture, s.now);
               var s' := Run(s1, evs);
               && s'.log == log && t !in s'.threads
               && s'.returned == s.returned + if slot.Some? then {slot.value} else {}
  {
    var s1 := Do(s, Cbk(t, c));
    var s2 := Do(s1, Step(t));
    if s.log.idx < |s.log.records| {
      StepsUnfold(s1, t, 2 + FILL_STORES);
      StepsUnfold(s2, t, 1 + FILL_STORES);
      FillAlone(Do(s2, Step(t)), t, s.log.idx, c, s.log.seqNo + 1, 0);
    } else {
      StepsUnfold(s1, t, 1);
      assert Steps(t, 0) == [];
    }
  }
}
