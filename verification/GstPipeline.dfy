/**
 * Drop accounting with the GStreamer backend: the probe counts pushes in the streaming thread, in
 * front of a pipeline that ends in a one-slot sink which drops its older sample; the grab thread
 * pulls a sample and only later reads the push count. Pushes are numbered from 1.
 */
module GstPipeline {
  import opened Common
  import opened DropAccounting

  datatype Pc = Head | Pulled(s: nat)

  datatype State = State(
    nPush: uint64,           // n_push_
    path: seq<nat>,          // pushed samples on their way to the sink
    slot: Option<nat>,       // the sink's one sample
    pc: Pc,
    lastPulled: nat,
    counters: Counters,
    delivered: seq<nat>,     // push numbers of valid frames the node counted
    zeros: nat)              // counted frames whose push delta was 0

  datatype Event =
    | Push
    | Arrive               // the next sample reaches the sink and replaces what is there
    | Pull(valid: bool)    // grab() takes the sample; its frame may turn out invalid
    | Count                // the loop reads push_count() and updates its counters

  predicate May(s: State, ev: Event) {
    match ev
    case Push => s.nPush < TWO_64 - 1
    case Arrive => s.path != []
    case Pull(_) => s.pc == Head && s.slot.Some?
    case Count => s.pc.Pulled?
  }

  function Do(s: State, ev: Event): State
    requires May(s, ev)
  {
    match ev
    case Push => s.(nPush := s.nPush + 1, path := s.path + [s.nPush + 1])
    case Arrive => s.(path := s.path[1..], slot := Some(s.path[0]))
    case Pull(valid) =>
      s.(slot := None, lastPulled := s.slot.value, pc := if valid then Pulled(s.slot.value) else Head)
    case Count =>
      s.(pc := Head, counters := Account(s.counters, s.nPush), delivered := s.delivered + [s.pc.s],
         zeros := s.zeros + if s.nPush == s.counters.lastPush then 1 else 0)
  }

  predicate Allowed(s: State, evs: seq<Event>)
    decreases |evs|
  {
    evs == [] || (May(s, evs[0]) && Allowed(Do(s, evs[0]), evs[1..]))
  }

  function Run(s: State, evs: seq<Event>): State
    requires Allowed(s, evs)
    decreases |evs|
  {
    if evs == [] then s else Run(Do(s, evs[0]), evs[1..])
  }

  const START := State(0, [], None, Head, 0, FRESH, [], 0)

  // Samples in flight, oldest first.
  function Flow(s: State): seq<nat> {
    (if s.slot.Some? then [s.slot.value] else []) + s.path
  }

  ghost predicate FlowInv(s: State) {
    && Increasing(Flow(s))
    && (forall x :: x in Flow(s) ==> s.lastPulled < x <= s.nPush)
    && s.lastPulled <= s.nPush
    && (s.pc.Pulled? ==> s.pc.s == s.lastPulled > Last(s.delivered))
    && Last(s.delivered) <= s.lastPulled
  }

  ghost predicate CountInv(s: State) {
    && Increasing([0] + s.delivered)
    && |s.delivered| <= Last(s.delivered) <= s.counters.lastPush <= s.nPush
    && s.counters.nPull == |s.delivered|
    && s.counters.nPull + s.counters.totalDrops == s.counters.lastPush + s.zeros
    && s.zeros <= s.counters.nPull
  }

  lemma PushFlow(s: State)
    requires FlowInv(s) && May(s, Push)
    ensures FlowInv(Do(s, Push))
  {
    var s' := Do(s, Push);
    assert Flow(s') == Flow(s) + [s'.nPush];
    assert Flow(s) != [] ==> Flow(s)[|Flow(s)| - 1] in Flow(s);
    AppendIncreasing(Flow(s), s'.nPush);
  }

  lemma ArriveFlow(s: State)
    requires FlowInv(s) && May(s, Arrive)
    ensures FlowInv(Do(s, Arrive))
  {
    var k := |Flow(s)| - |s.path|;
    assert s.path == [s.path[0]] + s.path[1..];
    assert Flow(Do(s, Arrive)) == s.path == Flow(s)[k..];
    DropIncreasing(Flow(s), k);
  }

  lemma PullFlow(s: State, valid: bool)
    requires FlowInv(s) && May(s, Pull(valid))
    ensures FlowInv(Do(s, Pull(valid)))
  {
    assert Flow(s)[0] == s.slot.value && s.slot.value in Flow(s);
    assert Flow(Do(s, Pull(valid))) == Flow(s)[1..];
    DropIncreasing(Flow(s), 1);
  }

  lemma StepFlow(s: State, ev: Event)
    requires FlowInv(s) && May(s, ev)
    ensures FlowInv(Do(s, ev))
  {
    match ev
    case Push => PushFlow(s);
    case Arrive => ArriveFlow(s);
    case Pull(valid) => PullFlow(s, valid);
    case Count =>
  }

  lemma StepCount(s: State, ev: Event)
    requires FlowInv(s) && CountInv(s) && May(s, ev)
    ensures CountInv(Do(s, ev))
  {
    if ev == Count {
      AppendIncreasing([0] + s.delivered, s.pc.s);
      assert [0] + (s.delivered + [s.pc.s]) == [0] + s.delivered + [s.pc.s];
    }
  }

  lemma {:induction false} RunInv(s: State, evs: seq<Event>)
    requires FlowInv(s) && CountInv(s) && Allowed(s, evs)
    ensures FlowInv(Run(s, evs)) && CountInv(Run(s, evs))
    decreases |evs|
  {
    if evs != [] {
      StepFlow(s, evs[0]);
      StepCount(s, evs[0]);
      RunInv(Do(s, evs[0]), evs[1..]);
    }
  }

  ghost predicate Reachable(s: State) {
    exists evs :: Allowed(START, evs) && s == Run(START, evs)
  }

  lemma ReachableInv(s: State)
    requires Reachable(s)
    ensures FlowInv(s) && CountInv(s)
  {
    var evs :| Allowed(START, evs) && s == Run(START, evs);
    RunInv(START, evs);
  }

  /** Pushes up to the last delivered frame that were never delivered. */
  ghost function TrueDrops(s: State): nat {
    |Below(Last(s.delivered) + 1) - Elements([0] + s.delivered)|
  }

  /**
   * The reported total is the true drop count, plus the pushes already seen past the last delivered
   * frame, plus one per frame whose delta was 0; so it never under-reports.
   */
  lemma DropsExactly(s: State)
    requires Reachable(s)
    ensures TrueDrops(s) == Last(s.delivered) - s.counters.nPull
    ensures s.counters.totalDrops == TrueDrops(s) + (s.counters.lastPush - Last(s.delivered)) + s.zeros
    ensures s.counters.totalDrops >= TrueDrops(s)
    ensures s.counters.totalDrops == TrueDrops(s) <==> s.counters.lastPush == Last(s.delivered) && s.zeros == 0
  {
    ReachableInv(s);
    var all := [0] + s.delivered;
    assert s.delivered != [] ==> all[|all| - 1] == Last(s.delivered);
    MissedCount(all, Last(s.delivered) + 1);
  }

  /** In this schedule every Count has a Push since the Count before it; `pushed`: one is already there. */
  predicate CountsFresh(evs: seq<Event>, pushed: bool) {
    if evs == [] then true
    else if evs[0].Push? then CountsFresh(evs[1..], true)
    else if evs[0].Count? then pushed && CountsFresh(evs[1..], false)
    else CountsFresh(evs[1..], pushed)
  }

  /** The number of pushes before the schedule's last Count, after `pushes` of them; `counted` if it has none. */
  function PushesAtLastCount(evs: seq<Event>, pushes: nat, counted: nat): nat {
    if evs == [] then counted
    else if evs[0].Push? then PushesAtLastCount(evs[1..], pushes + 1, counted)
    else if evs[0].Count? then PushesAtLastCount(evs[1..], pushes, pushes)
    else PushesAtLastCount(evs[1..], pushes, counted)
  }

  lemma {:induction false} ScheduleCounts(s: State, evs: seq<Event>)
    requires FlowInv(s) && CountInv(s) && Allowed(s, evs)
    ensures Run(s, evs).zeros >= s.zeros
    ensures Run(s, evs).zeros == s.zeros <==> CountsFresh(evs, s.nPush > s.counters.lastPush)
    ensures Run(s, evs).counters.lastPush == PushesAtLastCount(evs, s.nPush, s.counters.lastPush)
    decreases |evs|
  {
    if evs != [] {
      StepFlow(s, evs[0]);
      StepCount(s, evs[0]);
      ScheduleCounts(Do(s, evs[0]), evs[1..]);
    }
  }

  /**
   * When the reported total is right, in terms of the schedule: exactly when every count comes after a
   * new push, and no push came between the last delivered frame's own and its being counted.
   */
  lemma ExactIff(evs: seq<Event>)
    requires Allowed(START, evs)
    ensures var s := Run(START, evs);
            s.counters.totalDrops == TrueDrops(s)
            <==> CountsFresh(evs, false) && Last(s.delivered) == PushesAtLastCount(evs, 0, 0)
  {
    assert Reachable(Run(START, evs));
    DropsExactly(Run(START, evs));
    ScheduleCounts(START, evs);
  }

  /** A run that drops nothing and still reports a drop: the push count is read after the next push. */
  lemma OverReports()
    ensures var evs := [Push, Arrive, Pull(true), Push, Count, Arrive, Pull(true), Count];
            && Allowed(START, evs)
            && Run(START, evs).delivered == [1, 2]
            && Run(START, evs).counters == Counters(2, 2, 1)
  {
    var evs := [Push, Arrive, Pull(true), Push, Count, Arrive, Pull(true), Count];
    var s1 := Do(START, evs[0]);
    var s2 := Do(s1, evs[1]);
    var s3 := Do(s2, evs[2]);
    var s4 := Do(s3, evs[3]);
    var s5 := Do(s4, evs[4]);
    var s6 := Do(s5, evs[5]);
    var s7 := Do(s6, evs[6]);
    var s8 := Do(s7, evs[7]);
    assert s8.delivered == [1, 2];
    Unfold(s7, evs[7..]);
    Unfold(s6, evs[6..]);
    Unfold(s5, evs[5..]);
    Unfold(s4, evs[4..]);
    Unfold(s3, evs[3..]);
    Unfold(s2, evs[2..]);
    Unfold(s1, evs[1..]);
    Unfold(START, evs);
  }

  lemma Unfold(s: State, evs: seq<Event>)
    requires evs != [] && May(s, evs[0])
    ensures Allowed(s, evs) <==> Allowed(Do(s, evs[0]), evs[1..])
    ensures Allowed(s, evs) ==> Run(s, evs) == Run(Do(s, evs[0]), evs[1..])
  {
  }
}
