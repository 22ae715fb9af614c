/** The node's per-grab drop arithmetic: `push_now - last_push_seen_`, minus the frame just received. */
module DropAccounting {
  import opened Common

  datatype Counters = Counters(nPull: uint64, lastPush: uint64, totalDrops: uint64)

  const FRESH := Counters(0, 0, 0)

  /** What the loop does to its counters after a valid grab. */
  function Account(c: Counters, pushNow: uint64): Counters {
    var pushedSince := Sub64(pushNow, c.lastPush);
    Counters(
      Add64(c.nPull, 1),
      pushNow,
      if pushedSince > 1 then Add64(c.totalDrops, pushedSince - 1) else c.totalDrops)
  }

  /** Pushes and pulls balance: every push the node has seen was either pulled or counted as a drop. */
  ghost predicate Conserved(c: Counters) {
    c.nPull + c.totalDrops == c.lastPush
  }

  /**
   * From balanced counters, one accounting step leaves them balanced without lowering the drop
   * total exactly when the push count moved forward; then the total grows by the pushes skipped.
   * A repeated count, or one that went back, breaks this.
   */
  lemma ConservedIffForward(c: Counters, pushNow: uint64)
    requires Conserved(c) && c.nPull < TWO_64 - 1
    ensures Conserved(Account(c, pushNow)) && c.totalDrops <= Account(c, pushNow).totalDrops
            <==> c.lastPush < pushNow
    ensures c.lastPush < pushNow ==>
              Account(c, pushNow).totalDrops == c.totalDrops + (pushNow - c.lastPush - 1)
  {
  }

  /** The counters of a fresh node that read these push counts, one per valid frame. */
  function CountPushes(pushes: seq<uint64>): Counters {
    if pushes == [] then FRESH else Account(CountPushes(pushes[..|pushes| - 1]), pushes[|pushes| - 1])
  }

  /** After every frame the counters balance, and no frame has lowered the drop total. */
  ghost predicate ConservedThroughout(pushes: seq<uint64>) {
    && Conserved(CountPushes(pushes))
    && (pushes == [] ||
        var prefix := pushes[..|pushes| - 1];
        ConservedThroughout(prefix) && CountPushes(prefix).totalDrops <= CountPushes(pushes).totalDrops)
  }

  lemma {:induction false} PullsAndPushes(pushes: seq<uint64>)
    requires |pushes| < TWO_64
    ensures CountPushes(pushes).nPull == |pushes| && CountPushes(pushes).lastPush == Last(pushes)
  {
    if pushes != [] {
      PullsAndPushes(pushes[..|pushes| - 1]);
    }
  }

  /**
   * Pulls plus drops equal the last push count read, after every frame, exactly when every count was
   * higher than all before it. It says nothing of the total being right: see BalancedButWrong.
   */
  lemma {:induction false} ConservedThroughoutIff(pushes: seq<uint64>)
    requires |pushes| < TWO_64
    ensures ConservedThroughout(pushes) <==> Increasing([0] + pushes)
  {
    if pushes != [] {
      var prefix, last := pushes[..|pushes| - 1], pushes[|pushes| - 1];
      ConservedThroughoutIff(prefix);
      PullsAndPushes(prefix);
      assert [0] + pushes == [0] + prefix + [last];
      assert ([0] + prefix)[|prefix|] == Last(prefix);
      IncreasingSnoc([0] + prefix, last);
      if Conserved(CountPushes(prefix)) {
        ConservedIffForward(CountPushes(prefix), last);
      }
    }
  }

  /** How often a push count was read that had just been read before. */
  function Repeats(pushes: seq<uint64>): nat {
    if pushes == [] then 0
    else
      var prefix := pushes[..|pushes| - 1];
      Repeats(prefix) + if pushes[|pushes| - 1] == Last(prefix) then 1 else 0
  }

  ghost predicate NeverBack(pushes: seq<uint64>) {
    forall i, j :: 0 <= i < j < |pushes| ==> pushes[i] <= pushes[j]
  }

  // The counters after a run are determined by the push counts read.
  ghost predicate Balance(c: Counters, pushes: seq<uint64>) {
    && c.nPull == |pushes| && c.lastPush == Last(pushes)
    && c.nPull + c.totalDrops == c.lastPush + Repeats(pushes)
    && Repeats(pushes) <= |pushes|
  }

  lemma AccountForward(c: Counters, pushNow: uint64, repeats: nat)
    requires c.nPull + c.totalDrops == c.lastPush + repeats && repeats <= c.nPull
    requires c.lastPush <= pushNow && c.nPull + 1 < TWO_64
    ensures var c' := Account(c, pushNow);
            && c'.nPull == c.nPull + 1 && c'.lastPush == pushNow
            && c'.nPull + c'.totalDrops == pushNow + repeats + if pushNow == c.lastPush then 1 else 0
  {
  }

  /** While push counts never go back, the counters are exactly what the counts and their repeats say. */
  lemma {:induction false} BalanceHolds(pushes: seq<uint64>)
    requires |pushes| < TWO_64 && NeverBack(pushes)
    ensures Balance(CountPushes(pushes), pushes)
  {
    if pushes != [] {
      var prefix, last := pushes[..|pushes| - 1], pushes[|pushes| - 1];
      BalanceHolds(prefix);
      assert prefix != [] ==> pushes[|prefix| - 1] <= last;
      AccountForward(CountPushes(prefix), last, Repeats(prefix));
    }
  }

  /** One past the last number of a list, 0 for the empty list. */
  function After(s: seq<nat>): nat {
    if s == [] then 0 else s[|s| - 1] + 1
  }

  /** The counters of a node that validly grabbed exactly the frames with these sequence numbers. */
  ghost predicate Tallies(c: Counters, grabbed: seq<nat>) {
    && Increasing(grabbed)
    && Conserved(c)
    && c.nPull == |grabbed|
    && c.lastPush == After(grabbed)
  }

  lemma FreshTallies()
    ensures Tallies(FRESH, [])
  {
  }

  lemma AccountTallies(c: Counters, grabbed: seq<nat>, sequence: uint32)
    requires Tallies(c, grabbed) && After(grabbed) <= sequence
    ensures Tallies(Account(c, sequence + 1), grabbed + [sequence])
  {
    ConservedIffForward(c, sequence + 1);
    AppendIncreasing(grabbed, sequence);
  }

  /** The drop total is the number of sequence numbers up to the last grab that were not grabbed. */
  lemma TallyIsExact(c: Counters, grabbed: seq<nat>)
    requires Tallies(c, grabbed)
    ensures c.totalDrops == |Below(After(grabbed)) - Elements(grabbed)|
  {
    MissedCount(grabbed, After(grabbed));
  }

  /** The push count V4L2 reports for a frame: its 32-bit sequence number plus one. */
  function PushOf(serial: nat): uint64 {
    serial % TWO_32 + 1
  }

  function PushesOf(serials: seq<nat>): (pushes: seq<uint64>)
    ensures |pushes| == |serials| && forall i :: 0 <= i < |serials| ==> pushes[i] == PushOf(serials[i])
  {
    seq(|serials|, i requires 0 <= i < |serials| => PushOf(serials[i]))
  }

  lemma PushesOfSnoc(serials: seq<nat>, serial: nat)
    ensures PushesOf(serials + [serial]) == PushesOf(serials) + [PushOf(serial)]
    ensures CountPushes(PushesOf(serials + [serial])) == Account(CountPushes(PushesOf(serials)), PushOf(serial))
  {
    assert PushesOf(serials + [serial])[..|serials|] == PushesOf(serials);
  }

  lemma {:induction false} TallyOneMore(c: Counters, c': Counters, grabbed: seq<nat>, serial: nat)
    requires Tallies(c, grabbed) && After(grabbed) <= serial < TWO_32 && c' == Account(c, PushOf(serial))
    ensures Tallies(c', grabbed + [serial])
  {
    AccountTallies(c, grabbed, serial);
  }

  /** Until the sequence numbers wrap, the counters tally with the grabbed frames. */
  lemma {:induction false} TalliesUntilWrap(grabbed: seq<nat>)
    requires Increasing(grabbed) && After(grabbed) <= TWO_32
    ensures Tallies(CountPushes(PushesOf(grabbed)), grabbed)
  {
    if grabbed == [] {
      FreshTallies();
      assert CountPushes(PushesOf(grabbed)) == FRESH;
    } else {
      var prefix, last := grabbed[..|grabbed| - 1], grabbed[|grabbed| - 1];
      assert grabbed == prefix + [last];
      TalliesUntilWrap(prefix);
      PushesOfSnoc(prefix, last);
      TallyOneMore(CountPushes(PushesOf(prefix)), CountPushes(PushesOf(grabbed)), prefix, last);
    }
  }

  /** How often the 32-bit sequence number had wrapped by the last frame grabbed. */
  function Wraps(grabbed: seq<nat>): nat {
    if grabbed == [] then 0 else grabbed[|grabbed| - 1] / TWO_32
  }

  /** The drop total is the number of frames up to the last one grabbed that were not grabbed. */
  ghost predicate Exact(c: Counters, grabbed: seq<nat>) {
    c.totalDrops == |Below(After(grabbed)) - Elements(grabbed)|
  }

  // One accounting step, modulo 2^64.
  lemma AccountModulo(c: Counters, pushNow: uint64, n: nat, repeats: nat, k: int) returns (k': int)
    requires c.totalDrops + n == c.lastPush + repeats + k * TWO_64
    ensures Account(c, pushNow).totalDrops + n + 1
            == pushNow + repeats + (if pushNow == c.lastPush then 1 else 0) + k' * TWO_64
  {
    var since := Sub64(pushNow, c.lastPush);
    k' := k + (if pushNow < c.lastPush then 1 else 0)
            - (if since > 1 && c.totalDrops + (since - 1) >= TWO_64 then 1 else 0);
  }

  /** For any list of push counts, total plus frames is the last count plus the repeats, modulo 2^64. */
  lemma {:induction false} TotalModulo(pushes: seq<uint64>) returns (k: int)
    ensures CountPushes(pushes).lastPush == Last(pushes)
    ensures CountPushes(pushes).totalDrops + |pushes| == Last(pushes) + Repeats(pushes) + k * TWO_64
  {
    k := 0;
    if pushes != [] {
      var prefix := pushes[..|pushes| - 1];
      k := TotalModulo(prefix);
      k := AccountModulo(CountPushes(prefix), pushes[|pushes| - 1], |prefix|, Repeats(prefix), k);
    }
  }

  // A sequence number comes again only after a wrap.
  lemma AgainIsWrapped(serial: nat, later: nat)
    requires serial < later
    ensures serial / TWO_32 <= later / TWO_32
    ensures PushOf(serial) == PushOf(later) ==> serial / TWO_32 < later / TWO_32
  {
    assert serial == serial / TWO_32 * TWO_32 + serial % TWO_32;
    assert later == later / TWO_32 * TWO_32 + later % TWO_32;
  }

  lemma RepeatsSnoc(pushes: seq<uint64>, push: uint64)
    ensures Repeats(pushes + [push]) == Repeats(pushes) + if push == Last(pushes) then 1 else 0
  {
    assert (pushes + [push])[..|pushes|] == pushes;
  }

  lemma WrapsSnoc(grabbed: seq<nat>, last: nat)
    requires grabbed != [] ==> grabbed[|grabbed| - 1] < last
    ensures Wraps(grabbed + [last]) >= Wraps(grabbed) + if PushOf(last) == Last(PushesOf(grabbed)) then 1 else 0
  {
    if grabbed != [] {
      AgainIsWrapped(grabbed[|grabbed| - 1], last);
    }
  }

  lemma {:induction false} RepeatsBelowWraps(grabbed: seq<nat>)
    requires Increasing(grabbed)
    ensures Repeats(PushesOf(grabbed)) <= Wraps(grabbed)
  {
    if grabbed == [] {
      assert PushesOf(grabbed) == [];
    } else {
      var prefix, last := grabbed[..|grabbed| - 1], grabbed[|grabbed| - 1];
      assert grabbed == prefix + [last];
      RepeatsBelowWraps(prefix);
      PushesOfSnoc(prefix, last);
      RepeatsSnoc(PushesOf(prefix), PushOf(last));
      WrapsSnoc(prefix, last);
    }
  }

  /**
   * How far the V4L2 drop total is off, for any frames grabbed in order: 2^32 too low for each wrap of
   * the sequence number, one too high for each sequence number read twice in a row, modulo 2^64.
   */
  lemma DropError(grabbed: seq<nat>) returns (k: int)
    requires Increasing(grabbed)
    ensures CountPushes(PushesOf(grabbed)).totalDrops
            == After(grabbed) - |grabbed| - Wraps(grabbed) * TWO_32 + Repeats(PushesOf(grabbed)) + k * TWO_64
  {
    k := TotalModulo(PushesOf(grabbed));
    if grabbed != [] {
      var last := grabbed[|grabbed| - 1];
      assert Last(PushesOf(grabbed)) == PushOf(last);
      assert last == last / TWO_32 * TWO_32 + last % TWO_32;
    }
  }

  /**
   * The V4L2 drop total is right exactly until the sequence number wraps: while fewer than 2^64 frames
   * have been produced, it is the number of frames not grabbed if and only if the last frame grabbed
   * is among the first 2^32. Whatever was grabbed and skipped after a wrap, it is never right again.
   */
  lemma ExactIffUnwrapped(grabbed: seq<nat>)
    requires Increasing(grabbed)
    ensures After(grabbed) <= TWO_64 ==>
              (Exact(CountPushes(PushesOf(grabbed)), grabbed) <==> After(grabbed) <= TWO_32)
  {
    MissedCount(grabbed, After(grabbed));
    if TWO_32 < After(grabbed) <= TWO_64 {
      var k := DropError(grabbed);
      RepeatsBelowWraps(grabbed);
      WrappedIsWrong(Wraps(grabbed), Repeats(PushesOf(grabbed)), k);
    } else if After(grabbed) <= TWO_32 {
      TalliesUntilWrap(grabbed);
      TallyIsExact(CountPushes(PushesOf(grabbed)), grabbed);
    }
  }

  // The error of DropError is never zero after a wrap.
  lemma WrappedIsWrong(wraps: nat, repeats: nat, k: int)
    requires 0 < wraps < TWO_32 && repeats <= wraps
    ensures wraps * TWO_32 - repeats != k * TWO_64
  {
    assert 0 < wraps * TWO_32 - repeats < TWO_64;
  }

  /** Losing nothing but the wrap itself: two frames in a row, and the total jumps to 2^64 - 1. */
  lemma SequenceWrapMiscounts()
    ensures var grabbed := [TWO_32 - 1, TWO_32];
            && CountPushes(PushesOf(grabbed)).totalDrops == TWO_64 - 1
            && After(grabbed) - |grabbed| == TWO_32 - 1
  {
    var first, both := [TWO_32 - 1], [TWO_32 - 1, TWO_32];
    assert PushesOf([]) == [] && [] + first == first && first + [TWO_32] == both;
    PushesOfSnoc([], TWO_32 - 1);
    PushesOfSnoc(first, TWO_32);
    assert CountPushes(PushesOf(first)) == Counters(1, TWO_32, TWO_32 - 1);
    assert PushOf(TWO_32) == 1 && Sub64(1, TWO_32) == TWO_64 - TWO_32 + 1;
  }

  lemma CountTwo(a: uint64, b: uint64)
    ensures CountPushes([a, b]) == Account(Account(FRESH, a), b)
  {
    assert [a, b][..1] == [a] && [a][..0] == [];
    assert CountPushes([a]) == Account(CountPushes([]), a);
  }

  /** Balanced counters are not enough: after a wrap they may balance on a total that is 2^32 too low. */
  lemma BalancedButWrong()
    ensures var grabbed := [0, TWO_32 + 5];
            && ConservedThroughout(PushesOf(grabbed))
            && CountPushes(PushesOf(grabbed)).totalDrops == 4
            && After(grabbed) - |grabbed| == TWO_32 + 4
  {
    var grabbed := [0, TWO_32 + 5];
    assert PushesOf(grabbed) == [1, 6];
    ConservedThroughoutIff([1, 6]);
    assert [0] + [1, 6] == [0, 1, 6];
    CountTwo(1, 6);
  }
}
