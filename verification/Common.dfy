/** Types shared by every part of the driver model: bytes, fixed-width counters, optional values. */
module Common {
  newtype byte = x: int | 0 <= x < 256

  // Widths of the fixed-size integers the driver relies on.
  const TWO_32: int := 0x1_0000_0000
  const TWO_64: int := 0x1_0000_0000_0000_0000

  type uint32 = x: int | 0 <= x < TWO_32
  type uint64 = x: int | 0 <= x < TWO_64

  datatype Option<+T> = None | Some(value: T)

  // uint64_t arithmetic wraps around.
  function Add64(a: uint64, b: uint64): uint64 {
    if a + b < TWO_64 then a + b else a + b - TWO_64
  }

  function Sub64(a: uint64, b: uint64): uint64 {
    if b <= a then a - b else a - b + TWO_64
  }

  /** The naturals below n. */
  function Below(n: nat): (r: set<nat>)
    ensures forall i: nat :: i in r <==> i < n
    ensures |r| == n
  {
    if n == 0 then {} else Below(n - 1) + {n - 1}
  }

  ghost predicate Increasing(s: seq<nat>) {
    forall i, j :: 0 <= i < j < |s| ==> s[i] < s[j]
  }

  /** The last number of a list, 0 for the empty list. */
  function Last(s: seq<nat>): nat {
    if s == [] then 0 else s[|s| - 1]
  }

  lemma AppendIncreasing(s: seq<nat>, x: nat)
    requires Increasing(s) && (s != [] ==> s[|s| - 1] < x)
    ensures Increasing(s + [x])
  {
  }

  lemma IncreasingSnoc(s: seq<nat>, x: nat)
    requires s != []
    ensures Increasing(s + [x]) <==> Increasing(s) && s[|s| - 1] < x
  {
    var t := s + [x];
    assert forall i :: 0 <= i < |s| ==> t[i] == s[i];
    assert Increasing(t) ==> t[|s| - 1] < t[|s|];
    if Increasing(s) && s[|s| - 1] < x {
      AppendIncreasing(s, x);
    }
  }

  lemma DropIncreasing(s: seq<nat>, k: nat)
    requires Increasing(s) && k <= |s|
    ensures Increasing(s[k..])
    ensures forall x :: x in s[k..] ==> x in s && forall i :: 0 <= i < k ==> s[i] < x
  {
  }

  ghost predicate Distinct<T>(s: seq<T>) {
    forall i, j :: 0 <= i < j < |s| ==> s[i] != s[j]
  }

  ghost function Elements<T>(s: seq<T>): set<T> {
    set x | x in s
  }

  lemma {:induction false} DistinctSize<T>(s: seq<T>)
    requires Distinct(s)
    ensures |Elements(s)| == |s|
  {
    if s != [] {
      DistinctSize(s[1..]);
      assert Elements(s) == {s[0]} + Elements(s[1..]);
    }
  }

  lemma {:induction false} SubsetSize<T>(a: set<T>, b: set<T>)
    requires a <= b
    ensures |a| <= |b| && (|a| == |b| ==> a == b)
  {
    assert b == a + (b - a);
  }

  /** A strictly increasing list of n numbers below m misses exactly m - n of them. */
  lemma MissedCount(s: seq<nat>, m: nat)
    requires Increasing(s)
    requires forall x :: x in s ==> x < m
    ensures |Below(m) - Elements(s)| == m - |s|
  {
    DistinctSize(s);
    assert Elements(s) <= Below(m);
    assert Below(m) - Elements(s) + Elements(s) == Below(m);
  }
}
