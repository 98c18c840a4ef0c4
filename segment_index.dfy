/**
 * The segment locator: given the segment durations in playback order and the
 * whole seconds elapsed since the start, which segment is playing, how far
 * into it we are and how much of it is left. The timer recomputes this from
 * the absolute elapsed time on every tick and every redisplay.
 */
module SegmentIndex {
  import opened Routines

  /** `Found` carries the segment index, the offset into it and the seconds left in it. */
  datatype Location = NotFound | Found(index: nat, offset: int, remaining: int)

  /**
   * The first segment that has not ended by `elapsed`: the least `i` with
   * `elapsed < Prefix(d, i + 1)`, or `NotFound` when every segment has ended.
   */
  function Locate(d: seq<int>, elapsed: int): (loc: Location)
    ensures loc.Found? ==> loc.index < |d|
    decreases |d|
  {
    if d == [] then NotFound
    else if elapsed < d[0] then Found(0, elapsed, d[0] - elapsed)
    else
      match Locate(d[1..], elapsed - d[0])
      case NotFound => NotFound
      case Found(i, offset, remaining) => Found(i + 1, offset, remaining)
  }

  /**
   * What the locator finds: the first segment whose end lies beyond
   * `elapsed`, with the offset into it and the seconds left in it; when no
   * segment is found, every segment has ended by `elapsed`.
   */
  lemma {:induction false} LocateSpec(d: seq<int>, elapsed: int)
    ensures var loc := Locate(d, elapsed);
            && (loc.Found? ==> && elapsed < Prefix(d, loc.index + 1)
                               && loc.offset == elapsed - Prefix(d, loc.index)
                               && loc.remaining == d[loc.index] - loc.offset
                               && forall j :: 0 < j <= loc.index ==> Prefix(d, j) <= elapsed)
            && (loc.NotFound? ==> forall j :: 0 < j <= |d| ==> Prefix(d, j) <= elapsed)
    decreases |d|
  {
    if d == [] {
    } else if elapsed < d[0] {
      PrefixStep(d, 0);
    } else {
      PrefixShift(d);
      assert d[..1] == [d[0]];
      LocateSpec(d[1..], elapsed - d[0]);
    }
  }

  /**
   * The lookup loop of the tick and of the redisplay: walk the running sum of
   * durations and stop at the first segment whose end lies beyond `elapsed`.
   */
  method LocateSegment(d: seq<int>, elapsed: int) returns (loc: Location)
    ensures loc == Locate(d, elapsed)
  {
    LocateSpec(d, elapsed);
    var acc := 0;
    var i := 0;
    while i < |d|
      invariant 0 <= i <= |d|
      invariant acc == Prefix(d, i)
      invariant forall j :: 0 < j <= i ==> Prefix(d, j) <= elapsed
    {
      PrefixStep(d, i);
      if elapsed < acc + d[i] {
        var offset := elapsed - acc;
        return Found(i, offset, d[i] - offset);
      }
      acc := acc + d[i];
      i := i + 1;
    }
    return NotFound;
  }

  /**
   * For a well-formed routine the located segment really contains the elapsed
   * time: it started no later than `elapsed`, the offset lies in
   * `[0, duration)` and the time left in `[1, duration]`.
   */
  lemma LocateInRange(d: seq<int>, elapsed: int)
    requires Positive(d) && elapsed >= 0
    ensures var loc := Locate(d, elapsed);
            loc.Found? ==> && Prefix(d, loc.index) <= elapsed
                           && 0 <= loc.offset < d[loc.index]
                           && 1 <= loc.remaining <= d[loc.index]
  {
    var loc := Locate(d, elapsed);
    LocateSpec(d, elapsed);
    if loc.Found? {
      PrefixStep(d, loc.index);
      assert loc.index > 0 ==> Prefix(d, loc.index) <= elapsed;
    }
  }

  /** No segment is found exactly when the whole routine has elapsed. */
  lemma LocateNotFoundIff(d: seq<int>, elapsed: int)
    requires Positive(d) && elapsed >= 0
    ensures Locate(d, elapsed).NotFound? <==> elapsed >= Total(d)
  {
    PrefixAll(d);
    var loc := Locate(d, elapsed);
    LocateSpec(d, elapsed);
    if loc.Found? {
      PrefixMonotone(d, loc.index + 1, |d|);
    }
  }

  /**
   * For any non-empty routine (whatever its durations), not finding a
   * segment means the whole routine has elapsed: the tick's finish test
   * `elapsed >= totalDuration` never fails after a failed lookup.
   */
  lemma LocateNotFoundPastEnd(d: seq<int>, elapsed: int)
    requires |d| > 0
    ensures Locate(d, elapsed).NotFound? ==> elapsed >= Total(d)
  {
    LocateSpec(d, elapsed);
    PrefixAll(d);
  }

  /**
   * The locator agrees with the containment reading of the routine: whenever
   * segment `k` covers `elapsed` (half-open, `[Prefix(k), Prefix(k + 1))`),
   * that is the segment found, with offset `elapsed - Prefix(k)`.
   */
  lemma LocateContaining(d: seq<int>, elapsed: int, k: nat)
    requires Positive(d)
    requires k < |d| && Prefix(d, k) <= elapsed < Prefix(d, k + 1)
    ensures Locate(d, elapsed) == Found(k, elapsed - Prefix(d, k), d[k] - (elapsed - Prefix(d, k)))
  {
    var loc := Locate(d, elapsed);
    LocateSpec(d, elapsed);
    if loc.Found? && loc.index < k {
      PrefixMonotone(d, loc.index + 1, k);
    }
  }

  /**
   * Boundary exactness on a three-segment routine of 10, 5 and 10 seconds:
   * second 9 is the last of the first segment, second 10 the first of the
   * second, second 24 the last of the third and second 25 is past the end.
   */
  lemma BoundaryExample()
    ensures Locate([10, 5, 10], 9) == Found(0, 9, 1)
    ensures Locate([10, 5, 10], 10) == Found(1, 0, 5)
    ensures Locate([10, 5, 10], 24) == Found(2, 9, 1)
    ensures Locate([10, 5, 10], 25) == NotFound
  {
    var d := [10, 5, 10];
    assert d[..0] == [] && d[..1] == [10] && d[..2] == [10, 5] && d[..3] == d;
    assert Prefix(d, 1) == 10 && Prefix(d, 2) == 15 && Prefix(d, 3) == 25;
    LocateContaining(d, 9, 0);
    LocateContaining(d, 10, 1);
    LocateContaining(d, 24, 2);
    LocateNotFoundIff(d, 25);
  }
}
