/**
 * Routines and their segments, as loaded from the routine catalog, and the
 * cumulative-duration arithmetic every part of the timer relies on.
 */
module Routines {
  import opened Wrappers

  /** One timed phase of a routine; `duration` is in whole seconds. */
  datatype Segment = Segment(phase: string, duration: int, instruction: string, color: string)

  /** A routine; the order of `segments` is playback order. */
  datatype Routine = Routine(id: string, title: string, description: string, intensity: string,
                             segments: seq<Segment>)

  /** The durations of the segments, in playback order. */
  function Durations(segs: seq<Segment>): (d: seq<int>)
    ensures |d| == |segs|
    ensures forall i :: 0 <= i < |segs| ==> d[i] == segs[i].duration
  {
    seq(|segs|, i requires 0 <= i < |segs| => segs[i].duration)
  }

  /** Durations as the catalog is meant to hold them: every one positive. */
  predicate Positive(d: seq<int>) {
    forall i :: 0 <= i < |d| ==> d[i] > 0
  }

  function Sum(s: seq<int>): int {
    if s == [] then 0 else s[0] + Sum(s[1..])
  }

  /** The start time of segment `i`: the durations of the segments before it. */
  function Prefix(d: seq<int>, i: nat): int
    requires i <= |d|
  {
    Sum(d[..i])
  }

  /** The length of the whole routine (the `reduce` over the segments). */
  function Total(d: seq<int>): int {
    Sum(d)
  }

  lemma {:induction false} SumSnoc(s: seq<int>, x: int)
    ensures Sum(s + [x]) == Sum(s) + x
  {
    if s == [] {
      assert [] + [x] == [x];
    } else {
      assert (s + [x])[1..] == s[1..] + [x];
      SumSnoc(s[1..], x);
    }
  }

  /** Segment `i` ends where segment `i + 1` starts. */
  lemma PrefixStep(d: seq<int>, i: nat)
    requires i < |d|
    ensures Prefix(d, i + 1) == Prefix(d, i) + d[i]
  {
    assert d[..i + 1] == d[..i] + [d[i]];
    SumSnoc(d[..i], d[i]);
  }

  /** Dropping the first segment shifts every later start time by its duration. */
  lemma PrefixShift(d: seq<int>)
    requires |d| > 0
    ensures forall k :: 1 <= k <= |d| ==> Prefix(d, k) == d[0] + Prefix(d[1..], k - 1)
  {
    forall k | 1 <= k <= |d|
      ensures Prefix(d, k) == d[0] + Prefix(d[1..], k - 1)
    {
      assert d[..k][1..] == d[1..][..k - 1];
    }
  }

  lemma PrefixAll(d: seq<int>)
    ensures Prefix(d, |d|) == Total(d)
  {
    assert d[..|d|] == d;
  }

  /** With no negative duration, later segments never start earlier. */
  lemma {:induction false} PrefixMonotone(d: seq<int>, i: nat, j: nat)
    requires forall k :: 0 <= k < |d| ==> d[k] >= 0
    requires i <= j <= |d|
    ensures Prefix(d, i) <= Prefix(d, j)
  {
    if i < j {
      PrefixMonotone(d, i, j - 1);
      PrefixStep(d, j - 1);
    }
  }

  /**
   * The position `routines.find(r => r.id === routineId)` stops at: the first
   * routine with that identifier, if any.
   */
  function FindRoutineIndex(catalog: seq<Routine>, id: string): (k: Option<nat>)
    ensures k.Some? ==> k.value < |catalog| && catalog[k.value].id == id
    ensures k.Some? ==> forall j :: 0 <= j < k.value ==> catalog[j].id != id
    ensures k.None? <==> forall j :: 0 <= j < |catalog| ==> catalog[j].id != id
  {
    if catalog == [] then None
    else if catalog[0].id == id then Some(0)
    else
      match FindRoutineIndex(catalog[1..], id)
      case None => None
      case Some(k) => Some(k + 1)
  }

  /** The catalog lookup itself: the first routine with that identifier. */
  function FindRoutine(catalog: seq<Routine>, id: string): (r: Option<Routine>)
    ensures r.Some? ==> r.value in catalog && r.value.id == id
    ensures r.Some? ==> exists k :: 0 <= k < |catalog| && r.value == catalog[k]
                                    && forall j :: 0 <= j < k ==> catalog[j].id != id
    ensures r.None? <==> forall j :: 0 <= j < |catalog| ==> catalog[j].id != id
  {
    match FindRoutineIndex(catalog, id)
    case None => None
    case Some(k) => Some(catalog[k])
  }
}
