/**
 * Choosing the speech voice: a preference ladder over the voices the host
 * offers, falling back to the first voice when no rung matches.
 */
module Voices {
  import opened Wrappers

  datatype Voice = Voice(name: string, lang: string, isDefault: bool)

  predicate StartsWith(s: string, prefix: string) {
    |prefix| <= |s| && s[..|prefix|] == prefix
  }

  /** `String.prototype.includes`: `part` occurs somewhere in `s`. */
  predicate Includes(s: string, part: string)
    decreases |s|
  {
    StartsWith(s, part) || (|s| > 0 && Includes(s[1..], part))
  }

  predicate English(v: Voice) {
    StartsWith(v.lang, "en")
  }

  /**
   * The rungs of the ladder, most preferred first: a "Samantha" voice, an
   * English "Siri" voice, the voice named exactly "Daniel", an English
   * "Enhanced" or "Premium" voice, the English host default, any English voice.
   */
  const Rungs: nat := 6

  predicate OnRung(k: nat, v: Voice) {
    if k == 0 then Includes(v.name, "Samantha")
    else if k == 1 then Includes(v.name, "Siri") && English(v)
    else if k == 2 then v.name == "Daniel"
    else if k == 3 then (Includes(v.name, "Enhanced") || Includes(v.name, "Premium")) && English(v)
    else if k == 4 then v.isDefault && English(v)
    else if k == 5 then English(v)
    else false
  }

  /** The most preferred rung a voice stands on; `Rungs` when it is on none. */
  function Rank(v: Voice): (k: nat)
    ensures k <= Rungs
    ensures k < Rungs ==> OnRung(k, v)
    ensures forall j :: 0 <= j < k ==> !OnRung(j, v)
  {
    if OnRung(0, v) then 0
    else if OnRung(1, v) then 1
    else if OnRung(2, v) then 2
    else if OnRung(3, v) then 3
    else if OnRung(4, v) then 4
    else if OnRung(5, v) then 5
    else Rungs
  }

  /** `voices.find(...)` for one rung, starting the scan at position `from`. */
  function FindOnRung(vs: seq<Voice>, k: nat, from: nat): (i: Option<nat>)
    requires from <= |vs|
    ensures i.Some? ==> from <= i.value < |vs| && OnRung(k, vs[i.value])
    ensures i.Some? ==> forall j :: from <= j < i.value ==> !OnRung(k, vs[j])
    ensures i.None? ==> forall j :: from <= j < |vs| ==> !OnRung(k, vs[j])
    decreases |vs| - from
  {
    if from == |vs| then None
    else if OnRung(k, vs[from]) then Some(from)
    else FindOnRung(vs, k, from + 1)
  }

  /** The `||` chain of finds from rung `k` down: the first rung with a match decides. */
  function Ladder(vs: seq<Voice>, k: nat): Option<nat>
    requires k <= Rungs
    decreases Rungs - k
  {
    if k == Rungs then None
    else
      match FindOnRung(vs, k, 0)
      case Some(i) => Some(i)
      case None => Ladder(vs, k + 1)
  }

  /**
   * `selectVoice`: nothing when the host offers no voice, otherwise the
   * ladder's choice or, failing every rung, the first voice.
   */
  function SelectVoice(vs: seq<Voice>): (r: Option<Voice>)
    ensures r.Some? <==> |vs| > 0
    ensures r.Some? ==> r.value in vs
  {
    if |vs| == 0 then None
    else
      match Ladder(vs, 0)
      case Some(i) => Some(vs[i])
      case None => Some(vs[0])
  }

  lemma {:induction false} LadderBest(vs: seq<Voice>, k: nat)
    requires k <= Rungs
    requires forall j :: 0 <= j < |vs| ==> Rank(vs[j]) >= k
    ensures match Ladder(vs, k)
            case Some(i) =>
              && i < |vs|
              && (forall j :: 0 <= j < |vs| ==> Rank(vs[i]) <= Rank(vs[j]))
              && (forall j :: 0 <= j < i ==> Rank(vs[i]) < Rank(vs[j]))
            case None => forall j :: 0 <= j < |vs| ==> Rank(vs[j]) == Rungs
    decreases Rungs - k
  {
    if k < Rungs {
      match FindOnRung(vs, k, 0)
      case Some(i) =>
        assert Rank(vs[i]) == k;
        forall j | 0 <= j < i ensures Rank(vs[i]) < Rank(vs[j]) {
          assert !OnRung(k, vs[j]);
        }
      case None =>
        forall j | 0 <= j < |vs| ensures Rank(vs[j]) >= k + 1 {
          assert !OnRung(k, vs[j]);
        }
        LadderBest(vs, k + 1);
    }
  }

  /**
   * The voice chosen is the best-ranked one the host offers and, among the
   * voices of that rank, the first in the host's order.
   */
  lemma SelectVoiceBest(vs: seq<Voice>) returns (i: nat)
    requires |vs| > 0
    ensures i < |vs| && SelectVoice(vs) == Some(vs[i])
    ensures forall j :: 0 <= j < |vs| ==> Rank(vs[i]) <= Rank(vs[j])
    ensures forall j :: 0 <= j < i ==> Rank(vs[i]) < Rank(vs[j])
  {
    LadderBest(vs, 0);
    match Ladder(vs, 0)
    case Some(k) => i := k;
    case None => i := 0;
  }
}
