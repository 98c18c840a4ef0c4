/**
 * What the timer says. Every `speak(text)` call is one `Say` in the session's
 * speech log; `Cancel` is a bare `speechSynthesis.cancel()` and `Prime` the
 * silent utterance that unlocks speech on the first start.
 */
module Announcements {
  import opened Routines
  import opened TimeFormat

  datatype Cue =
    | Starting(phase: string)   // "Starting <phase>"
    | InThirty(phase: string)   // "In 30 seconds, <next phase>"
    | Count(n: int)             // the bare number of seconds left
    | Complete                  // "Workout complete! Great job!"

  datatype SpeechEvent = Say(cue: Cue) | Cancel | Prime

  /** The text handed to the speech engine for a cue. */
  function Phrase(c: Cue): string {
    match c
    case Starting(p) => "Starting " + p
    case InThirty(p) => "In 30 seconds, " + p
    case Count(n) => NumberToString(n)
    case Complete => "Workout complete! Great job!"
  }

  /**
   * `handleAudioCues(remainingTime, currentIdx)`: the heads-up for the next
   * phase when exactly 30 seconds are left and a next segment exists, and the
   * bare count when 1 to 5 seconds are left.
   */
  function AudioCues(segs: seq<Segment>, idx: nat, remaining: int): (cues: seq<Cue>)
    ensures |cues| <= 1
    ensures (|cues| == 1 && cues[0].InThirty?) <==> remaining == 30 && idx + 1 < |segs|
    ensures remaining == 30 && idx + 1 < |segs| ==> cues == [InThirty(segs[idx + 1].phase)]
    ensures 0 < remaining <= 5 <==> cues == [Count(remaining)]
    ensures cues == [] <==> !(remaining == 30 && idx + 1 < |segs|) && !(0 < remaining <= 5)
  {
    (if remaining == 30 && idx + 1 < |segs| then [InThirty(segs[idx + 1].phase)] else [])
      + (if remaining <= 5 && remaining > 0 then [Count(remaining)] else [])
  }

  /** The speech-log entries for a run of cues spoken one after another. */
  function Says(cues: seq<Cue>): (log: seq<SpeechEvent>)
    ensures |log| == |cues|
    ensures forall i :: 0 <= i < |cues| ==> log[i] == Say(cues[i])
  {
    seq(|cues|, i requires 0 <= i < |cues| => Say(cues[i]))
  }

  /** The phases announced as starting, in the order announced. */
  function Started(log: seq<SpeechEvent>): seq<string> {
    if log == [] then []
    else Started(log[..|log| - 1]) + (match log[|log| - 1]
                                     case Say(Starting(p)) => [p]
                                     case _ => [])
  }

  lemma {:induction false} StartedAppend(a: seq<SpeechEvent>, b: seq<SpeechEvent>)
    ensures Started(a + b) == Started(a) + Started(b)
    decreases |b|
  {
    if b == [] {
      assert a + b == a;
    } else {
      assert (a + b)[..|a + b| - 1] == a + b[..|b| - 1];
      StartedAppend(a, b[..|b| - 1]);
    }
  }

  /** Countdown cues never announce a phase start. */
  lemma {:induction false} StartedOfCountdown(segs: seq<Segment>, idx: nat, remaining: int)
    ensures Started(Says(AudioCues(segs, idx, remaining))) == []
  {
    var log := Says(AudioCues(segs, idx, remaining));
    if log != [] {
      assert log[..|log| - 1] == [];
    }
  }
}
