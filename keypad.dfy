/**
 * The login keypad: a PIN of at most four key presses, cleared by "clear",
 * submitted by "enter", and settled by the server's answer. The request
 * itself is not modelled; `submitted` records every PIN handed to it and
 * `Settle` applies its outcome.
 */
module Login {
  const MaxPin: nat := 4

  const InvalidPin := "Invalid PIN. Try again."
  const ConnectionError := "Connection error. Try again."

  /** How the authentication request ended. */
  datatype AuthReply = Accepted | Rejected | Unreachable

  /** A key's `data-value`: a word key, or the single character a digit key appends. */
  predicate IsKey(value: string) {
    value == "clear" || value == "enter" || |value| == 1
  }

  class Keypad {
    var pin: string
    var message: string            // the login error text
    var submitted: seq<string>     // PINs handed to `authenticate`, in order
    var signedIn: bool             // the dashboard has been loaded

    /** The PIN never grows past four characters. */
    ghost predicate Valid()
      reads this`pin
    {
      |pin| <= MaxPin
    }

    constructor ()
      ensures Valid()
      ensures pin == "" && message == "" && submitted == [] && !signedIn
    {
      pin := "";
      message := "";
      submitted := [];
      signedIn := false;
    }

    /**
     * One key press: "clear" empties the PIN and the error text, "enter"
     * submits the PIN only when it is not empty, and any other key appends
     * its value only while the PIN is shorter than four characters.
     */
    method Press(value: string)
      modifies this`pin, this`message, this`submitted
      ensures IsKey(value) && old(Valid()) ==> Valid()
      ensures value == "clear" ==> pin == "" && message == "" && submitted == old(submitted)
      ensures value == "enter" ==>
                && pin == old(pin) && message == old(message)
                && submitted == old(submitted) + (if |old(pin)| > 0 then [old(pin)] else [])
      ensures value != "clear" && value != "enter" ==>
                && message == old(message) && submitted == old(submitted)
                && pin == (if |old(pin)| < MaxPin then old(pin) + value else old(pin))
      ensures |value| == 1 ==> pin == Typed(old(pin), [value])
    {
      if value == "clear" {
        pin := "";
        message := "";
      } else if value == "enter" {
        if |pin| > 0 {
          submitted := submitted + [pin];
        }
      } else {
        if |pin| < MaxPin {
          pin := pin + value;
        }
      }
    }

    /**
     * The end of `authenticate`: on acceptance the PIN and error text are
     * cleared and the dashboard loads; on rejection the PIN is cleared and
     * the error shown; when the server cannot be reached only the error text
     * changes.
     */
    method Settle(reply: AuthReply)
      requires Valid()
      modifies this`pin, this`message, this`signedIn
      ensures Valid()
      ensures reply.Accepted? ==> pin == "" && message == "" && signedIn
      ensures reply.Rejected? ==> pin == "" && message == InvalidPin && signedIn == old(signedIn)
      ensures reply.Unreachable? ==> pin == old(pin) && message == ConnectionError && signedIn == old(signedIn)
    {
      match reply
      case Accepted =>
        pin := "";
        message := "";
        signedIn := true;
      case Rejected =>
        message := InvalidPin;
        pin := "";
      case Unreachable =>
        message := ConnectionError;
    }
  }

  /**
   * Keys typed in sequence: the PIN the accumulator ends with, for a run of
   * presses none of which is "clear" or "enter".
   */
  function Typed(pin: string, keys: seq<string>): (r: string)
    ensures |pin| <= MaxPin && (forall i :: 0 <= i < |keys| ==> |keys[i]| == 1) ==> |r| <= MaxPin
    ensures |pin| >= MaxPin ==> r == pin
    decreases |keys|
  {
    if keys == [] then pin
    else Typed(if |pin| < MaxPin then pin + keys[0] else pin, keys[1..])
  }

  /**
   * Typing one-character keys into a PIN of at most four characters appends
   * the first `4 - |pin|` keys (all of them when fewer) and drops the rest.
   */
  lemma {:induction false} TypedKeepsFirstFour(pin: string, keys: seq<string>)
    requires |pin| <= MaxPin
    requires forall i :: 0 <= i < |keys| ==> |keys[i]| == 1
    ensures var n := if |keys| < MaxPin - |pin| then |keys| else MaxPin - |pin|;
            Typed(pin, keys) == pin + Concat(keys[..n])
    decreases |keys|
  {
    if keys != [] && |pin| < MaxPin {
      var n := if |keys| < MaxPin - |pin| then |keys| else MaxPin - |pin|;
      TypedKeepsFirstFour(pin + keys[0], keys[1..]);
      assert keys[..n] == [keys[0]] + keys[1..][..n - 1];
      ConcatCons(keys[0], keys[1..][..n - 1]);
    }
  }

  function Concat(parts: seq<string>): string {
    if parts == [] then "" else parts[0] + Concat(parts[1..])
  }

  lemma ConcatCons(head: string, tail: seq<string>)
    ensures Concat([head] + tail) == head + Concat(tail)
  {
    assert ([head] + tail)[1..] == tail;
  }
}
