/** `Session`: the connection life cycle and its epoch counter. */
module SessionStates {

  datatype State = Stopped | Connecting | Handshaking | Established | Closing | Failed

  /** The session's two fields. */
  datatype Sess = Sess(state: State, epoch: nat)

  const FRESH: Sess := Sess(Stopped, 0)

  predicate Allowed(from: State, next: State) {
    || (from == Stopped && next == Connecting)
    || (from == Connecting && next == Handshaking)
    || (from == Handshaking && next == Established)
    || (from == Established && next == Closing)
    || (from == Closing && next == Stopped)
    || (from != Stopped && next == Failed)
    || (from == Failed && next == Stopped)
  }

  function Transition(s: Sess, next: State): (Sess, bool) {
    if Allowed(s.state, next) then (Sess(next, s.epoch + if next == Established then 1 else 0), true) else (s, false)
  }

  /** The life cycle: one way round, a way back to the start from the end and from failure, and failure from
      everywhere but rest. */
  lemma MovesAre(from: State, next: State)
    ensures Allowed(from, next)
            <==> (from, next) in {(Stopped, Connecting), (Connecting, Handshaking), (Handshaking, Established),
                                  (Established, Closing), (Closing, Stopped), (Failed, Stopped), (Connecting, Failed),
                                  (Handshaking, Failed), (Established, Failed), (Closing, Failed), (Failed, Failed)}
  {
  }

  class Session {
    var state: State
    var epoch: nat

    constructor ()
      ensures View() == FRESH
    {
      state, epoch := Stopped, 0;
    }

    function View(): Sess
      reads this
    {
      Sess(state, epoch)
    }

    predicate CanSendData()
      reads this
    {
      state == Established
    }

    method TransitionTo(next: State) returns (ok: bool)
      modifies this
      ensures (View(), ok) == Transition(old(View()), next)
    {
      if !Allowed(state, next) {
        return false;
      }
      state := next;
      if next == Established {
        epoch := epoch + 1;
      }
      ok := true;
    }

    /** From every state whatever, the reset ends in handshaking and opens no epoch. */
    method ResetToHandshaking() returns (ok: bool)
      modifies this
      ensures ok && View() == Sess(Handshaking, old(epoch))
    {
      var ignored;
      if state == Established {
        ignored := TransitionTo(Closing);
      }
      if state == Closing || state == Failed {
        ignored := TransitionTo(Stopped);
      }
      if state == Stopped {
        ignored := TransitionTo(Connecting);
      }
      if state == Connecting {
        ok := TransitionTo(Handshaking);
      } else {
        ok := state == Handshaking;
      }
    }
  }

  // ---------------------------------------------------------------- runs of transition attempts

  /** The session after a list of attempted transitions. */
  function After(s: Sess, attempts: seq<State>): Sess
    decreases |attempts|
  {
    if attempts == [] then s else After(Transition(s, attempts[0]).0, attempts[1..])
  }

  /** The states entered by a list of attempted transitions: refused attempts enter nothing. */
  function Entered(s: Sess, attempts: seq<State>): seq<State>
    decreases |attempts|
  {
    if attempts == [] then []
    else
      var (s', ok) := Transition(s, attempts[0]);
      (if ok then [attempts[0]] else []) + Entered(s', attempts[1..])
  }

  function CountEstablished(path: seq<State>): nat {
    if path == [] then 0 else (if path[0] == Established then 1 else 0) + CountEstablished(path[1..])
  }

  /** Over any attempts, the epoch counts the entries to `Established`, and each of them comes directly
      from `Handshaking`: no data may flow before a handshake. */
  lemma {:induction false} EpochCountsEntries(s: Sess, attempts: seq<State>)
    ensures After(s, attempts).epoch == s.epoch + CountEstablished(Entered(s, attempts))
    ensures var path := [s.state] + Entered(s, attempts);
            && After(s, attempts).state == path[|path| - 1]
            && forall i :: 0 < i < |path| && path[i] == Established ==> path[i - 1] == Handshaking
    decreases |attempts|
  {
    if attempts != [] {
      var (s', ok) := Transition(s, attempts[0]);
      EpochCountsEntries(s', attempts[1..]);
      var rest := Entered(s', attempts[1..]);
      if ok {
        var path, tail := [s.state] + Entered(s, attempts), [s'.state] + rest;
        assert Entered(s, attempts) == tail && tail[1..] == rest;
        assert path == [s.state] + tail;
        forall i | 0 < i < |path| && path[i] == Established ensures path[i - 1] == Handshaking {
          if i > 1 { assert tail[i - 1] == path[i] && tail[i - 2] == path[i - 1]; }
        }
      } else {
        assert Entered(s, attempts) == rest;
      }
    }
  }
}
