/** The watchdog of a terminal session, _watchdog in app/executor/terminal.py. */
module Watchdogs {
  import opened Options

  const POLL_S := 2.0

  /** A close that is no more than one poll late for the limit on the lifetime. */
  predicate InTime(begin: real, closing: real, lifetime: real) { closing - begin < lifetime + POLL_S }

  datatype Verdict = MaxTime | Idle | AlreadyClosed

  /** The time of the last of the inputs that has come at time now; begin if there is none. */
  function LastInput(begin: real, inputs: seq<real>, now: real): real {
    if inputs == [] then begin
    else if inputs[|inputs| - 1] <= now then inputs[|inputs| - 1]
    else LastInput(begin, inputs[..|inputs| - 1], now)
  }

  lemma {:induction false} LastInputGrows(begin: real, inputs: seq<real>, now: real, later: real)
    requires now <= later
    requires forall i, j :: 0 <= i < j < |inputs| ==> inputs[i] <= inputs[j]
    requires forall i :: 0 <= i < |inputs| ==> begin <= inputs[i]
    ensures begin <= LastInput(begin, inputs, now) <= LastInput(begin, inputs, later)
  {
    if inputs != [] && inputs[|inputs| - 1] > now {
      LastInputGrows(begin, inputs[..|inputs| - 1], now, later);
      LastInputIsOneOf(begin, inputs[..|inputs| - 1], now);
    }
  }

  lemma {:induction false} LastInputIsOneOf(begin: real, inputs: seq<real>, now: real)
    ensures LastInput(begin, inputs, now) == begin || LastInput(begin, inputs, now) in inputs
  {
    if inputs != [] && inputs[|inputs| - 1] > now {
      LastInputIsOneOf(begin, inputs[..|inputs| - 1], now);
    }
  }

  /** _watchdog with exact sleeps: from the start at time begin, with input at the given times, and a close by
      someone else at closedAt, if any. It never closes early and never more than one poll late. */
  method Watch(begin: real, inputs: seq<real>, closedAt: Option<real>, maxLifetime: real, idleLimit: real)
    returns (at: real, verdict: Verdict)
    requires forall i, j :: 0 <= i < j < |inputs| ==> inputs[i] <= inputs[j]
    requires forall i :: 0 <= i < |inputs| ==> begin <= inputs[i]
    requires maxLifetime > 0.0 && idleLimit > 0.0
    ensures begin <= at < begin + maxLifetime + 2.0
    ensures at - LastInput(begin, inputs, at) < idleLimit + 2.0
    ensures closedAt.Some? && closedAt.value >= begin ==> at < closedAt.value + 2.0
    ensures verdict == MaxTime <==> at - begin >= maxLifetime
    ensures verdict == Idle ==> at - LastInput(begin, inputs, at) >= idleLimit
    ensures verdict == AlreadyClosed ==>
              closedAt.Some? && closedAt.value <= at && at - LastInput(begin, inputs, at) < idleLimit
  {
    at, verdict := begin, AlreadyClosed;
    LastInputGrows(begin, inputs, begin, begin);
    while !(closedAt.Some? && closedAt.value <= at)
      invariant begin <= at < begin + maxLifetime
      invariant at - LastInput(begin, inputs, at) < idleLimit
      invariant closedAt.Some? && closedAt.value >= begin ==> at < closedAt.value + POLL_S
      decreases begin + maxLifetime - at
    {
      LastInputGrows(begin, inputs, at, at + POLL_S);
      at := at + POLL_S;
      if at - begin >= maxLifetime {
        return at, MaxTime;
      }
      if at - LastInput(begin, inputs, at) >= idleLimit {
        return at, Idle;
      }
    }
  }
}
