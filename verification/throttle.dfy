/**
 * The `throttle` gate of SwitchController.ts: a call runs the callback only
 * while the gate is open, closes it, and a timer reopens it `limit` ms later.
 * Time is an explicit clock: each call carries the time `now` at which it
 * happens, and the timer is taken to fire exactly `limit` ms after the run
 * that armed it.
 */
module Throttling {

  /** The latest run of a non-empty history. */
  function Last(runs: seq<int>): int
    requires |runs| > 0
  {
    runs[|runs| - 1]
  }

  /** Any two runs in the history are at least `limit` apart. */
  ghost predicate Spaced(runs: seq<int>, limit: int) {
    forall i, j :: 0 <= i < j < |runs| ==> runs[i] + limit <= runs[j]
  }

  /** Appending a run that comes `limit` after the latest keeps the history spaced. */
  lemma SpacedAppend(runs: seq<int>, limit: nat, now: int)
    requires Spaced(runs, limit)
    requires |runs| > 0 ==> Last(runs) + limit <= now
    ensures Spaced(runs + [now], limit) && Last(runs + [now]) == now
  {
  }

  /** The number of runs at times t with from <= t < until. */
  function CountIn(runs: seq<int>, from: int, until: int): nat {
    if runs == [] then 0
    else (if from <= runs[0] < until then 1 else 0) + CountIn(runs[1..], from, until)
  }

  lemma {:induction false} NoneBefore(runs: seq<int>, from: int, until: int)
    requires forall k :: 0 <= k < |runs| ==> runs[k] >= until
    ensures CountIn(runs, from, until) == 0
  {
    if runs != [] {
      NoneBefore(runs[1..], from, until);
    }
  }

  /** A spaced history has at most one run in any window of `limit` ms. */
  lemma {:induction false} AtMostOncePerWindow(runs: seq<int>, limit: int, from: int)
    requires limit > 0 && Spaced(runs, limit)
    ensures CountIn(runs, from, from + limit) <= 1
  {
    if runs != [] {
      if from <= runs[0] < from + limit {
        assert forall k :: 0 <= k < |runs[1..]| ==> runs[1..][k] >= from + limit by {
          forall k | 0 <= k < |runs[1..]| ensures runs[1..][k] >= from + limit {
            assert runs[0] + limit <= runs[k + 1];
          }
        }
        NoneBefore(runs[1..], from, from + limit);
      } else {
        AtMostOncePerWindow(runs[1..], limit, from);
      }
    }
  }

  class Throttle {
    /** The closure's `limit`. */
    const limit: nat
    /** The closure's `waiting` flag. */
    var waiting: bool
    /** When the pending timer clears `waiting`. */
    var reopenAt: int
    /** The latest time a call was seen. */
    ghost var clock: int
    /** The times at which the callback ran. */
    ghost var runs: seq<int>

    ghost predicate Valid()
      reads this
    {
      && Spaced(runs, limit)
      && (|runs| > 0 ==> Last(runs) <= clock)
      && (waiting ==> |runs| > 0 && reopenAt == Last(runs) + limit)
      && (!waiting && |runs| > 0 ==> Last(runs) + limit <= clock)
    }

    /** Whether a call at time `now` runs the callback. */
    predicate IsOpen(now: int)
      reads this
    {
      !waiting || reopenAt <= now
    }

    constructor (limit: nat, start: int)
      ensures Valid()
      ensures this.limit == limit && !waiting && runs == [] && clock == start
    {
      this.limit := limit;
      waiting := false;
      reopenAt := start;
      clock := start;
      runs := [];
    }

    /** The throttled function: run now if open and close the gate, else drop the call. */
    method Call(now: int) returns (ran: bool)
      requires Valid() && clock <= now
      modifies this
      ensures Valid() && clock == now
      ensures ran == old(IsOpen(now))
      ensures runs == if ran then old(runs) + [now] else old(runs)
      ensures ran ==> waiting && reopenAt == now + limit
      ensures !ran ==> waiting && reopenAt == old(reopenAt)
    {
      if waiting && reopenAt <= now {
        // the timer armed by the previous run has fired
        waiting := false;
      }
      ran := !waiting;
      if ran {
        SpacedAppend(runs, limit, now);
        waiting := true;
        reopenAt := now + limit;
        runs := runs + [now];
      }
      clock := now;
    }
  }

  /** However many calls arrive, a gate runs its callback at most once per window. */
  lemma GateRunsAtMostOncePerWindow(gate: Throttle, from: int)
    requires gate.Valid() && gate.limit > 0
    ensures CountIn(gate.runs, from, from + gate.limit) <= 1
  {
    AtMostOncePerWindow(gate.runs, gate.limit, from);
  }
}
