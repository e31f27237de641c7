/**
 * `debounce(func, wait)` of scripts/main.js over an explicit logical clock.
 * The closure's `timeout` becomes `pending`: at most one scheduled run, with
 * the arguments of the call that scheduled it and the time it is due. Each
 * call cancels the pending run (`clearTimeout`) and schedules a new one at
 * `now + wait` (`setTimeout`). The clock reaching a due time runs `func`,
 * which is recorded by appending its arguments to `fired`.
 */
module Debounce {
  import opened Wrappers

  datatype Pending<A> = Pending(args: A, due: int)

  datatype Timer<A> = Timer(pending: Option<Pending<A>>, fired: seq<A>)

  /** A call of the debounced wrapper at time `now`. */
  function Called<A>(t: Timer<A>, args: A, now: int, wait: nat): Timer<A>
  {
    Timer(Some(Pending(args, now + wait)), t.fired)
  }

  /** The clock reaches `now`: a pending run that is due happens and is no longer pending. */
  function Advanced<A>(t: Timer<A>, now: int): Timer<A>
  {
    if t.pending.Some? && t.pending.value.due <= now then Timer(None, t.fired + [t.pending.value.args])
    else t
  }

  /** A sequence of calls `(args, time)`, the clock reaching each call's time before the call. */
  function Run<A>(t: Timer<A>, calls: seq<(A, int)>, wait: nat): Timer<A>
  {
    if calls == [] then t
    else
      var last := calls[|calls| - 1];
      Called(Advanced(Run(t, calls[..|calls| - 1], wait), last.1), last.0, last.1, wait)
  }

  /** Each call arrives before the delay started by the previous one has elapsed. */
  ghost predicate InQuickSuccession<A>(calls: seq<(A, int)>, wait: nat)
  {
    |calls| <= 1 ||
    (InQuickSuccession(calls[..|calls| - 1], wait) && calls[|calls| - 1].1 < calls[|calls| - 2].1 + wait)
  }

  /** Each call arrives after the delay started by the previous one has elapsed. */
  ghost predicate FarApart<A>(calls: seq<(A, int)>, wait: nat)
  {
    |calls| <= 1 ||
    (FarApart(calls[..|calls| - 1], wait) && calls[|calls| - 2].1 + wait <= calls[|calls| - 1].1)
  }

  function ArgsOf<A>(calls: seq<(A, int)>): (r: seq<A>)
    ensures |r| == |calls| && forall k :: 0 <= k < |calls| ==> r[k] == calls[k].0
  {
    if calls == [] then [] else ArgsOf(calls[..|calls| - 1]) + [calls[|calls| - 1].0]
  }

  /**
   * A burst of calls in quick succession runs nothing: only the last call is
   * pending, with its own arguments, due `wait` after it.
   */
  lemma {:induction false} BurstKeepsOnlyLast<A>(t: Timer<A>, calls: seq<(A, int)>, wait: nat)
    requires t.pending.None? && |calls| > 0 && InQuickSuccession(calls, wait)
    ensures var last := calls[|calls| - 1];
      Run(t, calls, wait) == Timer(Some(Pending(last.0, last.1 + wait)), t.fired)
  {
    if |calls| > 1 {
      BurstKeepsOnlyLast(t, calls[..|calls| - 1], wait);
    }
  }

  /** ... so once the clock reaches the last due time, exactly one run happens, with the last call's arguments. */
  lemma Coalesce<A>(t: Timer<A>, calls: seq<(A, int)>, wait: nat)
    requires t.pending.None? && |calls| > 0 && InQuickSuccession(calls, wait)
    ensures var last := calls[|calls| - 1];
      && Advanced(Run(t, calls, wait), last.1 + wait).fired == t.fired + [last.0]
      && Advanced(Run(t, calls, wait), last.1 + wait).pending.None?
  {
    BurstKeepsOnlyLast(t, calls, wait);
  }

  /** Calls spaced at least `wait` apart are not coalesced: each one runs, in order. */
  lemma {:induction false} SpacedCallsAllRun<A>(t: Timer<A>, calls: seq<(A, int)>, wait: nat)
    requires t.pending.None? && |calls| > 0 && FarApart(calls, wait)
    ensures var last := calls[|calls| - 1];
      && Run(t, calls, wait).pending == Some(Pending(last.0, last.1 + wait))
      && Run(t, calls, wait).fired == t.fired + ArgsOf(calls[..|calls| - 1])
  {
    if |calls| > 1 {
      var init := calls[..|calls| - 1];
      SpacedCallsAllRun(t, init, wait);
      assert init[..|init| - 1] + [init[|init| - 1]] == init;
    }
  }

  /** The closure returned by `debounce`, with its `timeout` variable. */
  class Debouncer<A> {
    const wait: nat
    var pending: Option<Pending<A>>
    /** The arguments of every run of `func`, in order. */
    var fired: seq<A>

    function State(): Timer<A>
      reads this
    {
      Timer(pending, fired)
    }

    constructor (wait: nat)
      ensures this.wait == wait && pending.None? && fired == []
    {
      this.wait := wait;
      pending := None;
      fired := [];
    }

    /** The debounced wrapper: cancel what is pending and schedule `args` at `now + wait`. */
    method Call(args: A, now: int)
      modifies this
      ensures State() == Called(old(State()), args, now, wait)
      ensures pending == Some(Pending(args, now + wait)) && fired == old(fired)
    {
      pending := Some(Pending(args, now + wait));
    }

    /** The clock reaches `now`; a due run happens. */
    method Advance(now: int)
      modifies this
      ensures State() == Advanced(old(State()), now)
      ensures old(pending).Some? && old(pending).value.due <= now ==>
        pending.None? && fired == old(fired) + [old(pending).value.args]
      ensures !(old(pending).Some? && old(pending).value.due <= now) ==>
        pending == old(pending) && fired == old(fired)
    {
      if pending.Some? && pending.value.due <= now {
        fired := fired + [pending.value.args];
        pending := None;
      }
    }
  }
}
