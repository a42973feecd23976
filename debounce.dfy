/** `debounce` (src/utils.ts): a one-slot timer. `debounced(args)` clears
    the pending timer and arms a new one for `func(args)`; `cancel()` clears
    it. The delay itself is not modelled: the timer firing is an event. */
module Debounce {
  import opened Wrappers

  datatype TimerEvent<A> =
    | CallDebounced(args: A)
    | CallCancel
    | TimerFired

  /** One event on the timer slot `pending`: the new slot, and the call of
      `func` that runs, if any. */
  function Step<A>(pending: Option<A>, e: TimerEvent<A>): (r: (Option<A>, Option<A>))
    ensures r.1.Some? ==> e.TimerFired? && r.1 == pending
    ensures r.0.Some? <==> e.CallDebounced?
  {
    match e
    case CallDebounced(args) => (Some(args), None)
    case CallCancel => (None, None)
    case TimerFired => (None, pending)
  }

  function Fires<A>(es: seq<TimerEvent<A>>): nat {
    if es == [] then 0 else Fires(es[..|es| - 1]) + (if es[|es| - 1].TimerFired? then 1 else 0)
  }

  function Arms<A>(es: seq<TimerEvent<A>>): nat {
    if es == [] then 0 else Arms(es[..|es| - 1]) + (if es[|es| - 1].CallDebounced? then 1 else 0)
  }

  /** A run of events from the slot `pending`: the slot at the end, and the
      calls of `func` that ran, in order. At most one call runs per firing. */
  function Run<A>(pending: Option<A>, es: seq<TimerEvent<A>>): (r: (Option<A>, seq<A>))
    ensures |r.1| <= Fires(es)
  {
    if es == [] then (pending, [])
    else
      var before := Run(pending, es[..|es| - 1]);
      var after := Step(before.0, es[|es| - 1]);
      (after.0, before.1 + (if after.1.Some? then [after.1.value] else []))
  }

  lemma RunSnoc<A>(pending: Option<A>, es: seq<TimerEvent<A>>, e: TimerEvent<A>)
    ensures var before := Run(pending, es);
      var after := Step(before.0, e);
      Run(pending, es + [e]) == (after.0, before.1 + (if after.1.Some? then [after.1.value] else []))
  {
    assert (es + [e])[..|es + [e]| - 1] == es;
  }

  /** Every call that runs consumes a `debounced` call (or the slot the run
      started with). */
  lemma {:induction false} CallsBoundedByArms<A>(pending: Option<A>, es: seq<TimerEvent<A>>)
    ensures |Run(pending, es).1| + (if Run(pending, es).0.Some? then 1 else 0)
            <= Arms(es) + (if pending.Some? then 1 else 0)
  {
    if es != [] {
      CallsBoundedByArms(pending, es[..|es| - 1]);
    }
  }

  /** When the timer fires, `func` runs with the arguments of the most recent
      `debounced` call. */
  lemma {:induction false} LatestArgsWin<A>(pending: Option<A>, es: seq<TimerEvent<A>>, a: A)
    ensures Run(pending, es + [CallDebounced(a), TimerFired]) == (None, Run(pending, es).1 + [a])
  {
    var calls := Run(pending, es).1;
    assert Run(pending, es + [CallDebounced(a)]) == (Some(a), calls) by {
      RunSnoc(pending, es, CallDebounced(a));
      assert calls + [] == calls;
    }
    assert es + [CallDebounced(a), TimerFired] == (es + [CallDebounced(a)]) + [TimerFired];
    RunSnoc(pending, es + [CallDebounced(a)], TimerFired);
  }

  function DebouncedCalls<A>(args: seq<A>): (r: seq<TimerEvent<A>>)
    ensures |r| == |args|
    ensures forall i :: 0 <= i < |args| ==> r[i] == CallDebounced(args[i])
  {
    if args == [] then [] else DebouncedCalls(args[..|args| - 1]) + [CallDebounced(args[|args| - 1])]
  }

  /** A burst of `debounced` calls leaves exactly one pending call, with the
      last arguments, and runs nothing. */
  lemma {:induction false} BurstLeavesOnePending<A>(pending: Option<A>, args: seq<A>)
    requires |args| > 0
    ensures Run(pending, DebouncedCalls(args)) == (Some(args[|args| - 1]), [])
  {
    var es := DebouncedCalls(args);
    assert es == DebouncedCalls(args[..|args| - 1]) + [CallDebounced(args[|args| - 1])];
    RunSnoc(pending, DebouncedCalls(args[..|args| - 1]), CallDebounced(args[|args| - 1]));
    if |args| > 1 {
      BurstLeavesOnePending(pending, args[..|args| - 1]);
    }
  }

  /** Debounce coalescing: a burst of `debounced` calls followed by one firing
      runs `func` once, with the last arguments. */
  lemma BurstRunsOnce<A>(pending: Option<A>, args: seq<A>)
    requires |args| > 0
    ensures Run(pending, DebouncedCalls(args) + [TimerFired]) == (None, [args[|args| - 1]])
  {
    BurstLeavesOnePending(pending, args);
    RunSnoc(pending, DebouncedCalls(args), TimerFired);
    assert [] + [args[|args| - 1]] == [args[|args| - 1]];
  }

  /** After `cancel()`, the pending call never runs: events that do not arm
      the timer again run nothing. */
  lemma {:induction false} CancelledCallNeverRuns<A>(pending: Option<A>, es: seq<TimerEvent<A>>, later: seq<TimerEvent<A>>)
    requires forall i :: 0 <= i < |later| ==> !later[i].CallDebounced?
    ensures Run(pending, es + [CallCancel] + later) == (None, Run(pending, es).1)
  {
    var calls := Run(pending, es).1;
    assert calls + [] == calls;
    if later == [] {
      assert es + [CallCancel] + later == es + [CallCancel];
      RunSnoc(pending, es, CallCancel);
    } else {
      var init := later[..|later| - 1];
      assert es + [CallCancel] + later == (es + [CallCancel] + init) + [later[|later| - 1]];
      CancelledCallNeverRuns(pending, es, init);
      RunSnoc(pending, es + [CallCancel] + init, later[|later| - 1]);
    }
  }

  /** `cancel()` with nothing pending changes nothing, and cancelling twice is
      cancelling once. */
  lemma CancelIdempotent<A>(pending: Option<A>)
    ensures Step<A>(None, CallCancel) == (None, None)
    ensures Step(Step(pending, CallCancel).0, CallCancel) == Step(pending, CallCancel)
  {
  }

  /** The closure pair returned by `debounce`: the variable `timer` holds the
      arguments of the pending call, if any. */
  class Debouncer<A> {
    var timer: Option<A>

    constructor ()
      ensures timer == None
    {
      timer := None;
    }

    method Debounced(args: A)
      modifies this
      ensures (timer, None) == Step(old(timer), CallDebounced(args))
    {
      timer := None;       // clearTimeout(timer)
      timer := Some(args); // timer = setTimeout(() => func(...args), delay)
    }

    method Cancel()
      modifies this
      ensures (timer, None) == Step(old(timer), CallCancel)
    {
      timer := None;
    }

    /** The timer goes off: the pending call, if any, is handed back to run. */
    method Fire() returns (call: Option<A>)
      modifies this
      ensures (timer, call) == Step(old(timer), TimerFired)
    {
      call := timer;
      timer := None;
    }
  }
}
