/** The fetch path of `GhostTextEditing` (src/ghost-text-editing.ts): the
    single-flight wrapper built by `memoizedFetchContent`, what the content
    fetcher can settle with, the outcome of the stream loop of
    `processStreamContent`, and how `handeInsertGhostTextError` treats errors.

    Abort controllers are numbered in creation order; `signal.aborted` of
    controller `t` is `t in aborted`. */
module FetchContent {
  import opened Wrappers

  const CancelledMessage := "Fetch was cancelled"
  const NoFetcherMessage := "No content fetcher provided."
  const UnsupportedMessage := "Unsupported content fetcher return type."

  datatype Error = Error(message: string)

  /** What the caller-supplied content fetcher settles with. For a stream,
      `abortAt` is the first check, counted in reads, at which the fetch's
      signal reads aborted; a value past the last read means the abort came
      after the stream ended. */
  datatype Reply =
    | Text(s: string)
    | Stream(chunks: seq<string>, abortAt: Option<nat>)
    | Unsupported
    | Failed(error: Error)

  /** How the promise of the wrapped fetch settles: `Resolved(None)` is a
      resolution with `undefined`. */
  datatype Settled = Resolved(value: Option<string>) | Rejected(error: Error)

  /** How `insertGhostText` ends once its fetch has settled. */
  datatype InsertOutcome = Stored | Swallowed(error: Error) | Rethrown(error: Error)

  /** `handeInsertGhostTextError`: the cancellation message is swallowed (and
      logged); every other error is thrown on. */
  function HandleInsertError(e: Error): (r: InsertOutcome)
    ensures r.Swallowed? <==> e.message == CancelledMessage
    ensures r.Rethrown? <==> e.message != CancelledMessage
    ensures !r.Stored? && r.error == e
  {
    if e.message == CancelledMessage then Swallowed(e) else Rethrown(e)
  }

  /** The controllers made so far, `0 .. issued - 1`; `current` is
      `lastController.current`. */
  datatype Flight = Flight(current: Option<nat>, aborted: set<nat>, issued: nat)

  /** Single flight: `current` is the newest controller, and every older one
      has been aborted. */
  ghost predicate SingleFlightInv(f: Flight) {
    && (f.current.None? <==> f.issued == 0)
    && (f.current.Some? ==> f.current.value == f.issued - 1)
    && (forall t :: t in f.aborted ==> t < f.issued)
    && (forall t :: 0 <= t < f.issued - 1 ==> t in f.aborted)
  }

  /** The synchronous start of the wrapped fetch: abort the previous
      controller, if any, then install a new one. */
  function FlightAfterStart(f: Flight): (r: (Flight, nat))
    requires SingleFlightInv(f)
    ensures SingleFlightInv(r.0)
    ensures r.1 == f.issued && r.0.issued == f.issued + 1
    ensures r.0.current == Some(r.1) && r.1 !in r.0.aborted
    ensures f.current.Some? ==> f.current.value in r.0.aborted
    ensures r.0.aborted == f.aborted + (if f.current.Some? then {f.current.value} else {})
  {
    var aborted := if f.current.Some? then f.aborted + {f.current.value} else f.aborted;
    (Flight(Some(f.issued), aborted, f.issued + 1), f.issued)
  }

  /** `lastController.current?.abort()`. */
  function FlightAfterAbort(f: Flight): (r: Flight)
    requires SingleFlightInv(f)
    ensures SingleFlightInv(r)
    ensures r.current == f.current && r.issued == f.issued
    ensures forall t :: 0 <= t < r.issued ==> t in r.aborted
    ensures r.aborted == f.aborted + (if f.current.Some? then {f.current.value} else {})
  {
    if f.current.Some? then f.(aborted := f.aborted + {f.current.value}) else f
  }

  /** At most one controller is live, and it is `current`. */
  lemma AtMostOneLive(f: Flight, t: nat)
    requires SingleFlightInv(f) && t < f.issued && t !in f.aborted
    ensures f.current == Some(t)
  {
  }

  /** The `.then` the wrapper attaches to `fetchContent`: a resolution whose
      controller was aborted becomes a 'Fetch was cancelled' rejection; a
      rejection passes through. */
  function WrapperCheck(f: Flight, t: nat, s: Settled): (r: Settled)
    ensures s.Rejected? ==> r == s
    ensures s.Resolved? ==> (r == s <==> t !in f.aborted)
    ensures s.Resolved? && t in f.aborted ==> r == Rejected(Error(CancelledMessage))
  {
    if s.Resolved? && t in f.aborted then Rejected(Error(CancelledMessage)) else s
  }

  /** Once a newer fetch has started, every result of an older one is turned
      into the cancellation rejection. */
  lemma SupersededFetchIsCancelled(f: Flight, t: nat, v: Option<string>)
    requires SingleFlightInv(f) && t < f.issued
    ensures WrapperCheck(FlightAfterStart(f).0, t, Resolved(v)) == Rejected(Error(CancelledMessage))
  {
  }

  /** The in-order concatenation of the chunks. */
  function Concat(chunks: seq<string>): string {
    if chunks == [] then "" else Concat(chunks[..|chunks| - 1]) + chunks[|chunks| - 1]
  }

  lemma ConcatSnoc(chunks: seq<string>, i: nat)
    requires i < |chunks|
    ensures Concat(chunks[..i + 1]) == Concat(chunks[..i]) + chunks[i]
  {
    assert chunks[..i + 1][..i] == chunks[..i];
  }

  /** `signal.aborted` at the check made before read `i`. */
  predicate AbortSeen(abortAt: Option<nat>, i: nat) {
    abortAt.Some? && abortAt.value <= i
  }

  datatype StreamEnd = StreamEnd(text: string, loading: bool)

  /** The loop of `processStreamContent`, from the check before read `i`,
      with the suggestion and the loading flag as the earlier reads left them.
      Read `|chunks|` is the one that reports `done`. */
  function Drain(chunks: seq<string>, abortAt: Option<nat>, i: nat, text: string, loading: bool): (r: StreamEnd)
    requires i <= |chunks|
    requires text == Concat(chunks[..i]) && (loading <==> i == 0)
    requires abortAt.None? || i <= abortAt.value
    ensures AbortSeen(abortAt, |chunks|) ==> r == StreamEnd("", abortAt.value == 0)
    ensures !AbortSeen(abortAt, |chunks|) ==> r == StreamEnd(Concat(chunks), false)
    decreases |chunks| - i
  {
    if AbortSeen(abortAt, i) then StreamEnd("", loading)
    else
      var value := if i < |chunks| then Some(chunks[i]) else None;
      var loading' := if text == "" then false else loading;
      var text' := if value.Some? && value.value != "" then text + value.value else text;
      if i == |chunks| then
        assert chunks[..i] == chunks;
        StreamEnd(text', loading')
      else
        ConcatSnoc(chunks, i);
        Drain(chunks, abortAt, i + 1, text', loading')
  }

  /** `lastController`, together with the aborted flags of the signals it
      has handed out. */
  class LastController {
    var current: Option<nat>
    var aborted: set<nat>
    var issued: nat

    function State(): Flight
      reads this
    {
      Flight(current, aborted, issued)
    }

    ghost predicate Valid()
      reads this
    {
      SingleFlightInv(State())
    }

    constructor ()
      ensures Valid() && State() == Flight(None, {}, 0)
    {
      current, aborted, issued := None, {}, 0;
    }

    /** Abort the previous controller, then create and install a new one. */
    method Start() returns (token: nat)
      requires Valid()
      modifies this
      ensures Valid()
      ensures (State(), token) == FlightAfterStart(old(State()))
    {
      if current.Some? {
        aborted := aborted + {current.value};
      }
      token := issued;
      issued := issued + 1;
      current := Some(token);
    }

    method AbortCurrent()
      requires Valid()
      modifies this
      ensures Valid()
      ensures State() == FlightAfterAbort(old(State()))
    {
      if current.Some? {
        aborted := aborted + {current.value};
      }
    }
  }
}
