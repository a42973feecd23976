/** The plugin class `GhostTextEditing` (src/ghost-text-editing.ts). Its
    handlers change the document and the commands' values through the four
    commands, the debounce slot through `insertWrapper`, and the abort
    controllers through `lastController`; each handler is proved to make the
    matching transition of module `EditingSpec`.

    The host calls a handler for each event. Awaiting a fetch splits
    `insertGhostText` in two: `InsertGhostText` runs up to the `await`, and
    `OnFetchSettled` runs when the content fetcher settles. */
module Editing {
  import opened Wrappers
  import opened DocModel
  import opened RemoveCommand
  import opened InsertCommand
  import opened ValueCommand
  import opened LoadingCommand
  import opened Debounce
  import opened FetchContent
  import opened EditingSpec

  /** The ghost the stream loop shows while it reads: the loading ghost
      until some text has arrived. */
  function LoopGhost(text: Option<string>): (g: Item)
    ensures g.Ghost?
  {
    if text == Some("") then Ghost(None, true) else Ghost(text, false)
  }

  class GhostTextEditing {
    const model: EditorModel
    const ghostText: GhostTextCommand
    const ghostTextLoading: GhostTextLoadingCommand
    const ghostTextRemove: GhostTextRemoveCommand
    const ghostTextInsert: GhostTextInsertCommand
    const insertWrapper: Debouncer<()>
    const lastController: LastController
    const keystrokes: Keystrokes
    /** Whether the configuration provides a `contentFetcher`. */
    const hasContentFetcher: bool
    /** The fetches whose content fetcher has not settled yet. */
    var awaiting: set<nat>

    /** The `fetchedText` getter: the value of the `ghostText` command. */
    function FetchedText(): (r: Option<string>)
      reads ghostText
      ensures r == ghostText.value
    {
      ghostText.value
    }

    /** The `isLoading` getter: the value of the `ghostTextLoading` command,
        which is already a boolean, so `!!` changes nothing. */
    function IsLoading(): (r: bool)
      reads ghostTextLoading
      ensures r == ghostTextLoading.value
    {
      ghostTextLoading.value
    }

    function State(): PluginState
      reads this, model, ghostText, ghostTextLoading, insertWrapper, lastController
    {
      PluginState(model.doc, ghostText.value, ghostTextLoading.value, insertWrapper.timer,
                  lastController.State(), awaiting)
    }

    ghost predicate Valid()
      reads this, model, ghostText, ghostTextLoading, insertWrapper, lastController
    {
      && ghostText.model == model && ghostText.remove == ghostTextRemove
      && ghostTextLoading.model == model && ghostTextLoading.remove == ghostTextRemove
      && ghostTextRemove.model == model && ghostTextInsert.model == model
      && model.Valid() && lastController.Valid()
      && StateInv(State())
    }

    /** `init`: register the commands and merge the keystroke configuration. */
    constructor (model: EditorModel, hasContentFetcher: bool, config: Option<KeystrokeConfig>)
      requires model.Valid() && model.doc.sel.Range? && model.doc.hasRoot && GhostCount(model.doc.items) <= 1
      ensures Valid() && this.model == model && this.hasContentFetcher == hasContentFetcher
      ensures keystrokes == MergeKeystrokes(config)
      ensures State() == PluginState(model.doc, Some(""), false, None, Flight(None, {}, 0), {})
    {
      this.model := model;
      var remove := new GhostTextRemoveCommand(model);
      ghostTextRemove := remove;
      ghostText := new GhostTextCommand(model, remove);
      ghostTextLoading := new GhostTextLoadingCommand(model, remove);
      ghostTextInsert := new GhostTextInsertCommand(model);
      insertWrapper := new Debouncer<()>();
      lastController := new LastController();
      keystrokes := MergeKeystrokes(config);
      this.hasContentFetcher := hasContentFetcher;
      awaiting := {};
    }

    /** The `fetchedText` setter. */
    method SetFetchedText(v: Option<string>)
      requires Valid()
      modifies model, ghostText
      ensures Valid() && State() == WithText(old(State()), v)
    {
      var _ := ghostText.Execute(v);
    }

    /** The `isLoading` setter. */
    method SetIsLoading(b: bool)
      requires Valid()
      modifies model, ghostTextLoading
      ensures Valid() && State() == WithLoading(old(State()), b)
    {
      var _ := ghostTextLoading.Execute(b);
    }

    method ClearGhostText()
      requires Valid()
      modifies model, ghostTextLoading, insertWrapper, lastController
      ensures Valid() && State() == Clear(old(State()))
    {
      SetIsLoading(false);
      insertWrapper.Cancel();
      lastController.AbortCurrent();
      ghostTextRemove.Execute();
    }

    method ApplyGhostText()
      requires Valid()
      modifies model, ghostText
      ensures Valid() && State() == Apply(old(State()))
    {
      ghost var s1 := WithText(State(), Some(""));
      var value := FetchedText();
      SetFetchedText(Some(""));
      ghostTextInsert.Execute(TextOf(value));
      ghostTextRemove.Execute();
      assert State() == s1.(doc := model.doc);
    }

    /** `handleAcceptKeystroke`: `handled` is whether it called `cancel()`. */
    method HandleAcceptKeystroke() returns (handled: bool)
      requires Valid()
      modifies model, ghostText
      ensures Valid() && (State(), handled) == AcceptKeystroke(old(State()))
    {
      if IsLoading() || !Truthy(FetchedText()) {
        return false;
      }
      ApplyGhostText();
      handled := true;
    }

    method HandleGhostTextClick(targetIsGhost: bool)
      requires Valid()
      modifies model, ghostText
      ensures Valid() && State() == Click(old(State()), targetIsGhost)
    {
      if targetIsGhost {
        ApplyGhostText();
      }
    }

    method RemoveGhostLetter(insertedContents: seq<Inserted>) returns (narrowed: bool)
      requires Valid()
      modifies model, ghostText
      ensures Valid()
      ensures narrowed == Narrows(insertedContents, old(FetchedText()))
      ensures narrowed ==> State() == WithText(old(State()), Some(old(FetchedText()).value[1..]))
      ensures !narrowed ==> State() == old(State())
    {
      var suggestion := FetchedText();
      if |insertedContents| > 0 && Truthy(suggestion) {
        for i := 0 to |insertedContents|
          invariant unchanged(model, ghostText)
          invariant forall j :: 0 <= j < i ==> !MatchesFirstLetter(insertedContents[j], suggestion.value)
        {
          if MatchesFirstLetter(insertedContents[i], suggestion.value) {
            // `ghostText.substring(1)`: the matched first character is a
            // single code unit (`Narrows`)
            SetFetchedText(Some(suggestion.value[1..]));
            return true;
          }
        }
      }
      return false;
    }

    method HandleInsertContent(changes: seq<Change>)
      requires Valid()
      modifies model, ghostText, insertWrapper, lastController
      ensures Valid() && State() == InsertContent(old(State()), InsertedContents(changes))
    {
      var narrowed := RemoveGhostLetter(InsertedContents(changes));
      if narrowed {
        return;
      }
      lastController.AbortCurrent();
      insertWrapper.Debounced(());
    }

    method HandleDeleteContent(changes: seq<Change>)
      requires Valid()
      modifies model, ghostTextLoading, insertWrapper, lastController
      ensures Valid() && State() == DeleteContent(old(State()), changes)
    {
      if |changes| > 0 {
        ClearGhostText();
      }
    }

    method HandleSelectionChange(directChange: bool)
      requires Valid()
      modifies model, ghostTextLoading, insertWrapper, lastController
      ensures Valid() && State() == SelectionChange(old(State()), directChange)
    {
      if directChange && IsCollapsed(model.doc) && !IsGhostText(NodeAfter(model.doc)) {
        ClearGhostText();
      }
    }

    /** `insertGhostText` up to its `await`. */
    method InsertGhostText() returns (launch: LaunchResult)
      requires Valid()
      modifies this, model, ghostTextLoading, lastController
      ensures Valid() && (State(), launch) == Launch(old(State()), hasContentFetcher)
    {
      if IsLoading() {
        return Skipped;
      }
      ghost var s1 := WithLoading(State(), true);
      SetIsLoading(true);
      var token := lastController.Start();
      assert State() == s1.(flight := FlightAfterStart(s1.flight).0);
      if !hasContentFetcher {
        // `fetchContent` rejects before the wrapper's `.then` can run
        launch := Finished(HandleInsertError(Error(NoFetcherMessage)));
        return;
      }
      awaiting := awaiting + {token};
      launch := Started(token);
    }

    /** `handleInsertKeystroke`: always handled. */
    method HandleInsertKeystroke() returns (launch: LaunchResult)
      requires Valid()
      modifies this, model, ghostTextLoading, lastController
      ensures Valid() && (State(), launch) == Launch(old(State()), hasContentFetcher)
    {
      launch := InsertGhostText();
    }

    /** A key press, dispatched as `setupKeystrokes` binds the handlers. */
    method OnKeystroke(key: string) returns (handled: bool, launch: Option<LaunchResult>)
      requires Valid()
      modifies this, model, ghostText, ghostTextLoading, lastController
      ensures Valid()
      ensures (State(), handled, launch) == Keystroke(old(State()), keystrokes, key, hasContentFetcher)
    {
      handled, launch := false, None;
      if keystrokes.acceptGhostText == Some(key) {
        handled := HandleAcceptKeystroke();
      }
      if !handled && keystrokes.insertGhostText == Some(key) {
        var l := HandleInsertKeystroke();
        handled, launch := true, Some(l);
      }
    }

    /** The debounce timer goes off and runs `insertGhostText`, if armed. */
    method FireDebounceTimer() returns (launch: LaunchResult)
      requires Valid()
      modifies this, model, ghostTextLoading, insertWrapper, lastController
      ensures Valid() && (State(), launch) == TimerFire(old(State()), hasContentFetcher)
    {
      var call := insertWrapper.Fire();
      if call.None? {
        return Skipped;
      }
      launch := InsertGhostText();
    }

    /** `signal.aborted` for fetch `t` at the check before read `i`. An abort
        arriving now is of the current controller, since `t` is still live. */
    method ObserveSignal(t: nat, abortAt: Option<nat>, i: nat) returns (aborted: bool)
      requires lastController.Valid() && t < lastController.issued
      modifies lastController
      ensures lastController.Valid() && aborted == (t in lastController.aborted)
      ensures aborted <==> t in old(lastController.aborted) || AbortSeen(abortAt, i)
      ensures lastController.State() ==
        if t !in old(lastController.aborted) && AbortSeen(abortAt, i)
        then FlightAfterAbort(old(lastController.State())) else old(lastController.State())
    {
      if AbortSeen(abortAt, i) && t !in lastController.aborted {
        AtMostOneLive(lastController.State(), t);
        lastController.AbortCurrent();
      }
      aborted := t in lastController.aborted;
    }

    /** `fetchedText = v` while a ghost sits at the cursor: only that ghost
        changes. */
    method ReplaceShownText(v: Option<string>, ghost shown: Item)
      requires Valid() && GhostAtCursor(model.doc, shown)
      modifies model, ghostText
      ensures Valid() && FetchedText() == v && IsLoading() == old(IsLoading())
      ensures model.doc == old(model.doc).(items := old(model.doc).items[old(model.doc).sel.focus := Ghost(v, false)])
      ensures GhostAtCursor(model.doc, Ghost(v, false))
    {
      SetFetchedText(v);
      ReplaceGhostInPlace(old(model.doc), shown, Ghost(v, false));
    }

    /** The body of the stream loop after a read: clear the loading flag
        while nothing has arrived, then append the chunk unless it is empty. */
    method AbsorbRead(value: Option<string>)
      requires Valid() && FetchedText().Some? && GhostAtCursor(model.doc, LoopGhost(FetchedText()))
      modifies model, ghostText, ghostTextLoading
      ensures Valid()
      ensures value.Some? ==> FetchedText() == Some(old(FetchedText()).value + value.value)
      ensures value.None? ==> FetchedText() == old(FetchedText())
      ensures IsLoading() == (old(IsLoading()) && old(FetchedText()) != Some(""))
      ensures model.doc == old(model.doc).(items := old(model.doc).items[old(model.doc).sel.focus := LoopGhost(FetchedText())])
      ensures GhostAtCursor(model.doc, LoopGhost(FetchedText()))
    {
      var text := FetchedText().value;
      if text == "" {
        SetIsLoading(false);
      }
      if value.Some? && value.value != "" {
        ReplaceShownText(Some(text + value.value), LoopGhost(Some(text)));
      } else {
        assert value.Some? ==> text + value.value == text;
        assert text + "" == text;
        assert model.doc.items[model.doc.sel.focus := LoopGhost(FetchedText())] == model.doc.items;
      }
    }

    /** One pass of the stream loop from the check before read `i`: either
        the signal reads aborted and the suggestion is emptied, or one read
        is absorbed. */
    method ReadStep(t: nat, chunks: seq<string>, abortAt: Option<nat>, i: nat) returns (aborted: bool, isDone: bool)
      requires Valid() && t < lastController.issued && i <= |chunks|
      requires FetchedText() == Some(Concat(chunks[..i])) && GhostAtCursor(model.doc, LoopGhost(FetchedText()))
      modifies model, ghostText, ghostTextLoading, lastController
      ensures Valid() && t < lastController.issued
      ensures aborted <==> t in old(lastController.aborted) || AbortSeen(abortAt, i)
      ensures aborted ==>
        && FetchedText() == Some("") && IsLoading() == old(IsLoading())
        && model.doc == old(model.doc).(items := old(model.doc).items[old(model.doc).sel.focus := Ghost(Some(""), false)])
        && lastController.State() ==
             if t !in old(lastController.aborted) then FlightAfterAbort(old(lastController.State()))
             else old(lastController.State())
      ensures !aborted ==>
        && lastController.State() == old(lastController.State())
        && (isDone <==> i == |chunks|)
        && FetchedText() == Some(Concat(chunks[..if isDone then i else i + 1]))
        && IsLoading() == (old(IsLoading()) && old(FetchedText()) != Some(""))
        && model.doc == old(model.doc).(items := old(model.doc).items[old(model.doc).sel.focus := LoopGhost(FetchedText())])
        && GhostAtCursor(model.doc, LoopGhost(FetchedText()))
    {
      aborted := ObserveSignal(t, abortAt, i);
      if aborted {
        ReplaceShownText(Some(""), LoopGhost(FetchedText()));
        isDone := false;
        return;
      }
      // reader.read()
      var value: Option<string>;
      if i < |chunks| {
        value, isDone := Some(chunks[i]), false;
        ConcatSnoc(chunks, i);
      } else {
        value, isDone := None, true;
      }
      AbsorbRead(value);
    }

    /** The `while (!done)` loop of `processStreamContent`, entered with an
        empty suggestion and the loading ghost at the cursor. `i` counts the
        reads made; the read that reports `done` is the one at `|chunks|`. */
    method ReadStream(t: nat, chunks: seq<string>, abortAt: Option<nat>)
      requires Valid() && t < lastController.issued
      requires FetchedText() == Some("") && IsLoading() && GhostAtCursor(model.doc, Ghost(None, true))
      modifies model, ghostText, ghostTextLoading, lastController
      ensures Valid()
      ensures var seen := StreamSeen(old(lastController.State()), t, abortAt);
        var e := Drain(chunks, seen, 0, "", true);
        && FetchedText() == Some(e.text) && IsLoading() == e.loading
        && model.doc == old(model.doc).(items := old(model.doc).items[old(model.doc).sel.focus := StreamGhost(chunks, seen)])
        && lastController.State() ==
             if abortAt.Some? && t !in old(lastController.aborted)
             then FlightAfterAbort(old(lastController.State())) else old(lastController.State())
    {
      ghost var f := lastController.State();
      ghost var seen := StreamSeen(f, t, abortAt);
      ghost var d := model.doc;
      ghost var p := d.sel.focus;
      var done := false;
      var i := 0;
      while !done
        invariant Valid() && t < lastController.issued
        invariant 0 <= i <= |chunks| && (done ==> i == |chunks|)
        invariant FetchedText() == Some(Concat(chunks[..i]))
        invariant IsLoading() <==> i == 0 && !done
        invariant i > 0 ==> !AbortSeen(seen, i - 1)
        invariant done ==> !AbortSeen(seen, i)
        invariant lastController.State() == f
        invariant model.doc == d.(items := d.items[p := LoopGhost(FetchedText())])
        invariant GhostAtCursor(model.doc, LoopGhost(FetchedText()))
        decreases |chunks| - i, !done
      {
        ghost var before := FetchedText();
        var aborted, isDone := ReadStep(t, chunks, abortAt, i);
        if aborted {
          UpdateTwice(d.items, p, LoopGhost(before), Ghost(Some(""), false));
          break;
        }
        UpdateTwice(d.items, p, LoopGhost(before), LoopGhost(FetchedText()));
        done := isDone;
        if !done {
          i := i + 1;
        }
      }
      assert chunks[..|chunks|] == chunks;
      if abortAt.Some? && t !in lastController.aborted {
        // the abort arrives after the last read
        AtMostOneLive(lastController.State(), t);
        lastController.AbortCurrent();
      }
    }

    /** The start of `processStreamContent`: an empty suggestion, then the
        loading flag. */
    method StartStream()
      requires Valid()
      modifies model, ghostText, ghostTextLoading
      ensures Valid() && FetchedText() == Some("") && IsLoading()
      ensures var d := WithText(old(State()), Some("")).doc;
        model.doc == d.(items := d.items[d.sel.focus := Ghost(None, true)])
      ensures GhostAtCursor(model.doc, Ghost(None, true))
    {
      SetFetchedText(Some(""));
      ghost var d := model.doc;
      SetIsLoading(true);
      ReplaceGhostInPlace(d, Ghost(Some(""), false), Ghost(None, true));
    }

    method ProcessStreamContent(t: nat, chunks: seq<string>, abortAt: Option<nat>) returns (result: string)
      requires Valid() && t < lastController.issued
      modifies model, ghostText, ghostTextLoading, lastController
      ensures Valid() && State() == AfterStream(old(State()), t, chunks, abortAt)
      ensures FetchedText() == Some(result)
    {
      ghost var s := State();
      ghost var d := WithText(s, Some("")).doc;
      StartStream();
      ReadStream(t, chunks, abortAt);
      UpdateTwice(d.items, d.sel.focus, Ghost(None, true), StreamGhost(chunks, StreamSeen(s.flight, t, abortAt)));
      AfterStreamFields(s, t, chunks, abortAt, State());
      result := FetchedText().value;
    }

    /** The content fetcher of fetch `t` settles with `reply`: the rest of
        `fetchContent`, the wrapper's check and the rest of `insertGhostText`. */
    method OnFetchSettled(t: nat, reply: Reply) returns (outcome: InsertOutcome)
      requires Valid() && t in awaiting
      modifies this, model, ghostText, ghostTextLoading, lastController
      ensures Valid() && (State(), outcome) == Settle(old(State()), t, reply)
    {
      assert t < lastController.issued;
      awaiting := awaiting - {t};
      var fetched: Settled;
      match reply {
        case Stream(chunks, abortAt) =>
          var text := ProcessStreamContent(t, chunks, abortAt);
          fetched := Resolved(Some(text));
        case _ =>
          // an unsupported value or a rejection is logged by `handleFetchError`,
          // and `fetchContent` resolves with `undefined`
          fetched := Resolved(PlainResult(reply));
      }
      var checked := WrapperCheck(lastController.State(), t, fetched);
      if checked.Rejected? {
        outcome := HandleInsertError(checked.error);
        return;
      }
      SetFetchedText(checked.value);
      SetIsLoading(false);
      outcome := Stored;
    }
  }
}
