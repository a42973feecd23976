/** The suggestion lifecycle of `GhostTextEditing` (src/ghost-text-editing.ts)
    as transitions over the state its handlers read and change. Each
    transition is what one handler does when the host calls it; the class in
    module `Editing` is proved to follow them. */
module EditingSpec {
  import opened Wrappers
  import opened DocModel
  import opened RemoveCommand
  import opened InsertCommand
  import opened ValueCommand
  import opened LoadingCommand
  import opened Debounce
  import opened FetchContent

  const DefaultInsertKeystroke := "Ctrl+Alt+E"
  const DefaultAcceptKeystroke := "Tab"

  /** The two bindings; `None` is a binding the configuration set to `undefined`. */
  datatype Keystrokes = Keystrokes(insertGhostText: Option<string>, acceptGhostText: Option<string>)

  /** One key of the `keystrokes` configuration object: absent, or present
      with a value that may be `undefined`. */
  datatype ConfigKey = Absent | Present(value: Option<string>)

  datatype KeystrokeConfig = KeystrokeConfig(insertGhostText: ConfigKey, acceptGhostText: ConfigKey)

  function Override(fallback: string, k: ConfigKey): Option<string> {
    if k.Present? then k.value else Some(fallback)
  }

  /** `registerKeystrokes`: the configured keys, spread over the defaults.
      A missing (or null) `keystrokes` object keeps both defaults. */
  function MergeKeystrokes(config: Option<KeystrokeConfig>): (r: Keystrokes)
    ensures config.None? ==> r == Keystrokes(Some(DefaultInsertKeystroke), Some(DefaultAcceptKeystroke))
    ensures config.Some? && config.value.insertGhostText.Present? ==>
      r.insertGhostText == config.value.insertGhostText.value
    ensures config.Some? && config.value.insertGhostText.Absent? ==>
      r.insertGhostText == Some(DefaultInsertKeystroke)
    ensures config.Some? && config.value.acceptGhostText.Present? ==>
      r.acceptGhostText == config.value.acceptGhostText.value
    ensures config.Some? && config.value.acceptGhostText.Absent? ==>
      r.acceptGhostText == Some(DefaultAcceptKeystroke)
  {
    match config
    case None => Keystrokes(Some(DefaultInsertKeystroke), Some(DefaultAcceptKeystroke))
    case Some(c) =>
      Keystrokes(Override(DefaultInsertKeystroke, c.insertGhostText),
                 Override(DefaultAcceptKeystroke, c.acceptGhostText))
  }

  function Tag(on: bool, tag: string): string {
    if on then tag else ""
  }

  function OpeningTags(marks: set<string>): string {
    Tag("underline" in marks, "<ins>") + Tag("italic" in marks, "<i>") + Tag("bold" in marks, "<b>")
  }

  function ClosingTags(marks: set<string>): string {
    Tag("bold" in marks, "</b>") + Tag("italic" in marks, "</i>") + Tag("underline" in marks, "</ins>")
  }

  /** One optional wrapper around `text`. */
  lemma WrapOne(on: bool, o: string, c: string, text: string)
    ensures (if on then o + text + c else text) == Tag(on, o) + text + Tag(on, c)
  {
    if !on {
      assert "" + text + "" == text;
    }
  }

  /** Wrapping `ot + text + ct` in one more pair of tags when `on`. */
  lemma WrapStep(on: bool, o: string, c: string, ot: string, text: string, ct: string)
    ensures (if on then o + (ot + text + ct) + c else ot + text + ct) == (Tag(on, o) + ot) + text + (ct + Tag(on, c))
  {
    if !on {
      assert "" + ot == ot && ct + "" == ct;
    }
  }

  /** Three nested optional wrappers put their opening tags, outermost first,
      before the text and their closing tags after it. */
  lemma ThreeWraps(b: bool, ob: string, cb: string, i: bool, oi: string, ci: string, u: bool, ou: string, cu: string, text: string)
    ensures var bold := if b then ob + text + cb else text;
      var italic := if i then oi + bold + ci else bold;
      (if u then ou + italic + cu else italic) == (Tag(u, ou) + Tag(i, oi) + Tag(b, ob)) + text + (Tag(b, cb) + Tag(i, ci) + Tag(u, cu))
  {
    var tb, ti, tu := Tag(b, ob), Tag(i, oi), Tag(u, ou);
    var eb, ei, eu := Tag(b, cb), Tag(i, ci), Tag(u, cu);
    var bold := if b then ob + text + cb else text;
    WrapOne(b, ob, cb, text);
    var italic := if i then oi + bold + ci else bold;
    WrapStep(i, oi, ci, tb, text, eb);
    WrapStep(u, ou, cu, ti + tb, text, eb + ei);
    assert tu + (ti + tb) == tu + ti + tb;
    assert eb + ei + eu == (eb + ei) + eu;
  }

  /** `applyTextDecoration`: the cursor's bold, italic and underline marks
      become HTML wrappers, `<b>` innermost and `<ins>` outermost. */
  function ApplyTextDecoration(text: string, cursorAttributes: set<string>): (r: string)
    ensures r == OpeningTags(cursorAttributes) + text + ClosingTags(cursorAttributes)
    ensures "bold" !in cursorAttributes && "italic" !in cursorAttributes && "underline" !in cursorAttributes
      ==> r == text
  {
    var b, i, u := "bold" in cursorAttributes, "italic" in cursorAttributes, "underline" in cursorAttributes;
    var bold := if b then "<b>" + text + "</b>" else text;
    var italic := if i then "<i>" + bold + "</i>" else bold;
    ThreeWraps(b, "<b>", "</b>", i, "<i>", "</i>", u, "<ins>", "</ins>", text);
    if u then "<ins>" + italic + "</ins>" else italic
  }

  /** Everything the handlers read and change: the document, the values of
      the `ghostText` and `ghostTextLoading` commands, the debounce slot of
      `insertWrapper`, the abort controllers, and the fetches whose reply has
      not come back yet. */
  datatype PluginState = PluginState(
    doc: Doc,
    fetchedText: Option<string>,
    loading: bool,
    timer: Option<()>,
    flight: Flight,
    awaiting: set<nat>)

  /** The editor always has a root and a selection, and at most one ghost. */
  ghost predicate StateInv(s: PluginState) {
    && WellFormed(s.doc) && s.doc.sel.Range? && s.doc.hasRoot
    && GhostCount(s.doc.items) <= 1
    && SingleFlightInv(s.flight)
    && (forall t :: t in s.awaiting ==> t < s.flight.issued)
  }

  /** JavaScript truthiness of the suggestion: neither `undefined` nor `''`. */
  predicate Truthy(v: Option<string>)
    ensures Truthy(v) <==> TextOf(v) != ""
  {
    v.Some? && v.value != ""
  }

  /** The text `createText` makes of the suggestion: `undefined` gives none. */
  function TextOf(v: Option<string>): (r: string)
    ensures v.None? ==> r == ""
    ensures v.Some? ==> r == v.value
  {
    if v.Some? then v.value else ""
  }

  /** `toLowerCase` on ASCII letters. */
  function LowerChar(c: char): char {
    if 'A' <= c <= 'Z' then (c as int + 32) as char else c
  }

  function ToLower(s: string): (r: string)
    ensures |r| == |s|
    ensures forall i :: 0 <= i < |s| ==> r[i] == LowerChar(s[i])
  {
    if s == [] then [] else [LowerChar(s[0])] + ToLower(s[1..])
  }

  /** The `fetchedText` setter: `execute('ghostText', v)`. */
  function WithText(s: PluginState, v: Option<string>): (r: PluginState)
    requires StateInv(s)
    ensures StateInv(r)
    ensures r.fetchedText == v && GhostAtCursor(r.doc, Ghost(v, false))
    ensures NonGhosts(r.doc.items) == NonGhosts(s.doc.items)
    ensures r == s.(fetchedText := v, doc := r.doc)
  {
    s.(fetchedText := v, doc := ValueEdit(s.doc, v).doc)
  }

  /** The `isLoading` setter: `execute('ghostTextLoading', b)`. */
  function WithLoading(s: PluginState, b: bool): (r: PluginState)
    requires StateInv(s)
    ensures StateInv(r)
    ensures !b ==> r == s.(loading := false)
    ensures b ==> r.loading && GhostAtCursor(r.doc, Ghost(None, true))
    ensures NonGhosts(r.doc.items) == NonGhosts(s.doc.items)
    ensures r == s.(loading := b, doc := r.doc)
  {
    s.(loading := b, doc := LoadingEdit(s.doc, b).doc)
  }

  /** `clearGhostText`. */
  function Clear(s: PluginState): (r: PluginState)
    requires StateInv(s)
    ensures StateInv(r)
    ensures !r.loading && r.timer.None? && GhostCount(r.doc.items) == 0
    ensures r.flight.current == s.flight.current && r.flight.issued == s.flight.issued
    ensures forall t :: 0 <= t < r.flight.issued ==> t in r.flight.aborted
    ensures r.fetchedText == s.fetchedText && r.awaiting == s.awaiting
    ensures NonGhosts(r.doc.items) == NonGhosts(s.doc.items)
  {
    var s1 := WithLoading(s, false);
    var s2 := s1.(timer := Step(s1.timer, CallCancel).0);
    var s3 := s2.(flight := FlightAfterAbort(s2.flight));
    s3.(doc := RemoveFirstGhost(s3.doc))
  }

  /** Inserting text right before the single ghost and then removing the
      ghost puts the text where the ghost was. */
  lemma CommitAtCursor(d: Doc, g: Item, v: string, attrs: set<string>)
    requires GhostAtCursor(d, g) && d.hasRoot && attrs == d.attrs
    ensures var r := RemoveFirstGhost(InsertText(d, v)); var p := d.sel.focus;
      && r.items == d.items[..p] + TextItems(v, attrs) + d.items[p + 1..]
      && r.sel == Range(p + |v|, p + |v|)
  {
    var p := d.sel.focus;
    var t := TextItems(v, attrs);
    var d2 := InsertText(d, v);
    SpliceEnds(d.items[..p], t, d.items[p..]);
    assert d.items[p..][0] == g && d.items[p..][1..] == d.items[p + 1..];
    assert GhostAtCursor(d2, g);
    RemoveGhostAtCursor(d2, g);
  }

  /** `applyGhostText`: empty the suggestion, commit the text it held at the
      cursor, and remove the ghost. */
  function Apply(s: PluginState): (r: PluginState)
    requires StateInv(s)
    ensures StateInv(r)
    ensures r.fetchedText == Some("") && GhostCount(r.doc.items) == 0
    ensures r == s.(fetchedText := Some(""), doc := r.doc)
  {
    var s1 := WithText(s, Some(""));
    var r := s1.(doc := RemoveFirstGhost(InsertText(s1.doc, TextOf(s.fetchedText))));
    ApplyCommits(s);
    r
  }

  /** What `applyGhostText` commits: the text the suggestion held, at the
      place of the ghost it removes, with the cursor after the text. */
  lemma ApplyCommits(s: PluginState)
    requires StateInv(s)
    ensures var base := RemoveFirstGhost(s.doc); var q := base.sel.focus; var v := TextOf(s.fetchedText);
      var r := RemoveFirstGhost(InsertText(WithText(s, Some("")).doc, v));
      && q <= |base.items|
      && r.items == base.items[..q] + TextItems(v, s.doc.attrs) + base.items[q..]
      && r.sel == Range(q + |v|, q + |v|) && GhostCount(r.items) == 0
  {
    var d := WithText(s, Some("")).doc;
    var base := RemoveFirstGhost(s.doc);
    var q := base.sel.focus;
    var g := Ghost(Some(""), false);
    assert d == PlaceGhost(base, g);
    var a, b := base.items[..q], base.items[q..];
    assert d.items == a + [g] + b && d.sel.focus == q;
    SpliceEnds(a, [g], b);
    CommitAtCursor(d, g, TextOf(s.fetchedText), s.doc.attrs);
  }

  /** Accepting a suggestion shown at the cursor replaces its ghost with the
      suggestion's text, and leaves the cursor after that text. */
  lemma AcceptCommitsSuggestion(s: PluginState, g: Item)
    requires StateInv(s) && GhostAtCursor(s.doc, g)
    ensures var r := Apply(s); var p := s.doc.sel.focus; var v := TextOf(s.fetchedText);
      && r.doc.items == s.doc.items[..p] + TextItems(v, s.doc.attrs) + s.doc.items[p + 1..]
      && r.doc.sel == Range(p + |v|, p + |v|)
      && GhostCount(r.doc.items) == 0 && r.fetchedText == Some("")
  {
    RemoveGhostAtCursor(s.doc, g);
    var p := s.doc.sel.focus;
    var base := RemoveFirstGhost(s.doc);
    var r := Apply(s);
    var t := TextItems(TextOf(s.fetchedText), s.doc.attrs);
    ApplyCommits(s);
    assert base.sel.focus == p;
    assert r.doc.items == base.items[..p] + t + base.items[p..];
    assert base.items[..p] == s.doc.items[..p];
    assert base.items[p..] == s.doc.items[p + 1..];
  }

  /** `handleAcceptKeystroke`: the new state, and whether it called `cancel()`. */
  function AcceptKeystroke(s: PluginState): (r: (PluginState, bool))
    requires StateInv(s)
    ensures StateInv(r.0)
    ensures r.1 <==> !s.loading && Truthy(s.fetchedText)
    ensures !r.1 ==> r.0 == s
    ensures r.1 ==> r.0 == Apply(s)
  {
    if s.loading || !Truthy(s.fetchedText) then (s, false) else (Apply(s), true)
  }

  /** `handleGhostTextClick`: a click on a ghost accepts, with no guard. */
  function Click(s: PluginState, targetIsGhost: bool): (r: PluginState)
    requires StateInv(s)
    ensures StateInv(r)
    ensures targetIsGhost ==> r == Apply(s)
    ensures !targetIsGhost ==> r == s
  {
    if targetIsGhost then Apply(s) else s
  }

  /** A clear keeps the suggestion: accepting right after a clear commits
      the text that was being shown. */
  lemma AcceptAfterClearCommitsOldText(s: PluginState)
    requires StateInv(s) && Truthy(s.fetchedText)
    ensures AcceptKeystroke(Clear(s)).1
    ensures var r := AcceptKeystroke(Clear(s)).0; var p := Clear(s).doc.sel.focus; var v := s.fetchedText.value;
      && p <= |Clear(s).doc.items|
      && r.doc.items == Clear(s).doc.items[..p] + TextItems(v, s.doc.attrs) + Clear(s).doc.items[p..]
  {
    var c := Clear(s);
    ApplyCommits(c);
    assert RemoveFirstGhost(c.doc) == c.doc;
  }

  /** Clearing twice is clearing once. */
  lemma ClearIdempotent(s: PluginState)
    requires StateInv(s)
    ensures Clear(Clear(s)) == Clear(s)
  {
    var c := Clear(s);
    assert c.flight.current.Some? ==> c.flight.current.value in c.flight.aborted;
    assert FlightAfterAbort(c.flight) == c.flight;
  }

  /** An item returned by a range's `getItems()`: a text proxy or an element. */
  datatype Inserted = TextProxy(data: string) | Element(name: string)

  /** An entry of `differ.getChanges()`; only insertions carry items. */
  datatype Change = Insert(items: seq<Inserted>) | Remove | Attribute

  /** `getInsertedContents`: the items of every insertion, in order. */
  function InsertedContents(changes: seq<Change>): (r: seq<Inserted>)
    ensures (forall i :: 0 <= i < |changes| ==> !changes[i].Insert?) ==> r == []
  {
    if changes == [] then []
    else InsertedContents(changes[..|changes| - 1])
         + (if changes[|changes| - 1].Insert? then changes[|changes| - 1].items else [])
  }

  /** A single insertion contributes exactly its items. */
  lemma InsertedContentsOfInsert(xs: seq<Inserted>)
    ensures InsertedContents([Insert(xs)]) == xs
  {
    assert [Insert(xs)][..0] == [];
  }

  /** Every insertion's items appear in the result, in place: after the
      items of the changes before it and before those of the changes after
      it. */
  lemma InsertedItemsAppear(changes: seq<Change>, i: nat)
    requires i < |changes| && changes[i].Insert?
    ensures InsertedContents(changes) ==
      InsertedContents(changes[..i]) + changes[i].items + InsertedContents(changes[i + 1..])
  {
    assert changes == changes[..i] + [changes[i]] + changes[i + 1..];
    InsertedContentsConcat(changes[..i], [changes[i]]);
    InsertedContentsConcat(changes[..i] + [changes[i]], changes[i + 1..]);
    InsertedContentsOfInsert(changes[i].items);
  }

  /** The items one change contributes. */
  function ItemsOf(c: Change): seq<Inserted> {
    if c.Insert? then c.items else []
  }

  /** The items of two runs of changes are the items of each, in order. */
  lemma {:induction false} InsertedContentsConcat(a: seq<Change>, b: seq<Change>)
    ensures InsertedContents(a + b) == InsertedContents(a) + InsertedContents(b)
    decreases |b|
  {
    if b == [] {
      assert a + b == a;
    } else {
      var ab, init := a + b, b[..|b| - 1];
      assert ab[..|ab| - 1] == a + init;
      assert ab[|ab| - 1] == b[|b| - 1];
      InsertedContentsConcat(a, init);
      calc {
        InsertedContents(ab);
        InsertedContents(a + init) + ItemsOf(b[|b| - 1]);
        InsertedContents(a) + InsertedContents(init) + ItemsOf(b[|b| - 1]);
        InsertedContents(a) + (InsertedContents(init) + ItemsOf(b[|b| - 1]));
        InsertedContents(a) + InsertedContents(b);
      }
    }
  }




  /** Whether `c` is one UTF-16 code unit, that is, lies in the Basic
      Multilingual Plane; any other character is a surrogate pair. */
  predicate InBmp(c: char) {
    c as int < 0x1_0000
  }

  /** The test inside `removeGhostLetter`'s loop: the whole data of a text
      proxy against `ghostText[0]`, the suggestion's first UTF-16 code unit,
      ignoring case. When the first character is outside the Basic
      Multilingual Plane that unit is a lone high surrogate, which no text
      made of characters equals. */
  predicate MatchesFirstLetter(x: Inserted, text: string)
    requires text != ""
    ensures MatchesFirstLetter(x, text) ==> x.TextProxy? && |x.data| == 1 && InBmp(text[0])
  {
    x.TextProxy? && InBmp(text[0]) && ToLower(x.data) == ToLower(text[..1])
  }

  /** Whether `removeGhostLetter` consumes a letter. */
  predicate Narrows(inserted: seq<Inserted>, fetched: Option<string>)
    ensures Narrows(inserted, fetched) ==> |inserted| > 0 && Truthy(fetched) && InBmp(fetched.value[0])
  {
    |inserted| > 0 && Truthy(fetched)
    && exists i :: 0 <= i < |inserted| && MatchesFirstLetter(inserted[i], fetched.value)
  }

  /** Only a single character matches: a run of several characters never
      narrows, even when it starts with the right letter. */
  lemma MatchIsOneLetter(x: Inserted, text: string)
    requires text != ""
    ensures MatchesFirstLetter(x, text) <==>
      x.TextProxy? && InBmp(text[0]) && |x.data| == 1 && LowerChar(x.data[0]) == LowerChar(text[0])
  {
    if x.TextProxy? && |x.data| == 1 && LowerChar(x.data[0]) == LowerChar(text[0]) {
      assert ToLower(x.data) == [LowerChar(x.data[0])];
      assert ToLower(text[..1]) == [LowerChar(text[0])];
    }
  }

  /** A suggestion whose first character is outside the Basic Multilingual
      Plane is never narrowed, whatever is typed, because the comparison is
      with half of its surrogate pair. */
  lemma AstralFirstLetterNeverNarrows(inserted: seq<Inserted>, fetched: Option<string>)
    requires Truthy(fetched) && !InBmp(fetched.value[0])
    ensures !Narrows(inserted, fetched)
  {
  }

  /** `clearGhostText` keeps `fetchedText`, so after a clear typing the kept
      suggestion's first letter narrows it and brings its ghost back. */
  lemma StaleSuggestionReturns(s: PluginState)
    requires StateInv(s) && Truthy(s.fetchedText) && InBmp(s.fetchedText.value[0])
    ensures var text := s.fetchedText.value;
      var r := InsertContent(Clear(s), [TextProxy([text[0]])]);
      && GhostCount(Clear(s).doc.items) == 0
      && r.fetchedText == Some(text[1..])
      && GhostAtCursor(r.doc, Ghost(Some(text[1..]), false))
  {
    var x := TextProxy([s.fetchedText.value[0]]);
    MatchIsOneLetter(x, s.fetchedText.value);
    assert [x][0] == x;
  }

  /** Without a suggestion nothing narrows. */
  lemma EmptySuggestionNeverNarrows(inserted: seq<Inserted>, fetched: Option<string>)
    requires !Truthy(fetched)
    ensures !Narrows(inserted, fetched)
  {
  }

  /** `handleInsertContent`: a narrowing insertion drops the suggestion's
      first letter; any other insertion aborts the current fetch and re-arms
      the debounce. */
  function InsertContent(s: PluginState, inserted: seq<Inserted>): (r: PluginState)
    requires StateInv(s)
    ensures StateInv(r)
    ensures Narrows(inserted, s.fetchedText) ==>
      && r.fetchedText == Some(s.fetchedText.value[1..])
      && GhostAtCursor(r.doc, Ghost(r.fetchedText, false))
      && NonGhosts(r.doc.items) == NonGhosts(s.doc.items)
      && r.flight == s.flight && r.timer == s.timer && r.loading == s.loading && r.awaiting == s.awaiting
    ensures !Narrows(inserted, s.fetchedText) ==>
      && r.doc == s.doc && r.fetchedText == s.fetchedText && r.loading == s.loading
      && r.timer == Some(()) && r.awaiting == s.awaiting
      && r.flight.current == s.flight.current && r.flight.issued == s.flight.issued
      && (forall t :: 0 <= t < r.flight.issued ==> t in r.flight.aborted)
  {
    if Narrows(inserted, s.fetchedText) then
      WithText(s, Some(s.fetchedText.value[1..]))
    else
      var s1 := s.(flight := FlightAfterAbort(s.flight));
      s1.(timer := Step(s1.timer, CallDebounced(())).0)
  }

  /** Typing `letters` one character at a time, each reported as its own
      insertion. */
  function TypeLetters(s: PluginState, letters: string): (r: PluginState)
    requires StateInv(s)
    ensures StateInv(r)
    decreases |letters|
  {
    if letters == [] then s
    else TypeLetters(InsertContent(s, [TextProxy([letters[0]])]), letters[1..])
  }

  /** Typing the suggestion's next letters, in any case, consumes them one by
      one without aborting the fetch or arming the debounce, as long as each
      of them is in the Basic Multilingual Plane. */
  lemma {:induction false} TypingConsumesSuggestion(s: PluginState, letters: string)
    requires StateInv(s) && s.fetchedText.Some? && |letters| <= |s.fetchedText.value|
    requires forall i :: 0 <= i < |letters| ==> LowerChar(letters[i]) == LowerChar(s.fetchedText.value[i])
    requires forall i :: 0 <= i < |letters| ==> InBmp(s.fetchedText.value[i])
    ensures var r := TypeLetters(s, letters);
      && r.fetchedText == Some(s.fetchedText.value[|letters|..])
      && r.flight == s.flight && r.timer == s.timer && r.loading == s.loading
      && (letters != [] ==> GhostAtCursor(r.doc, Ghost(r.fetchedText, false)))
    decreases |letters|
  {
    if letters != [] {
      var text := s.fetchedText.value;
      var x := TextProxy([letters[0]]);
      MatchIsOneLetter(x, text);
      assert [x][0] == x;
      var s1 := InsertContent(s, [x]);
      assert s1.fetchedText == Some(text[1..]);
      forall i | 0 <= i < |letters[1..]|
        ensures LowerChar(letters[1..][i]) == LowerChar(text[1..][i]) && InBmp(text[1..][i])
      {
        assert letters[1..][i] == letters[i + 1] && text[1..][i] == text[i + 1];
      }
      TypingConsumesSuggestion(s1, letters[1..]);
      assert text[1..][|letters[1..]|..] == text[|letters|..];
      if letters[1..] == [] {
        assert TypeLetters(s1, letters[1..]) == s1;
      }
    }
  }

  /** `handleDeleteContent`, given the differ's changes. */
  function DeleteContent(s: PluginState, changes: seq<Change>): (r: PluginState)
    requires StateInv(s)
    ensures StateInv(r)
    ensures |changes| > 0 ==> r == Clear(s)
    ensures |changes| == 0 ==> r == s
  {
    if |changes| > 0 then Clear(s) else s
  }

  /** The condition under which `handleSelectionChange` clears. */
  predicate ClearsOnSelectionChange(d: Doc, directChange: bool) {
    directChange && IsCollapsed(d) && !IsGhostText(NodeAfter(d))
  }

  /** `handleSelectionChange`. */
  function SelectionChange(s: PluginState, directChange: bool): (r: PluginState)
    requires StateInv(s)
    ensures StateInv(r)
    ensures ClearsOnSelectionChange(s.doc, directChange) ==> r == Clear(s)
    ensures !ClearsOnSelectionChange(s.doc, directChange) ==> r == s
  {
    if ClearsOnSelectionChange(s.doc, directChange) then Clear(s) else s
  }

  /** A collapsed cursor right before the ghost keeps the suggestion, whether
      or not the user moved it there directly. */
  lemma SelectionBeforeGhostKeepsSuggestion(s: PluginState, g: Item, directChange: bool)
    requires StateInv(s) && GhostAtCursor(s.doc, g)
    ensures SelectionChange(s, directChange) == s
  {
  }

  /** With at most one ghost in the document, the node after the cursor is
      a `ghostText` element exactly when the document's first ghost sits at
      the cursor. */
  lemma NodeAfterIsGhostIff(d: Doc)
    requires WellFormed(d) && d.sel.Range? && GhostCount(d.items) <= 1
    ensures IsGhostText(NodeAfter(d)) <==> FirstGhost(d.items) == Some(d.sel.focus)
  {
    if IsGhostText(NodeAfter(d)) {
      var k := FirstGhost(d.items).value;
      if k < d.sel.focus {
        TwoGhosts(d.items, k, d.sel.focus);
      }
    }
  }

  /** A selection change either clears or changes nothing, and a direct move
      of a collapsed cursor while no ghost is shown always clears. */
  lemma SelectionChangeEffect(s: PluginState, directChange: bool)
    requires StateInv(s)
    ensures SelectionChange(s, directChange) == Clear(s) || SelectionChange(s, directChange) == s
    ensures directChange && IsCollapsed(s.doc) && GhostCount(s.doc.items) == 0 ==>
      SelectionChange(s, directChange) == Clear(s)
  {
    if directChange && IsCollapsed(s.doc) && GhostCount(s.doc.items) == 0 {
      NoGhostsIff(s.doc.items);
    }
  }

  /** How a call of `insertGhostText` ends before its fetch settles. */
  datatype LaunchResult = Skipped | Started(token: nat) | Finished(outcome: InsertOutcome)

  /** `insertGhostText` up to its `await`: skip while loading; otherwise show
      the loading ghost and start a fetch through the single-flight wrapper.
      Without a content fetcher the fetch fails at once and the error is
      thrown on, with loading left on. */
  function Launch(s: PluginState, hasContentFetcher: bool): (r: (PluginState, LaunchResult))
    requires StateInv(s)
    ensures StateInv(r.0)
    ensures s.loading ==> r == (s, Skipped)
    ensures !s.loading ==>
      && r.0.loading && GhostAtCursor(r.0.doc, Ghost(None, true))
      && NonGhosts(r.0.doc.items) == NonGhosts(s.doc.items)
      && r.0.flight == FlightAfterStart(s.flight).0
      && r.0.fetchedText == s.fetchedText && r.0.timer == s.timer
    ensures !s.loading && hasContentFetcher ==>
      r.1 == Started(s.flight.issued) && r.0.awaiting == s.awaiting + {s.flight.issued}
    ensures !s.loading && !hasContentFetcher ==>
      r.1 == Finished(Rethrown(Error(NoFetcherMessage))) && r.0.awaiting == s.awaiting
  {
    if s.loading then (s, Skipped)
    else
      var s1 := WithLoading(s, true);
      var (flight, t) := FlightAfterStart(s1.flight);
      if hasContentFetcher then (s1.(flight := flight, awaiting := s1.awaiting + {t}), Started(t))
      else (s1.(flight := flight), Finished(HandleInsertError(Error(NoFetcherMessage))))
  }

  /** Without a fetcher the plugin stays loading, so every later insert
      keystroke is skipped until something clears. */
  lemma NoFetcherStaysLoading(s: PluginState)
    requires StateInv(s) && !s.loading
    ensures Launch(s, false).1 == Finished(Rethrown(Error(NoFetcherMessage)))
    ensures Launch(Launch(s, false).0, false) == (Launch(s, false).0, Skipped)
  {
  }

  /** `insertWrapper.debounced()` firing: the pending call runs `insertGhostText`. */
  function TimerFire(s: PluginState, hasContentFetcher: bool): (r: (PluginState, LaunchResult))
    requires StateInv(s)
    ensures StateInv(r.0) && r.0.timer.None?
    ensures s.timer.None? ==> r == (s, Skipped)
    ensures s.timer.Some? ==> r == Launch(s.(timer := None), hasContentFetcher)
  {
    var (timer, call) := Step(s.timer, TimerFired);
    if call.Some? then Launch(s.(timer := timer), hasContentFetcher) else (s.(timer := timer), Skipped)
  }

  /** When no fetch is loading, typing a letter that does not continue the
      suggestion cancels the running fetch at once and, when the debounce
      delay has passed, starts exactly one new fetch. */
  lemma MismatchRefetches(s: PluginState, inserted: seq<Inserted>)
    requires StateInv(s) && !s.loading && !Narrows(inserted, s.fetchedText)
    ensures var s1 := InsertContent(s, inserted);
      && (forall t :: 0 <= t < s1.flight.issued ==> t in s1.flight.aborted)
      && TimerFire(s1, true).1 == Started(s.flight.issued)
      && TimerFire(s1, true).0.flight.current == Some(s.flight.issued)
      && TimerFire(TimerFire(s1, true).0, true).1 == Skipped
  {
  }

  /** While a fetch is loading, a letter that does not continue the
      suggestion aborts that fetch but leaves `isLoading` on: its reply,
      whatever it is, is swallowed as cancelled with loading still on, so the
      re-armed debounce fires into the loading guard and fetches nothing.
      The plugin stays loading until something clears it. */
  lemma MismatchWhileLoadingSticks(s: PluginState, inserted: seq<Inserted>, t: nat, reply: Reply)
    requires StateInv(s) && s.loading && !Narrows(inserted, s.fetchedText) && t in s.awaiting
    ensures var s1 := InsertContent(s, inserted);
      && s1.loading && s1.timer.Some? && t in s1.flight.aborted
      && var (s2, out) := Settle(s1, t, reply);
      && out == Swallowed(Error(CancelledMessage)) && s2.loading
      && TimerFire(s2, true) == (s2.(timer := None), Skipped)
  {
    var s1 := InsertContent(s, inserted);
    assert t in s1.flight.aborted;
    if reply.Stream? {
      AbortedStreamStaysLoading(s1, t, reply.chunks, reply.abortAt);
    } else {
      SettlePlain(s1, t, reply);
    }
  }

  /** What `fetchContent` resolves with for a reply that is not a stream:
      the text, or `undefined` once `handleFetchError` has logged the
      failure (an unsupported value is thrown as `UnsupportedMessage` and
      caught there). */
  function PlainResult(reply: Reply): (r: Option<string>)
    requires !reply.Stream?
    ensures r.Some? <==> reply.Text?
    ensures reply.Text? ==> r == Some(reply.s)
  {
    if reply.Text? then Some(reply.s) else None
  }

  /** The check from which the stream loop sees its signal aborted: at once
      when the fetch was aborted before its reply came. */
  function StreamSeen(f: Flight, t: nat, abortAt: Option<nat>): Option<nat> {
    if t in f.aborted then Some(0) else abortAt
  }

  /** The ghost the stream loop leaves on screen, chosen by the last setter
      that ran: the emptied suggestion after an abort, the loading ghost
      while nothing has arrived, the text so far otherwise. */
  function StreamGhost(chunks: seq<string>, seen: Option<nat>): (g: Item)
    ensures g.Ghost?
  {
    if AbortSeen(seen, |chunks|) then Ghost(Some(""), false)
    else if Concat(chunks) == "" then Ghost(None, true)
    else Ghost(Some(Concat(chunks)), false)
  }

  /** `processStreamContent` for fetch `t`. An abort seen inside the loop is
      of the current controller, since `t` had not been aborted. */
  function AfterStream(s: PluginState, t: nat, chunks: seq<string>, abortAt: Option<nat>): (r: PluginState)
    requires StateInv(s) && t < s.flight.issued
    ensures StateInv(r)
    ensures var e := Drain(chunks, StreamSeen(s.flight, t, abortAt), 0, "", true);
      r.fetchedText == Some(e.text) && r.loading == e.loading
    ensures GhostAtCursor(r.doc, StreamGhost(chunks, StreamSeen(s.flight, t, abortAt)))
    ensures NonGhosts(r.doc.items) == NonGhosts(s.doc.items)
    ensures t in r.flight.aborted <==> t in s.flight.aborted || abortAt.Some?
    ensures r.timer == s.timer && r.awaiting == s.awaiting
  {
    var seen := StreamSeen(s.flight, t, abortAt);
    var e := Drain(chunks, seen, 0, "", true);
    var g := StreamGhost(chunks, seen);
    var d := WithText(s, Some("")).doc;
    ReplaceGhostInPlace(d, Ghost(Some(""), false), g);
    var flight :=
      if abortAt.Some? && t !in s.flight.aborted then
        AtMostOneLive(s.flight, t);
        FlightAfterAbort(s.flight)
      else s.flight;
    s.(doc := d.(items := d.items[d.sel.focus := g]), fetchedText := Some(e.text), loading := e.loading, flight := flight)
  }

  /** `AfterStream` field by field. */
  lemma AfterStreamFields(s: PluginState, t: nat, chunks: seq<string>, abortAt: Option<nat>, r: PluginState)
    requires StateInv(s) && t < s.flight.issued
    requires var d := WithText(s, Some("")).doc;
      r.doc == d.(items := d.items[d.sel.focus := StreamGhost(chunks, StreamSeen(s.flight, t, abortAt))])
    requires var e := Drain(chunks, StreamSeen(s.flight, t, abortAt), 0, "", true);
      r.fetchedText == Some(e.text) && r.loading == e.loading
    requires r.flight == if abortAt.Some? && t !in s.flight.aborted then FlightAfterAbort(s.flight) else s.flight
    requires r.timer == s.timer && r.awaiting == s.awaiting
    ensures AfterStream(s, t, chunks, abortAt) == r
  {
  }

  /** The wrapper's check, then the rest of `insertGhostText`. */
  function Finish(s: PluginState, t: nat, settled: Settled): (r: (PluginState, InsertOutcome))
    requires StateInv(s)
    ensures StateInv(r.0)
    ensures WrapperCheck(s.flight, t, settled).Rejected? ==>
      r == (s, HandleInsertError(WrapperCheck(s.flight, t, settled).error))
    ensures WrapperCheck(s.flight, t, settled).Resolved? ==>
      && r.1 == Stored && !r.0.loading
      && r.0.fetchedText == WrapperCheck(s.flight, t, settled).value
      && GhostAtCursor(r.0.doc, Ghost(r.0.fetchedText, false))
      && NonGhosts(r.0.doc.items) == NonGhosts(s.doc.items)
      && r.0.flight == s.flight && r.0.timer == s.timer && r.0.awaiting == s.awaiting
  {
    match WrapperCheck(s.flight, t, settled)
    case Rejected(e) => (s, HandleInsertError(e))
    case Resolved(v) => (WithLoading(WithText(s, v), false), Stored)
  }

  /** The content fetcher of fetch `t` settles with `reply`. */
  function Settle(s: PluginState, t: nat, reply: Reply): (r: (PluginState, InsertOutcome))
    requires StateInv(s) && t in s.awaiting
    ensures StateInv(r.0) && r.0.awaiting == s.awaiting - {t} && r.0.timer == s.timer
    ensures NonGhosts(r.0.doc.items) == NonGhosts(s.doc.items)
  {
    var s0 := s.(awaiting := s.awaiting - {t});
    if reply.Stream? then
      var s1 := AfterStream(s0, t, reply.chunks, reply.abortAt);
      Finish(s1, t, Resolved(s1.fetchedText))
    else
      Finish(s0, t, Resolved(PlainResult(reply)))
  }

  /** A text, unsupported or failed reply: stored and shown unless its fetch
      was aborted, in which case only the set of awaited fetches changes. */
  lemma SettlePlain(s: PluginState, t: nat, reply: Reply)
    requires StateInv(s) && t in s.awaiting && !reply.Stream?
    ensures var r := Settle(s, t, reply);
      && (r.1.Stored? <==> t !in s.flight.aborted)
      && (r.1.Stored? ==>
            && !r.0.loading && r.0.fetchedText == PlainResult(reply)
            && GhostAtCursor(r.0.doc, Ghost(r.0.fetchedText, false)))
      && (!r.1.Stored? ==> r == (s.(awaiting := s.awaiting - {t}), Swallowed(Error(CancelledMessage))))
  {
  }

  /** A stream reply: stored and shown, as the concatenation of its chunks,
      only when no abort came; otherwise the cancellation is swallowed and
      the suggestion and loading flag are as the loop left them. */
  lemma SettleStream(s: PluginState, t: nat, chunks: seq<string>, abortAt: Option<nat>)
    requires StateInv(s) && t in s.awaiting
    ensures var r := Settle(s, t, Stream(chunks, abortAt));
      && (r.1.Stored? <==> t !in s.flight.aborted && abortAt.None?)
      && (r.1.Stored? ==>
            && !r.0.loading && r.0.fetchedText == Some(Concat(chunks))
            && GhostAtCursor(r.0.doc, Ghost(r.0.fetchedText, false)))
      && (!r.1.Stored? ==>
            var e := Drain(chunks, StreamSeen(s.flight, t, abortAt), 0, "", true);
            && r.1 == Swallowed(Error(CancelledMessage))
            && r.0.fetchedText == Some(e.text) && r.0.loading == e.loading)
  {
  }

  /** Single flight end to end: once a newer fetch has started, the reply of
      an older one changes nothing but the set of awaited fetches. */
  lemma SupersededReplyIgnored(s: PluginState, t: nat, reply: Reply)
    requires StateInv(s) && !s.loading && t in s.awaiting && !reply.Stream?
    ensures var s1 := Launch(s, true).0;
      Settle(s1, t, reply) == (s1.(awaiting := s1.awaiting - {t}), Swallowed(Error(CancelledMessage)))
  {
    var s1 := Launch(s, true).0;
    assert t in s1.flight.aborted;
  }

  /** The newest fetch, left alone, stores its text and shows it. */
  lemma LatestReplyShown(s: PluginState, x: string)
    requires StateInv(s) && !s.loading
    ensures var (s1, l) := Launch(s, true);
      l.Started? && l.token in s1.awaiting &&
      var (s2, out) := Settle(s1, l.token, Text(x));
      && out == Stored && s2.fetchedText == Some(x) && !s2.loading
      && GhostAtCursor(s2.doc, Ghost(Some(x), false))
      && NonGhosts(s2.doc.items) == NonGhosts(s.doc.items)
  {
  }

  /** A stream that was aborted before its reply came still runs the loop:
      it wipes the suggestion and, through the cancelled path, leaves loading
      on, so later insert keystrokes are skipped until something clears. */
  lemma AbortedStreamStaysLoading(s: PluginState, t: nat, chunks: seq<string>, abortAt: Option<nat>)
    requires StateInv(s) && t in s.awaiting && t in s.flight.aborted
    ensures var (r, out) := Settle(s, t, Stream(chunks, abortAt));
      && out == Swallowed(Error(CancelledMessage))
      && r.fetchedText == Some("") && r.loading
      && Launch(r, true) == (r, Skipped)
  {
  }

  /** A stream nobody aborts ends with the concatenation of its chunks. */
  lemma StreamShowsConcatenation(s: PluginState, t: nat, chunks: seq<string>)
    requires StateInv(s) && t in s.awaiting && t !in s.flight.aborted
    ensures var (r, out) := Settle(s, t, Stream(chunks, None));
      && out == Stored && r.fetchedText == Some(Concat(chunks)) && !r.loading
      && GhostAtCursor(r.doc, Ghost(Some(Concat(chunks)), false))
  {
  }

  /** The keystroke handlers `setupKeystrokes` binds, run in priority order:
      accept first, and insert only when accept did not call `cancel()`.
      The result is the new state, whether the key was handled, and the
      launch of the insert handler if it ran. */
  function Keystroke(s: PluginState, ks: Keystrokes, key: string, hasContentFetcher: bool): (r: (PluginState, bool, Option<LaunchResult>))
    requires StateInv(s)
    ensures StateInv(r.0)
    ensures r.1 <==> (ks.acceptGhostText == Some(key) && AcceptKeystroke(s).1) || ks.insertGhostText == Some(key)
    ensures ks.acceptGhostText == Some(key) && AcceptKeystroke(s).1 ==> r == (Apply(s), true, None)
    ensures !(ks.acceptGhostText == Some(key) && AcceptKeystroke(s).1) && ks.insertGhostText == Some(key) ==>
      r == (Launch(s, hasContentFetcher).0, true, Some(Launch(s, hasContentFetcher).1))
    ensures !r.1 ==> r == (s, false, None)
  {
    if ks.acceptGhostText == Some(key) && AcceptKeystroke(s).1 then (AcceptKeystroke(s).0, true, None)
    else if ks.insertGhostText == Some(key) then
      var (s1, l) := Launch(s, hasContentFetcher);
      (s1, true, Some(l))
    else (s, false, None)
  }

  /** With the default bindings, Tab accepts a ready suggestion and is left
      to the editor otherwise; Ctrl+Alt+E always starts a fetch unless one is
      loading. */
  lemma DefaultBindings(s: PluginState, hasContentFetcher: bool)
    requires StateInv(s)
    ensures var ks := MergeKeystrokes(None);
      && Keystroke(s, ks, "Tab", hasContentFetcher).1 == (!s.loading && Truthy(s.fetchedText))
      && Keystroke(s, ks, "Ctrl+Alt+E", hasContentFetcher).1
      && Keystroke(s, ks, "Ctrl+Alt+E", hasContentFetcher).0 == Launch(s, hasContentFetcher).0
  {
  }
}
