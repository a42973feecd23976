/** `GhostTextRemoveCommand` (src/ghost-text-remove-command.ts): removes the
    first `ghostText` element of the document, if there is a root. */
module RemoveCommand {
  import opened Wrappers
  import opened DocModel

  /** The document after the command. */
  function RemoveFirstGhost(d: Doc): (r: Doc)
    requires WellFormed(d)
    ensures WellFormed(r)
    ensures !d.hasRoot ==> r == d
    ensures GhostCount(d.items) == 0 ==> r == d
    ensures d.hasRoot && FirstGhost(d.items).Some? ==>
      r.items == d.items[..FirstGhost(d.items).value] + d.items[FirstGhost(d.items).value + 1..]
    ensures NonGhosts(r.items) == NonGhosts(d.items)
    ensures GhostCount(r.items) == if d.hasRoot && GhostCount(d.items) > 0 then GhostCount(d.items) - 1 else GhostCount(d.items)
    ensures |r.items| + GhostCount(d.items) - GhostCount(r.items) == |d.items|
    ensures r.sel.Range? == d.sel.Range? && r.attrs == d.attrs && r.hasRoot == d.hasRoot
  {
    FirstGhostNoneIff(d.items);
    if !d.hasRoot then d
    else match FirstGhost(d.items)
      case None => d
      case Some(k) => RemoveAt(d, k)
  }

  /** Two ghosts at different positions make a count of at least two. */
  lemma TwoGhosts(items: seq<Item>, k: nat, p: nat)
    requires k < p < |items| && items[k].Ghost? && items[p].Ghost?
    ensures GhostCount(items) >= 2
  {
    assert items == items[..p] + items[p..];
    GhostCountConcat(items[..p], items[p..]);
    assert items[..p][k].Ghost? && items[p..][0].Ghost?;
    NoGhostsIff(items[..p]);
    NoGhostsIff(items[p..]);
  }

  /** Removing a ghost that sits right after a collapsed selection leaves the
      selection where it was. */
  lemma RemoveGhostAtCursor(d: Doc, g: Item)
    requires GhostAtCursor(d, g) && d.hasRoot
    ensures var r := RemoveFirstGhost(d);
      r.items == d.items[..d.sel.focus] + d.items[d.sel.focus + 1..]
      && r.sel == d.sel && GhostCount(r.items) == 0
  {
    FirstGhostNoneIff(d.items);
    var k := FirstGhost(d.items).value;
    if k < d.sel.focus {
      TwoGhosts(d.items, k, d.sel.focus);
    }
  }

  /** The shape shared by the commands that show a ghost: issue the removal
      first, then insert `g` at the focus and put the selection back at that
      position. With no focus the insertion throws after the removal. */
  function ReplaceGhost(d: Doc, g: Item): (r: Edit)
    requires WellFormed(d) && g.Ghost?
    ensures WellFormed(r.doc)
    ensures r.threw <==> d.sel.NoSelection?
    ensures r.threw ==> r.doc == RemoveFirstGhost(d)
    ensures !r.threw ==> r.doc == PlaceGhost(RemoveFirstGhost(d), g)
    ensures NonGhosts(r.doc.items) == NonGhosts(d.items)
    ensures d.hasRoot && d.sel.Range? && GhostCount(d.items) <= 1 ==> GhostAtCursor(r.doc, g)
    ensures r.doc.attrs == d.attrs && r.doc.hasRoot == d.hasRoot
  {
    var removed := RemoveFirstGhost(d);
    if removed.sel.NoSelection? then Edit(removed, true)
    else Edit(PlaceGhost(removed, g), false)
  }

  /** When the old ghost sat right after the cursor, the new one takes its
      place: nothing else in the document moves. */
  lemma {:induction false} ReplaceGhostInPlace(d: Doc, old_g: Item, g: Item)
    requires GhostAtCursor(d, old_g) && d.hasRoot && g.Ghost?
    ensures ReplaceGhost(d, g) == Edit(d.(items := d.items[d.sel.focus := g]), false)
  {
    RemoveGhostAtCursor(d, old_g);
    var p := d.sel.focus;
    var r := ReplaceGhost(d, g).doc;
    assert r.items == d.items[..p] + [g] + d.items[p + 1..];
    assert r.items == d.items[p := g];
  }

  /** `Array.from(model.createRangeIn(root)).filter(...)`: the positions of
      all `ghostText` elements, in document order. */
  method GhostPositions(items: seq<Item>) returns (idx: seq<nat>)
    ensures forall j :: 0 <= j < |idx| ==> idx[j] < |items| && items[idx[j]].Ghost?
    ensures forall k :: 0 <= k < |items| && items[k].Ghost? ==> k in idx
    ensures forall j, j' :: 0 <= j < j' < |idx| ==> idx[j] < idx[j']
  {
    idx := [];
    var i := 0;
    while i < |items|
      invariant 0 <= i <= |items|
      invariant forall j :: 0 <= j < |idx| ==> idx[j] < i && items[idx[j]].Ghost?
      invariant forall k :: 0 <= k < i && items[k].Ghost? ==> k in idx
      invariant forall j, j' :: 0 <= j < j' < |idx| ==> idx[j] < idx[j']
    {
      if items[i].Ghost? {
        idx := idx + [i];
      }
      i := i + 1;
    }
  }

  class GhostTextRemoveCommand {
    const model: EditorModel

    constructor (model: EditorModel)
      ensures this.model == model
    {
      this.model := model;
    }

    method Execute()
      requires model.Valid()
      modifies model
      ensures model.Valid()
      ensures model.doc == RemoveFirstGhost(old(model.doc))
    {
      if !model.doc.hasRoot {
        return;
      }
      var ghostTexts := GhostPositions(model.doc.items);
      // the source's `for ... break` removes the first match only
      if |ghostTexts| > 0 {
        var k := ghostTexts[0];
        var first := FirstGhost(model.doc.items);
        assert first.Some?;
        assert first.value in ghostTexts;
        assert k == first.value;
        model.Remove(k);
      } else {
        FirstGhostNoneIff(model.doc.items);
      }
    }
  }
}
