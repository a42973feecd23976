/** `GhostTextInsertCommand` (src/ghost-text-insert-command.ts): commits text
    at the first selection position, with the selection's attributes. */
module InsertCommand {
  import opened Wrappers
  import opened DocModel

  /** `writer.createText(value, attributes)`, one item per character. */
  function TextItems(value: string, attrs: set<string>): (r: seq<Item>)
    ensures |r| == |value|
    ensures forall i :: 0 <= i < |value| ==> r[i] == Char(value[i], attrs)
  {
    if value == [] then [] else [Char(value[0], attrs)] + TextItems(value[1..], attrs)
  }

  lemma {:induction false} TextItemsHaveNoGhost(value: string, attrs: set<string>)
    ensures GhostCount(TextItems(value, attrs)) == 0
    ensures NonGhosts(TextItems(value, attrs)) == TextItems(value, attrs)
  {
    if value != [] {
      var r := TextItems(value, attrs);
      assert r[1..] == TextItems(value[1..], attrs);
      TextItemsHaveNoGhost(value[1..], attrs);
    }
  }

  /** The document after the command: the text is committed at the first
      selection position, carrying the selection's attributes. */
  function InsertText(d: Doc, value: string): (r: Doc)
    requires WellFormed(d)
    ensures WellFormed(r)
    ensures FirstPosition(d).None? ==> r == d
    ensures FirstPosition(d).Some? ==>
      var p := FirstPosition(d).value;
      && r.items == d.items[..p] + TextItems(value, d.attrs) + d.items[p..]
      && r.sel == Range(ShiftedByInsert(d.sel.anchor, p, |value|), ShiftedByInsert(d.sel.focus, p, |value|))
    ensures GhostCount(r.items) == GhostCount(d.items)
    ensures r.sel.Range? == d.sel.Range? && r.attrs == d.attrs && r.hasRoot == d.hasRoot
  {
    TextItemsHaveNoGhost(value, d.attrs);
    match FirstPosition(d)
    case None => d
    case Some(p) =>
      InsertAtCounts(d, p, TextItems(value, d.attrs));
      InsertAt(d, p, TextItems(value, d.attrs))
  }

  /** Character `i` of the committed text lands at `p + i`. */
  lemma InsertTextChars(d: Doc, value: string)
    requires WellFormed(d) && d.sel.Range?
    ensures var r := InsertText(d, value); var p := FirstPosition(d).value;
      && |r.items| == |d.items| + |value|
      && forall i :: 0 <= i < |value| ==> r.items[p + i] == Char(value[i], d.attrs)
  {
    var p := FirstPosition(d).value;
    var xs := TextItems(value, d.attrs);
    ItemsAt(InsertText(d, value).items, p, xs);
  }

  class GhostTextInsertCommand {
    const model: EditorModel

    constructor (model: EditorModel)
      ensures this.model == model
    {
      this.model := model;
    }

    method Execute(value: string)
      requires model.Valid()
      modifies model
      ensures model.Valid()
      ensures model.doc == InsertText(old(model.doc), value)
    {
      var position := FirstPosition(model.doc);
      if position.None? {
        return;
      }
      var attributes := model.doc.attrs;
      model.Insert(position.value, TextItems(value, attributes));
    }
  }
}
