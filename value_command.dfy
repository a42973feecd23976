/** `GhostTextCommand` (src/ghost-text-command.ts): stores the suggestion
    text in its `value` and shows it as a ghost carrying `data-value`. */
module ValueCommand {
  import opened Wrappers
  import opened DocModel
  import opened RemoveCommand

  /** What `execute(v)` does to the document. The value is `None` when the
      caller passes `undefined`. */
  function ValueEdit(d: Doc, v: Option<string>): (r: Edit)
    requires WellFormed(d)
    ensures WellFormed(r.doc)
    ensures r.threw <==> d.sel.NoSelection?
    ensures r.threw ==> r.doc == RemoveFirstGhost(d)
    ensures NonGhosts(r.doc.items) == NonGhosts(d.items)
    ensures d.hasRoot && d.sel.Range? && GhostCount(d.items) <= 1 ==> GhostAtCursor(r.doc, Ghost(v, false))
    ensures d.sel.Range? ==>
      && IsCollapsed(r.doc) && r.doc.sel.focus < |r.doc.items|
      && r.doc.sel.focus == RemoveFirstGhost(d).sel.focus
      && r.doc.items[r.doc.sel.focus] == Ghost(v, false)
    ensures r.doc.attrs == d.attrs && r.doc.hasRoot == d.hasRoot
  {
    ReplaceGhost(d, Ghost(v, false))
  }

  class GhostTextCommand {
    var value: Option<string>
    const model: EditorModel
    const remove: GhostTextRemoveCommand

    constructor (model: EditorModel, remove: GhostTextRemoveCommand)
      ensures value == Some("") && this.model == model && this.remove == remove
    {
      value := Some("");
      this.model := model;
      this.remove := remove;
    }

    method Execute(v: Option<string>) returns (threw: bool)
      requires model.Valid() && remove.model == model
      modifies this, model
      ensures model.Valid() && value == v
      ensures Edit(model.doc, threw) == ValueEdit(old(model.doc), v)
    {
      value := v;
      remove.Execute();
      if model.doc.sel.NoSelection? {
        // `writer.insertElement` at a null position throws
        return true;
      }
      var position := model.doc.sel.focus;
      model.Insert(position, [Ghost(v, false)]);
      model.SetSelectionAt(position);
      threw := false;
    }
  }
}
