/** `GhostTextLoadingCommand` (src/ghost-text-loading-command.ts): stores the
    loading flag in its `value`; setting it shows a loading ghost. */
module LoadingCommand {
  import opened Wrappers
  import opened DocModel
  import opened RemoveCommand

  /** What `execute(b)` does to the document. */
  function LoadingEdit(d: Doc, b: bool): (r: Edit)
    requires WellFormed(d)
    ensures WellFormed(r.doc)
    ensures !b ==> r == Edit(d, false)
    ensures b ==> (r.threw <==> d.sel.NoSelection?)
    ensures b && r.threw ==> r.doc == RemoveFirstGhost(d)
    ensures NonGhosts(r.doc.items) == NonGhosts(d.items)
    ensures b && d.hasRoot && d.sel.Range? && GhostCount(d.items) <= 1 ==> GhostAtCursor(r.doc, Ghost(None, true))
    ensures b && d.sel.Range? ==>
      && IsCollapsed(r.doc) && r.doc.sel.focus < |r.doc.items|
      && r.doc.sel.focus == RemoveFirstGhost(d).sel.focus
      && r.doc.items[r.doc.sel.focus] == Ghost(None, true)
    ensures r.doc.attrs == d.attrs && r.doc.hasRoot == d.hasRoot
  {
    if !b then Edit(d, false) else ReplaceGhost(d, Ghost(None, true))
  }

  class GhostTextLoadingCommand {
    var value: bool
    const model: EditorModel
    const remove: GhostTextRemoveCommand

    constructor (model: EditorModel, remove: GhostTextRemoveCommand)
      ensures !value && this.model == model && this.remove == remove
    {
      value := false;
      this.model := model;
      this.remove := remove;
    }

    method Execute(loadingValue: bool) returns (threw: bool)
      requires model.Valid() && remove.model == model
      modifies this, model
      ensures model.Valid() && value == loadingValue
      ensures Edit(model.doc, threw) == LoadingEdit(old(model.doc), loadingValue)
    {
      value := loadingValue;
      if !loadingValue {
        return false;
      }
      remove.Execute();
      if model.doc.sel.NoSelection? {
        // `writer.insertElement` at a null position throws
        return true;
      }
      var position := model.doc.sel.focus;
      model.Insert(position, [Ghost(None, loadingValue)]);
      model.SetSelectionAt(position);
      threw := false;
    }
  }
}
