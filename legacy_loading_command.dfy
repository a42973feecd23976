/** The older `GhostTextLoadingCommand` (src/ghosttextloadingcommand.ts): like
    the current one, except that a missing focus makes it return instead of
    throwing. */
module LegacyLoadingCommand {
  import opened Wrappers
  import opened DocModel
  import opened RemoveCommand
  import LoadingCommand

  /** What `execute(b)` does to the document. */
  function LegacyLoadingEdit(d: Doc, b: bool): (r: Doc)
    requires WellFormed(d)
    ensures WellFormed(r)
    ensures !b ==> r == d
    ensures b && d.sel.NoSelection? ==> r == RemoveFirstGhost(d)
    ensures r == LoadingCommand.LoadingEdit(d, b).doc
  {
    if !b then d
    else
      var removed := RemoveFirstGhost(d);
      match removed.sel
      case NoSelection => removed
      case Range(_, position) => SetSelection(InsertAt(removed, position, [Ghost(None, b)]), position)
  }

  class GhostTextLoadingCommand {
    var value: bool
    const model: EditorModel
    const remove: GhostTextRemoveCommand

    constructor (model: EditorModel, remove: GhostTextRemoveCommand)
      ensures !value && this.model == model && this.remove == remove
    {
      value := false;
      this.model := model;
      this.remove := remove;
    }

    method Execute(loadingValue: bool)
      requires model.Valid() && remove.model == model
      modifies this, model
      ensures model.Valid() && value == loadingValue
      ensures model.doc == LegacyLoadingEdit(old(model.doc), loadingValue)
    {
      value := loadingValue;
      if !loadingValue {
        return;
      }
      remove.Execute();
      if model.doc.sel.NoSelection? {
        return;
      }
      var position := model.doc.sel.focus;
      model.Insert(position, [Ghost(None, loadingValue)]);
      model.SetSelectionAt(position);
    }
  }
}
