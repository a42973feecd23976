/** The older `GhostTextCommand` (src/ghosttextcommand.ts): like the current
    one, except that a missing focus makes it return instead of throwing. */
module LegacyValueCommand {
  import opened Wrappers
  import opened DocModel
  import opened RemoveCommand
  import ValueCommand

  /** What `execute(v)` does to the document. */
  function LegacyValueEdit(d: Doc, v: Option<string>): (r: Doc)
    requires WellFormed(d)
    ensures WellFormed(r)
    ensures d.sel.NoSelection? ==> r == RemoveFirstGhost(d)
    ensures r == ValueCommand.ValueEdit(d, v).doc
  {
    var removed := RemoveFirstGhost(d);
    match removed.sel
    case NoSelection => removed
    case Range(_, position) => SetSelection(InsertAt(removed, position, [Ghost(v, false)]), position)
  }

  class GhostTextCommand {
    var value: Option<string>
    const model: EditorModel
    const remove: GhostTextRemoveCommand

    constructor (model: EditorModel, remove: GhostTextRemoveCommand)
      ensures value == Some("") && this.model == model && this.remove == remove
    {
      value := Some("");
      this.model := model;
      this.remove := remove;
    }

    method Execute(v: Option<string>)
      requires model.Valid() && remove.model == model
      modifies this, model
      ensures model.Valid() && value == v
      ensures model.doc == LegacyValueEdit(old(model.doc), v)
    {
      value := v;
      remove.Execute();
      if model.doc.sel.NoSelection? {
        return;
      }
      var position := model.doc.sel.focus;
      model.Insert(position, [Ghost(v, false)]);
      model.SetSelectionAt(position);
    }
  }
}
