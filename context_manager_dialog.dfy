/**
 * `ContextManagerDialog` of src/context_manager_dialog.py, the second copy
 * of the context manager. It is abstracted as in the `ContextManager`
 * module: items' data, current row (-1 for none), editor text and the Save
 * button's enabled flag, with `on_context_selected` run on every change of
 * current row and `on_context_edited` on every `setText`/`clear` of the
 * editor. It differs in two places: the list items hold the contexts that
 * `get_contexts` returned rather than copies, and `delete_context` makes
 * no reselection of its own: it clears the editor after Qt has moved the
 * current row to the removed item's neighbour. `DeleteInBothDialogs`
 * compares the two deletes.
 */
module ContextManagerDialog {
  import opened Wrappers
  import opened DbManager
  import opened ListWidget
  import ContextManager

  /** How `add_context` ends: the name dialog or the description dialog was
      dismissed (or the name was empty), the context was stored under an id,
      or `db.add_context` raised. */
  datatype AddOutcome = Cancelled | Added(id: int) | Failed(error: DbError)

  class ContextManagerDialog {
    const db: DatabaseManager
    /** The `UserRole` data of each list item, in list order. */
    var items: seq<Context>
    var currentRow: int
    var editorText: string
    var saveEnabled: bool

    ghost predicate Valid()
      reads this, db
    {
      db.Valid() && -1 <= currentRow < |items|
    }

    /** `__init__`: the Save button starts disabled, then `load_contexts`. */
    constructor (db: DatabaseManager)
      requires db.Valid()
      ensures Valid() && this.db == db
      ensures items == db.GetContexts() && currentRow == -1
      ensures editorText == "" && !saveEnabled
    {
      this.db := db;
      items := [];
      currentRow := -1;
      editorText := "";
      saveEnabled := false;
      new;
      LoadContexts();
    }

    /** `on_context_edited`: any edit enables Save while an item is current. */
    method OnContextEdited()
      modifies this`saveEnabled
      ensures saveEnabled == (old(saveEnabled) || currentRow != -1)
    {
      if currentRow != -1 {
        saveEnabled := true;
      }
    }

    /** `setText`/`clear` on the editor, which emits `textChanged`. */
    method SetEditorText(text: string)
      modifies this`editorText, this`saveEnabled
      ensures editorText == text
      ensures saveEnabled == (old(saveEnabled) || currentRow != -1)
    {
      editorText := text;
      OnContextEdited();
    }

    /** `on_context_selected`: the editor shows the new current item's
        content (or is cleared when there is none) and Save is disabled. */
    method OnContextSelected()
      requires -1 <= currentRow < |items|
      modifies this`editorText, this`saveEnabled
      ensures editorText == if currentRow == -1 then "" else items[currentRow].content
      ensures !saveEnabled
    {
      if currentRow != -1 {
        SetEditorText(items[currentRow].content);
      } else {
        SetEditorText("");
      }
      saveEnabled := false;
    }

    /** `setCurrentRow`/`setCurrentItem`: `currentItemChanged` is emitted
        only when the row actually changes. */
    method SetCurrentRow(row: int)
      requires -1 <= row < |items|
      modifies this`currentRow, this`editorText, this`saveEnabled
      ensures currentRow == row
      ensures row != old(currentRow) ==>
        editorText == (if row == -1 then "" else items[row].content) && !saveEnabled
      ensures row == old(currentRow) ==> editorText == old(editorText) && saveEnabled == old(saveEnabled)
    {
      if row != currentRow {
        currentRow := row;
        OnContextSelected();
      }
    }

    /** `load_contexts`: the list is cleared (dropping the current row) and
        refilled with the contexts from `get_contexts`, in that order. */
    method LoadContexts()
      requires Valid()
      modifies this`items, this`currentRow, this`editorText, this`saveEnabled
      ensures Valid()
      ensures items == db.GetContexts() && currentRow == -1
      ensures old(currentRow) != -1 ==> editorText == "" && !saveEnabled
      ensures old(currentRow) == -1 ==> editorText == old(editorText) && saveEnabled == old(saveEnabled)
    {
      var contexts := db.GetContexts();
      SetCurrentRow(-1);
      items := [];
      for i := 0 to |contexts|
        invariant items == contexts[..i]
        modifies this`items
      {
        items := items + [contexts[i]];
      }
    }

    /** `add_context`: nothing happens unless a non-empty name was entered
        and the description dialog accepted. Then the context is stored; if
        the store raises, the list is left alone. Otherwise the new item,
        carrying the returned id, is appended and made current, and the
        editor is set to the description, which enables Save. */
    method AddContext(nameOk: bool, name: string, accepted: bool, description: string,
                      createdAt: Timestamp, updatedAt: Timestamp) returns (outcome: AddOutcome)
      requires Valid()
      modifies this`items, this`currentRow, this`editorText, this`saveEnabled, db
      ensures Valid()
      ensures db.messages == old(db.messages)
      ensures !nameOk || name == "" || !accepted ==>
        outcome == Cancelled && db.contexts == old(db.contexts) && items == old(items)
        && currentRow == old(currentRow) && editorText == old(editorText) && saveEnabled == old(saveEnabled)
      ensures outcome.Failed? ==>
        NameTaken(old(db.contexts), name) && db.contexts == old(db.contexts) && items == old(items)
        && currentRow == old(currentRow) && editorText == old(editorText) && saveEnabled == old(saveEnabled)
      ensures nameOk && name != "" && accepted && !NameTaken(old(db.contexts), name) ==> outcome.Added?
      ensures outcome.Added? ==>
        var added := Context(Some(outcome.id), name, description, createdAt, updatedAt);
        && (forall i :: 0 <= i < |old(db.contexts)| ==> old(db.contexts)[i].id != Some(outcome.id))
        && db.contexts == old(db.contexts) + [added]
        && items == old(items) + [added]
        && currentRow == |items| - 1 && editorText == description && saveEnabled
    {
      if !nameOk || name == "" {
        return Cancelled;
      }
      if !accepted {
        return Cancelled;
      }
      var context := Context(None, name, description, createdAt, updatedAt);
      var r := db.AddContext(context);
      if r.Err? {
        return Failed(r.error);
      }
      context := context.(id := Some(r.value));
      items := items + [context];
      SetCurrentRow(|items| - 1);
      SetEditorText(description);
      outcome := Added(r.value);
    }

    /** `delete_context`: with no current item, or when the confirmation is
        declined, nothing happens. Otherwise the current item's context is
        deleted from the store and the item taken out of the list; Qt moves
        the current row to the next item, or the previous one (running
        `on_context_selected`), and the editor is then cleared. That `clear` emits `textChanged`, so
        Save ends up enabled whenever an item is still current. */
    method DeleteContext(confirmed: bool)
      requires Valid()
      modifies this`items, this`currentRow, this`editorText, this`saveEnabled, db
      ensures Valid()
      ensures db.messages == old(db.messages)
      ensures old(currentRow) == -1 || !confirmed ==>
        db.contexts == old(db.contexts) && items == old(items)
        && currentRow == old(currentRow) && editorText == old(editorText) && saveEnabled == old(saveEnabled)
      ensures old(currentRow) != -1 && confirmed ==>
        && db.contexts == DeletedTable(old(db.contexts), old(items)[old(currentRow)].id)
        && items == RemoveAt(old(items), old(currentRow))
        && currentRow == CurrentAfterRemoval(old(currentRow), |items|)
        && editorText == ""
        && saveEnabled == (|items| > 0)
    {
      if currentRow == -1 {
        return;
      }
      if !confirmed {
        return;
      }
      var row := currentRow;
      db.DeleteContext(items[row].id);
      // takeItem(row)
      items := RemoveAt(items, row);
      currentRow := CurrentAfterRemoval(row, |items|);
      OnContextSelected();
      SetEditorText("");
    }

    /** `save_context`: with no current item nothing happens. Otherwise the
        current item's context gets the editor's text as content and `now`
        as its update time, in place, that context is written back with
        `update_context`, and Save is disabled. */
    method SaveContext(now: Timestamp)
      requires Valid()
      modifies this`items, this`saveEnabled, db
      ensures Valid()
      ensures db.messages == old(db.messages) && currentRow == old(currentRow) && editorText == old(editorText)
      ensures currentRow == -1 ==>
        items == old(items) && db.contexts == old(db.contexts) && saveEnabled == old(saveEnabled)
      ensures currentRow != -1 ==>
        && items == old(items)[currentRow := old(items)[currentRow].(content := editorText, updatedAt := now)]
        && db.contexts == UpdatedTable(old(db.contexts), items[currentRow])
        && !saveEnabled
    {
      if currentRow == -1 {
        return;
      }
      var context := items[currentRow].(content := editorText, updatedAt := now);
      items := items[currentRow := context];
      db.UpdateContext(context);
      saveEnabled := false;
    }
  }

  /** A confirmed delete followed by Save, with items left: Save is enabled
      and the editor empty after the delete, so the item that became
      current (the next one, or the previous one) is written back with
      empty content. */
  method DeleteThenSave(d: ContextManagerDialog, now: Timestamp)
    requires d.Valid() && d.currentRow != -1 && |d.items| > 1
    modifies d, d.db
    ensures d.Valid()
    ensures var r := CurrentAfterRemoval(old(d.currentRow), |old(d.items)| - 1);
      && d.currentRow == r
      && d.items[r] == RemoveAt(old(d.items), old(d.currentRow))[r].(content := "", updatedAt := now)
      && d.db.contexts == UpdatedTable(DeletedTable(old(d.db.contexts), old(d.items)[old(d.currentRow)].id), d.items[r])
  {
    d.DeleteContext(true);
    assert d.saveEnabled;   // the Save click is possible
    d.SaveContext(now);
  }

  /** The same confirmed delete in both dialogs, over equal lists and stores:
      both end with the same list, the same store and the same current row
      (Qt's choice, which the reselection in src/context_manager.py repeats),
      but src/context_manager.py shows that item's content with Save
      disabled, while this dialog shows an empty editor with Save enabled. */
  method DeleteInBothDialogs(a: ContextManager.ContextManagerDialog, b: ContextManagerDialog)
    requires a.Valid() && b.Valid() && a.db != b.db
    requires a.items == b.items && a.currentRow == b.currentRow && a.currentRow != -1
    requires a.db.contexts == b.db.contexts
    modifies a, a.db, b, b.db
    ensures a.Valid() && b.Valid()
    ensures a.items == b.items && a.currentRow == b.currentRow && a.db.contexts == b.db.contexts
    ensures a.items == RemoveAt(old(a.items), old(a.currentRow))
    ensures a.currentRow == CurrentAfterRemoval(old(a.currentRow), |a.items|)
    ensures a.currentRow != -1 ==>
      && a.editorText == a.items[a.currentRow].content && !a.saveEnabled
      && b.editorText == "" && b.saveEnabled
    ensures a.currentRow == -1 ==> a.editorText == b.editorText == "" && !a.saveEnabled && !b.saveEnabled
  {
    a.DeleteContext(true);
    b.DeleteContext(true);
    ContextManager.RowAfterDeleteIsQtChoice(old(a.currentRow), |a.items|);
  }
}
