/**
 * `ContextManagerDialog` of src/context_manager.py: a list of the stored
 * contexts, an editor for the current one's content, and a Save button.
 *
 * The widgets are abstracted to the items' data (`items`), the list's
 * current row (`currentRow`, -1 for none), the editor's plain text and the
 * Save button's enabled flag. The two Qt signal connections are part of the
 * state rule: a change of current row runs `on_context_selected`
 * (`OnContextSelected`), and every `setText`/`clear` of the editor runs
 * `on_context_edited` (`OnContextEdited`, through `SetEditorText`).
 * The user's answers to the input, description and confirmation dialogs
 * are parameters, and so are the readings of `datetime.now()`.
 */
module ContextManager {
  import opened Wrappers
  import opened DbManager
  import opened ListWidget

  /** How `add_context` ends: the name dialog or the description dialog was
      dismissed (or the name was empty), the context was stored under an id,
      or `db.add_context` raised. */
  datatype AddOutcome = Cancelled | Added(id: int) | Failed(error: DbError)

  /** Where this dialog puts the current row after deleting the item at
      `row`, leaving `count` items: the same row, which now holds the next
      item, or the new last row when the last item was deleted. */
  function RowAfterDelete(row: nat, count: nat): int
  {
    if count == 0 then -1 else if row < count then row else count - 1
  }

  /** After a delete the item shown is the one that followed the deleted
      item, or, when the last item was deleted, the one before it; an empty
      list has no current row. */
  lemma RowAfterDeleteShowsNext<T>(items: seq<T>, row: nat)
    requires row < |items|
    ensures var r := RowAfterDelete(row, |items| - 1);
      && (r == -1 <==> |items| == 1)
      && (r != -1 ==> 0 <= r < |items| - 1)
      && (row + 1 < |items| ==> RemoveAt(items, row)[r] == items[row + 1])
      && (row + 1 == |items| && row > 0 ==> RemoveAt(items, row)[r] == items[row - 1])
  {
  }

  /** The reselection picks the row Qt already made current while taking
      the item out, so its `setCurrentRow` changes nothing and emits no
      signal. */
  lemma RowAfterDeleteIsQtChoice(row: nat, count: nat)
    requires row <= count
    ensures RowAfterDelete(row, count) == CurrentAfterRemoval(row, count)
  {
  }

  class ContextManagerDialog {
    const db: DatabaseManager
    /** The `UserRole` data of each list item, in list order. */
    var items: seq<Context>
    var currentRow: int
    var editorText: string
    var saveEnabled: bool

    ghost predicate Valid()
      reads this, db
    {
      db.Valid() && -1 <= currentRow < |items|
    }

    /** `__init__`: the Save button starts disabled, then `load_contexts`. */
    constructor (db: DatabaseManager)
      requires db.Valid()
      ensures Valid() && this.db == db
      ensures items == db.GetContexts() && currentRow == -1
      ensures editorText == "" && !saveEnabled
    {
      this.db := db;
      items := [];
      currentRow := -1;
      editorText := "";
      saveEnabled := false;
      new;
      LoadContexts();
    }

    /** `on_context_edited`: any edit enables Save while an item is current. */
    method OnContextEdited()
      modifies this`saveEnabled
      ensures saveEnabled == (old(saveEnabled) || currentRow != -1)
    {
      if currentRow != -1 {
        saveEnabled := true;
      }
    }

    /** `setText`/`clear` on the editor, which emits `textChanged`. */
    method SetEditorText(text: string)
      modifies this`editorText, this`saveEnabled
      ensures editorText == text
      ensures saveEnabled == (old(saveEnabled) || currentRow != -1)
    {
      editorText := text;
      OnContextEdited();
    }

    /** `on_context_selected`: the editor shows the new current item's
        content (or is cleared when there is none) and Save is disabled. */
    method OnContextSelected()
      requires -1 <= currentRow < |items|
      modifies this`editorText, this`saveEnabled
      ensures editorText == if currentRow == -1 then "" else items[currentRow].content
      ensures !saveEnabled
    {
      if currentRow != -1 {
        SetEditorText(items[currentRow].content);
      } else {
        SetEditorText("");
      }
      saveEnabled := false;
    }

    /** `setCurrentRow`/`setCurrentItem`: `currentItemChanged` is emitted
        only when the row actually changes. */
    method SetCurrentRow(row: int)
      requires -1 <= row < |items|
      modifies this`currentRow, this`editorText, this`saveEnabled
      ensures currentRow == row
      ensures row != old(currentRow) ==>
        editorText == (if row == -1 then "" else items[row].content) && !saveEnabled
      ensures row == old(currentRow) ==> editorText == old(editorText) && saveEnabled == old(saveEnabled)
    {
      if row != currentRow {
        currentRow := row;
        OnContextSelected();
      }
    }

    /** `load_contexts`: the list is cleared (dropping the current row) and
        refilled with a field-by-field copy of each context from
        `get_contexts`, in that order. */
    method LoadContexts()
      requires Valid()
      modifies this`items, this`currentRow, this`editorText, this`saveEnabled
      ensures Valid()
      ensures items == db.GetContexts() && currentRow == -1
      ensures old(currentRow) != -1 ==> editorText == "" && !saveEnabled
      ensures old(currentRow) == -1 ==> editorText == old(editorText) && saveEnabled == old(saveEnabled)
    {
      var contexts := db.GetContexts();
      SetCurrentRow(-1);
      items := [];
      for i := 0 to |contexts|
        invariant items == contexts[..i]
        modifies this`items
      {
        var c := contexts[i];
        items := items + [Context(c.id, c.name, c.content, c.createdAt, c.updatedAt)];
      }
    }

    /** `add_context`: nothing happens unless a non-empty name was entered
        and the description dialog accepted. Then the context is stored; if
        the store raises, the list is left alone. Otherwise the new item,
        carrying the returned id, is appended and made current, and the
        editor is set to the description, which enables Save. */
    method AddContext(nameOk: bool, name: string, accepted: bool, description: string,
                      createdAt: Timestamp, updatedAt: Timestamp) returns (outcome: AddOutcome)
      requires Valid()
      modifies this`items, this`currentRow, this`editorText, this`saveEnabled, db
      ensures Valid()
      ensures db.messages == old(db.messages)
      ensures !nameOk || name == "" || !accepted ==>
        outcome == Cancelled && db.contexts == old(db.contexts) && items == old(items)
        && currentRow == old(currentRow) && editorText == old(editorText) && saveEnabled == old(saveEnabled)
      ensures outcome.Failed? ==>
        NameTaken(old(db.contexts), name) && db.contexts == old(db.contexts) && items == old(items)
        && currentRow == old(currentRow) && editorText == old(editorText) && saveEnabled == old(saveEnabled)
      ensures nameOk && name != "" && accepted && !NameTaken(old(db.contexts), name) ==> outcome.Added?
      ensures outcome.Added? ==>
        var added := Context(Some(outcome.id), name, description, createdAt, updatedAt);
        && (forall i :: 0 <= i < |old(db.contexts)| ==> old(db.contexts)[i].id != Some(outcome.id))
        && db.contexts == old(db.contexts) + [added]
        && items == old(items) + [added]
        && currentRow == |items| - 1 && editorText == description && saveEnabled
    {
      if !nameOk || name == "" {
        return Cancelled;
      }
      if !accepted {
        return Cancelled;
      }
      var context := Context(None, name, description, createdAt, updatedAt);
      var r := db.AddContext(context);
      if r.Err? {
        return Failed(r.error);
      }
      context := context.(id := Some(r.value));
      items := items + [context];
      SetCurrentRow(|items| - 1);
      SetEditorText(description);
      outcome := Added(r.value);
    }

    /** `delete_context`: with no current item, or when the confirmation is
        declined, nothing happens. Otherwise the current item's context is
        deleted from the store and the item taken out of the list (Qt moves
        the current row to the next item, or the previous one, which runs
        `on_context_selected`); then the row at the deleted position, or the
        last row, is made current, which is the row Qt chose, or the editor
        is cleared when the list is empty. */
    method DeleteContext(confirmed: bool)
      requires Valid()
      modifies this`items, this`currentRow, this`editorText, this`saveEnabled, db
      ensures Valid()
      ensures db.messages == old(db.messages)
      ensures old(currentRow) == -1 || !confirmed ==>
        db.contexts == old(db.contexts) && items == old(items)
        && currentRow == old(currentRow) && editorText == old(editorText) && saveEnabled == old(saveEnabled)
      ensures old(currentRow) != -1 && confirmed ==>
        && db.contexts == DeletedTable(old(db.contexts), old(items)[old(currentRow)].id)
        && items == RemoveAt(old(items), old(currentRow))
        && currentRow == RowAfterDelete(old(currentRow), |items|)
        && editorText == (if currentRow == -1 then "" else items[currentRow].content)
        && !saveEnabled
    {
      if currentRow == -1 {
        return;
      }
      if !confirmed {
        return;
      }
      var row := currentRow;
      db.DeleteContext(items[row].id);
      // takeItem(row)
      items := RemoveAt(items, row);
      currentRow := CurrentAfterRemoval(row, |items|);
      OnContextSelected();
      if |items| > 0 {
        if row < |items| {
          SetCurrentRow(row);
        } else {
          SetCurrentRow(|items| - 1);
        }
      } else {
        SetEditorText("");
      }
    }

    /** `save_context`: with no current item nothing happens. Otherwise the
        current item's context gets the editor's text as content and `now`
        as its update time, in place, that context is written back with
        `update_context`, and Save is disabled. */
    method SaveContext(now: Timestamp)
      requires Valid()
      modifies this`items, this`saveEnabled, db
      ensures Valid()
      ensures db.messages == old(db.messages) && currentRow == old(currentRow) && editorText == old(editorText)
      ensures currentRow == -1 ==>
        items == old(items) && db.contexts == old(db.contexts) && saveEnabled == old(saveEnabled)
      ensures currentRow != -1 ==>
        && items == old(items)[currentRow := old(items)[currentRow].(content := editorText, updatedAt := now)]
        && db.contexts == UpdatedTable(old(db.contexts), items[currentRow])
        && !saveEnabled
    {
      if currentRow == -1 {
        return;
      }
      var context := items[currentRow].(content := editorText, updatedAt := now);
      items := items[currentRow := context];
      db.UpdateContext(context);
      saveEnabled := false;
    }
  }
}
