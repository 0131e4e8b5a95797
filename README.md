# localgpt-toolbar: a verified model of the chat store and its editing rules

localgpt-toolbar is a tray chat assistant. It sends a typed question to a
chat-completion API, optionally preceded by a saved "context" (a reusable
system prompt), and keeps every turn in a local SQLite file. This project
models the program's logic in Dafny and proves properties of that model:

- **The store** (`DatabaseManager`, module `DbManager`). It has two tables,
  `contexts` and `chat_messages`, kept as sequences of rows in rowid order.
  AUTOINCREMENT counters hand out fresh ids. Each write method is the
  meaning of one SQL statement:
  - insert into either table;
  - update of `content` and `updated_at` by id;
  - delete by id.

  The three queries are functions of the tables:
  - `get_contexts`: all contexts by name;
  - `get_messages`: two COALESCE filters, oldest first, then a limit;
  - `search_messages`: a LIKE filter on `user_message`, newest first, then
    a limit.

  The SQL pieces these statements rely on have their own module, `Sql`,
  with what each means in SQLite:
  - `=` against NULL;
  - `COALESCE` and `LIMIT` (a negative limit means no bound);
  - `LIKE`: `%` and `_` are wildcards, ASCII letters match case-insensitively;
  - the BINARY collation behind `ORDER BY name`.
- **The chat window's send turn** (module `ChatWindow`). One turn goes
  through these steps:
  - the busy flag `_sending` is set when the coroutine is scheduled;
  - the input is stripped, and blank input ends the turn;
  - the API call suspends the task;
  - after the reply, the window's thread id is fixed if this is the first
    reply;
  - one chat row is written, and three (or two) blocks are appended to the
    history pane;
  - on every exit, the `finally` blocks hide the progress bar and reset the
    flag.

  The task is split at its two scheduling points:
  - `StartSendTask` runs up to the API call;
  - `ResumeSendTask` runs from the API call's return.

  So a second click can be modelled while a turn is in flight. The API's
  answer — a completion, or an exception — is a parameter. Python's
  `str.strip()` is in module `PyText`, with the exact whitespace set of
  `str.isspace`.
- **The request assembly in `OpenAIWrapper.send_message`** (module
  `OpenAiClient`). The caller's message list is a `MessageList` object, and
  the system message is inserted at its front in place.
- **The two context-manager dialogs**, one module for each source file:
  - `ContextManager` models src/context_manager.py;
  - `ContextManagerDialog` models src/context_manager_dialog.py.

  The widgets are reduced to the items' data, the current row, the editor's
  text and the Save button's enabled flag. The Qt signal connections are
  part of the model:
  - a change of current row runs `on_context_selected`;
  - every `setText`/`clear` of the editor emits `textChanged`, which runs
    `on_context_edited`.

  Module `ListWidget` holds Qt's rule for where the current row goes when
  the current item of a single-selection list is taken out. It goes to the
  next item, which then slides up into the removed row. If the removed item
  was the last one, it goes to the previous item. If the list is now empty,
  there is no current row.

Those signal cascades have two visible consequences, both proved:

- After an accepted Add, Save is **enabled**. The final
  `setText(description)` counts as an edit.
- After a confirmed Delete, both dialogs leave the same item current: the
  next one, or the previous one when the last was deleted.
  They differ in what the editor shows
  (`ContextManagerDialog.DeleteInBothDialogs`).
  - src/context_manager.py then selects the row that took the deleted
    item's place, or the new last row. That is the row Qt already chose, so
    no signal fires. The editor shows that item, and Save is disabled.
  - src/context_manager_dialog.py clears the editor instead. That `clear`
    re-enables Save whenever an item is still current. So a Save right
    after the Delete writes empty content into the item that became current
    (`ContextManagerDialog.DeleteThenSave`).

Timestamps, thread ids and the user's answers to dialogs come in as
parameters (`now`, `clock`, `confirmed`, …). They are not read from a
clock or a screen.

Some properties one might expect of the program do not hold in its code,
and the model follows the code:

- `search_messages` has no search-mode parameter. It matches `user_message`
  only, and it does not annotate results with the context's name.
- `add_context` enforces only the UNIQUE constraint, not a non-empty name.
  The dialogs refuse an empty name before they call the store.
- `updated_at` ≥ `created_at` is not enforced. Both come from the caller.

## Model

| member | source | states |
|---|---|---|
| Sql.CoalesceFilterMeaning | src/db_manager.py:95-96 | `col = COALESCE(?, col)` holds iff the column is non-NULL and either the parameter is omitted or equal to it; a NULL column is rejected even with the filter omitted |
| Sql.Limit | src/db_manager.py:98 | `LIMIT n` keeps a prefix of the ordered rows, of length min(n, rows) for n ≥ 0, and every row for a negative n |
| Sql.SurroundPatternMeaning | src/db_manager.py:145-149 | for a query without `%` or `_`, `user_message LIKE '%query%'` holds exactly when the query occurs in the message, ASCII case ignored |
| Sql.UnderscoreInQueryIsWildcard | src/db_manager.py:149 | the query is spliced in unescaped: "a_c" finds "abc", which does not contain "a_c" |
| Sql.TextAtMostTotal | src/db_manager.py:105 | BINARY collation orders any two names one way or the other |
| Sql.TextAtMostAntisymmetric | src/db_manager.py:105 | two names sorting no later than each other are equal |
| Sql.TextAtMostTransitive | src/db_manager.py:105 | BINARY collation is transitive |
| PyText.Strip | src/chat_window.py:110 | `strip()` cuts whitespace runs off both ends only; the result is empty iff the input is all whitespace, otherwise it starts and ends with a non-whitespace character |
| PyText.StripIdempotent | src/chat_window.py:110 | stripping a stripped string changes nothing |
| DbManager.Filter | src/db_manager.py:94-96 | a WHERE clause keeps exactly the rows that pass, in table order, and keeps them all when all pass |
| DbManager.FilterKeepsContextTable | src/db_manager.py:45-51 | removing rows from `contexts` keeps ids ascending and names unique |
| DbManager.UpdatedTable | src/db_manager.py:124-128 | the UPDATE keeps every row's id, name and created_at and every non-matching row; matching rows take the new content and updated_at |
| DbManager.UpdateUnknownIdChangesNothing | src/db_manager.py:126 | an UPDATE whose id matches no row leaves the table as it was |
| DbManager.UpdateKeepsContextTable | src/db_manager.py:120-130 | the UPDATE preserves id freshness and name uniqueness |
| DbManager.DeletedTable | src/db_manager.py:134 | the DELETE keeps exactly the rows whose id differs (non-NULL) from the argument, and the whole table when none matches |
| DbManager.DeleteRemovesExactlyOne | src/db_manager.py:132-135 | deleting a stored row's id removes that row and no other, keeping the table invariant |
| DbManager.SortByTime | src/db_manager.py:97 | `ORDER BY timestamp ASC` yields a permutation of its input in non-decreasing timestamp order |
| DbManager.SortByTimeDescending | src/db_manager.py:146 | `ORDER BY m.timestamp DESC` yields a permutation in non-increasing timestamp order |
| DbManager.SortByName | src/db_manager.py:105 | `ORDER BY name` yields a permutation in BINARY-collation order |
| DbManager.SelectOrderLimit | src/db_manager.py:93-100 | filter, order and limit together return only passing rows, at most the limit, the earliest (or latest) ones, and all of them when the limit is not reached |
| DbManager.DatabaseManager.constructor | src/db_manager.py:45-61 | a new database has both tables empty |
| DbManager.DatabaseManager.AddMessage | src/db_manager.py:68-84 | appends the message with every field as given and a fresh id, which it returns; `contexts` unchanged |
| DbManager.DatabaseManager.AddContext | src/db_manager.py:108-118 | fails iff the name is already stored, then changing nothing; otherwise appends the record under a fresh id, which it returns; `chat_messages` unchanged |
| DbManager.DatabaseManager.UpdateContext | src/db_manager.py:120-130 | `contexts` becomes the UPDATE's table; `chat_messages` unchanged |
| DbManager.DatabaseManager.DeleteContext | src/db_manager.py:132-135 | `contexts` becomes the DELETE's table; `chat_messages` unchanged, including rows that refer to the deleted context |
| DbManager.DatabaseManager.GetContexts | src/db_manager.py:103-106 | every stored context exactly once, sorted by name |
| DbManager.DatabaseManager.GetMessages | src/db_manager.py:86-101 | only stored rows passing both COALESCE filters, oldest first, at most `limit`, the earliest ones, and every passing row when fewer than `limit` |
| DbManager.DatabaseManager.SearchMessages | src/db_manager.py:137-149 | only stored rows whose `user_message` is LIKE `%query%` (the assistant text is never consulted), newest first, at most `limit`, the newest ones, and all of them when fewer than `limit` |
| DbManager.DatabaseManager.SearchMessagesAsWritten | src/db_manager.py:137-151 | the method as written raises iff at least one row would be returned, and otherwise returns nothing |
| DbManager.SearchAsWrittenRaisesOnAHit | src/db_manager.py:142-151 | with one stored message "hello", the search for "ell" selects it, and the method as written raises |
| OpenAiClient.WithContext | src/api/openai_client.py:15-16 | a non-empty context puts one system message first, followed by the original messages in order; an empty one changes nothing |
| OpenAiClient.MessageList.InsertFirst | src/api/openai_client.py:16 | `insert(0, entry)` puts the entry in front of the list's old contents |
| OpenAiClient.OpenAIWrapper.constructor | src/api/openai_client.py:7-9 | the wrapper keeps the configured model, `gpt-4` by default |
| OpenAiClient.OpenAIWrapper.SendMessage | src/api/openai_client.py:11-24 | the caller's list is extended in place with the system message; the request names the wrapper's model and the extended list; a failed call ends in an error, a reply is returned as is |
| ChatWindow.TurnRecord | src/chat_window.py:129-138 | the stored record has no id, the stripped input, the first choice's text, the turn's time and thread id, and the selected context's id or "" for "No Context" |
| ChatWindow.TurnHistory | src/chat_window.py:140-143 | a turn shows the context (when one is selected), then "You", then "Assistant" |
| ChatWindow.NoContextTurnsFiltering | src/chat_window.py:135 | a "No Context" row (context_id "") is found by `get_messages` without a context filter and never by an integer context id |
| ChatWindow.ChatWindow.constructor | src/chat_window.py:28-43 | a new window is idle, has no thread id, and its combo holds "No Context" plus one entry per context |
| ChatWindow.ChatWindow.LoadContexts | src/chat_window.py:158-165 | the combo holds "No Context" (no data) first, then each context of `get_contexts` in order, carrying that context |
| ChatWindow.ChatWindow.HandleSendMessage | src/chat_window.py:93-100 | while a turn is pending nothing is scheduled; otherwise `_sending` is set and the task is scheduled |
| ChatWindow.ChatWindow.StartSendTask | src/chat_window.py:109-122 | blank input after `strip()` ends the turn with no call, the input kept and `_sending` reset; otherwise the input is cleared, the progress bar shown, and the stripped text and selected context are carried to the call |
| ChatWindow.ChatWindow.ResumeSendTask | src/chat_window.py:102-146 | the request carries the context's content as system message and the user's text; a failed call writes nothing and keeps the thread id; a reply fixes the thread id only if unset; a first choice writes exactly one row, `TurnRecord` under a fresh id, and appends the turn; every exit hides the progress bar and resets `_sending` |
| ListWidget.CurrentAfterRemoval | src/context_manager_dialog.py:157 | after the current item is removed, some item is current iff items remain, and its row is within the shortened list |
| ListWidget.RemoveAt | src/context_manager_dialog.py:157 | `takeItem(row)` removes exactly the item at `row`, keeping the others in order |
| ListWidget.CurrentAfterRemovalIsNeighbour | src/context_manager_dialog.py:157 | the item Qt makes current during `takeItem` is the one below the removed item, or the one above when the last was removed; no item is current only when the sole item was removed |
| ContextManager.RowAfterDeleteShowsNext | src/context_manager.py:155-159 | after a delete the item selected is the one that followed the deleted one, or the one before it when the last was deleted; none when the list is empty |
| ContextManager.ContextManagerDialog.constructor | src/context_manager.py:20-24 | the dialog opens with the stored contexts in `get_contexts` order, no current row, and Save disabled |
| ContextManager.ContextManagerDialog.OnContextEdited | src/context_manager.py:86-88 | an edit enables Save exactly when an item is current |
| ContextManager.ContextManagerDialog.SetEditorText | src/context_manager.py:50 | setting the editor's text counts as an edit |
| ContextManager.ContextManagerDialog.OnContextSelected | src/context_manager.py:78-84 | the editor shows the current item's content, or is empty with no current item, and Save is disabled |
| ContextManager.ContextManagerDialog.SetCurrentRow | src/context_manager.py:34 | a change of current row runs the selection handler; setting the same row does nothing |
| ContextManager.ContextManagerDialog.LoadContexts | src/context_manager.py:63-76 | the list holds a copy of each context from `get_contexts`, in order, with no current row |
| ContextManager.ContextManagerDialog.AddContext | src/context_manager.py:90-135 | a cancelled dialog or empty name changes nothing and makes no store call; a duplicate name leaves the list alone; otherwise the context is stored under a fresh id, appended with that id, made current, shown in the editor, and Save is enabled |
| ContextManager.ContextManagerDialog.DeleteContext | src/context_manager.py:137-161 | without a current item or confirmation nothing changes; otherwise exactly that context is deleted from the store and the list, the current row is the same row or the new last one, the editor shows that item (or is empty), and Save is disabled |
| ContextManager.ContextManagerDialog.SaveContext | src/context_manager.py:163-171 | without a current item nothing changes; otherwise only the current item's content (the editor text) and updated_at change, the store row with its id takes them, and Save is disabled |
| ContextManager.RowAfterDeleteIsQtChoice | src/context_manager.py:153-159 | the row the dialog reselects after `takeItem` is the row Qt already made current, so the `setCurrentRow` emits no signal |
| ContextManagerDialog.DeleteInBothDialogs | src/context_manager_dialog.py:142-158 | the same confirmed delete in the two dialogs, over equal lists and stores, leaves the same list, store and current row (the next item, or the previous one); src/context_manager.py shows that item with Save disabled, this dialog shows an empty editor with Save enabled |
| ContextManagerDialog.ContextManagerDialog.constructor | src/context_manager_dialog.py:20-24 | the dialog opens with the stored contexts in `get_contexts` order, no current row, and Save disabled |
| ContextManagerDialog.ContextManagerDialog.OnContextEdited | src/context_manager_dialog.py:81-83 | an edit enables Save exactly when an item is current |
| ContextManagerDialog.ContextManagerDialog.SetEditorText | src/context_manager_dialog.py:52 | setting the editor's text counts as an edit |
| ContextManagerDialog.ContextManagerDialog.OnContextSelected | src/context_manager_dialog.py:73-79 | the editor shows the current item's content, or is empty with no current item, and Save is disabled |
| ContextManagerDialog.ContextManagerDialog.SetCurrentRow | src/context_manager_dialog.py:35 | a change of current row runs the selection handler; setting the same row does nothing |
| ContextManagerDialog.ContextManagerDialog.LoadContexts | src/context_manager_dialog.py:65-71 | the list holds the contexts from `get_contexts`, in order, with no current row |
| ContextManagerDialog.ContextManagerDialog.AddContext | src/context_manager_dialog.py:85-140 | a cancelled dialog or empty name changes nothing and makes no store call; a duplicate name leaves the list alone; otherwise the context is stored under a fresh id, appended with that id, made current, shown in the editor, and Save is enabled |
| ContextManagerDialog.ContextManagerDialog.DeleteContext | src/context_manager_dialog.py:142-158 | without a current item or confirmation nothing changes; otherwise exactly that context is deleted from the store and the list, the next item (or the previous one when the last was deleted) is current, the editor is empty, and Save is enabled iff items remain |
| ContextManagerDialog.ContextManagerDialog.SaveContext | src/context_manager_dialog.py:160-168 | without a current item nothing changes; otherwise only the current item's content (the editor text) and updated_at change, the store row with its id takes them, and Save is disabled |
| ContextManagerDialog.DeleteThenSave | src/context_manager_dialog.py:142-168 | after a confirmed delete Save is enabled, and clicking it writes empty content into the item that became current (the next one, or the previous one), in the list and in the store |

## Left out

- SQLite itself is not modelled: connections, `row_factory`, the `executescript` schema creation, the timestamp adapters, and file or lock errors. The "storage unavailable" failures therefore do not appear.
- DbManager.DatabaseManager.constructor: models opening a new file, with both tables empty. `CREATE TABLE IF NOT EXISTS` keeps the rows of an existing file. Every other method accepts any store satisfying `Valid()`, which covers a reopened file.
- Timestamps are integers compared numerically. The store really compares the adapter's ISO text; the two orders agree for the values the program writes.
- `ORDER BY` leaves ties unspecified in SQL. The model breaks them by rowid: a stable sort ascending, and its reverse descending. The proved properties (order, permutation, limit) do not depend on this choice.
- The foreign key `chat_messages.context_id → contexts.id` is not enforced. SQLite's foreign-key checks are off by default, so the code does not enforce it either.
- `context_id` is declared `Optional[int]`, but the window stores `""` for "No Context". It is modelled as a separate value, `EmptyText`, which never equals an integer id.
- The thread id is a float built from `datetime.now().timestamp()`. Here it is an opaque integer key, passed in as `clock`. The turn's `timestamp` is a second, separate clock reading (`now`).
- The network call of `chat.completions.create`, `AsyncOpenAI`, `asyncio.create_task` and the qasync event loop are not modelled. The call's outcome is a parameter, and scheduling is the explicit phase field.
- Logging: `self.logger` does not exist in either class, so each `logger` call raises `AttributeError`. `ChatWindow.ChatWindow.HandleSendMessage` reports the busy case as "not started". `OpenAiClient.OpenAIWrapper.SendMessage` ends a failed call with an error, which stands for the exception that escapes.
- An exception escaping a turn (a failed call, or a reply without choices) ends the task after its `finally` blocks. The model returns it as an error. What asyncio does with the unretrieved task exception is not modelled.
- A reply whose first choice has `None` content is not modelled; the reply text is a string.
- `QTextEdit.setText` may interpret its argument as rich text. The model assumes the editor's plain text is the string set. It also assumes that every `setText`/`clear` emits `textChanged`.
- Qt's current-row rule after `takeItem` (`ListWidget.CurrentAfterRemoval`) belongs to Qt's single-selection list view, not to this repository. It is stated as an assumption, for lists whose items are all visible and enabled.
- Exceptions raised inside Qt slots are represented only by the state they leave: the busy path's `AttributeError` in `handle_send_message` (src/chat_window.py:95), reported as "not started", and the duplicate-name `IntegrityError` of `add_context` (src/context_manager.py:127, src/context_manager_dialog.py:130), reported as `Failed`. What happens to the process is not modelled. By default PyQt 5.5 and later abort on an unhandled exception in a slot, and no exception hook is installed.
- The widgets' appearance, layouts, shortcuts, `clear_chat` and `closeEvent`, the tray application, `main.py`, `src/main.py`, `setup.py`, configuration and settings dialogs, and resource copying are not modelled.
- src/search_dialog.py is not part of this model. It passes its mode string as `search_messages`' `limit`.
- src/ui/chat_window.py is not part of this model. It is a divergent copy written against a database module that is not in the repository.
- Aliasing between objects is not modelled. The window and the dialogs share one `DatabaseManager`, and the dialogs' list items share context objects. The model keeps contexts as values and the store as one object.

## Findings

| source | as written | input that shows it | evidently intended | confidence | as-written member | corrected member |
|---|---|---|---|---|---|---|
| src/db_manager.py:142-151 | the SELECT adds a `context_name` column, and `ChatMessage(**dict(row))` rejects it, so every non-empty search raises `TypeError` | one stored message "hello", `search_messages("ell")` | return the matching messages, newest first, at most `limit` | high, not executed | DbManager.DatabaseManager.SearchMessagesAsWritten | DbManager.DatabaseManager.SearchMessages |
