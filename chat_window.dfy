/**
 * The send-turn rule of `ChatWindow`. A click calls `handle_send_message`,
 * which sets the busy flag and schedules the coroutine with
 * `asyncio.create_task`; the coroutine later runs `send_message` up to the
 * API call, suspends there, and resumes when the call ends. The model splits
 * the turn at those two points (`StartSendTask`, `ResumeSendTask`) so that
 * a click can arrive while a turn is in flight.
 */
module ChatWindow {
  import opened Wrappers
  import opened Sql
  import opened DbManager
  import opened OpenAiClient
  import opened PyText

  /** An entry of the context combo box: its text and its item data. */
  datatype ComboItem = ComboItem(text: string, data: Option<Context>)

  /** One block `append_message` writes to the history pane: `"\n{sender}: {content}\n"`. */
  datatype HistoryEntry = HistoryEntry(sender: string, content: string)

  /** Where the send coroutine is. */
  datatype SendPhase =
    | Idle                                                // no task
    | Scheduled                                           // created by create_task, not started
    | Awaiting(message: string, context: Option<Context>) // suspended in the API call

  /** Why a resumed turn raised: the API call failed, or the response had no choices (IndexError). */
  datatype SendError = ApiFailed | NoChoices

  const NoContextItem := ComboItem("No Context", None)

  /** `current_context.content if current_context else ""`. */
  function ContextText(context: Option<Context>): string
  {
    if context.Some? then context.value.content else ""
  }

  /** `current_context.id if current_context else ""`, as the store keeps it. */
  function ContextRefOf(context: Option<Context>): Option<ContextRef>
  {
    match context
    case None => Some(EmptyText)
    case Some(c) => if c.id.Some? then Some(ContextId(c.id.value)) else None
  }

  /** The record a successful turn hands to `add_message`. */
  function TurnRecord(message: string, reply: string, context: Option<Context>, now: Timestamp,
                      threadId: Option<ThreadKey>): (m: ChatMessage)
    ensures m.id == None && m.userMessage == message && m.assistantMessage == reply
    ensures m.timestamp == now && m.threadId == threadId
    ensures context.None? ==> m.contextId == Some(EmptyText)
    ensures context.Some? && context.value.id.Some? ==> m.contextId == Some(ContextId(context.value.id.value))
  {
    ChatMessage(None, message, reply, ContextRefOf(context), now, threadId)
  }

  /** What a turn adds to the history pane: the context (when one is
      selected), then the user's message, then the reply. */
  function TurnHistory(message: string, reply: string, context: Option<Context>): (h: seq<HistoryEntry>)
    ensures |h| == if context.Some? then 3 else 2
    ensures h[|h| - 2] == HistoryEntry("You", message) && h[|h| - 1] == HistoryEntry("Assistant", reply)
    ensures context.Some? ==> h[0] == HistoryEntry("Context", context.value.content)
  {
    (if context.Some? then [HistoryEntry("Context", context.value.content)] else [])
    + [HistoryEntry("You", message), HistoryEntry("Assistant", reply)]
  }

  /** A turn sent with "No Context" is stored with context_id "", which
      `get_messages` matches when its context filter is omitted and never
      when it asks for an integer context id. */
  lemma NoContextTurnsFiltering(m: ChatMessage, threadId: Option<ThreadKey>, id: int)
    requires m.contextId == ContextRefOf(None)
    ensures MessageMatches(m, threadId, None) <==> CoalesceFilter(threadId, m.threadId)
    ensures !MessageMatches(m, threadId, Some(ContextId(id)))
  {
  }

  class ChatWindow {
    const apiClient: OpenAIWrapper
    const db: DatabaseManager
    /** `_sending`: a turn is scheduled or in flight. */
    var sending: bool
    var phase: SendPhase
    /** `current_thread_id`: None while the attribute does not exist yet. */
    var currentThreadId: Option<ThreadKey>
    /** The input field's plain text. */
    var inputText: string
    var progressVisible: bool
    /** The history pane, as the blocks appended to it. */
    var history: seq<HistoryEntry>
    var comboItems: seq<ComboItem>
    /** The combo's current index (-1: none). */
    var comboIndex: int

    ghost predicate Valid()
      reads this, db
    {
      db.Valid() && (sending <==> !phase.Idle?) && -1 <= comboIndex < |comboItems|
    }

    /** `currentData()` of the context combo. */
    function CurrentData(): Option<Context>
      reads this
    {
      if 0 <= comboIndex < |comboItems| then comboItems[comboIndex].data else None
    }

    constructor (apiClient: OpenAIWrapper, db: DatabaseManager)
      requires db.Valid()
      ensures Valid()
      ensures this.apiClient == apiClient && this.db == db
      ensures !sending && phase == Idle && currentThreadId == None
      ensures inputText == "" && !progressVisible && history == []
      ensures |comboItems| == |db.GetContexts()| + 1 && comboItems[0] == NoContextItem
      ensures forall k :: 0 <= k < |db.GetContexts()| ==>
        comboItems[k + 1] == ComboItem(db.GetContexts()[k].name, Some(db.GetContexts()[k]))
      ensures comboIndex == 0
    {
      this.apiClient := apiClient;
      this.db := db;
      sending := false;
      phase := Idle;
      currentThreadId := None;
      inputText := "";
      progressVisible := false;
      history := [];
      comboItems := [];
      comboIndex := -1;
      new;
      LoadContexts();
    }

    /** `load_contexts`: "No Context" (no data) first, then one entry per
        context in `get_contexts` order, each carrying that context. */
    method LoadContexts()
      modifies this`comboItems, this`comboIndex
      ensures |comboItems| == |db.GetContexts()| + 1 && comboItems[0] == NoContextItem
      ensures forall k :: 0 <= k < |db.GetContexts()| ==>
        comboItems[k + 1] == ComboItem(db.GetContexts()[k].name, Some(db.GetContexts()[k]))
      ensures comboIndex == 0
    {
      comboItems, comboIndex := [], -1;        // clear()
      comboItems, comboIndex := [NoContextItem], 0;  // the first item of an empty combo becomes current
      var contexts := db.GetContexts();
      for i := 0 to |contexts|
        invariant |comboItems| == i + 1 && comboItems[0] == NoContextItem && comboIndex == 0
        invariant forall k :: 0 <= k < i ==> comboItems[k + 1] == ComboItem(contexts[k].name, Some(contexts[k]))
      {
        comboItems := comboItems + [ComboItem(contexts[i].name, Some(contexts[i]))];
      }
    }

    /** `handle_send_message`: while a turn is pending it starts nothing (it
        then raises on the missing `self.logger`, reported as `false`);
        otherwise it sets `_sending` and schedules the send task. */
    method HandleSendMessage() returns (started: bool)
      requires Valid()
      modifies this`sending, this`phase
      ensures Valid()
      ensures started == !old(sending)
      ensures old(sending) ==> sending && phase == old(phase)
      ensures !old(sending) ==> sending && phase == Scheduled
    {
      if sending {
        return false;
      }
      sending := true;
      phase := Scheduled;
      started := true;
    }

    /** The scheduled task runs `send_message` up to the API call. Blank input
        (after `strip()`) ends the task at once: no call, no write, input kept,
        `_sending` reset. Otherwise the input is cleared, the progress bar
        shown, the selected context read, and the task suspends. */
    method StartSendTask()
      requires Valid() && phase == Scheduled
      modifies this`sending, this`phase, this`inputText, this`progressVisible
      ensures Valid()
      ensures Strip(old(inputText)) == "" ==>
        !sending && phase == Idle && inputText == old(inputText) && progressVisible == old(progressVisible)
      ensures Strip(old(inputText)) != "" ==>
        sending && phase == Awaiting(Strip(old(inputText)), CurrentData()) && inputText == "" && progressVisible
    {
      var message := Strip(inputText);
      if message == "" {
        sending, phase := false, Idle;   // return, then the wrapper's finally
        return;
      }
      inputText := "";
      progressVisible := true;
      phase := Awaiting(message, CurrentData());
    }

    /** The task resumes when the API call ends with `outcome`. After a
        reply the thread id is fixed if it was not yet (from `clock`), and,
        when the reply has a first choice, one chat row is written and the
        turn is shown. A failed call writes nothing and leaves the thread id
        alone. Every way out hides the progress bar and resets `_sending`. */
    method ResumeSendTask(outcome: ApiOutcome, now: Timestamp, clock: ThreadKey)
      returns (request: Request, r: Result<(), SendError>)
      requires Valid() && phase.Awaiting?
      modifies this`sending, this`phase, this`currentThreadId, this`progressVisible, this`history, db
      ensures Valid()
      ensures !sending && phase == Idle && !progressVisible
      ensures request == Request(apiClient.model,
        WithContext([ChatEntry("user", old(phase).message)], ContextText(old(phase).context)))
      ensures db.contexts == old(db.contexts)
      ensures outcome.Raised? ==>
        r == Err(ApiFailed) && currentThreadId == old(currentThreadId)
        && db.messages == old(db.messages) && history == old(history)
      ensures outcome.Replied? ==>
        currentThreadId == if old(currentThreadId).Some? then old(currentThreadId) else Some(clock)
      ensures outcome.Replied? && |outcome.completion.choices| == 0 ==>
        r == Err(NoChoices) && db.messages == old(db.messages) && history == old(history)
      ensures outcome.Replied? && |outcome.completion.choices| > 0 ==>
        var reply := outcome.completion.choices[0];
        && r.Ok?
        && |db.messages| == |old(db.messages)| + 1
        && db.messages[..|old(db.messages)|] == old(db.messages)
        && db.messages[|old(db.messages)|].id.Some?
        && db.messages[|old(db.messages)|]
           == TurnRecord(old(phase).message, reply, old(phase).context, now, currentThreadId)
              .(id := db.messages[|old(db.messages)|].id)
        && history == old(history) + TurnHistory(old(phase).message, reply, old(phase).context)
    {
      var message, context := phase.message, phase.context;
      var messages := new MessageList([ChatEntry("user", message)]);
      var response;
      request, response := apiClient.SendMessage(messages, ContextText(context), outcome);
      if response.Err? {
        r := Err(ApiFailed);
      } else {
        if currentThreadId.None? {
          currentThreadId := Some(clock);
        }
        var choices := response.value.choices;
        if |choices| == 0 {
          r := Err(NoChoices);
        } else {
          var _ := db.AddMessage(TurnRecord(message, choices[0], context, now, currentThreadId));
          history := history + TurnHistory(message, choices[0], context);
          r := Ok(());
        }
      }
      progressVisible := false;        // finally in send_message
      sending, phase := false, Idle;   // finally in _send_message_wrapper
    }
  }
}
