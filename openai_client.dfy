/**
 * `OpenAIWrapper.send_message`: the message list the caller passes is
 * extended in place with the system instruction, then sent with the
 * wrapper's model to the remote chat-completion endpoint. The endpoint is
 * not modelled; its answer to the request comes in as a parameter.
 */
module OpenAiClient {
  import opened Wrappers

  /** One `{"role": ..., "content": ...}` dict of the request. */
  datatype ChatEntry = ChatEntry(role: string, content: string)

  /** The part of a `ChatCompletion` the window reads: the text of each
      `choices[i].message.content`, in order. */
  datatype Completion = Completion(choices: seq<string>)

  /** What the endpoint is asked: `chat.completions.create(model=..., messages=...)`. */
  datatype Request = Request(model: string, messages: seq<ChatEntry>)

  /** How the remote call ends: a completion, or an exception (network or API error). */
  datatype ApiOutcome = Replied(completion: Completion) | Raised

  /** The exception `send_message` raises. Its `except` block calls the
      missing `self.logger`, so the exception that escapes is an
      AttributeError raised while handling the original one. */
  datatype ApiError = ApiError

  /** The messages sent for `context`: a non-empty context goes first as a
      system message, ahead of the caller's messages in their order; an
      empty one adds nothing. */
  function WithContext(messages: seq<ChatEntry>, context: string): (r: seq<ChatEntry>)
    ensures context != "" ==> |r| == |messages| + 1 && r[0] == ChatEntry("system", context) && r[1..] == messages
    ensures context == "" ==> r == messages
  {
    if context != "" then [ChatEntry("system", context)] + messages else messages
  }

  /** A Python list of message dicts, shared by reference with the caller. */
  class MessageList {
    var items: seq<ChatEntry>

    constructor (items: seq<ChatEntry>)
      ensures this.items == items
    {
      this.items := items;
    }

    /** `list.insert(0, entry)`. */
    method InsertFirst(entry: ChatEntry)
      modifies this
      ensures items == [entry] + old(items)
    {
      items := [entry] + items;
    }
  }

  class OpenAIWrapper {
    /** The model every request names (`gpt-4` unless configured otherwise). */
    const model: string

    constructor (model: string := "gpt-4")
      ensures this.model == model
    {
      this.model := model;
    }

    /** `send_message(messages, context)`: prepends the system message to the
        caller's list when `context` is non-empty, sends the list with this
        wrapper's model, and returns the completion or raises. */
    method SendMessage(messages: MessageList, context: string, outcome: ApiOutcome)
      returns (request: Request, r: Result<Completion, ApiError>)
      modifies messages
      ensures messages.items == WithContext(old(messages.items), context)
      ensures request == Request(model, messages.items)
      ensures outcome.Replied? ==> r == Ok(outcome.completion)
      ensures outcome.Raised? ==> r.Err?
    {
      if context != "" {
        messages.InsertFirst(ChatEntry("system", context));
      }
      request := Request(model, messages.items);
      match outcome
      case Replied(completion) =>
        r := Ok(completion);
      case Raised =>
        r := Err(ApiError);
    }
  }
}
