/**
 * The vocabulary shared by the bot's handlers: messages, the abstract calls a
 * handler makes into the chat client, and what a handler invocation finally
 * does (returns or raises). Telegram client calls are not executed; each one
 * is an `Effect` in the trace a handler produces, and their results are
 * parameters of the handler.
 */
module Telegram {

  datatype Option<T> = None | Some(value: T)

  /** A message is identified by its chat and its id inside that chat. */
  datatype MessageKey = MessageKey(chatId: int, messageId: int)

  /**
   * A new incoming message (`update.message`). A handler receives
   * `Option<Message>`: the update carries no new message when it reports an
   * edited message or a channel post.
   */
  datatype Message = Message(key: MessageKey, text: string)

  /** What escapes when a handler reads an attribute of `None`. */
  const AttributeError: string := "AttributeError"

  /** What a delete call against the client came back with. */
  datatype DeleteOutcome = Deleted | DeleteError(reason: string)

  /** One observable step of a handler. */
  datatype Effect =
    | Sleep(seconds: nat)                  // asyncio.sleep
    | Delete(target: MessageKey)           // message.delete() / bot.delete_message(...)
    | LogWarning(line: string)             // logger.warning
    | Print(line: string)                  // print to standard output
    | GetMember(chatId: int, userId: int)  // chat.get_member
    | Reply(text: string)                  // message.reply_text

  /** How the coroutine ended: normally, or with an exception escaping it. */
  datatype Completion = Returned | Raised(error: string)

  datatype Run = Run(effects: seq<Effect>, completion: Completion)

  /** The deletion a trace performs, read off the trace: none, immediately, or after a wait. */
  datatype Action = NoAction | DeleteNow(target: MessageKey) | DeleteAfter(target: MessageKey, seconds: nat)

  /** The messages deleted by a trace, in order. */
  function DeleteTargets(effects: seq<Effect>): seq<MessageKey>
  {
    if effects == [] then []
    else if effects[0].Delete? then [effects[0].target] + DeleteTargets(effects[1..])
    else DeleteTargets(effects[1..])
  }

  /** The texts of all replies of a trace, in order. */
  function Replies(effects: seq<Effect>): seq<string>
  {
    if effects == [] then []
    else if effects[0].Reply? then [effects[0].text] + Replies(effects[1..])
    else Replies(effects[1..])
  }

  /** Every line a trace logs as a warning, in order. */
  function Warnings(effects: seq<Effect>): seq<string>
  {
    if effects == [] then []
    else if effects[0].LogWarning? then [effects[0].line] + Warnings(effects[1..])
    else Warnings(effects[1..])
  }

  /** Every line a trace prints to standard output, in order. */
  function Printed(effects: seq<Effect>): seq<string>
  {
    if effects == [] then []
    else if effects[0].Print? then [effects[0].line] + Printed(effects[1..])
    else Printed(effects[1..])
  }

  /** The first deletion of a trace, with the total time slept before it. */
  function PlannedDeletion(effects: seq<Effect>): Action
  {
    PlanFrom(effects, 0)
  }

  function PlanFrom(effects: seq<Effect>, waited: nat): Action
  {
    if effects == [] then NoAction
    else match effects[0]
      case Sleep(s) => PlanFrom(effects[1..], waited + s)
      case Delete(t) => if waited == 0 then DeleteNow(t) else DeleteAfter(t, waited)
      case _ => PlanFrom(effects[1..], waited)
  }

  /** How each observer reads a trace that starts with `e`. */
  lemma ObserveFirst(e: Effect, rest: seq<Effect>, waited: nat)
    ensures DeleteTargets([e] + rest) == (if e.Delete? then [e.target] else []) + DeleteTargets(rest)
    ensures Replies([e] + rest) == (if e.Reply? then [e.text] else []) + Replies(rest)
    ensures Warnings([e] + rest) == (if e.LogWarning? then [e.line] else []) + Warnings(rest)
    ensures Printed([e] + rest) == (if e.Print? then [e.line] else []) + Printed(rest)
    ensures e.Sleep? ==> PlanFrom([e] + rest, waited) == PlanFrom(rest, waited + e.seconds)
    ensures e.Delete? ==> PlanFrom([e] + rest, waited)
                          == if waited == 0 then DeleteNow(e.target) else DeleteAfter(e.target, waited)
    ensures !e.Sleep? && !e.Delete? ==> PlanFrom([e] + rest, waited) == PlanFrom(rest, waited)
  {
  }
}
