/**
 * The handlers of utils.py: `delete_links` deletes flagged text and does
 * nothing else, `auto_delete` deletes the incoming message after five
 * minutes, and `admin_only` answers from the caller's chat-member status.
 */
module BotUtils {
  import opened Telegram
  import opened LinkPattern
  import BotMain

  /** Seconds `auto_delete` waits before deleting. */
  const AutoDeleteDelay: nat := 300

  const AdminStatuses: seq<string> := ["administrator", "creator"]
  const GrantedText: string := "You're an admin."
  const RefusedText: string := "You must be an admin to use this command."
  /** `str(e)` of the error raised by reading `chat_id` of a missing message. */
  const MissingChatIdError: string := "'NoneType' object has no attribute 'chat_id'"

  /**
   * One run of `delete_links` on the update's new message, where `outcome`
   * is what the delete call returned: flagged text is deleted at once and a
   * failure is printed; anything else is left alone, and no exception
   * escapes. An update without a new message fails on reading its text,
   * outside the `try`.
   */
  function DeleteLinks(message: Option<Message>, outcome: DeleteOutcome): (run: Run)
    ensures message.None? ==> run == Run([], Raised(AttributeError))
    ensures message.Some? ==>
              var m := message.value;
              && DeleteTargets(run.effects) == (if IsFlagged(m.text) then [m.key] else [])
              && PlannedDeletion(run.effects) == (if IsFlagged(m.text) then DeleteNow(m.key) else NoAction)
              && Printed(run.effects)
                 == (if IsFlagged(m.text) && outcome.DeleteError?
                     then ["Failed to delete message: " + outcome.reason] else [])
              && Warnings(run.effects) == []
              && |run.effects| == |DeleteTargets(run.effects)| + |Printed(run.effects)|
              && (!IsFlagged(m.text) ==> run.effects == [])
              && run.completion == Returned
  {
    if message.None? then
      Run([], Raised(AttributeError))
    else
      var m := message.value;
      if IsFlagged(m.text) then
        var failure := if outcome.DeleteError? then [Print("Failed to delete message: " + outcome.reason)] else [];
        ObserveFirst(Delete(m.key), failure, 0);
        if outcome.DeleteError? then ObserveFirst(failure[0], [], 0); Run([Delete(m.key)] + failure, Returned)
        else Run([Delete(m.key)] + failure, Returned)
      else
        Run([], Returned)
  }

  /**
   * One run of `auto_delete`: after the delay the message with the new
   * message's chat and message id is deleted, whatever its text, and a
   * failure is printed. For an update without a new message, such as an
   * edited message or a channel post, the `try` fails after the delay, when
   * the ids are read: the error is printed and nothing is deleted.
   */
  function AutoDelete(message: Option<Message>, outcome: DeleteOutcome): (run: Run)
    ensures message.Some? ==>
              && DeleteTargets(run.effects) == [message.value.key]
              && PlannedDeletion(run.effects) == DeleteAfter(message.value.key, AutoDeleteDelay)
              && Printed(run.effects)
                 == (if outcome.DeleteError? then ["Failed to auto-delete: " + outcome.reason] else [])
    ensures message.None? ==>
              && DeleteTargets(run.effects) == []
              && PlannedDeletion(run.effects) == NoAction
              && Printed(run.effects) == ["Failed to auto-delete: " + MissingChatIdError]
    ensures run.effects[0] == Sleep(AutoDeleteDelay)
    ensures |run.effects| == 1 + |DeleteTargets(run.effects)| + |Printed(run.effects)|
    ensures Warnings(run.effects) == [] && Replies(run.effects) == []
    ensures run.completion == Returned
  {
    if message.None? then
      var failure := [Print("Failed to auto-delete: " + MissingChatIdError)];
      ObserveFirst(failure[0], [], AutoDeleteDelay);
      ObserveFirst(Sleep(AutoDeleteDelay), failure, 0);
      Run([Sleep(AutoDeleteDelay)] + failure, Returned)
    else
      var m := message.value;
      var failure := if outcome.DeleteError? then [Print("Failed to auto-delete: " + outcome.reason)] else [];
      ObserveFirst(Delete(m.key), failure, AutoDeleteDelay);
      ObserveFirst(Sleep(AutoDeleteDelay), [Delete(m.key)] + failure, 0);
      assert [Sleep(AutoDeleteDelay)] + ([Delete(m.key)] + failure) == [Sleep(AutoDeleteDelay), Delete(m.key)] + failure;
      if outcome.DeleteError? then
        ObserveFirst(failure[0], [], 0);
        Run([Sleep(AutoDeleteDelay), Delete(m.key)] + failure, Returned)
      else
        Run([Sleep(AutoDeleteDelay), Delete(m.key)] + failure, Returned)
  }

  /**
   * One run of `admin_only` by `userId` in `chatId`, where `status` is the
   * member status the client reported: it looks the member up, then sends
   * exactly one reply, the admin one iff the status is administrator or creator.
   */
  function AdminOnly(chatId: int, userId: int, status: string): (run: Run)
    ensures |run.effects| == 2 && run.effects[0] == GetMember(chatId, userId)
    ensures |Replies(run.effects)| == 1
    ensures Replies(run.effects) == [GrantedText] <==> status == "administrator" || status == "creator"
    ensures Replies(run.effects) == [RefusedText] <==> status != "administrator" && status != "creator"
    ensures run.completion == Returned
  {
    var reply := Reply(if status in AdminStatuses then GrantedText else RefusedText);
    ObserveFirst(reply, [], 0);
    ObserveFirst(GetMember(chatId, userId), [reply], 0);
    assert Replies([reply] + []) == [reply.text];
    assert [reply] + [] == [reply];
    assert |GrantedText| != |RefusedText|;
    Run([GetMember(chatId, userId)] + [reply], Returned)
  }

  /**
   * Both text handlers use one classifier: `delete_links` deletes a message at
   * once exactly when main.py's `filter_message` does.
   */
  lemma SameClassifierAsFilterMessage(m: Message, outcome: DeleteOutcome, other: DeleteOutcome)
    ensures PlannedDeletion(DeleteLinks(Some(m), outcome).effects).DeleteNow?
            <==> PlannedDeletion(BotMain.FilterMessage(Some(m), other).effects).DeleteNow?
  {
  }

  /** Unlike `filter_message`, `delete_links` never deletes unflagged text; only `auto_delete` does. */
  lemma UnflaggedLeftToAutoDelete(m: Message, outcome: DeleteOutcome)
    requires !IsFlagged(m.text)
    ensures DeleteTargets(DeleteLinks(Some(m), outcome).effects) == []
    ensures PlannedDeletion(BotMain.FilterMessage(Some(m), outcome).effects)
            == PlannedDeletion(AutoDelete(Some(m), outcome).effects)
  {
  }
}
