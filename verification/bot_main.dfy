/**
 * The handlers of main.py: the text filter that deletes flagged messages at
 * once and every other text message after five minutes, the `/warn` command
 * over the process-wide warning counter, and the `/admin` command.
 */
module BotMain {
  import opened Telegram
  import opened LinkPattern
  import Decimal

  /** `ADMIN_IDS`: the users allowed to warn. */
  const AdminIds: seq<int> := [123456789]

  /** Seconds a non-flagged message stays before the filter deletes it. */
  const AutoDeleteDelay: nat := 300

  const UsageText: string := "Reply to a user to warn them."
  const MutedText: string := "User muted for repeated violations."
  const IsAdminText: string := "You are an admin."
  const NotAdminText: string := "You are not an admin."

  /** The warnings threshold at which the mute notice is sent. */
  const MuteThreshold: nat := 3

  const WarnedPrefix: string := "User warned. Total warnings: "

  /**
   * The warning reply; the new total can be read back from the digits after
   * the fixed prefix, which carry no leading zero, as `str` writes them.
   */
  function WarnedText(count: nat): (s: string)
    ensures |s| > |WarnedPrefix| && s[..|WarnedPrefix|] == WarnedPrefix
    ensures Decimal.IsDigits(s[|WarnedPrefix|..]) && Decimal.Value(s[|WarnedPrefix|..]) == count
    ensures s[|WarnedPrefix|] == '0' ==> count == 0
  {
    Decimal.FormatRoundTrip(count);
    var s := WarnedPrefix + Decimal.Format(count);
    assert s[|WarnedPrefix|..] == Decimal.Format(count);
    s
  }

  /** `user_id in ADMIN_IDS`: only the one configured id is an admin. */
  predicate IsAdmin(userId: int)
    ensures IsAdmin(userId) <==> userId == 123456789
  {
    userId in AdminIds
  }

  // ---------------------------------------------------------------------------
  // filter_message

  /**
   * One run of `filter_message` on the update's new message; `outcome` is
   * what the client's delete call returned. Flagged text is deleted at once
   * and a failure is logged as a warning; other text is deleted after the
   * delay and a failure is ignored. Either way no exception escapes. An
   * update without a new message (an edited text message passes the text
   * filter) fails on reading its text, outside any `try`.
   */
  function FilterMessage(message: Option<Message>, outcome: DeleteOutcome): (run: Run)
    ensures message.None? ==> run == Run([], Raised(AttributeError))
    ensures message.Some? ==>
              var m := message.value;
              && DeleteTargets(run.effects) == [m.key]
              && PlannedDeletion(run.effects)
                 == (if IsFlagged(m.text) then DeleteNow(m.key) else DeleteAfter(m.key, AutoDeleteDelay))
              && Warnings(run.effects)
                 == (if IsFlagged(m.text) && outcome.DeleteError?
                     then ["Failed to delete message: " + outcome.reason] else [])
              && Printed(run.effects) == []
              && Replies(run.effects) == []
              && |run.effects|
                 == |DeleteTargets(run.effects)| + |Warnings(run.effects)| + (if IsFlagged(m.text) then 0 else 1)
              && run.completion == Returned
  {
    if message.None? then
      Run([], Raised(AttributeError))
    else
      var m := message.value;
      if IsFlagged(m.text) then
        var failure := if outcome.DeleteError? then [LogWarning("Failed to delete message: " + outcome.reason)] else [];
        ObserveFirst(Delete(m.key), failure, 0);
        if outcome.DeleteError? then ObserveFirst(failure[0], [], 0); Run([Delete(m.key)] + failure, Returned)
        else Run([Delete(m.key)] + failure, Returned)
      else
        ObserveFirst(Delete(m.key), [], AutoDeleteDelay);
        ObserveFirst(Sleep(AutoDeleteDelay), [Delete(m.key)], 0);
        Run([Sleep(AutoDeleteDelay)] + [Delete(m.key)], Returned)
  }

  // ---------------------------------------------------------------------------
  // admin

  /** One run of `/admin` from `callerId`: exactly one reply, chosen by membership in `AdminIds`. */
  function Admin(callerId: int): (run: Run)
    ensures |run.effects| == 1 && run.effects[0].Reply?
    ensures Replies(run.effects) == [IsAdminText] <==> IsAdmin(callerId)
    ensures Replies(run.effects) == [NotAdminText] <==> !IsAdmin(callerId)
    ensures run.completion == Returned
  {
    var reply := Reply(if IsAdmin(callerId) then IsAdminText else NotAdminText);
    ObserveFirst(reply, [], 0);
    assert Replies([reply] + []) == [reply.text];
    assert |IsAdminText| != |NotAdminText|;
    Run([reply] + [], Returned)
  }

  // ---------------------------------------------------------------------------
  // warn

  /** `update.message.reply_to_message`: absent, or a message whose sender may be missing. */
  datatype ReplyTarget = NoReply | RepliedTo(sender: Option<int>)

  datatype WarnResult = WarnResult(counts: map<int, nat>, run: Run)

  /** `warn_count.get(userId, 0)`: the stored count, or 0 for a user never warned. */
  function CountOf(counts: map<int, nat>, userId: int): (n: nat)
    ensures userId in counts ==> n == counts[userId]
    ensures userId !in counts ==> n == 0
    ensures AllPositive(counts) ==> (n == 0 <==> userId !in counts)
  {
    if userId in counts then counts[userId] else 0
  }

  /**
   * Every stored count was produced by an increment, so no key holds 0 and a
   * count of 0 from `CountOf` means exactly "never warned".
   */
  ghost predicate AllPositive(counts: map<int, nat>)
  {
    forall u :: u in counts ==> counts[u] >= 1
  }

  /**
   * One run of `/warn` from `callerId` against the counters `counts`: the
   * counters afterwards and the trace. Non-admins are ignored silently; a
   * command that replies to nothing gets the usage hint; a replied-to message
   * without a sender raises before anything changes.
   */
  function WarnStep(counts: map<int, nat>, callerId: int, target: ReplyTarget): (r: WarnResult)
    ensures !IsAdmin(callerId) ==> r.counts == counts && r.run == Run([], Returned)
    ensures IsAdmin(callerId) && target.NoReply? ==> r.counts == counts && r.run == Run([Reply(UsageText)], Returned)
    ensures IsAdmin(callerId) && target == RepliedTo(None) ==>
              r.counts == counts && r.run == Run([], Raised(AttributeError))
    ensures forall u :: u in counts ==> u in r.counts && r.counts[u] >= counts[u]
    ensures AllPositive(counts) ==> AllPositive(r.counts)
  {
    if !IsAdmin(callerId) then WarnResult(counts, Run([], Returned))
    else match target
      case NoReply => WarnResult(counts, Run([Reply(UsageText)], Returned))
      case RepliedTo(None) => WarnResult(counts, Run([], Raised(AttributeError)))
      case RepliedTo(Some(userId)) =>
        var count := CountOf(counts, userId) + 1;
        var notices := [Reply(WarnedText(count))] + if count >= MuteThreshold then [Reply(MutedText)] else [];
        WarnResult(counts[userId := count], Run(notices, Returned))
  }

  /** A successful warn adds one to the target's count (from 0 if absent) and leaves every other user's count alone. */
  lemma WarnIncrementsOnlyTarget(counts: map<int, nat>, callerId: int, userId: int)
    requires IsAdmin(callerId)
    ensures var r := WarnStep(counts, callerId, RepliedTo(Some(userId)));
            && CountOf(r.counts, userId) == CountOf(counts, userId) + 1
            && r.counts.Keys == counts.Keys + {userId}
            && (forall v :: v != userId ==> CountOf(r.counts, v) == CountOf(counts, v))
            && r.run.completion == Returned
  {
  }

  lemma WarnedTextIsNotMuted(count: nat)
    ensures WarnedText(count) != MutedText
  {
    assert WarnedText(count)[5] == 'w' && MutedText[5] == 'm';
  }

  /**
   * A successful warn replies exactly twice or once: the new total, then the
   * mute notice when the new total is at least three, i.e. on the third warn
   * and on every later one. It deletes and logs nothing.
   */
  lemma MuteNoticeIffThreshold(counts: map<int, nat>, callerId: int, userId: int)
    requires IsAdmin(callerId)
    ensures var r := WarnStep(counts, callerId, RepliedTo(Some(userId)));
            var total := CountOf(r.counts, userId);
            && Replies(r.run.effects)
               == [WarnedText(total)] + (if total >= MuteThreshold then [MutedText] else [])
            && |Replies(r.run.effects)| == |r.run.effects|
            && DeleteTargets(r.run.effects) == []
            && (MutedText in Replies(r.run.effects) <==> total >= MuteThreshold)
  {
    var r := WarnStep(counts, callerId, RepliedTo(Some(userId)));
    var total := CountOf(r.counts, userId);
    WarnedTextIsNotMuted(total);
    var e := r.run.effects;
    if total >= MuteThreshold {
      assert e == [Reply(WarnedText(total))] + [Reply(MutedText)];
      ObserveFirst(Reply(MutedText), [], 0);
      ObserveFirst(Reply(WarnedText(total)), [Reply(MutedText)], 0);
    } else {
      assert e == [Reply(WarnedText(total))] + [];
      ObserveFirst(Reply(WarnedText(total)), [], 0);
    }
  }

  /** One `/warn` invocation: who sent it and what it replies to. */
  datatype WarnCommand = WarnCommand(callerId: int, target: ReplyTarget)

  /** The counters after handling `commands` in order. */
  function ApplyWarns(counts: map<int, nat>, commands: seq<WarnCommand>): map<int, nat>
    decreases |commands|
  {
    if commands == [] then counts
    else ApplyWarns(WarnStep(counts, commands[0].callerId, commands[0].target).counts, commands[1..])
  }

  /** How many of `commands` are warns by an admin against a message from `userId`. */
  function SuccessfulWarns(commands: seq<WarnCommand>, userId: int): nat
  {
    if commands == [] then 0
    else (if IsAdmin(commands[0].callerId) && commands[0].target == RepliedTo(Some(userId)) then 1 else 0)
         + SuccessfulWarns(commands[1..], userId)
  }

  /** After any sequence of commands a user's count is its old count plus the admin warns against them. */
  lemma {:induction false} WarnTotals(counts: map<int, nat>, commands: seq<WarnCommand>, userId: int)
    decreases |commands|
    ensures CountOf(ApplyWarns(counts, commands), userId) == CountOf(counts, userId) + SuccessfulWarns(commands, userId)
  {
    if commands != [] {
      var c := commands[0];
      var next := WarnStep(counts, c.callerId, c.target).counts;
      WarnTotals(next, commands[1..], userId);
      if IsAdmin(c.callerId) && c.target.RepliedTo? && c.target.sender.Some? {
        WarnIncrementsOnlyTarget(counts, c.callerId, c.target.sender.value);
      }
    }
  }

  /** No sequence of commands lowers a count or forgets a user. */
  lemma {:induction false} CountsNeverDecrease(counts: map<int, nat>, commands: seq<WarnCommand>)
    decreases |commands|
    ensures var after := ApplyWarns(counts, commands);
            forall u :: u in counts ==> u in after && after[u] >= counts[u]
  {
    if commands != [] {
      var next := WarnStep(counts, commands[0].callerId, commands[0].target).counts;
      CountsNeverDecrease(next, commands[1..]);
    }
  }

  /** From fresh counters, the third admin warn of a user is the first that sends the mute notice. */
  lemma ThirdWarnMutes(callerId: int, userId: int)
    requires IsAdmin(callerId)
    ensures var first := WarnStep(map[], callerId, RepliedTo(Some(userId)));
            var second := WarnStep(first.counts, callerId, RepliedTo(Some(userId)));
            var third := WarnStep(second.counts, callerId, RepliedTo(Some(userId)));
            && MutedText !in Replies(first.run.effects)
            && MutedText !in Replies(second.run.effects)
            && MutedText in Replies(third.run.effects)
            && third.counts == map[userId := 3]
  {
  }

  /** The process-wide `warn_count` dictionary and the `/warn` handler that updates it. */
  class WarnCounter {
    var warnCount: map<int, nat>

    /** The counts invariant `AllPositive`, kept by every `Warn`. */
    ghost predicate Valid()
      reads this
    {
      AllPositive(warnCount)
    }

    /** At start-up no user has been warned. */
    constructor ()
      ensures Valid() && warnCount == map[]
    {
      warnCount := map[];
    }

    /** Handles one `/warn`; the new counters and the trace are those of `WarnStep`. */
    method Warn(callerId: int, target: ReplyTarget) returns (run: Run)
      requires Valid()
      modifies this
      ensures Valid()
      ensures WarnResult(warnCount, run) == WarnStep(old(warnCount), callerId, target)
    {
      if callerId !in AdminIds {
        return Run([], Returned);
      }
      if target.NoReply? {
        return Run([Reply(UsageText)], Returned);
      }
      if target.sender.None? {
        return Run([], Raised(AttributeError));
      }
      var userId := target.sender.value;
      warnCount := warnCount[userId := (if userId in warnCount then warnCount[userId] else 0) + 1];
      var count := warnCount[userId];
      var effects := [Reply(WarnedText(count))];
      if count >= MuteThreshold {
        effects := effects + [Reply(MutedText)];
      }
      return Run(effects, Returned);
    }
  }
}
