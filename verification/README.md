# Telegram moderation bot: the moderation logic, in Dafny

The bot watches group chats and runs these handlers:

- `filter_message` (main.py) deletes a text message at once when it contains a link or a username. It deletes every other text message after five minutes.
- `delete_links` (utils.py) deletes only the flagged messages.
- `auto_delete` (utils.py) deletes the incoming message after five minutes.
- `/warn` (main.py) counts warnings per user in a process-wide dictionary. From the third warning on, it announces a mute.
- `/admin` (main.py) answers whether the caller's id is in `ADMIN_IDS`.
- `admin_only` (utils.py) answers from the caller's chat-member status.

The model is split into these modules:

- `Telegram` (telegram.dfy) holds messages and their keys (chat id, message id). A handler receives `update.message` as an `Option`: an update reporting an edited message or a channel post carries no new message. It also holds the handlers' abstract effects (`Sleep`, `Delete`, `LogWarning`, `Print`, `GetMember`, `Reply`) and how a handler ends (`Returned` or `Raised`). Telegram client calls are not executed. A handler produces a trace of effects, and the results of the client calls it needs are parameters. Five observers read a trace:
  - `DeleteTargets`: the messages deleted.
  - `PlannedDeletion`: the first deletion and the seconds slept before it, as `NoAction`, `DeleteNow` or `DeleteAfter`.
  - `Replies`: the reply texts.
  - `Warnings`: the lines logged as warnings.
  - `Printed`: the lines printed to standard output.

  The handlers' contracts are stated through these observers.
- `LinkPattern` (link_pattern.dfy) is the classifier shared by both files: the case-insensitive search for `(t\.me|http[s]?://|@[\w_]+)`. `IsFlagged` is the specification: some position starts `t.me`, `http://` or `https://` in any letter case, or holds `@` followed by a word character. `Search` is a left-to-right scan. It is proved to find a match exactly when `IsFlagged` holds, and to return the leftmost match start.
- `Decimal` (decimal.dfy) renders the warning count the way `f"{count}"` does.
- `BotMain` (bot_main.dfy) holds the handlers of main.py. `warn_count` is the field of the class `WarnCounter`. Its method `Warn` updates the field in place. Its result is tied to the pure step `WarnStep`, and the lemmas about warn sequences are stated on `WarnStep`.
- `BotUtils` (bot_utils.dfy) holds the handlers of utils.py.

## Model

| member | source | states |
|---|---|---|
| `LinkPattern.IsFlagged` | main.py:24 | the search succeeds iff some position starts `t.me`, `http://` or `https://` (ASCII case-insensitive) or holds `@` followed by a word character; a flagged text has at least two characters |
| `LinkPattern.Search` | main.py:24 | finds a match iff the text is flagged; the returned start holds a match of `t.me`, `http://`, `https://` or `@`+word character, and no earlier position does (the start `re.search` reports) |
| `LinkPattern.MatchLiteral` | main.py:24 | reports exactly whether a lower-case literal occurs at a position, ignoring ASCII letter case |
| `LinkPattern.FlaggedIgnoresCase` | main.py:24 | `re.IGNORECASE`: two texts equal up to ASCII letter case are both flagged or both not |
| `LinkPattern.FlaggedInAnyContext` | utils.py:8 | `re.search` is a substring search: a flagged text stays flagged with anything before or after it |
| `LinkPattern.DotMeInsideWordIsFlagged` | main.py:24 | `t.me` need not be a link: "dont.meet" is flagged |
| `LinkPattern.EmailAddressIsFlagged` | utils.py:8 | an `@` followed by a word character is enough: "a@b.com" is flagged |
| `LinkPattern.UpperCaseSchemeIsFlagged` | main.py:24 | an upper-case `HTTPS://` is flagged |
| `LinkPattern.NearMissesAreNotFlagged` | main.py:24 | a lone `@`, `t. me` and `http:` without `//` are not flagged |
| `Decimal.Format` | main.py:50 | the count is rendered as a non-empty digit string with no leading zero, one digit exactly for counts below ten |
| `Decimal.FormatRoundTrip` | main.py:50 | reading the rendered digits back gives the count |
| `Decimal.FormatInjective` | main.py:50 | different counts are rendered as different digit strings |
| `BotMain.WarnedText` | main.py:50 | the warning reply is the fixed prefix "User warned. Total warnings: " followed by digits that read back as the new total, with no leading zero unless the total is 0 |
| `BotMain.IsAdmin` | main.py:39 | `id in ADMIN_IDS` holds exactly for the one configured id 123456789 |
| `BotMain.CountOf` | main.py:47 | `warn_count.get(user_id, 0)`: the stored count, or 0 for a user with no entry; when every stored count is positive, 0 means exactly "never warned" |
| `BotMain.FilterMessage` | main.py:23-35 | for a new message: exactly one delete, of that message, immediate when the text is flagged and after 300 seconds otherwise; a failed immediate delete is logged as a warning (nothing printed), a failed delayed delete is ignored; the trace holds nothing else (the sleep before the delayed delete aside); no reply, and the handler returns normally; for an update without a new message, reading the text raises before anything happens |
| `BotMain.Admin` | main.py:56-60 | exactly one reply: "You are an admin." iff the caller's id is in `ADMIN_IDS`, "You are not an admin." iff it is not |
| `BotMain.WarnStep` | main.py:38-53 | a non-admin caller changes nothing and gets no reply; an admin command without a replied-to message changes nothing and gets the one usage reply; a replied-to message without a sender raises before anything changes; no count decreases and every stored count stays at least 1 |
| `BotMain.WarnIncrementsOnlyTarget` | main.py:46-48 | a successful warn makes the target's count its previous value (0 if absent) plus 1, adds only that key, and leaves every other user's count unchanged |
| `BotMain.MuteNoticeIffThreshold` | main.py:50-53 | a successful warn produces only replies: exactly the new-total reply, followed by the mute notice iff the new total is at least 3; nothing is deleted |
| `BotMain.ThirdWarnMutes` | main.py:47-53 | from empty counters, the first two warns of a user send no mute notice, the third does, and the user's count is then 3 |
| `BotMain.WarnTotals` | main.py:46-47 | after any sequence of `/warn` commands, a user's count is the old count plus the number of admin warns replying to that user |
| `BotMain.CountsNeverDecrease` | main.py:20 | no sequence of `/warn` commands removes a user from `warn_count` or lowers their count |
| `BotMain.WarnCounter.constructor` | main.py:20 | `warn_count` starts empty |
| `BotMain.WarnCounter.Warn` | main.py:38-53 | the dictionary after the call and the replies are those of `WarnStep` on the dictionary before it; every stored count stays positive |
| `BotUtils.DeleteLinks` | utils.py:7-12 | for a new message: flagged text gets exactly one immediate delete of that message, and a printed line (no logged warning) if it fails, and nothing else; unflagged text gets no effect at all; the handler returns normally; for an update without a new message, reading the text raises |
| `BotUtils.AutoDelete` | utils.py:15-20 | always starts with the 300-second sleep and returns normally; for a new message, exactly one delete, of its chat id and message id, after 300 seconds, with a failure printed, and nothing else besides the sleep; for an update without a new message, such as an edited message or a channel post, the missing `chat_id` error is printed and nothing is deleted |
| `BotUtils.AdminOnly` | utils.py:23-30 | looks up the caller's membership, then sends exactly one reply: "You're an admin." iff the status is `administrator` or `creator`, the refusal text for every other status |
| `BotUtils.SameClassifierAsFilterMessage` | utils.py:8 | `delete_links` deletes a message immediately exactly when `filter_message` does: both use the same pattern and flags |
| `BotUtils.UnflaggedLeftToAutoDelete` | utils.py:7-20 | for unflagged text `delete_links` deletes nothing, and `filter_message` plans the same 300-second deletion as `auto_delete` |

## Left out

- Telegram client calls (`delete`, `delete_message`, `reply_text`, `get_member`) are effects in a trace. A delete result and a member status are parameters. A failure of `reply_text` or `get_member` would propagate out of the handler, and this is not modelled.
- The pattern's `\w` and `re.IGNORECASE` are modelled on ASCII only. Python also treats non-ASCII letters and digits as word characters, and it case-folds, for example, `ſ` to `s`.
- Time passing in `asyncio.sleep`, handlers overlapping while they sleep, and cancellation of a sleeping handler are not modelled. The delay is a number in the trace.
- The text of `str(e)` for a failed delete is the outcome's `reason`. A printed line is modelled without its trailing newline.
- `BotMain.Admin` takes the command to arrive as a new message. An edited `/admin` has no `update.message`, so its reply would raise AttributeError (main.py:58, main.py:60). That path is not modelled.
- `BotMain.WarnStep` takes the command to arrive as a new message. An edited `/warn` from an admin has no `update.message` and would raise at main.py:42. That path is not modelled.
- `BotUtils.AdminOnly` takes the command to arrive as a new message. An edited command has no `update.message`, so the reply after the member lookup would raise (utils.py:28, utils.py:30). That path is not modelled.
- `update.effective_user` is taken to be present, and the caller is just an id.
- `ADMIN_IDS` is the constant list `[123456789]` from main.py:17.
- The `/start` reply (main.py:63-64), the aiohttp health server, `main()`, the event loop and `to_thread` (main.py:66-90) are process plumbing and are not modelled.
- The order of handler registration in `setup_handlers` (utils.py:32-35) is not modelled. Whether `auto_delete` also runs for a text message depends on the framework's handler-group rules, which are not part of this model.
- Logging setup, token loading from the environment, and the `print` at start-up are not modelled.
- No actual mute is modelled. The code only sends a text notice (main.py:53).
