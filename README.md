# Guest feedback bot: conversation state machine and feedback table

This project models the core of a restaurant's feedback bot. The bot asks a guest for a
star rating, then for a short comment, which the guest may skip. It then issues an
8-character promo code with an expiry date. One row goes into the SQLite `feedback`
table, and the guest's conversation state is cleared. A `/stats` command reports how
many ratings came in over the last seven days and their mean.

The model has six modules:

- `Wrappers` (`wrappers.dfy`): `Option` and `Result`.
- `Text` (`text.dfy`): the Python string operations the handlers rely on.
  These are `str.strip()`, `str.split(":")` and base-10 `int(...)` on a string.
  Each has a partner lemma: strip is idempotent and is characterised by what it keeps;
  split and join are inverses; `int(str(k)) == k` (without CPython's 4300-digit conversion limit).
- `Promo` (`promo.dfy`): `gen_promo_code`. The random pick from the alphabet is an
  arbitrary choice (`:|`).
- `Db` (`db.dfy`): the schema of `init_db` as the `FeedbackRecord` datatype. The
  `FeedbackTable` class holds `created` (whether the table exists), the row sequence
  and the AUTOINCREMENT counter `nextId`. It also has the `created_at >= since` selection.
- `Stats` (`stats.dfy`): the count and mean that `cmd_stats` computes from the selected rows.
- `Dialog` (`dialog.dfy`): the `FeedbackBot` class. `sessions` maps a user id to the
  step (`waiting_rating` or `waiting_comment`) and the stored `rating`. A cleared
  state is an absent key. There is one method per handler, plus the router
  (`OnMessage`, `OnCallback`, `Dispatch`) and the replay of a sequential trace of updates.

Clocks, the messenger and the random source are parameters:

- `Env.now` is the bot's `datetime.utcnow()`.
- `Env.dbNow` is SQLite's `datetime('now')` at insert time.
- `Env.sent` says whether every message the handler sends goes out. When a send
  raises, the Python handler stops at that point, so later state updates do not happen.
- `promoValidDays` is `PROMO_VALID_DAYS`.

Timestamps are whole seconds since the epoch (UTC). Dates are day numbers. The
fixed-width text comparison `created_at >= ?` is modelled as an integer comparison.

Facts of the code that its comments, keyboards and messages do not make obvious:

- `cb_rate` accepts any integer after `rate:`, not only the 1..5 the keyboard offers:
  there is no range check (`CallbackRatingRoundTrip`).
- The promo alphabet has no `0`, `O`, `1` or `I`, but it does contain `L` (`AlphabetHasL`).
- When no rating is stored, `process_feedback_and_finish` answers and returns before
  `state.clear()`, so the state is kept (`FinishedAs`, first branch).
- A failing insert raises before `state.clear()`, so the state is kept here too (`StorageFailed`).
- An exception from `send_manager_card` skips both the guest's reply and `state.clear()`.
  The row is already stored, so another "skip" stores a second row (`SkipTwiceUndelivered`).

## Model

| member | source | states |
|---|---|---|
| `Text.Strip` | main.py:124 | `str.strip()` never lengthens the text |
| `Text.StripShape` | main.py:124 | the stripped text starts and ends with a non-blank character, and is empty exactly when the text is all blank (for Python's whitespace set and for the one `int()` skips) |
| `Text.StripIsInfix` | main.py:124 | the stripped text is a contiguous piece of the input, starting after the leading blanks |
| `Text.StripDropsOnlyBlanks` | main.py:124 | everything before and after that piece is blank |
| `Text.StripPadded` | main.py:124 | wrapping a string with non-blank ends in any blanks strips back to that exact string |
| `Text.StripIdempotent` | main.py:124 | stripping twice equals stripping once |
| `Text.ParseInt` | main.py:103 | `int("")` fails |
| `Text.ParseIntNeedsDigit` | main.py:103-106 | `int()` fails on every payload without a digit, `""` included |
| `Text.ParseFormatRoundTrip` | main.py:103 | `int(str(k)) == k` for every integer `k`, negative ones included, as conversions behave without CPython's 4300-digit limit |
| `Text.StripOfNumber` | main.py:103 | `str(k)` has no surrounding whitespace for `int()` to skip |
| `Text.IntKeepsSeparators` | main.py:103 | the separators U+001C..U+001F are whitespace to `strip()` but not to `int()`: a payload starting with one is rejected |
| `Text.IntSkipsUnicodeSpace` | main.py:103 | a non-ASCII whitespace character in front of the payload is skipped by `int()` |
| `Text.Split` | main.py:103 | `split(":")` yields at least one piece, and no piece contains `:` |
| `Text.SplitOnePiece` | main.py:103 | `split(":")` yields a single piece exactly when the data has no `:` |
| `Text.JoinSplit` | main.py:103 | joining the pieces of `split(":")` with `:` gives back the callback data |
| `Text.SplitJoin` | main.py:103 | splitting a join of colon-free pieces gives back exactly those pieces |
| `Promo.GenPromoCode` | main.py:44-46 | the code has exactly `n` characters, each from `ABCDEFGHJKLMNPQRSTUVWXYZ23456789` |
| `Promo.AlphabetShape` | main.py:45 | the alphabet has 32 pairwise distinct characters |
| `Promo.NoConfusableCharacters` | main.py:45 | a code never contains `0`, `O`, `1` or `I` |
| `Promo.AlphabetHasL` | main.py:45 | `L` is in the alphabet, and `"L"` is a valid 1-character code |
| `Db.DateOf` | main.py:151 | `strftime("%Y-%m-%d")` gives the day whose 86400 seconds contain the instant |
| `Db.Since` | main.py:90 | the selection has at most as many rows as the table |
| `Db.SinceMembers` | main.py:90 | a row is selected if and only if it is stored and `created_at >= since` |
| `Db.SinceCountsWindow` | main.py:90-92 | when ids are increasing, the number of rows selected equals the number of distinct ids created at or after `since` |
| `Db.SinceAppend` | main.py:90 | after an append, the selection is the old selection plus the new row if, and only if, that row is in the window |
| `Db.FeedbackTable.constructor` | db.py:6-8 | a database file without the `feedback` table: no rows, counter 1 |
| `Db.FeedbackTable.Init` | db.py:6-23 | `CREATE TABLE IF NOT EXISTS`: on an existing table the rows and the counter are unchanged; otherwise the table starts empty with counter 1 |
| `Db.FeedbackTable.Insert` | db.py:11-20 | a missing table fails first, then a user id or rating outside SQLite's signed 64-bit range, then a NULL rating; each failure changes nothing; otherwise exactly one row is appended, with `id` = the counter (greater than every earlier id), `created_at` = the insert time and `resolved = 0`; the counter grows by one |
| `Db.FeedbackTable.Select` | main.py:90-91 | fails exactly when the table does not exist |
| `Stats.Summarize` | main.py:92-93 | count = number of ratings; average 0 for an empty window (no division by zero); otherwise average x count = sum of the ratings |
| `Stats.LastWeek` | main.py:84-93 | the reported count is at most the number of stored rows, and an empty report has mean 0 |
| `Stats.MeanWithin` | main.py:93 | when every rating lies in `lo..hi`, the mean does too |
| `Stats.LastWeekCountsWindow` | main.py:84-93 | the `/stats` count is the number of records with `created_at >= now - 7 days`, and the mean is taken over exactly their ratings |
| `Stats.LastWeekAfterInsert` | main.py:84-92 | a record inside the window raises the count by one; one outside it changes nothing |
| `Stats.LastWeekExamples` | main.py:84-93 | an empty table reports `(0, 0)`; ratings 3 and 5 in the window report `(2, 4.0)` |
| `Dialog.RatingFromCallback` | main.py:103 | data without a `:` has no second field and gives no rating |
| `Dialog.CallbackRatingRoundTrip` | main.py:103 | `rate:<k>` yields rating `k` for every integer `k` (no 1..5 range check); the 4300-digit limit is left out |
| `Dialog.BadCallbackRatings` | main.py:102-106 | `rate:` (empty payload) and data with no second field are rejected |
| `Dialog.CommandOf` | main.py:61 | a command is read only from a text, and never contains `@` (the bot mention is removed) |
| `Dialog.PlainTextIsNoCommand` | main.py:122-125 | a text that does not start with `/` never matches a command filter |
| `Dialog.CommandOfWord` | main.py:61 | `/name`, `/name@bot` and `/name args` all invoke command `name` |
| `Dialog.CommentText` | main.py:124 | no text gives `""`; the comment is empty or starts and ends with a non-whitespace character |
| `Dialog.ExpiryDate` | main.py:136 | `expires_at` is exactly `PROMO_VALID_DAYS` calendar days after the day of issue |
| `Dialog.FeedbackBot.constructor` | main.py:34 | the bot starts with no conversations in memory, over the given table |
| `Dialog.FeedbackBot.Start` | main.py:61-69 | whatever the prior state, the guest ends up waiting for a rating with no rating stored (with no state if the prompt fails to send); nothing else changes |
| `Dialog.FeedbackBot.Rate` | main.py:98-115 | with no state, the step first becomes `waiting_rating`; a non-integer payload then stops the handler; an integer `k` is stored and the step becomes `waiting_comment`; no record is written; only this guest's state changes |
| `Dialog.FeedbackBot.Finish` | main.py:127-167 | no rating: no record, and the state is left as it was; no table, or an id or rating SQLite cannot bind: the insert fails, and nothing changes; otherwise exactly one record with the author, rating, comment, a valid 8-character code, `expires_at`, the next id and the insert time. The state is cleared only when the staff card and the reply have been sent. The rule "waiting for a comment implies a rating is stored" still holds afterwards |
| `Dialog.FeedbackBot.SkipComment` | main.py:117-120 | completes with `comment = ""` and records the pressing guest |
| `Dialog.FeedbackBot.SkipCommentAsWritten` | main.py:119 | completes with `comment = ""` but records the author of `call.message` |
| `Dialog.FeedbackBot.Comment` | main.py:122-125 | completes with the stripped text (`""` for no text), recording the sender; a guest waiting for a comment always has a rating, so this path never loses the session |
| `Dialog.FeedbackBot.WaitingHasRating` | main.py:108-114 | a guest waiting for a comment has a rating stored |
| `Dialog.FeedbackBot.ShowStats` | main.py:81-96 | reports the seven-day count (exactly the records in the window) and mean, 0 when empty; reports a failure when the table is missing; nothing changes |
| `Dialog.FeedbackBot.OnMessage` | main.py:61-125 | `/start`, `/help` and `/stats` take precedence, `/stats` reporting exactly what `ShowStats` computes; any other message reaches the comment handler only when the guest is waiting for a comment, and is ignored otherwise |
| `Dialog.FeedbackBot.OnPlainText` | main.py:122-125 | a message that is not one of the three commands completes the sender's conversation with the stripped text when the sender is waiting for a comment, and is ignored otherwise |
| `Dialog.FeedbackBot.OnCallback` | main.py:98-120 | `rate:` data goes to the rating handler; `skip_comment` completes the presser's conversation but records the author of the message carrying the button, as the code does; any other data changes nothing |
| `Dialog.FeedbackBot.Dispatch` | main.py:35-36 | an update changes only its sender's conversation, and appends at most one record (the one it completed) |
| `Dialog.FeedbackBot.Replay` | main.py:174 | after a sequential trace, the table is the old table plus exactly the completed conversations' records, in order |
| `Dialog.FeedbackBot.SkipTwice` | main.py:117-167 | when the sends go out, two "skip" presses in a row store at most one record; the second press never completes |
| `Dialog.FeedbackBot.SkipTwiceUndelivered` | main.py:157-167 | if the first completion's sends fail, the state is not cleared, and a second press stores a second record |
| `Dialog.SkipRecordsBotIdentity` | main.py:119 | through the router, guest 42 rates 5 and skips under a message from the bot (id 100): the stored row carries the bot's id and username |

## Left out

- Messenger transport: `Bot`, `Dispatcher`, `message.answer`, `edit_text` and `call.answer` are reduced to their effect on state and on the table. A failed send is the single flag `Env.sent`. Reply texts and keyboards (`keyboards.py`) are not modelled.
- `send_manager_card`: the staff message and its network send are not modelled. The only effect kept is that an exception there skips the guest's reply and `state.clear()`.
- `/help`: its text is not modelled; the model records only that it reads no state.
- Configuration and startup (`load_dotenv`, `os.getenv`, `main`, polling): these are not modelled. `PROMO_VALID_DAYS` is a constructor parameter. `init_db` is the `Init` method, and its call from `on_startup` is not sequenced.
- Concurrency: updates are a sequential trace. The source has no per-user locking of its own.
- Randomness: `secrets.choice` is an arbitrary pick. Uniqueness of codes is not claimed.
- `Stats.Summarize`: does not round to two decimals. The mean is exact (`real`), not the float from `statistics.mean` and `round(..., 2)`.
- SQLite: connections, disk and I/O errors, and concurrent writers are not modelled. The failures modelled are a missing table, an integer parameter outside the signed 64-bit range (`OverflowError` when binding) and the `NOT NULL` constraint on `rating`. Exhausting the AUTOINCREMENT counter at 2^63 (`SQLITE_FULL`) is not modelled. The external workflow that may set `resolved` is not modelled.
- Dates and times: `strftime` formatting not modelled; instants are integers. The `datetime` range limits are not modelled (years 1..9999, `OverflowError` for a huge `PROMO_VALID_DAYS`).
- `Text.ParseInt`: accepts ASCII digits only. Python's `int()` also accepts other Unicode decimal digits (for example Arabic-Indic), which the model rejects.
- `Text.ParseInt`: does not model CPython's limit on integer-string conversion (`sys.int_info.default_max_str_digits`, 4300): `int()` raises `ValueError` on a base-10 string of more than 4300 digits, and the model parses it. The router never sees such a payload, because Telegram caps `callback_data` at 64 bytes.
- `Text.ParseFormatRoundTrip`: holds in the model for every integer; in CPython `str(k)` and `int()` raise once `k` has more than 4300 decimal digits, so the round trip holds there only up to that length.
- `Dialog.CallbackRatingRoundTrip`: "every integer `k`" includes payloads over 4300 digits, which `int()` rejects; with the 64-byte `callback_data` cap no such callback reaches `cb_rate`.
- `Dialog.CommandOf`: does not check that an `@mention` names this bot (aiogram compares it case-insensitively with the bot's username). Commands in captions are not modelled.
- Conversation keys: aiogram keys state by chat and user. The model keys it by user id, which matches private chats.
- State data: the dialog keeps only `rating`. Other keys of the state data are not modelled.

## Findings

| source | as written | input that shows it | evidently intended | confidence | as-written member | corrected member |
|---|---|---|---|---|---|---|
| main.py:119 | `cb_skip_comment` passes `call.message` to `process_feedback_and_finish`. That is the bot's own message carrying the "skip" button, so `from_user.id` and `from_user.username` in the `INSERT` (main.py:146-147) are the bot's | any press of "skip" after a rating, e.g. guest 42 rating 5 under a message from bot 100: the row has `user_id = 100` | the row names the guest who pressed the button (`call.from_user`), as the free-text path does | high; not executed | `Dialog.FeedbackBot.SkipCommentAsWritten` | `Dialog.FeedbackBot.SkipComment` |

The router (`OnCallback`) models the code as written and calls `SkipCommentAsWritten`
with the author of the message that carries the button. `Dialog.SkipRecordsBotIdentity`
drives the router on the concrete input above. `SkipComment` is the corrected handler:
with it the row names the guest who pressed the button.
