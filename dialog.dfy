/** The guest-feedback dialog: the bot's handlers for `/start`, `/help`,
    `/stats`, the `rate:<n>` and `skip_comment` buttons and a free-text comment,
    over a per-guest conversation state and the `feedback` table. */
module Dialog {
  import opened Wrappers
  import opened Text
  import opened Promo
  import opened Db
  import opened Stats

  /** The two states of the conversation; a guest with no conversation has no
      entry at all. */
  datatype Step = WaitingRating | WaitingComment

  /** One guest's conversation: the current step and the `rating` kept in the
      state's data. */
  datatype Session = Session(step: Step, rating: Option<int>)

  /** A guest waiting for a comment has already given a rating. */
  predicate Coherent(s: Session) {
    s.step == WaitingComment ==> s.rating.Some?
  }

  /** A chat user: the numeric id and the optional `@username`. */
  datatype User = User(id: int, username: Option<string>)

  /** What arrives from the messenger. A button press carries the pressing user
      (`call.from_user`), its callback data and the author of the message the
      button is attached to (`call.message.from_user`), which is the bot. */
  datatype Update =
    | Message(sender: User, text: Option<string>)
    | Callback(sender: User, data: string, messageAuthor: User)

  /** What the world contributes while one update is handled: the bot's clock,
      the database's clock at insert time, and whether every message the handler
      sends goes through (when one does not, the handler stops there). */
  datatype Env = Env(now: Timestamp, dbNow: Timestamp, sent: bool)

  /** What a handler did, as the guest sees it. */
  datatype Outcome =
    | Ignored
    | HelpShown
    | Started
    | RatingRejected
    | RatingStored(rating: int)
    | LostSession
    | Completed(record: FeedbackRecord)
    | StorageFailed(error: StorageError)
    | StatsShown(summary: Summary)
    | StatsFailed(error: StorageError)

  /** `int(call.data.split(":")[1])`; `None` when it raises. No range check:
      any integer goes through. */
  function RatingFromCallback(data: string): (r: Option<int>)
    ensures ':' !in data ==> r == None
  {
    SplitOnePiece(data, ':');
    var fields := Split(data, ':');
    if |fields| < 2 then None else ParseInt(fields[1])
  }

  lemma FormatIntHasNoColon(k: int)
    ensures ':' !in FormatInt(k)
  {
    var d := NatToDecimal(if k < 0 then -k else k);
    assert forall i :: 0 <= i < |d| ==> d[i] != ':';
    if k < 0 {
      assert FormatInt(k) == "-" + d;
    }
  }

  /** Every callback `rate:<k>` with `k` spelled as Python spells integers
      yields rating `k`: the keyboard's `rate:1` .. `rate:5`, but also `rate:0`
      or `rate:-3`. */
  lemma {:induction false} CallbackRatingRoundTrip(k: int)
    ensures RatingFromCallback("rate:" + FormatInt(k)) == Some(k)
  {
    var parts := ["rate", FormatInt(k)];
    FormatIntHasNoColon(k);
    assert Join(parts[1..], ':') == FormatInt(k);
    assert Join(parts, ':') == "rate:" + FormatInt(k);
    SplitJoin(parts, ':');
    ParseFormatRoundTrip(k);
  }

  /** A payload that is empty or not a number is rejected. */
  lemma BadCallbackRatings()
    ensures RatingFromCallback("rate:") == None
    ensures RatingFromCallback("rate") == None
  {
    assert Split("rate:", ':') == ["rate", ""] by {
      SplitJoin(["rate", ""], ':');
      assert Join(["rate", ""], ':') == "rate:";
    }
    assert Strip("") == "";
    assert Split("rate", ':') == ["rate"] by {
      SplitNoSep("rate", ':');
    }
  }

  /** The first whitespace-separated word, as `text.split(maxsplit=1)[0]` sees it. */
  function FirstWord(s: string): (w: string)
    ensures |w| <= |s| && w == s[..|w|]
    ensures forall i :: 0 <= i < |w| ==> !IsSpace(w[i])
  {
    if s == [] || IsSpace(s[0]) then [] else [s[0]] + FirstWord(s[1..])
  }

  /** What precedes the first `@`: the command without the bot mention. */
  function BeforeAt(s: string): (r: string)
    ensures |r| <= |s| && r == s[..|r|] && '@' !in r
  {
    if s == [] || s[0] == '@' then [] else [s[0]] + BeforeAt(s[1..])
  }

  /** The command a message text invokes, as the `Command(...)` filter reads it:
      the first word, when it starts with `/`, without the `/` and any `@bot`. */
  function CommandOf(text: Option<string>): (r: Option<string>)
    ensures r.Some? ==> text.Some? && '@' !in r.value
  {
    if text.None? then None
    else
      var w := FirstWord(TrimStart(IsSpace, text.value));
      if |w| > 0 && w[0] == '/' then Some(BeforeAt(w[1..])) else None
  }

  /** A text that does not start with `/` (after leading whitespace) is never a
      command, so the comment handler gets it. */
  lemma {:induction false} PlainTextIsNoCommand(text: string)
    requires var t := TrimStart(IsSpace, text); t == [] || t[0] != '/'
    ensures CommandOf(Some(text)) == None
  {
    var t := TrimStart(IsSpace, text);
    var w := FirstWord(t);
    if |w| > 0 {
      assert w[0] == t[0];
    }
  }

  lemma {:induction false} FirstWordOf(w: string, rest: string)
    requires forall i :: 0 <= i < |w| ==> !IsSpace(w[i])
    requires rest == [] || IsSpace(rest[0])
    ensures FirstWord(w + rest) == w
  {
    if w != [] {
      assert (w + rest)[1..] == w[1..] + rest;
      FirstWordOf(w[1..], rest);
    }
  }

  lemma {:induction false} BeforeAtOf(name: string, mention: string)
    requires '@' !in name
    requires mention == [] || mention[0] == '@'
    ensures BeforeAt(name + mention) == name
  {
    if name != [] {
      assert (name + mention)[1..] == name[1..] + mention;
      BeforeAtOf(name[1..], mention);
    }
  }

  /** `/name`, `/name@bot` and `/name args` all invoke `name`. */
  lemma CommandOfWord(name: string, mention: string, rest: string)
    requires '@' !in name && (mention == [] || mention[0] == '@')
    requires forall i :: 0 <= i < |name + mention| ==> !IsSpace((name + mention)[i])
    requires rest == [] || IsSpace(rest[0])
    ensures CommandOf(Some("/" + name + mention + rest)) == Some(name)
  {
    var nm := name + mention;
    var w := ['/'] + nm;
    var text := w + rest;
    assert text == "/" + name + mention + rest;
    assert forall i :: 0 <= i < |w| ==> !IsSpace(w[i]) by {
      forall i | 0 <= i < |w| ensures !IsSpace(w[i]) {
        if i > 0 { assert w[i] == nm[i - 1]; }
      }
    }
    assert !IsSpace(text[0]);
    assert TrimStart(IsSpace, text) == text;
    FirstWordOf(w, rest);
    assert w[1..] == nm;
    BeforeAtOf(name, mention);
  }

  predicate StartsWith(s: string, prefix: string) {
    |prefix| <= |s| && s[..|prefix|] == prefix
  }

  /** The comment `got_comment` passes on: `(message.text or "").strip()`. It
      is empty, or starts and ends with a non-whitespace character. */
  function CommentText(text: Option<string>): (c: string)
    ensures text.None? ==> c == ""
    ensures c == [] || (!IsSpace(c[0]) && !IsSpace(c[|c| - 1]))
  {
    StripShape(IsSpace, text.GetOr(""));
    Strip(text.GetOr(""))
  }

  /** `expires_at`: the day of `now + timedelta(days=validDays)`, which is
      exactly `validDays` calendar days after the day the code is issued on. */
  function ExpiryDate(now: Timestamp, validDays: int): (d: Date)
    ensures d == DateOf(now) + validDays
  {
    var x := now + validDays * SecondsPerDay;
    var issued := DateOf(now);
    assert (issued + validDays) * SecondsPerDay <= x < (issued + validDays + 1) * SecondsPerDay;
    FloorUnique(x, DateOf(x), issued + validDays);
    DateOf(x)
  }

  lemma FloorUnique(x: int, e: int, f: int)
    requires e * SecondsPerDay <= x < (e + 1) * SecondsPerDay
    requires f * SecondsPerDay <= x < (f + 1) * SecondsPerDay
    ensures e == f
  {
    assert e + 1 <= f ==> (e + 1) * SecondsPerDay <= f * SecondsPerDay;
    assert f + 1 <= e ==> (f + 1) * SecondsPerDay <= e * SecondsPerDay;
  }

  /** The records a run of outcomes inserted, in order. */
  function CompletedRecords(outs: seq<Outcome>): seq<FeedbackRecord> {
    if outs == [] then []
    else
      var last := outs[|outs| - 1];
      CompletedRecords(outs[..|outs| - 1]) + (if last.Completed? then [last.record] else [])
  }

  /** One update with the circumstances it is handled in. */
  datatype Event = Event(update: Update, env: Env)

  /** The running bot: the dispatcher's in-memory conversation storage, keyed by
      user id, over the feedback table. `promoValidDays` is `PROMO_VALID_DAYS`. */
  class FeedbackBot {
    var sessions: map<int, Session>
    const table: FeedbackTable
    const promoValidDays: int

    ghost predicate Valid()
      reads this, table
    {
      table.Valid() && forall u :: u in sessions ==> Coherent(sessions[u])
    }

    /** A freshly started bot: no conversation in memory, the given database. */
    constructor (table: FeedbackTable, promoValidDays: int)
      requires table.Valid()
      ensures Valid()
      ensures sessions == map[] && this.table == table && this.promoValidDays == promoValidDays
    {
      sessions := map[];
      this.table := table;
      this.promoValidDays := promoValidDays;
    }

    /** `data.get("rating")` of a guest's state; nothing for a guest with none. */
    function StoredRating(user: int): Option<int>
      reads this
    {
      if user in sessions then sessions[user].rating else None
    }

    /** Nobody's conversation but `user`'s has changed. */
    twostate predicate TouchesOnly(user: int)
      reads this
    {
      forall v :: v != user ==>
        && (v in sessions <==> v in old(sessions))
        && (v in sessions ==> sessions[v] == old(sessions)[v])
    }

    /** The effect of `cmd_start`: whatever the guest's state was, it is cleared;
        once the prompt has gone out the guest waits for a rating with no rating
        stored. If sending fails, the guest is left with no state at all. */
    twostate predicate StartedAs(user: int, sent: bool, out: Outcome)
      reads this, table
    {
      && out == Started
      && sessions == (if sent then old(sessions)[user := Session(WaitingRating, None)]
                      else old(sessions) - {user})
      && unchanged(table)
    }

    /** The effect of `cb_rate`. A press with no state first creates the
        `waiting_rating` state. A payload that is not an integer then stops the
        handler: nothing else changes. An integer `k` is stored as the rating
        and, once the two replies have gone out, the step becomes
        `waiting_comment`. No record is written. */
    twostate predicate RatedAs(user: int, data: string, sent: bool, out: Outcome)
      reads this, table
    {
      var base := if user in old(sessions) then old(sessions)
                  else old(sessions)[user := Session(WaitingRating, None)];
      && unchanged(table)
      && match RatingFromCallback(data)
         case None => out == RatingRejected && sessions == base
         case Some(k) =>
           && out == RatingStored(k)
           && sessions == base[user := Session(if sent then WaitingComment else base[user].step, Some(k))]
    }

    /** The effect of `process_feedback_and_finish` for the guest whose state is
        under `key`, recording `author` as the row's user. With no rating in the
        state nothing changes. Without the table, or with a user id or rating
        outside SQLite's 64-bit integers, the insert fails and nothing changes.
        Otherwise exactly one row is appended, holding the rating, the
        comment, a fresh 8-character code and the expiry date, with the next id,
        the insert time and `resolved = 0`; the state is cleared once the staff
        card and the guest's reply have gone out, and is left as it was if
        either send fails. */
    twostate predicate FinishedAs(key: int, author: User, comment: string, env: Env, out: Outcome)
      reads this, table
    {
      var rating := old(StoredRating(key));
      if rating.None? then
        out == LostSession && sessions == old(sessions) && unchanged(table)
      else if !old(table.created) then
        out == StorageFailed(NoSuchTable) && sessions == old(sessions) && unchanged(table)
      else if !FitsInteger(author.id) || !FitsInteger(rating.value) then
        out == StorageFailed(IntegerOverflow) && sessions == old(sessions) && unchanged(table)
      else
        && out.Completed?
        && table.created
        && table.rows == old(table.rows) + [out.record]
        && table.nextId == old(table.nextId) + 1
        && out.record.id == old(table.nextId)
        && out.record.userId == author.id
        && out.record.username == author.username
        && out.record.rating == rating.value
        && out.record.comment == comment
        && IsPromoCode(out.record.promoCode, DefaultCodeLength)
        && out.record.expiresAt == ExpiryDate(env.now, promoValidDays)
        && out.record.createdAt == env.dbNow
        && out.record.resolved == 0
        && sessions == (if env.sent then old(sessions) - {key} else old(sessions))
    }

    /** `cmd_start`. */
    method Start(user: int, sent: bool) returns (out: Outcome)
      requires Valid()
      modifies this
      ensures Valid() && StartedAs(user, sent, out) && TouchesOnly(user)
    {
      sessions := sessions - {user};
      if sent {
        sessions := sessions[user := Session(WaitingRating, None)];
      }
      out := Started;
    }

    /** `cb_rate`. */
    method Rate(user: int, data: string, sent: bool) returns (out: Outcome)
      requires Valid()
      modifies this
      ensures Valid() && RatedAs(user, data, sent, out) && TouchesOnly(user)
    {
      var rating := RatingFromCallback(data);
      var base := if user in sessions then sessions else sessions[user := Session(WaitingRating, None)];
      sessions := base;
      if rating.None? {
        return RatingRejected;
      }
      var step := if sent then WaitingComment else base[user].step;
      sessions := base[user := Session(step, rating)];
      out := RatingStored(rating.value);
    }

    /** `process_feedback_and_finish`. */
    method Finish(key: int, author: User, comment: string, env: Env) returns (out: Outcome)
      requires Valid()
      modifies this, table
      ensures Valid() && FinishedAs(key, author, comment, env, out) && TouchesOnly(key)
    {
      var rating := StoredRating(key);
      if rating.None? {
        return LostSession;
      }
      var code := GenPromoCode(DefaultCodeLength);
      var expires := ExpiryDate(env.now, promoValidDays);
      var row := NewRow(author.id, author.username, rating, comment, code, expires);
      var res := table.Insert(row, env.dbNow);
      match res {
        case Failure(e) =>
          out := StorageFailed(e);
        case Success(id) =>
          out := Completed(Stored(row, id, env.dbNow));
          if env.sent {
            sessions := sessions - {key};
          }
      }
    }

    /** `cb_skip_comment` for the pressing guest: completes with an empty
        comment and records the guest who pressed the button. */
    method SkipComment(guest: User, env: Env) returns (out: Outcome)
      requires Valid()
      modifies this, table
      ensures Valid() && FinishedAs(guest.id, guest, "", env, out) && TouchesOnly(guest.id)
    {
      out := Finish(guest.id, guest, "", env);
    }

    /** `cb_skip_comment` as the source has it: it hands `call.message` to the
        completion, so the row's `user_id` and `username` are those of that
        message's author, the bot, while the state consulted and cleared is the
        guest's. */
    method SkipCommentAsWritten(guest: User, messageAuthor: User, env: Env) returns (out: Outcome)
      requires Valid()
      modifies this, table
      ensures Valid() && FinishedAs(guest.id, messageAuthor, "", env, out) && TouchesOnly(guest.id)
    {
      out := Finish(guest.id, messageAuthor, "", env);
    }

    /** `got_comment`, which the router calls only for a guest waiting for a
        comment. Such a guest always has a rating, so the lost-session branch is
        never taken here. */
    method Comment(sender: User, text: Option<string>, env: Env) returns (out: Outcome)
      requires Valid()
      requires sender.id in sessions && sessions[sender.id].step == WaitingComment
      modifies this, table
      ensures Valid() && FinishedAs(sender.id, sender, CommentText(text), env, out) && TouchesOnly(sender.id)
      ensures !out.LostSession?
    {
      WaitingHasRating(sender.id);
      out := Finish(sender.id, sender, CommentText(text), env);
    }

    /** A guest waiting for a comment has a rating stored. */
    lemma WaitingHasRating(user: int)
      requires Valid() && user in sessions && sessions[user].step == WaitingComment
      ensures StoredRating(user).Some?
    {
      assert Coherent(sessions[user]);
    }

    /** `cmd_stats`: the count of records created in the seven days before `now`
        and their mean rating, 0 for an empty window; a failure report when the
        table is missing. */
    method ShowStats(now: Timestamp) returns (out: Outcome)
      requires Valid()
      ensures !table.created ==> out == StatsFailed(NoSuchTable)
      ensures table.created ==>
        && out.StatsShown?
        && out.summary == LastWeek(table.rows, now)
        && out.summary.count == |WindowIds(table.rows, WindowStart(now))|
        && (out.summary.count == 0 ==> out.summary.average == 0.0)
    {
      match table.Select(WindowStart(now)) {
        case Failure(e) =>
          out := StatsFailed(e);
        case Success(rows) =>
          LastWeekCountsWindow(table.rows, now);
          out := StatsShown(Summarize(Ratings(rows)));
      }
    }

    /** The message handlers in registration order: `/start`, `/help`,
        `/stats`, then any other message from a guest waiting for a comment;
        other messages match no handler. */
    method OnMessage(sender: User, text: Option<string>, env: Env) returns (out: Outcome)
      requires Valid()
      modifies this, table
      ensures Valid() && TouchesOnly(sender.id)
      ensures table.rows == old(table.rows) + (if out.Completed? then [out.record] else [])
      ensures CommandOf(text) == Some("start") ==> StartedAs(sender.id, env.sent, out)
      ensures CommandOf(text) == Some("help") ==>
        out == HelpShown && sessions == old(sessions) && unchanged(table)
      ensures CommandOf(text) == Some("stats") ==>
        && out == (if table.created then StatsShown(LastWeek(table.rows, env.now)) else StatsFailed(NoSuchTable))
        && sessions == old(sessions) && unchanged(table)
      ensures CommandOf(text) !in {Some("start"), Some("help"), Some("stats")} ==>
        if sender.id in old(sessions) && old(sessions)[sender.id].step == WaitingComment
        then FinishedAs(sender.id, sender, CommentText(text), env, out) && !out.LostSession?
        else out == Ignored && sessions == old(sessions) && unchanged(table)
    {
      var cmd := CommandOf(text);
      if cmd == Some("start") {
        out := Start(sender.id, env.sent);
      } else if cmd == Some("help") {
        out := HelpShown;
      } else if cmd == Some("stats") {
        out := ShowStats(env.now);
      } else {
        out := OnPlainText(sender, text, env);
      }
    }

    /** Any message that is not one of the three commands: the comment of a
        guest who is asked for one; ignored otherwise. */
    method OnPlainText(sender: User, text: Option<string>, env: Env) returns (out: Outcome)
      requires Valid()
      modifies this, table
      ensures Valid() && TouchesOnly(sender.id)
      ensures table.rows == old(table.rows) + (if out.Completed? then [out.record] else [])
      ensures if sender.id in old(sessions) && old(sessions)[sender.id].step == WaitingComment
        then FinishedAs(sender.id, sender, CommentText(text), env, out) && !out.LostSession?
        else out == Ignored && sessions == old(sessions) && unchanged(table)
    {
      if sender.id in sessions && sessions[sender.id].step == WaitingComment {
        out := Comment(sender, text, env);
      } else {
        out := Ignored;
      }
    }

    /** The callback handlers: data starting with `rate:`, or exactly
        `skip_comment`; any other data matches no handler. */
    method OnCallback(sender: User, data: string, messageAuthor: User, env: Env) returns (out: Outcome)
      requires Valid()
      modifies this, table
      ensures Valid() && TouchesOnly(sender.id)
      ensures table.rows == old(table.rows) + (if out.Completed? then [out.record] else [])
      ensures StartsWith(data, "rate:") ==> RatedAs(sender.id, data, env.sent, out)
      ensures data == "skip_comment" ==> FinishedAs(sender.id, messageAuthor, "", env, out)
      ensures !StartsWith(data, "rate:") && data != "skip_comment" ==>
        out == Ignored && sessions == old(sessions) && unchanged(table)
    {
      if StartsWith(data, "rate:") {
        out := Rate(sender.id, data, env.sent);
      } else if data == "skip_comment" {
        out := SkipCommentAsWritten(sender, messageAuthor, env);
      } else {
        out := Ignored;
      }
    }

    /** One update from the messenger. It touches at most the sender's
        conversation and appends at most one record, the completed one. */
    method Dispatch(u: Update, env: Env) returns (out: Outcome)
      requires Valid()
      modifies this, table
      ensures Valid() && TouchesOnly(u.sender.id)
      ensures table.rows == old(table.rows) + (if out.Completed? then [out.record] else [])
    {
      match u {
        case Message(sender, text) =>
          out := OnMessage(sender, text, env);
        case Callback(sender, data, messageAuthor) =>
          out := OnCallback(sender, data, messageAuthor, env);
      }
    }

    /** A sequential trace of updates. The table ends up as it was plus exactly
        the records of the completed conversations, in order. */
    method Replay(events: seq<Event>) returns (outs: seq<Outcome>)
      requires Valid()
      modifies this, table
      ensures Valid() && |outs| == |events|
      ensures table.rows == old(table.rows) + CompletedRecords(outs)
    {
      outs := [];
      var i := 0;
      while i < |events|
        invariant 0 <= i <= |events| && |outs| == i
        invariant Valid()
        invariant table.rows == old(table.rows) + CompletedRecords(outs)
      {
        var o := Dispatch(events[i].update, events[i].env);
        assert (outs + [o])[..|outs|] == outs;
        outs := outs + [o];
        i := i + 1;
      }
    }

    /** Pressing "skip" twice in a row when every message goes out: the second
        press finds no rating, so at most one record is written. */
    method SkipTwice(guest: User, messageAuthor: User, env: Env) returns (first: Outcome, second: Outcome)
      requires Valid() && env.sent
      modifies this, table
      ensures Valid()
      ensures !second.Completed?
      ensures |table.rows| <= |old(table.rows)| + 1
    {
      first := SkipCommentAsWritten(guest, messageAuthor, env);
      second := SkipCommentAsWritten(guest, messageAuthor, env);
    }

    /** Pressing "skip" twice when the first completion's staff card or reply
        fails to send: the state is not cleared, so the second press writes a
        second record with another code. */
    method SkipTwiceUndelivered(guest: User, messageAuthor: User, env: Env) returns (first: Outcome, second: Outcome)
      requires Valid() && !env.sent
      modifies this, table
      ensures Valid()
      ensures first.Completed? ==> second.Completed? && table.rows == old(table.rows) + [first.record, second.record]
    {
      first := SkipCommentAsWritten(guest, messageAuthor, env);
      second := SkipCommentAsWritten(guest, messageAuthor, env);
    }
  }

  /** The user id the skip path stores, shown on one conversation through the
      router: guest 42 rates 5 and presses "skip" under a message the bot
      (id 100) sent. The row
      names the bot, not the guest. */
  method SkipRecordsBotIdentity() returns (rec: FeedbackRecord)
    ensures rec.userId == 100 && rec.username == Some("feedback_bot") && rec.rating == 5
  {
    var t := new FeedbackTable();
    t.Init();
    var bot := new FeedbackBot(t, 30);
    var guest := User(42, Some("guest"));
    var botUser := User(100, Some("feedback_bot"));
    CallbackRatingRoundTrip(5);
    assert "rate:" + FormatInt(5) == "rate:5";
    assert StartsWith("rate:5", "rate:");
    var rated := bot.OnCallback(guest, "rate:5", botUser, Env(0, 0, true));
    assert bot.StoredRating(42) == Some(5);
    var out := bot.OnCallback(guest, "skip_comment", botUser, Env(0, 0, true));
    rec := out.record;
  }
}
