/** The SQLite `feedback` table created by `init_db`: an append-only sequence of
    rows whose `id`, `created_at` and `resolved` columns the database fills in. */
module Db {
  import opened Wrappers

  /** An instant as whole seconds since the epoch, UTC. SQLite's `datetime('now')`
      and the bot's `strftime("%Y-%m-%d %H:%M:%S")` both render whole seconds in
      one fixed-width format, so comparing the texts compares these numbers. */
  type Timestamp = int

  /** A calendar day as days since the epoch: the value of `strftime("%Y-%m-%d")`. */
  type Date = int

  const SecondsPerDay: nat := 86400

  /** The day an instant falls on. */
  function DateOf(t: Timestamp): (d: Date)
    ensures d * SecondsPerDay <= t < (d + 1) * SecondsPerDay
  {
    t / SecondsPerDay
  }

  /** One stored row, with every column of the schema. `user_id` is always
      given by the bot, `username` may be NULL, `rating` may not. */
  datatype FeedbackRecord = FeedbackRecord(
    id: nat,
    userId: int,
    username: Option<string>,
    rating: int,
    comment: string,
    promoCode: string,
    expiresAt: Date,
    createdAt: Timestamp,
    resolved: int)

  /** The six columns an `INSERT` names. The rating is optional here because
      SQL lets a caller pass NULL; the `NOT NULL` constraint then refuses it. */
  datatype NewRow = NewRow(
    userId: int,
    username: Option<string>,
    rating: Option<int>,
    comment: string,
    promoCode: string,
    expiresAt: Date)

  /** Why a statement against the table failed. `IntegerOverflow` is the
      `OverflowError` Python's `sqlite3` raises when it binds an `int` that does
      not fit SQLite's signed 64-bit INTEGER. */
  datatype StorageError = NoSuchTable | IntegerOverflow | NotNullViolation(column: string)

  const MinInteger: int := -0x8000_0000_0000_0000
  const MaxInteger: int := 0x7FFF_FFFF_FFFF_FFFF

  predicate FitsInteger(x: int) {
    MinInteger <= x <= MaxInteger
  }

  /** Every integer parameter of the `INSERT` can be bound. */
  predicate Bindable(row: NewRow) {
    FitsInteger(row.userId) && (row.rating.Some? ==> FitsInteger(row.rating.value))
  }

  /** The row a successful insert stores: the given columns plus the three the
      schema assigns. */
  function Stored(row: NewRow, id: nat, at: Timestamp): FeedbackRecord
    requires row.rating.Some?
  {
    FeedbackRecord(id, row.userId, row.username, row.rating.value, row.comment,
                   row.promoCode, row.expiresAt, at, 0)
  }

  ghost predicate IdsIncreasing(rows: seq<FeedbackRecord>) {
    forall i, j :: 0 <= i < j < |rows| ==> rows[i].id < rows[j].id
  }

  ghost predicate IdsBelow(rows: seq<FeedbackRecord>, bound: nat) {
    forall i :: 0 <= i < |rows| ==> rows[i].id < bound
  }

  /** `SELECT ... WHERE created_at >= since`: the stored rows inside the window,
      in table order. */
  function Since(rows: seq<FeedbackRecord>, since: Timestamp): (w: seq<FeedbackRecord>)
    ensures |w| <= |rows|
  {
    if rows == [] then []
    else if rows[0].createdAt >= since then [rows[0]] + Since(rows[1..], since)
    else Since(rows[1..], since)
  }

  /** A row is selected exactly when it is stored and inside the window. */
  lemma {:induction false} SinceMembers(rows: seq<FeedbackRecord>, since: Timestamp, r: FeedbackRecord)
    ensures r in Since(rows, since) <==> r in rows && r.createdAt >= since
  {
    if rows != [] {
      SinceMembers(rows[1..], since, r);
      assert rows == [rows[0]] + rows[1..];
    }
  }

  /** The ids of the stored rows inside the window. */
  ghost function WindowIds(rows: seq<FeedbackRecord>, since: Timestamp): set<nat> {
    set i | 0 <= i < |rows| && rows[i].createdAt >= since :: rows[i].id
  }

  /** The selection holds one row per id inside the window: it counts exactly
      the records created at or after `since`. */
  lemma {:induction false} SinceCountsWindow(rows: seq<FeedbackRecord>, since: Timestamp)
    requires IdsIncreasing(rows)
    ensures |Since(rows, since)| == |WindowIds(rows, since)|
  {
    if rows != [] {
      var t := rows[1..];
      assert IdsIncreasing(t) by {
        forall i, j | 0 <= i < j < |t| ensures t[i].id < t[j].id {
          assert t[i] == rows[i + 1] && t[j] == rows[j + 1];
        }
      }
      SinceCountsWindow(t, since);
      HeadNotInTailWindow(rows, since);
      WindowIdsCons(rows, since);
    }
  }

  lemma HeadNotInTailWindow(rows: seq<FeedbackRecord>, since: Timestamp)
    requires rows != [] && IdsIncreasing(rows)
    ensures rows[0].id !in WindowIds(rows[1..], since)
  {
    var t := rows[1..];
    forall i | 0 <= i < |t| ensures t[i].id != rows[0].id {
      assert rows[i + 1] == t[i];
    }
  }

  lemma WindowIdsCons(rows: seq<FeedbackRecord>, since: Timestamp)
    requires rows != []
    ensures WindowIds(rows, since)
         == (if rows[0].createdAt >= since then {rows[0].id} else {}) + WindowIds(rows[1..], since)
  {
    var h := rows[0];
    var t := rows[1..];
    var tail := WindowIds(t, since);
    var head: set<nat> := if h.createdAt >= since then {h.id} else {};
    forall x | x in WindowIds(rows, since) ensures x in head + tail {
      var i :| 0 <= i < |rows| && rows[i].createdAt >= since && rows[i].id == x;
      if i > 0 { assert t[i - 1] == rows[i]; }
    }
    forall x | x in tail ensures x in WindowIds(rows, since) {
      var i :| 0 <= i < |t| && t[i].createdAt >= since && t[i].id == x;
      assert rows[i + 1] == t[i];
    }
  }

  /** The selection over a table with one more row is the old selection, plus
      that row when it lies in the window. */
  lemma {:induction false} SinceAppend(rows: seq<FeedbackRecord>, r: FeedbackRecord, since: Timestamp)
    ensures Since(rows + [r], since)
         == Since(rows, since) + (if r.createdAt >= since then [r] else [])
  {
    if rows == [] {
      assert [] + [r] == [r];
    } else {
      assert (rows + [r])[1..] == rows[1..] + [r];
      SinceAppend(rows[1..], r, since);
    }
  }

  /** The `feedback` table of one database file. `created` says whether the
      table exists; `nextId` is SQLite's AUTOINCREMENT counter for it (one more
      than the largest id ever handed out). */
  class FeedbackTable {
    var created: bool
    var rows: seq<FeedbackRecord>
    var nextId: nat

    /** Ids are handed out in increasing order and all lie below the counter;
        the bot never sets `resolved`, so it keeps its default; every stored
        user id and rating is a 64-bit integer. */
    ghost predicate Valid()
      reads this
    {
      && (!created ==> rows == [] && nextId == 1)
      && 1 <= nextId
      && IdsIncreasing(rows)
      && IdsBelow(rows, nextId)
      && (forall i :: 0 <= i < |rows| ==> rows[i].resolved == 0)
      && (forall i :: 0 <= i < |rows| ==> FitsInteger(rows[i].userId) && FitsInteger(rows[i].rating))
    }

    /** A database file without the table. */
    constructor ()
      ensures Valid() && !created && rows == [] && nextId == 1
    {
      created := false;
      rows := [];
      nextId := 1;
    }

    /** `init_db`: `CREATE TABLE IF NOT EXISTS feedback (...)`. On a database
        that already has the table nothing changes. */
    method Init()
      requires Valid()
      modifies this
      ensures Valid() && created
      ensures old(created) ==> rows == old(rows) && nextId == old(nextId)
      ensures !old(created) ==> rows == [] && nextId == 1
    {
      if !created {
        created := true;
        rows := [];
        nextId := 1;
      }
    }

    /** `INSERT INTO feedback (user_id, username, rating, comment, promo_code,
        expires_at) VALUES (...)` followed by `commit()`. On success the row is
        appended with the next id, `created_at = at` and `resolved = 0`, and the
        new id is returned; a failing statement changes nothing. The statement is
        prepared (a missing table fails here) before its parameters are bound
        (an out-of-range integer fails here), and the constraints are checked
        last. */
    method Insert(row: NewRow, at: Timestamp) returns (res: Result<nat, StorageError>)
      requires Valid()
      modifies this
      ensures Valid() && created == old(created)
      ensures !old(created) ==> res == Failure(NoSuchTable) && unchanged(this)
      ensures old(created) && !Bindable(row) ==> res == Failure(IntegerOverflow) && unchanged(this)
      ensures old(created) && Bindable(row) && row.rating.None? ==>
        res == Failure(NotNullViolation("rating")) && unchanged(this)
      ensures old(created) && Bindable(row) && row.rating.Some? ==>
        && res == Success(old(nextId))
        && rows == old(rows) + [Stored(row, old(nextId), at)]
        && nextId == old(nextId) + 1
      ensures res.Success? ==> forall i :: 0 <= i < |old(rows)| ==> old(rows)[i].id < res.value
    {
      if !created {
        return Failure(NoSuchTable);
      }
      if !Bindable(row) {
        return Failure(IntegerOverflow);
      }
      if row.rating.None? {
        return Failure(NotNullViolation("rating"));
      }
      var id := nextId;
      rows := rows + [Stored(row, id, at)];
      nextId := nextId + 1;
      res := Success(id);
    }

    /** `SELECT rating FROM feedback WHERE created_at >= ?`, as rows. */
    function Select(since: Timestamp): (res: Result<seq<FeedbackRecord>, StorageError>)
      reads this
      ensures res.Failure? <==> !created
    {
      if created then Success(Since(rows, since)) else Failure(NoSuchTable)
    }
  }
}
