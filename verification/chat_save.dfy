/**
 * The history endpoint (app/api/chat/save/route.ts): it stores a user's
 * transcript in the `chat_history` table, overwriting the user's row when
 * one is found and inserting a row otherwise. The table is a sequence of
 * rows in the order the database returns them; the database's answers to
 * the lookup and to the write come in as parameters.
 */
module ChatSave {
  import opened Wrappers
  import opened JsValues

  /** A row of `chat_history`; `updatedAt` is None while the column holds its default. */
  datatype Row = Row(id: nat, userId: Value, messages: Value, updatedAt: Option<string>)

  /** The JSON answer: its status code and its `message`. */
  datatype Reply = Reply(status: int, message: string)

  const MissingFieldsText: string := "Missing required fields"
  const SavedText: string := "Chat history saved successfully"
  const InternalErrorText: string := "Internal server error"

  /** The request carries a truthy `userId` and a truthy `messages`. */
  predicate Complete(fields: map<string, Value>) {
    Truthy(Field(fields, "userId")) && Truthy(Field(fields, "messages"))
  }

  /** Row ids are distinct, as a primary key's are. */
  ghost predicate UniqueIds(rows: seq<Row>) {
    forall i, j :: 0 <= i < j < |rows| ==> rows[i].id != rows[j].id
  }

  /** No id in the table is `id`. */
  ghost predicate FreshId(rows: seq<Row>, id: nat) {
    forall i :: 0 <= i < |rows| ==> rows[i].id != id
  }

  /** No two rows belong to the same user. */
  ghost predicate OneRowPerUser(rows: seq<Row>) {
    forall i, j :: 0 <= i < j < |rows| ==> rows[i].userId != rows[j].userId
  }

  /** Some row belongs to `u`. */
  ghost predicate HasRow(rows: seq<Row>, u: Value) {
    exists i :: 0 <= i < |rows| && rows[i].userId == u
  }

  /** The lookup filtered by `user_id` and limited to one row: the position of the first row of `u`. */
  function FirstRowOf(rows: seq<Row>, u: Value): (r: Option<nat>)
    ensures r.None? <==> !HasRow(rows, u)
    ensures r.Some? ==> r.value < |rows| && rows[r.value].userId == u
    ensures r.Some? ==> forall k :: 0 <= k < r.value ==> rows[k].userId != u
  {
    if |rows| == 0 then None
    else if rows[0].userId == u then Some(0)
    else
      match FirstRowOf(rows[1..], u)
      case None =>
        assert forall i :: 1 <= i < |rows| ==> rows[i] == rows[1..][i - 1];
        None
      case Some(i) => Some(i + 1)
  }

  /** The update filtered by `id`: every row with that id gets the messages and the time stamp. */
  function UpdateById(rows: seq<Row>, id: nat, m: Value, now: string): (r: seq<Row>)
    ensures |r| == |rows|
    ensures forall i :: 0 <= i < |rows| && rows[i].id != id ==> r[i] == rows[i]
    ensures forall i :: 0 <= i < |rows| && rows[i].id == id ==>
      r[i] == rows[i].(messages := m, updatedAt := Some(now))
  {
    if |rows| == 0 then []
    else
      var head := if rows[0].id == id then rows[0].(messages := m, updatedAt := Some(now)) else rows[0];
      [head] + UpdateById(rows[1..], id, m, now)
  }

  /** The insert: one new row for `u`, whose id the database picks and whose time stamp is the default. */
  function Inserted(rows: seq<Row>, u: Value, m: Value, freshId: nat): (r: seq<Row>)
    ensures |r| == |rows| + 1 && r[..|rows|] == rows
    ensures r[|rows|] == Row(freshId, u, m, None)
    ensures HasRow(r, u) && r[|rows|].messages == m && r[|rows|].updatedAt.None?
  {
    var r := rows + [Row(freshId, u, m, None)];
    assert r[|rows|].userId == u;
    r
  }

  /** The table after a save whose lookup and write succeed. */
  function Upserted(rows: seq<Row>, u: Value, m: Value, now: string, freshId: nat): (r: seq<Row>)
    ensures |r| == if HasRow(rows, u) then |rows| else |rows| + 1
    ensures forall k :: 0 <= k < |rows| ==> r[k].userId == rows[k].userId && r[k].id == rows[k].id
    ensures HasRow(r, u)
  {
    match FirstRowOf(rows, u)
    case Some(i) => UpdateById(rows, rows[i].id, m, now)
    case None => Inserted(rows, u, m, freshId)
  }

  /** When `u` has a row, the first one takes the messages and the time stamp; every other row stays. */
  lemma UpsertOverwritesFirstRow(rows: seq<Row>, u: Value, m: Value, now: string, freshId: nat, i: nat)
    requires UniqueIds(rows)
    requires FirstRowOf(rows, u) == Some(i)
    ensures |Upserted(rows, u, m, now, freshId)| == |rows|
    ensures Upserted(rows, u, m, now, freshId)[i] == rows[i].(messages := m, updatedAt := Some(now))
    ensures forall k :: 0 <= k < |rows| && k != i ==> Upserted(rows, u, m, now, freshId)[k] == rows[k]
  {
  }

  /** When `u` has no row, exactly one row is added, at the end, for `u` with the messages. */
  lemma UpsertInsertsOneRow(rows: seq<Row>, u: Value, m: Value, now: string, freshId: nat)
    requires !HasRow(rows, u)
    ensures |Upserted(rows, u, m, now, freshId)| == |rows| + 1
    ensures Upserted(rows, u, m, now, freshId)[..|rows|] == rows
    ensures Upserted(rows, u, m, now, freshId)[|rows|] == Row(freshId, u, m, None)
  {
  }

  /** Rows of other users are never modified, because the update is filtered by the found row's id. */
  lemma UpsertLeavesOtherUsers(rows: seq<Row>, u: Value, m: Value, now: string, freshId: nat)
    requires UniqueIds(rows)
    ensures forall k :: 0 <= k < |rows| && rows[k].userId != u ==>
      k < |Upserted(rows, u, m, now, freshId)| && Upserted(rows, u, m, now, freshId)[k] == rows[k]
  {
    match FirstRowOf(rows, u)
    case Some(i) => UpsertOverwritesFirstRow(rows, u, m, now, freshId, i);
    case None => UpsertInsertsOneRow(rows, u, m, now, freshId);
  }

  /** Some row of `u` holds the messages `m`. */
  ghost predicate Stores(rows: seq<Row>, u: Value, m: Value) {
    exists i :: 0 <= i < |rows| && rows[i].userId == u && rows[i].messages == m
  }

  /**
   * A save keeps a table with one row per user in that shape and leaves `u`
   * with a row holding the messages; with a fresh id for the insert, the ids
   * stay distinct.
   */
  lemma UpsertKeepsOneRowPerUser(rows: seq<Row>, u: Value, m: Value, now: string, freshId: nat)
    requires OneRowPerUser(rows) && UniqueIds(rows) && FreshId(rows, freshId)
    ensures OneRowPerUser(Upserted(rows, u, m, now, freshId))
    ensures UniqueIds(Upserted(rows, u, m, now, freshId))
    ensures Stores(Upserted(rows, u, m, now, freshId), u, m)
  {
    var r := Upserted(rows, u, m, now, freshId);
    match FirstRowOf(rows, u)
    case Some(i) =>
      UpsertOverwritesFirstRow(rows, u, m, now, freshId, i);
      assert forall k :: 0 <= k < |rows| ==> r[k].userId == rows[k].userId && r[k].id == rows[k].id;
      assert r[i].userId == u && r[i].messages == m;
    case None =>
      UpsertInsertsOneRow(rows, u, m, now, freshId);
      assert forall k :: 0 <= k < |rows| ==> r[k] == rows[k];
      assert r[|rows|].userId == u && r[|rows|].messages == m;
  }

  /** A save that finds a row of `u` is the update of that row's id. */
  lemma UpsertFound(rows: seq<Row>, u: Value, m: Value, now: string, freshId: nat)
    requires FirstRowOf(rows, u).Some?
    ensures Upserted(rows, u, m, now, freshId) == UpdateById(rows, rows[FirstRowOf(rows, u).value].id, m, now)
  {
  }

  /**
   * A save for a user who has a row adds no row, keeps one row per user, and
   * leaves every row of that user holding the new messages.
   */
  lemma UpsertExistingUser(rows: seq<Row>, u: Value, m: Value, now: string, freshId: nat)
    requires OneRowPerUser(rows) && HasRow(rows, u)
    ensures var r := Upserted(rows, u, m, now, freshId);
      |r| == |rows| && OneRowPerUser(r) && Stores(r, u, m)
      && (forall k :: 0 <= k < |r| && r[k].userId == u ==> r[k].messages == m)
  {
    var i :| 0 <= i < |rows| && rows[i].userId == u;
    assert FirstRowOf(rows, u) == Some(i);
    UpsertFound(rows, u, m, now, freshId);
    var r := UpdateById(rows, rows[i].id, m, now);
    assert forall k :: 0 <= k < |rows| ==> r[k].userId == rows[k].userId;
    assert r[i].userId == u && r[i].messages == m;
  }

  /** Saving twice for one user: the second save adds no row, and the user's only row holds the second transcript. */
  lemma SaveTwiceKeepsLast(rows: seq<Row>, u: Value, m1: Value, m2: Value, t1: string, t2: string, f1: nat, f2: nat)
    requires OneRowPerUser(rows) && UniqueIds(rows) && FreshId(rows, f1)
    ensures var once := Upserted(rows, u, m1, t1, f1);
      var twice := Upserted(once, u, m2, t2, f2);
      |twice| == |once| && OneRowPerUser(twice) && Stores(twice, u, m2)
      && (forall k :: 0 <= k < |twice| && twice[k].userId == u ==> twice[k].messages == m2)
  {
    var once := Upserted(rows, u, m1, t1, f1);
    UpsertKeepsOneRowPerUser(rows, u, m1, t1, f1);
    var i :| 0 <= i < |once| && once[i].userId == u && once[i].messages == m1;
    assert HasRow(once, u);
    UpsertExistingUser(once, u, m2, t2, f2);
  }

  /** A second row for a user who already has one breaks the one-row-per-user shape. */
  lemma FailedLookupDuplicates(rows: seq<Row>, u: Value, m: Value, freshId: nat)
    requires HasRow(rows, u)
    ensures !OneRowPerUser(Inserted(rows, u, m, freshId))
  {
    var i :| 0 <= i < |rows| && rows[i].userId == u;
    var r := Inserted(rows, u, m, freshId);
    assert r[i].userId == r[|rows|].userId;
  }

  /** The `chat_history` table and the next id the database hands out. */
  class ChatHistoryTable {
    var rows: seq<Row>
    var nextId: nat

    /** Row ids are distinct and below the next id. */
    ghost predicate Valid()
      reads this
    {
      UniqueIds(rows) && forall i :: 0 <= i < |rows| ==> rows[i].id < nextId
    }

    constructor ()
      ensures Valid() && rows == [] && nextId == 0
    {
      rows := [];
      nextId := 0;
    }

    /** The database's insert: appends a row with the next id. */
    method Insert(u: Value, m: Value)
      requires Valid()
      modifies this
      ensures Valid()
      ensures rows == Inserted(old(rows), u, m, old(nextId)) && nextId == old(nextId) + 1
    {
      rows := Inserted(rows, u, m, nextId);
      nextId := nextId + 1;
    }

    /**
     * `POST /api/chat/save`, as written. `lookupFails` says the lookup
     * answered with an error, which the handler does not look at: it then
     * finds no row. `writeError` is the error the update or the insert
     * answers with, if any.
     */
    method Save(body: Body, now: string, lookupFails: bool, writeError: Option<string>) returns (reply: Reply)
      requires Valid()
      modifies this
      ensures Valid()
      ensures body.Unreadable? ==> reply == Reply(500, InternalErrorText)
      ensures body.Readable? && !Complete(body.fields) ==> reply == Reply(400, MissingFieldsText)
      ensures body.Readable? && Complete(body.fields) && writeError.Some? ==> reply == Reply(400, writeError.value)
      ensures body.Readable? && Complete(body.fields) && writeError.None? ==> reply == Reply(200, SavedText)
      ensures reply.status != 200 ==> rows == old(rows) && nextId == old(nextId)
      ensures reply.status == 200 && !lookupFails ==>
        rows == Upserted(old(rows), Field(body.fields, "userId"), Field(body.fields, "messages"), now, old(nextId))
      ensures reply.status == 200 && lookupFails ==>
        rows == Inserted(old(rows), Field(body.fields, "userId"), Field(body.fields, "messages"), old(nextId))
    {
      if body.Unreadable? {
        return Reply(500, InternalErrorText);
      }
      var u := Field(body.fields, "userId");
      var m := Field(body.fields, "messages");
      if !Truthy(u) || !Truthy(m) {
        return Reply(400, MissingFieldsText);
      }
      var found := if lookupFails then None else FirstRowOf(rows, u);
      if writeError.Some? {
        return Reply(400, writeError.value);
      }
      if found.Some? {
        rows := UpdateById(rows, rows[found.value].id, m, now);
      } else {
        Insert(u, m);
      }
      reply := Reply(200, SavedText);
    }

    /**
     * The save with the lookup's error reported like the write's: a failed
     * lookup answers 400 with its message and writes nothing, so a table with
     * one row per user keeps that shape.
     */
    method SaveChecked(body: Body, now: string, lookupError: Option<string>, writeError: Option<string>)
      returns (reply: Reply)
      requires Valid()
      modifies this
      ensures Valid()
      ensures body.Unreadable? ==> reply == Reply(500, InternalErrorText)
      ensures body.Readable? && !Complete(body.fields) ==> reply == Reply(400, MissingFieldsText)
      ensures body.Readable? && Complete(body.fields) && lookupError.Some? ==> reply == Reply(400, lookupError.value)
      ensures body.Readable? && Complete(body.fields) && lookupError.None? && writeError.Some?
        ==> reply == Reply(400, writeError.value)
      ensures body.Readable? && Complete(body.fields) && lookupError.None? && writeError.None?
        ==> reply == Reply(200, SavedText)
      ensures reply.status != 200 ==> rows == old(rows) && nextId == old(nextId)
      ensures reply.status == 200 ==>
        rows == Upserted(old(rows), Field(body.fields, "userId"), Field(body.fields, "messages"), now, old(nextId))
      ensures OneRowPerUser(old(rows)) ==> OneRowPerUser(rows)
    {
      if body.Unreadable? {
        return Reply(500, InternalErrorText);
      }
      var u := Field(body.fields, "userId");
      var m := Field(body.fields, "messages");
      if !Truthy(u) || !Truthy(m) {
        return Reply(400, MissingFieldsText);
      }
      if lookupError.Some? {
        return Reply(400, lookupError.value);
      }
      if writeError.Some? {
        return Reply(400, writeError.value);
      }
      if OneRowPerUser(rows) {
        assert FreshId(rows, nextId);
        UpsertKeepsOneRowPerUser(rows, u, m, now, nextId);
      }
      var found := FirstRowOf(rows, u);
      if found.Some? {
        UpsertFound(rows, u, m, now, nextId);
        rows := UpdateById(rows, rows[found.value].id, m, now);
      } else {
        Insert(u, m);
      }
      reply := Reply(200, SavedText);
    }
  }
}
