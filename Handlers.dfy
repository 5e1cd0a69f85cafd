/** The five request handlers over the User table, and the dispatcher that
    runs one of them per request. The table is a map from the ID column to
    the row; the JSON decoder and the database driver are not modelled, and
    what they report is passed in as plain values. */
module Handlers {
  import opened Users
  import opened Http
  import opened Router

  /** What the driver reports for one statement, query or scan. */
  datatype Outcome = Ok | Failed(message: string)

  /** What the JSON decoder makes of a request body. */
  datatype Decoded = Decoded(user: User) | Malformed

  datatype Request = Request(verb: string, path: Path, body: Decoded)

  /** What the driver reports during one request: `query` for the SELECT
      (apart from a missing row, which the table itself decides), `exec`
      for the INSERT, UPDATE or DELETE, `order` for the order in which the
      unordered SELECT of `getUsers` returns the rows, and `cursor` for the
      scan of each row the cursor delivers. */
  datatype Driver = Driver(query: Outcome, exec: Outcome, order: seq<int>, cursor: seq<Outcome>)

  /** `order` lists every key of `keys` exactly once. */
  predicate Enumerates(order: seq<int>, keys: set<int>) {
    && (forall i, j :: 0 <= i < j < |order| ==> order[i] != order[j])
    && (forall i :: 0 <= i < |order| ==> order[i] in keys)
    && (forall k :: k in keys ==> k in order)
  }

  predicate AllOk(scans: seq<Outcome>) {
    forall i :: 0 <= i < |scans| ==> scans[i].Ok?
  }

  /** The rows of `rows` in the order `order` lists their keys. */
  function RowsInOrder(rows: map<int, User>, order: seq<int>): (us: seq<User>)
    requires forall i :: 0 <= i < |order| ==> order[i] in rows
  {
    seq(|order|, i requires 0 <= i < |order| => rows[order[i]])
  }

  const USER_NOT_FOUND := "User not found"
  const INVALID_INPUT := "Invalid input"

  class UserTable {
    /** The rows of the User table, by ID. */
    var rows: map<int, User>
    /** The next value of the ID column's AUTO_INCREMENT counter. */
    var nextId: int

    /** Every row is stored under its own ID, and every ID was handed out by
        the counter, so the counter's value is never in use. */
    ghost predicate Valid()
      reads this
    {
      && 1 <= nextId
      && forall k :: k in rows ==> 1 <= k < nextId && rows[k].id == k
    }

    constructor ()
      ensures Valid() && rows == map[] && nextId == 1
    {
      rows := map[];
      nextId := 1;
    }

    /** `getUser`: the profile of the row with the path id; 404 when the
        query fails for any reason, a missing row included. */
    method GetUser(id: int, query: Outcome) returns (r: Response)
      ensures query.Failed? || id !in rows ==> r == Error(STATUS_NOT_FOUND, USER_NOT_FOUND)
      ensures query.Ok? && id in rows ==> r == Response(STATUS_OK, Profile(rows[id]))
    {
      if query.Failed? || id !in rows {
        return Error(STATUS_NOT_FOUND, USER_NOT_FOUND);
      }
      var user := rows[id];
      r := Response(STATUS_OK, Profile(user));
    }

    /** `getUsers`: one line per row the cursor delivers, in the order the
        query returns them. A failing query or scan gives 500 with the
        driver's message. The cursor may stop early (an iteration error,
        which the handler never inspects): the rows delivered so far are
        then listed with 200. */
    method GetUsers(query: Outcome, order: seq<int>, cursor: seq<Outcome>) returns (r: Response)
      requires Enumerates(order, rows.Keys)
      requires |cursor| <= |order|
      ensures query.Failed? ==> r == Error(STATUS_INTERNAL_SERVER_ERROR, query.message)
      ensures query.Ok? && AllOk(cursor) ==>
        r == Response(STATUS_OK, ListingBody(RowsInOrder(rows, order)[..|cursor|]))
      ensures query.Ok? && !AllOk(cursor) ==>
        exists i :: 0 <= i < |cursor| && cursor[i].Failed? && AllOk(cursor[..i])
          && r == Error(STATUS_INTERNAL_SERVER_ERROR, cursor[i].message)
    {
      if query.Failed? {
        return Error(STATUS_INTERNAL_SERVER_ERROR, query.message);
      }
      ghost var listed := RowsInOrder(rows, order);
      ghost var texts := LineTexts(listed);
      var result := "";
      var i := 0;
      while i < |cursor|
        invariant 0 <= i <= |cursor|
        invariant AllOk(cursor[..i])
        invariant result == Joined(texts[..i])
      {
        if cursor[i].Failed? {
          return Error(STATUS_INTERNAL_SERVER_ERROR, cursor[i].message);
        }
        assert texts[..i + 1][..i] == texts[..i];
        assert cursor[..i + 1] == cursor[..i] + [cursor[i]];
        result := result + Line(rows[order[i]]);
        i := i + 1;
      }
      assert cursor[..i] == cursor;
      RenderedSlice(listed, Line, 0, i);
      assert listed[..i] == listed[0..i] && texts[..i] == texts[0..i];
      if result == "" {
        result := NO_USERS_TEXT;
      }
      r := Response(STATUS_OK, result);
    }

    /** `createUser`: 400 and no insert when the body does not decode; 500
        and no row when the insert fails; otherwise 201 and exactly one new
        row, under a fresh ID, holding the payload's name, email and age
        (the payload's own ID is not inserted). */
    method CreateUser(body: Decoded, exec: Outcome) returns (r: Response)
      requires Valid()
      modifies this
      ensures Valid()
      ensures body.Malformed? ==>
        r == Error(STATUS_BAD_REQUEST, INVALID_INPUT) && rows == old(rows) && nextId == old(nextId)
      ensures body.Decoded? && exec.Failed? ==>
        r == Error(STATUS_INTERNAL_SERVER_ERROR, "Error inserting user")
        && rows == old(rows) && nextId == old(nextId)
      ensures body.Decoded? && exec.Ok? ==>
        && r == Response(STATUS_CREATED, "")
        && old(nextId) !in old(rows)
        && rows == old(rows)[old(nextId) := AsRow(old(nextId), body.user)]
        && |rows| == |old(rows)| + 1
        && nextId == old(nextId) + 1
    {
      if body.Malformed? {
        return Error(STATUS_BAD_REQUEST, INVALID_INPUT);
      }
      var u := body.user;
      if exec.Failed? {
        return Error(STATUS_INTERNAL_SERVER_ERROR, "Error inserting user");
      }
      rows := rows[nextId := AsRow(nextId, u)];
      nextId := nextId + 1;
      r := Response(STATUS_CREATED, "");
    }

    /** `updateUser`: 404 when the row cannot be read, before the body is
        decoded; 400 when the body does not decode; 500 when the UPDATE
        fails. Otherwise the row with the path id is rewritten with the
        payload merged over it, and 200. Only that row can change. */
    method UpdateUser(id: int, query: Outcome, body: Decoded, exec: Outcome) returns (r: Response)
      requires Valid()
      modifies this
      ensures Valid() && nextId == old(nextId)
      ensures query.Failed? || id !in old(rows) ==>
        r == Error(STATUS_NOT_FOUND, USER_NOT_FOUND) && rows == old(rows)
      ensures query.Ok? && id in old(rows) && body.Malformed? ==>
        r == Error(STATUS_BAD_REQUEST, INVALID_INPUT) && rows == old(rows)
      ensures query.Ok? && id in old(rows) && body.Decoded? && exec.Failed? ==>
        r == Error(STATUS_INTERNAL_SERVER_ERROR, "Error updating user") && rows == old(rows)
      ensures query.Ok? && id in old(rows) && body.Decoded? && exec.Ok? ==>
        r == Response(STATUS_OK, "")
        && rows == old(rows)[id := AsRow(id, Merge(old(rows)[id], body.user))]
      ensures body.Decoded? && IsEmptyPayload(body.user) ==> rows == old(rows)
    {
      if query.Failed? || id !in rows {
        return Error(STATUS_NOT_FOUND, USER_NOT_FOUND);
      }
      var existing := rows[id];
      if body.Malformed? {
        return Error(STATUS_BAD_REQUEST, INVALID_INPUT);
      }
      var updates := body.user;
      // A zero value means the field was not supplied: keep the stored one.
      if updates.name == "" {
        updates := updates.(name := existing.name);
      }
      if updates.email == "" {
        updates := updates.(email := existing.email);
      }
      if updates.age == 0 {
        updates := updates.(age := existing.age);
      }
      if exec.Failed? {
        return Error(STATUS_INTERNAL_SERVER_ERROR, "Error updating user");
      }
      assert updates == Merge(existing, body.user);
      if IsEmptyPayload(body.user) {
        MergeEmptyPayload(existing, body.user);
      }
      rows := rows[id := AsRow(id, updates)];
      r := Response(STATUS_OK, "");
    }

    /** `deleteUser`: 500 and no change when the DELETE fails; otherwise
        the row with the path id is gone and the answer is 200, whether or
        not such a row existed. */
    method DeleteUser(id: int, exec: Outcome) returns (r: Response)
      requires Valid()
      modifies this
      ensures Valid() && nextId == old(nextId)
      ensures exec.Failed? ==>
        r == Error(STATUS_INTERNAL_SERVER_ERROR, "Error deleting user") && rows == old(rows)
      ensures exec.Ok? ==> r == Response(STATUS_OK, "") && rows == old(rows) - {id} && id !in rows
    {
      if exec.Failed? {
        return Error(STATUS_INTERNAL_SERVER_ERROR, "Error deleting user");
      }
      rows := rows - {id};
      r := Response(STATUS_OK, "");
    }

    /** `handleRequests`: runs the handler the route and method select, with
        that handler's response and effect on the table, or answers 405
        without running any. GET never changes the table; a request changes
        at most the row its path names, or adds the row under the counter's
        ID. */
    method Handle(req: Request, driver: Driver) returns (r: Response)
      requires Valid()
      requires Route(req.path, req.verb) == Invoke(ReadAll) ==>
        Enumerates(driver.order, rows.Keys) && |driver.cursor| <= |driver.order|
      modifies this
      ensures Valid()
      ensures Route(req.path, req.verb) == MethodNotAllowed ==>
        r == Error(STATUS_METHOD_NOT_ALLOWED, "Method Not Allowed")
        && rows == old(rows) && nextId == old(nextId)
      ensures r.status == STATUS_METHOD_NOT_ALLOWED <==> Route(req.path, req.verb) == MethodNotAllowed
      ensures req.verb == "GET" ==> rows == old(rows) && nextId == old(nextId)
      ensures forall k :: k in old(rows) && req.path != Item(k) ==> k in rows && rows[k] == old(rows)[k]
      ensures forall k :: k in rows && k !in old(rows) ==> req.path == Collection && k == old(nextId)
      // GET /users: the listing of `getUsers`.
      ensures Route(req.path, req.verb) == Invoke(ReadAll) ==>
        && (driver.query.Failed? ==> r == Error(STATUS_INTERNAL_SERVER_ERROR, driver.query.message))
        && (driver.query.Ok? && AllOk(driver.cursor) ==>
              r == Response(STATUS_OK, ListingBody(RowsInOrder(rows, driver.order)[..|driver.cursor|])))
        && (driver.query.Ok? && !AllOk(driver.cursor) ==>
              exists i :: 0 <= i < |driver.cursor| && driver.cursor[i].Failed? && AllOk(driver.cursor[..i])
                && r == Error(STATUS_INTERNAL_SERVER_ERROR, driver.cursor[i].message))
      // POST /users: the insert of `createUser`.
      ensures Route(req.path, req.verb) == Invoke(Create) ==>
        && (req.body.Malformed? ==>
              r == Error(STATUS_BAD_REQUEST, INVALID_INPUT) && rows == old(rows) && nextId == old(nextId))
        && (req.body.Decoded? && driver.exec.Failed? ==>
              r == Error(STATUS_INTERNAL_SERVER_ERROR, "Error inserting user")
              && rows == old(rows) && nextId == old(nextId))
        && (req.body.Decoded? && driver.exec.Ok? ==>
              r == Response(STATUS_CREATED, "")
              && rows == old(rows)[old(nextId) := AsRow(old(nextId), req.body.user)]
              && nextId == old(nextId) + 1)
      // GET /users/{id}: the profile of `getUser`.
      ensures forall id :: Route(req.path, req.verb) == Invoke(ReadOne(id)) ==>
        && (driver.query.Failed? || id !in rows ==> r == Error(STATUS_NOT_FOUND, USER_NOT_FOUND))
        && (driver.query.Ok? && id in rows ==> r == Response(STATUS_OK, Profile(rows[id])))
      // PUT /users/{id}: the merge of `updateUser`.
      ensures forall id :: Route(req.path, req.verb) == Invoke(Update(id)) ==>
        && nextId == old(nextId)
        && (driver.query.Failed? || id !in old(rows) ==>
              r == Error(STATUS_NOT_FOUND, USER_NOT_FOUND) && rows == old(rows))
        && (driver.query.Ok? && id in old(rows) && req.body.Malformed? ==>
              r == Error(STATUS_BAD_REQUEST, INVALID_INPUT) && rows == old(rows))
        && (driver.query.Ok? && id in old(rows) && req.body.Decoded? && driver.exec.Failed? ==>
              r == Error(STATUS_INTERNAL_SERVER_ERROR, "Error updating user") && rows == old(rows))
        && (driver.query.Ok? && id in old(rows) && req.body.Decoded? && driver.exec.Ok? ==>
              r == Response(STATUS_OK, "")
              && rows == old(rows)[id := AsRow(id, Merge(old(rows)[id], req.body.user))])
      // DELETE /users/{id}: the delete of `deleteUser`.
      ensures forall id :: Route(req.path, req.verb) == Invoke(Delete(id)) ==>
        && nextId == old(nextId)
        && (driver.exec.Failed? ==>
              r == Error(STATUS_INTERNAL_SERVER_ERROR, "Error deleting user") && rows == old(rows))
        && (driver.exec.Ok? ==> r == Response(STATUS_OK, "") && rows == old(rows) - {id})
    {
      match Route(req.path, req.verb)
      case MethodNotAllowed =>
        r := Error(STATUS_METHOD_NOT_ALLOWED, "Method Not Allowed");
      case Invoke(ReadAll) =>
        r := GetUsers(driver.query, driver.order, driver.cursor);
      case Invoke(Create) =>
        r := CreateUser(req.body, driver.exec);
      case Invoke(ReadOne(id)) =>
        r := GetUser(id, driver.query);
      case Invoke(Update(id)) =>
        r := UpdateUser(id, driver.query, req.body, driver.exec);
      case Invoke(Delete(id)) =>
        r := DeleteUser(id, driver.exec);
    }

    /** A user created with any payload reads back, under the ID the insert
        was given, with the payload's name, email and age. */
    method CreateThenGet(payload: User) returns (id: int, created: Response, fetched: Response)
      requires Valid()
      modifies this
      ensures Valid()
      ensures id == old(nextId) && created == Response(STATUS_CREATED, "")
      ensures fetched == Response(STATUS_OK, Profile(AsRow(id, payload)))
    {
      id := nextId;
      created := CreateUser(Decoded(payload), Ok);
      fetched := GetUser(id, Ok);
    }
  }

  /** The life of one user on a fresh table: created, read, given a new
      age by a partial update that keeps name and email, deleted, and then
      no longer found. */
  method Walkthrough() returns (created: Response, fetched: Response, updated: Response,
                                refetched: Response, deleted: Response, gone: Response)
    ensures created == Response(STATUS_CREATED, "")
    ensures fetched == Response(STATUS_OK, Profile(User(1, "Ana", "ana@example.com", 25)))
    ensures updated == Response(STATUS_OK, "")
    ensures refetched == Response(STATUS_OK, Profile(User(1, "Ana", "ana@example.com", 26)))
    ensures deleted == Response(STATUS_OK, "")
    ensures gone == Error(STATUS_NOT_FOUND, USER_NOT_FOUND)
  {
    var table := new UserTable();
    var ana := User(0, "Ana", "ana@example.com", 25);
    created := table.CreateUser(Decoded(ana), Ok);
    assert table.rows == map[1 := User(1, "Ana", "ana@example.com", 25)];
    fetched := table.GetUser(1, Ok);
    updated := table.UpdateUser(1, Ok, Decoded(User(0, "", "", 26)), Ok);
    assert table.rows == map[1 := User(1, "Ana", "ana@example.com", 26)];
    refetched := table.GetUser(1, Ok);
    deleted := table.DeleteUser(1, Ok);
    assert table.rows == map[];
    gone := table.GetUser(1, Ok);
  }
}
