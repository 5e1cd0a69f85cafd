# User CRUD service: handlers, merge, listing and routing

This project models the request-handling core of a small Go HTTP service.
The service keeps `User` records (ID, name, email, age) in one MySQL table
and offers five handlers:

- `getUser` reads one row.
- `getUsers` lists every row as text.
- `createUser` inserts a row.
- `updateUser` merges a partial payload over a stored row.
- `deleteUser` removes a row.

`handleRequests` dispatches each request to a handler by path and method.

The model is split into modules that follow the program's parts:

- `Text` renders an integer as Go's `%d` does. It also has the inverse parse, to show the rendering loses nothing.
- `Users` holds the `User` record, the partial-update merge (`Merge`) and the text bodies (`Profile`, `Line`, `Lines`, `ListingBody`), with lemmas about them.
- `Http` holds a response as a status and a body, and `Error`, which sends a message followed by a newline, as `http.Error` does.
- `Router` holds the method dispatch as a pure function.
- `Handlers` holds the class `UserTable`. Its `rows` field is a `map<int, User>` from the ID column to the row. Its `nextId` field is the AUTO_INCREMENT counter. There is one method per handler, plus `Handle`, which routes a request to one of them.

The JSON decoder and the database driver are not executed. What they report
comes in as plain values:

- `Decoded` is a decoded payload, or `Malformed`.
- `Outcome` is `Ok`, or `Failed` with the driver's message.
- `Driver` bundles, for one request, the query outcome, the statement outcome, the unspecified row order of the listing query, and the outcome of each row scan.

A missing row is not an input: the table decides it.

The model follows the code as written, including these points:

- There is no email or required-field validation. Any decoded payload is inserted or merged.
- An insert or update that breaks the UNIQUE constraint on email is an ordinary statement failure and gives 500, never 409.
- There is no pagination. `getUsers` lists every row.
- `deleteUser` answers 200 when no row had the id, because the number of affected rows is never checked.
- `getUser` answers with the plain text `Name: …, Email: …, Age: …`, not a JSON object.
- `createUser` answers 201 with an empty body, and `updateUser` answers 200 with an empty body. Neither returns the entity.
- In `updateUser`, any failure to read the row gives 404, a driver fault included. The lookup comes before the body is decoded, so a missing row with a malformed body gives 404, not 400.
- In `getUsers`, the end of iteration is never checked for an error. A cursor that stops early lists the rows delivered so far with 200.

## Model

| member | source | states |
|---|---|---|
| `Users.Merge` | main.go:98-107 | the merged record keeps the payload's ID; each column is taken from the payload or the stored row, and is non-empty (non-zero for the age) exactly when one of them is |
| `Users.MergeRule` | main.go:98-107 | each merged column is the payload's value when it is non-empty (name, email) or non-zero (age), and the stored value otherwise |
| `Users.MergeEmptyPayload` | main.go:98-107 | a payload with name `""`, email `""` and age `0` rewrites the stored row exactly as it was |
| `Users.MergeFullPayload` | main.go:99-107 | a payload that supplies all three columns replaces all three |
| `Users.MergeIgnoresIds` | main.go:110 | the row written depends on the path id only, never on the payload's ID or the stored record's ID |
| `Users.MergeIdempotent` | main.go:99-107 | merging the same payload twice gives the same row as merging it once |
| `Users.MergeSequential` | main.go:99-107 | two successive updates equal one update whose payload is the second merged over the first |
| `Users.MergeCannotClear` | main.go:99-107 | because zero means "not supplied", no update can clear a stored name or email, or set a non-zero age back to 0 |
| `Users.Profile` | main.go:32 | the `getUser` body starts with `Name: `, ends with the age's `%d` text, and is 22 characters longer than name, email and age text together |
| `Users.ListingBody` | main.go:44-57 | the `getUsers` body is never empty and always ends with a newline, whether it is the listing or `No users found.\n` |
| `Users.LinesEnding` | main.go:52 | a listing of at least one row ends with the newline of its last line |
| `Users.JoinedAppend` | main.go:52 | accumulating texts with `+=` over a concatenation of two sequences gives the two accumulations concatenated |
| `Users.LinesAppend` | main.go:45-53 | the listing of two row sequences one after the other is the two listings concatenated, so rows keep their order |
| `Users.LinesFirst` | main.go:45-53 | a non-empty listing starts with the first row's `name - email - age` line, followed by the listing of the rest |
| `Users.LineEnding` | main.go:52 | every listing line ends with the last character of the age's `%d` text, which is a digit, followed by a newline |
| `Users.ListingBodyNoUsers` | main.go:55-57 | the body is exactly `No users found.\n` if and only if there are no rows; no non-empty listing can equal it |
| `Text.Digits` | main.go:52 | the decimal digits of a natural number are non-empty and all digits |
| `Text.DecimalText` | main.go:52 | the `%d` text of an integer, as both `getUsers` and `getUser` (main.go:32) write the age, is a well-formed numeral (digits after an optional minus sign) whose last character is a digit |
| `Text.DigitsRoundTrip` | main.go:52 | reading back the digits of a natural number gives the number |
| `Text.DecimalRoundTrip` | main.go:52 | reading back the `%d` rendering of any integer, negative ones included, gives the integer |
| `Text.DecimalTextInjective` | main.go:52 | distinct ages are rendered as distinct texts |
| `Text.DigitsNoLeadingZero` | main.go:52 | the digits of a number start with `0` only when the number is 0, so there are no leading zeros |
| `Http.Error` | main.go:28 | an error response carries the given status, and its body is the message followed by exactly one newline |
| `Router.Route` | main.go:135-155 | a handler is reached only on its own route and by its own method, and an item handler gets the path's id |
| `Router.RouteMethodNotAllowed` | main.go:135-155 | the answer is 405 exactly when the method is not GET or POST on `/users`, or not GET, PUT or DELETE on `/users/{id}` |
| `Router.RouteReaches` | main.go:135-155 | route and method select a handler if and only if they are that handler's route and method |
| `Handlers.UserTable.GetUser` | main.go:21-33 | 404 `User not found` when the query fails or no row has the id; otherwise 200 with `Name: …, Email: …, Age: …` of that row |
| `Handlers.UserTable.GetUsers` | main.go:35-58 | 500 with the driver's message when the query fails or a row's scan fails (the first failing scan, all earlier ones succeeded); otherwise 200 with one line per delivered row in query order, or `No users found.\n` |
| `Handlers.UserTable.CreateUser` | main.go:61-76 | 400 and no change on a malformed body; 500 and no change when the insert fails; otherwise 201 and exactly one new row under a fresh ID, with the payload's name, email and age and not its ID |
| `Handlers.UserTable.UpdateUser` | main.go:78-117 | 404 and no change when the row cannot be read, whatever the body; then 400 on a malformed body; 500 when the UPDATE fails; otherwise 200, only the row with the path id changes and it holds the merged record; an empty payload leaves the table unchanged |
| `Handlers.UserTable.DeleteUser` | main.go:119-130 | 500 and no change when the DELETE fails; otherwise 200 and no row with the id remains, also when none existed |
| `Handlers.UserTable.Handle` | main.go:132-155 | a routed request gets the response and table change of the handler its route and method select (listing, insert, profile, merge or delete, each with its error paths); 405 `Method Not Allowed` exactly when the router refuses, with no handler run and no change; GET never changes the table; a request changes at most the row its path names, or adds one row under the counter's ID |
| `Handlers.UserTable.CreateThenGet` | main.go:61-76 | a user created with any payload reads back under its new ID with the payload's name, email and age |
| `Handlers.Walkthrough` | main.go:21-130 | on a fresh table: create Ana (age 25) gives 201; reading ID 1 gives her profile; updating with only age 26 gives 200 and keeps name and email; delete gives 200; a later read gives 404 |

## Left out

- `initializeDB` and `main` (main.go:161-238) are not modelled. They create the database, the MySQL user, the grants, the table and a seed row, which are external SQL side effects. `UserTable` starts empty.
- `http.ListenAndServe` and the startup message are not modelled; they are network and console I/O.
- Paths other than `/users` and `/users/{id}` are not modelled. The router library answers them itself.
- The `Content-Type` header set by `getUsers` (main.go:36) is not modelled, and no other header is either.
- The path variable is a string in the source, and MySQL converts it when it compares it with the INT ID column. The model takes the id as an integer key, so non-numeric ids are not modelled.
- JSON decoding is not modelled; its result is the abstract `Decoded` input. This includes field-name matching and out-of-range numbers.
- The SQL driver is not modelled; each statement's result is the abstract `Outcome` input. A UNIQUE email violation is one such failure.
- Integer widths and column lengths are not modelled. The source's age is a Go `int` (64 bits on 64-bit platforms), the Age column is a 32-bit MySQL INT, and Name and Email are VARCHAR(100) (main.go:208-211); the model uses unbounded integers and strings. Under the server's default strict SQL mode, a value out of range or too long surfaces as a decode or statement failure, and those are already inputs. In non-strict mode MySQL would instead clamp the age or cut the text and report success, which the model does not capture.
- `Handlers.UserTable.CreateUser`: a failed insert leaves `nextId` unchanged. A real AUTO_INCREMENT counter may still skip a value, so the model does not capture ID gaps.
- The row order of `SELECT … FROM User` is unspecified because there is no ORDER BY. It is an input: any order that lists every key once.
- Concurrency is not modelled. Requests run one at a time, so the model does not capture a row changing between `updateUser`'s read and its write.
- The text of driver errors is not modelled; it is the message carried by the `Failed` outcome.
