/** The `User` record, the partial-update merge of `updateUser`, and the
    text bodies that `getUser` and `getUsers` write. */
module Users {
  import opened Text

  /** A user as the JSON decoder fills it and as a table row holds it.
      A field the client leaves out decodes to its zero value. */
  datatype User = User(id: int, name: string, email: string, age: int)

  /** The record `updateUser` writes back: each field of `updates` that holds
      its zero value (`""` for text, `0` for the age) takes the value of
      `existing` instead. The payload's `id` is carried along untouched; it
      is never written (see `AsRow`). */
  function Merge(existing: User, updates: User): (merged: User)
    ensures merged.id == updates.id
    ensures merged.name in {updates.name, existing.name}
    ensures merged.email in {updates.email, existing.email}
    ensures merged.age in {updates.age, existing.age}
    ensures merged.name != "" <==> updates.name != "" || existing.name != ""
    ensures merged.email != "" <==> updates.email != "" || existing.email != ""
    ensures merged.age != 0 <==> updates.age != 0 || existing.age != 0
  {
    User(updates.id,
         if updates.name == "" then existing.name else updates.name,
         if updates.email == "" then existing.email else updates.email,
         if updates.age == 0 then existing.age else updates.age)
  }

  /** The row an INSERT or UPDATE statement leaves behind: the key comes from
      the storage (insert) or from the request path (update), the three
      columns Name, Email, Age from `u`. */
  function AsRow(id: int, u: User): (row: User) {
    User(id, u.name, u.email, u.age)
  }

  /** A payload that supplies none of the three columns. */
  predicate IsEmptyPayload(u: User) {
    u.name == "" && u.email == "" && u.age == 0
  }

  /** Each merged column is the payload's value when the payload supplies a
      non-zero one, and the stored value otherwise. */
  lemma MergeRule(existing: User, updates: User)
    ensures var m := Merge(existing, updates);
      && (updates.name != "" ==> m.name == updates.name)
      && (updates.name == "" ==> m.name == existing.name)
      && (updates.email != "" ==> m.email == updates.email)
      && (updates.email == "" ==> m.email == existing.email)
      && (updates.age != 0 ==> m.age == updates.age)
      && (updates.age == 0 ==> m.age == existing.age)
  {
  }

  /** An update that supplies nothing rewrites the stored row unchanged. */
  lemma MergeEmptyPayload(existing: User, updates: User)
    requires IsEmptyPayload(updates)
    ensures AsRow(existing.id, Merge(existing, updates)) == existing
  {
  }

  /** An update that supplies all three columns replaces them all. */
  lemma MergeFullPayload(existing: User, updates: User, id: int)
    requires updates.name != "" && updates.email != "" && updates.age != 0
    ensures AsRow(id, Merge(existing, updates)) == AsRow(id, updates)
  {
  }

  /** The row written depends on the path id, never on the `id` of the
      payload or of the stored record. */
  lemma MergeIgnoresIds(existing: User, updates: User, id: int, otherId: int, storedId: int)
    ensures AsRow(id, Merge(existing, updates))
         == AsRow(id, Merge(existing.(id := storedId), updates.(id := otherId)))
  {
  }

  /** Sending the same update twice has the effect of sending it once. */
  lemma MergeIdempotent(existing: User, updates: User)
    ensures Merge(Merge(existing, updates), updates) == Merge(existing, updates)
  {
  }

  /** Two successive updates have the effect of one update whose payload is
      the second merged over the first. */
  lemma MergeSequential(existing: User, first: User, second: User)
    ensures Merge(Merge(existing, first), second) == Merge(existing, Merge(first, second))
  {
  }

  /** Zero values mean "not supplied", so no update can clear a stored name or
      email, or set a stored non-zero age back to 0. */
  lemma MergeCannotClear(existing: User, updates: User)
    ensures existing.name != "" ==> Merge(existing, updates).name != ""
    ensures existing.email != "" ==> Merge(existing, updates).email != ""
    ensures existing.age != 0 ==> Merge(existing, updates).age != 0
  {
  }

  /** The body `getUser` writes for a found row. */
  function Profile(u: User): (body: string)
    ensures |body| == 22 + |u.name| + |u.email| + |DecimalText(u.age)|
    ensures body[..6] == "Name: "
    ensures body[|body| - |DecimalText(u.age)|..] == DecimalText(u.age)
  {
    "Name: " + u.name + ", Email: " + u.email + ", Age: " + DecimalText(u.age)
  }

  /** One line of the `getUsers` listing. */
  function Line(u: User): (line: string) {
    u.name + " - " + u.email + " - " + DecimalText(u.age) + "\n"
  }

  /** The concatenation of `parts`, in order, as `+=` accumulates them. */
  function Joined(parts: seq<string>): (text: string) {
    if parts == [] then "" else Joined(parts[..|parts| - 1]) + parts[|parts| - 1]
  }

  /** The text `render` gives each element of `xs`, in order. */
  function Rendered<T>(xs: seq<T>, render: T -> string): (texts: seq<string>) {
    seq(|xs|, i requires 0 <= i < |xs| => render(xs[i]))
  }

  lemma RenderedAppend<T>(xs: seq<T>, ys: seq<T>, render: T -> string)
    ensures Rendered(xs + ys, render) == Rendered(xs, render) + Rendered(ys, render)
  {
  }

  lemma RenderedSlice<T>(xs: seq<T>, render: T -> string, lo: nat, hi: nat)
    requires lo <= hi <= |xs|
    ensures Rendered(xs, render)[lo..hi] == Rendered(xs[lo..hi], render)
  {
  }

  /** The line of each row, in row order. */
  function LineTexts(us: seq<User>): (texts: seq<string>) {
    Rendered(us, Line)
  }

  /** The text `getUsers` accumulates for the rows `us`. */
  function Lines(us: seq<User>): (text: string) {
    Joined(LineTexts(us))
  }

  const NO_USERS_TEXT := "No users found.\n"

  /** The body of a successful `getUsers`: the accumulated lines, or the
      fixed message when nothing was accumulated. */
  function ListingBody(us: seq<User>): (body: string)
    ensures |body| >= 2 && body[|body| - 1] == '\n'
  {
    var lines := Lines(us);
    if lines == "" then NO_USERS_TEXT
    else
      assert us != [];
      LinesEnding(us);
      lines
  }

  lemma {:induction false} JoinedAppend(a: seq<string>, b: seq<string>)
    ensures Joined(a + b) == Joined(a) + Joined(b)
    decreases |b|
  {
    if b == [] {
      assert a + b == a;
    } else {
      var ab := a + b;
      assert ab[..|ab| - 1] == a + b[..|b| - 1];
      assert ab[|ab| - 1] == b[|b| - 1];
      JoinedAppend(a, b[..|b| - 1]);
    }
  }

  /** Rendering a concatenation of row sequences concatenates their
      renderings: the listing keeps the order of the rows. */
  lemma LinesAppend(a: seq<User>, b: seq<User>)
    ensures Lines(a + b) == Lines(a) + Lines(b)
  {
    RenderedAppend(a, b, Line);
    JoinedAppend(LineTexts(a), LineTexts(b));
  }

  lemma JoinedFirst(parts: seq<string>)
    requires parts != []
    ensures Joined(parts) == parts[0] + Joined(parts[1..])
  {
    var head := [parts[0]];
    assert parts == head + parts[1..];
    JoinedAppend(head, parts[1..]);
    assert head[..0] == [];
  }

  /** The listing starts with the first row's line, followed by the rest. */
  lemma LinesFirst(us: seq<User>)
    requires us != []
    ensures Lines(us) == Line(us[0]) + Lines(us[1..])
  {
    var texts := LineTexts(us);
    JoinedFirst(texts);
    RenderedSlice(us, Line, 1, |us|);
    assert texts[0] == Line(us[0]);
    assert texts[1..] == texts[1..|us|] && us[1..] == us[1..|us|];
  }

  /** Every line ends with the last digit of the age and a newline. */
  lemma LineEnding(u: User)
    ensures |Line(u)| >= 2
    ensures IsDigit(Line(u)[|Line(u)| - 2]) && Line(u)[|Line(u)| - 1] == '\n'
    ensures Line(u)[|Line(u)| - 2] == DecimalText(u.age)[|DecimalText(u.age)| - 1]
  {
  }

  /** A non-empty listing ends with the newline of its last row's line. */
  lemma LinesEnding(us: seq<User>)
    requires us != []
    ensures |Lines(us)| >= 2 && Lines(us)[|Lines(us)| - 1] == '\n'
  {
    var texts := LineTexts(us);
    var l := texts[|texts| - 1];
    assert l == Line(us[|us| - 1]);
    LineEnding(us[|us| - 1]);
    var all := Joined(texts[..|texts| - 1]) + l;
    assert all == Lines(us);
    assert all[|all| - 1] == l[|l| - 1];
  }

  /** The body is the fixed no-users message exactly when there are no rows:
      no non-empty listing can be mistaken for it. */
  lemma ListingBodyNoUsers(us: seq<User>)
    ensures ListingBody(us) == NO_USERS_TEXT <==> us == []
  {
    if us != [] {
      var texts := LineTexts(us);
      var l := texts[|texts| - 1];
      assert l == Line(us[|us| - 1]);
      LineEnding(us[|us| - 1]);
      var all := Joined(texts[..|texts| - 1]) + l;
      assert all == Lines(us);
      assert all[|all| - 2] == l[|l| - 2];
      assert NO_USERS_TEXT[|NO_USERS_TEXT| - 2] == '.';
    }
  }
}
