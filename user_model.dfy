/**
 * The User document: its fields, defaults, the schema's validators (required
 * fields and the e-mail regular expression), and the lookups the routes run.
 */
module UserModel {

  import opened Base
  import opened JsText
  import opened Seqs

  datatype User = User(
    id: string,
    email: string,
    password: string,
    subscriptionId: string,
    activeTime: int)

  /** `new User({ email, password })`: a generated `subscriptionId` and no active time yet. */
  function NewUser(id: string, email: string, password: string, subscriptionId: string): (u: User)
    ensures u.email == email && u.password == password
    ensures u.activeTime == 0 && u.subscriptionId == subscriptionId && u.id == id
  {
    User(id, email, password, subscriptionId, 0)
  }

  /**
   * The regular expression `.+\@.+\..+` matches with its '@' at `at` and
   * its '.' at `dot`: one character before the '@', one or more between the
   * two, and one after the '.', none of them a line terminator (which `.`
   * refuses).
   */
  predicate MatchAt(s: string, at: int, dot: int) {
    && 0 < at && at + 1 < dot < |s| - 1
    && s[at] == '@' && s[dot] == '.'
    && !IsLineTerminator(s[at - 1])
    && (forall i :: at < i < dot ==> !IsLineTerminator(s[i]))
    && !IsLineTerminator(s[dot + 1])
  }

  /** The pattern is unanchored: it matches if it matches anywhere in `s`. */
  predicate MatchesEmailPattern(s: string) {
    exists at, dot :: 0 < at < |s| && 0 < dot < |s| && MatchAt(s, at, dot)
  }

  /** The pattern is not anchored: text around a match does not spoil it. */
  lemma EmailPatternUnanchored(s: string, before: string, after: string)
    requires MatchesEmailPattern(s)
    ensures MatchesEmailPattern(before + s + after)
  {
    var at, dot :| MatchAt(s, at, dot);
    var t := before + s + after;
    var k := |before|;
    assert MatchAt(s, at, dot);
    assert 0 < at;
    forall i | k + at < i < k + dot ensures !IsLineTerminator(t[i]) {
      assert t[i] == s[i - k];
    }
    assert t[k + at] == '@' && t[k + dot] == '.';
    assert t[k + at - 1] == s[at - 1] && t[k + dot + 1] == s[dot + 1];
    assert MatchAt(t, k + at, k + dot);
  }

  /** A match needs at least five characters, an '@' that is not the first one, and a '.' after it. */
  lemma EmailPatternShape(s: string)
    requires MatchesEmailPattern(s)
    ensures |s| >= 5
    ensures exists at, dot :: 0 < at && at + 1 < dot < |s| - 1 && s[at] == '@' && s[dot] == '.'
  {
  }

  lemma EmailPatternExamples()
    ensures MatchesEmailPattern("a@b.co")
    ensures !MatchesEmailPattern("a@b")
    ensures !MatchesEmailPattern("@b.co")
    ensures !MatchesEmailPattern("a@.c")
  {
    assert MatchAt("a@b.co", 1, 3);
  }

  /** The schema's validators, as the messages `save` collects (empty: the document is valid). */
  function SchemaErrors(u: User): (errors: seq<string>)
    ensures errors == [] <==> u.email != "" && MatchesEmailPattern(u.email) && u.password != ""
  {
    (if u.email == "" then ["email: Path `email` is required."]
     else if !MatchesEmailPattern(u.email) then ["email: Please fill a valid email address"]
     else [])
    + (if u.password == "" then ["password: Path `password` is required."] else [])
  }

  predicate SchemaValid(u: User) {
    SchemaErrors(u) == []
  }

  /** The ValidationError that `save` throws for an invalid document. */
  function ValidationFailure(u: User): Error
    requires !SchemaValid(u)
  {
    Error("ValidationError", "User validation failed: " + JoinMessages(SchemaErrors(u)))
  }

  function JoinMessages(msgs: seq<string>): string {
    if |msgs| == 0 then "" else if |msgs| == 1 then msgs[0] else msgs[0] + ", " + JoinMessages(msgs[1..])
  }

  /** `User.findOne({ email })`. */
  function FindByEmail(rows: seq<User>, email: string): (r: Option<nat>)
    ensures r.Some? ==> r.value < |rows| && rows[r.value].email == email
    ensures r.Some? ==> forall j :: 0 <= j < r.value ==> rows[j].email != email
    ensures r.None? <==> forall j :: 0 <= j < |rows| ==> rows[j].email != email
  {
    FirstIndex(rows, (u: User) => u.email == email)
  }

  /** `User.findById(id)`. */
  function FindById(rows: seq<User>, id: string): (r: Option<nat>)
    ensures r.Some? ==> r.value < |rows| && rows[r.value].id == id
    ensures r.Some? ==> forall j :: 0 <= j < r.value ==> rows[j].id != id
    ensures r.None? <==> forall j :: 0 <= j < |rows| ==> rows[j].id != id
  {
    FirstIndex(rows, (u: User) => u.id == id)
  }

  /** The `email` unique index and the `_id` index. */
  ghost predicate UniqueKeys(rows: seq<User>) {
    forall i, j :: 0 <= i < |rows| && 0 <= j < |rows| && i != j ==>
      rows[i].email != rows[j].email && rows[i].id != rows[j].id
  }

  /** Inserting a user with `id` would violate the `_id` index. */
  predicate IdTaken(rows: seq<User>, id: string) {
    exists i :: 0 <= i < |rows| && rows[i].id == id
  }
}
