/**
 * The sessions router: `/start` saves a new session owned by the caller,
 * `/end` closes one of the caller's sessions in place. Both sit behind
 * `authenticateToken`.
 */
module SessionRoutes {

  import opened Base
  import opened Http
  import opened Crypto
  import opened SessionModel
  import opened AuthGate

  const Unauthorized := "Unauthorized"

  /** The session `/end` may close: it exists and the caller owns it. */
  function OwnedSession(rows: seq<Session>, sessionId: string, userId: string): (r: Option<nat>)
    ensures r.Some? ==> r.value < |rows| && rows[r.value].id == sessionId && rows[r.value].userId == userId
    ensures r.None? <==> FindById(rows, sessionId).None? || rows[FindById(rows, sessionId).value].userId != userId
  {
    var found := FindById(rows, sessionId);
    if found.Some? && rows[found.value].userId == userId then found else None
  }

  class SessionTable {

    var rows: seq<Session>

    /** The `_id` index. */
    ghost predicate Valid()
      reads this
    {
      UniqueIds(rows)
    }

    constructor()
      ensures rows == [] && Valid()
    {
      rows := [];
    }

    /** `POST /start`: one new session of the caller, started now; `id` is the generated `_id`. */
    method Start(req: Request, env: Env, verify: (string, string) -> Option<Claims>, id: string, now: int)
      returns (r: Outcome<()>)
      requires Valid()
      modifies this
      ensures Valid()
      ensures !r.Next?
      ensures !AuthenticateToken(req.authorization, env.accessSecret, verify).Next? ==>
        r == Halt(AuthenticateToken(req.authorization, env.accessSecret, verify)) && rows == old(rows)
      ensures AuthenticateToken(req.authorization, env.accessSecret, verify).Next? ==>
        var s := NewSession(id, AuthenticateToken(req.authorization, env.accessSecret, verify).ctx.userId, now);
        if !SchemaValid(s) then r == Fail(InvalidSession) && rows == old(rows)
        else if IdTaken(old(rows), id) then r == Fail(DuplicateKey) && rows == old(rows)
        else r == Respond(201, SessionCreated(id)) && rows == old(rows) + [s]
    {
      var auth := AuthenticateToken(req.authorization, env.accessSecret, verify);
      if !auth.Next? {
        return Halt(auth);
      }
      var s := NewSession(id, auth.ctx.userId, now);
      if !SchemaValid(s) {
        return Fail(InvalidSession);
      }
      if IdTaken(rows, id) {
        return Fail(DuplicateKey);
      }
      rows := rows + [s];
      return Respond(201, SessionCreated(id));
    }

    /**
     * `POST /end`: a missing session and someone else's session are both
     * refused with 403 and change nothing. Otherwise the session is closed at
     * `now`, whether or not it was closed before, and returned.
     */
    method End(req: Request, env: Env, verify: (string, string) -> Option<Claims>, now: int)
      returns (r: Outcome<()>)
      requires Valid()
      modifies this
      ensures Valid()
      ensures !r.Next? && !r.Fail?
      ensures !AuthenticateToken(req.authorization, env.accessSecret, verify).Next? ==>
        r == Halt(AuthenticateToken(req.authorization, env.accessSecret, verify)) && rows == old(rows)
      ensures AuthenticateToken(req.authorization, env.accessSecret, verify).Next? ==>
        var userId := AuthenticateToken(req.authorization, env.accessSecret, verify).ctx.userId;
        match OwnedSession(old(rows), Field(req.body, "sessionId"), userId)
        case None => r == Respond(403, Message(Unauthorized)) && rows == old(rows)
        case Some(i) =>
          && rows == old(rows)[i := Closed(old(rows)[i], now)]
          && r == Respond(200, SessionRecord(Closed(old(rows)[i], now)))
    {
      var auth := AuthenticateToken(req.authorization, env.accessSecret, verify);
      if !auth.Next? {
        return Halt(auth);
      }
      var found := OwnedSession(rows, Field(req.body, "sessionId"), auth.ctx.userId);
      if found.None? {
        return Respond(403, Message(Unauthorized));
      }
      var i := found.value;
      rows := rows[i := Closed(rows[i], now)];
      return Respond(200, SessionRecord(rows[i]));
    }
  }

  /** A session saved by `/start` is the one `/end` later finds for its owner, and for no one else. */
  lemma StartedSessionIsOwned(rows: seq<Session>, s: Session, caller: string)
    requires !IdTaken(rows, s.id)
    ensures OwnedSession(rows + [s], s.id, caller) == if caller == s.userId then Some(|rows|) else None
  {
    var t := rows + [s];
    var found := FindById(t, s.id);
    assert t[|rows|].id == s.id;
    assert found.Some?;
    assert !(found.value < |rows|);
  }

  /** Closing a session keeps every other session and the `_id` index as they were. */
  lemma CloseTouchesOnlyTarget(rows: seq<Session>, i: nat, now: int)
    requires i < |rows| && UniqueIds(rows)
    ensures UniqueIds(rows[i := Closed(rows[i], now)])
    ensures forall j :: 0 <= j < |rows| && j != i ==> rows[i := Closed(rows[i], now)][j] == rows[j]
    ensures rows[i := Closed(rows[i], now)][i].duration * 1000.0 == (now - rows[i].startTime) as real
  {
  }
}
