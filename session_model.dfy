/**
 * The Session document: its fields, the defaults a new session gets, the
 * schema validation, and how a session is closed. Times are milliseconds
 * since the epoch; `duration` is in seconds, computed exactly (the source's
 * floating-point rounding is not modelled).
 */
module SessionModel {

  import opened Base
  import opened Seqs

  datatype Session = Session(
    id: string,
    userId: string,
    startTime: int,
    endTime: Option<int>,
    duration: real)

  /** `new Session({ userId })`: started now, not ended, duration 0. */
  function NewSession(id: string, userId: string, now: int): (s: Session)
    ensures s.id == id && s.userId == userId
    ensures s.startTime == now && s.endTime == None && s.duration == 0.0
  {
    Session(id, userId, now, None, 0.0)
  }

  /** The schema's only validator: `userId` is required. */
  predicate SchemaValid(s: Session) {
    s.userId != ""
  }

  const InvalidSession := Error("ValidationError", "Session validation failed")

  /**
   * Closing a session at time `now`: `endTime` becomes `now` and `duration`
   * the elapsed time in seconds. No other field changes, and nothing checks
   * whether the session was already closed.
   */
  function Closed(s: Session, now: int): (r: Session)
    ensures r.endTime == Some(now)
    ensures r.duration * 1000.0 == (now - s.startTime) as real
    ensures r.id == s.id && r.userId == s.userId && r.startTime == s.startTime
  {
    s.(endTime := Some(now), duration := (now - s.startTime) as real / 1000.0)
  }

  /** With a clock that does not run backwards the duration is never negative. */
  lemma ClosedDurationNonNegative(s: Session, now: int)
    requires s.startTime <= now
    ensures Closed(s, now).duration >= 0.0
  {
  }

  /** Closing twice keeps only the second close: the first `endTime` and `duration` are overwritten. */
  lemma CloseTwiceOverwrites(s: Session, first: int, second: int)
    ensures Closed(Closed(s, first), second) == Closed(s, second)
  {
  }

  /** `Session.findById(id)`. */
  function FindById(rows: seq<Session>, id: string): (r: Option<nat>)
    ensures r.Some? ==> r.value < |rows| && rows[r.value].id == id
    ensures r.Some? ==> forall j :: 0 <= j < r.value ==> rows[j].id != id
    ensures r.None? <==> forall j :: 0 <= j < |rows| ==> rows[j].id != id
  {
    FirstIndex(rows, (s: Session) => s.id == id)
  }

  /** The `_id` index: no two sessions share an id. */
  ghost predicate UniqueIds(rows: seq<Session>) {
    forall i, j :: 0 <= i < |rows| && 0 <= j < |rows| && i != j ==> rows[i].id != rows[j].id
  }

  predicate IdTaken(rows: seq<Session>, id: string) {
    exists i :: 0 <= i < |rows| && rows[i].id == id
  }
}
