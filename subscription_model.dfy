/**
 * The Subscription document: its fields, the defaults a new document gets,
 * the schema validation that `save` runs, and the queries the routes and the
 * subscription gate run on the collection. The collection is a sequence of
 * documents in insertion order, which is the order `find` and `findOne` see.
 */
module SubscriptionModel {

  import opened Base
  import opened Seqs

  /** One document. Dates are milliseconds since the epoch; `id` is the document's `_id`. */
  datatype Subscription = Subscription(
    id: string,
    userId: string,
    plan: string,
    startDate: int,
    endDate: Option<int>,
    isActive: bool,
    subscriptionId: string)

  /** The values the `plan` enum admits. */
  const Plans: seq<string> := ["premium"]

  /**
   * `new Subscription({ userId, plan })`: the caller supplies the owner and
   * the plan; `startDate` is the creation time, the document is active, has no
   * end date, and its `subscriptionId` is the generated identifier.
   */
  function NewSubscription(id: string, userId: string, plan: string, now: int, subscriptionId: string): (s: Subscription)
    ensures s.userId == userId && s.plan == plan
    ensures s.isActive && s.endDate == None && s.startDate == now
    ensures s.id == id && s.subscriptionId == subscriptionId
  {
    Subscription(id, userId, plan, now, None, true, subscriptionId)
  }

  /** The schema's validators: `userId` and `plan` are required (non-empty) and `plan` is in the enum. */
  predicate SchemaValid(s: Subscription) {
    s.userId != "" && s.plan != "" && s.plan in Plans
  }

  /** What `save` throws when `SchemaValid` fails. */
  const InvalidSubscription := Error("ValidationError", "Subscription validation failed")

  /** The row belongs to `userId` and is active: the filter `{ userId, isActive: true }`. */
  predicate ActiveOf(row: Subscription, userId: string) {
    row.userId == userId && row.isActive
  }

  /** `Subscription.findOne({ userId, isActive: true })`: the first active row of the user. */
  function FindActive(rows: seq<Subscription>, userId: string): (r: Option<nat>)
    ensures r.Some? ==> r.value < |rows| && ActiveOf(rows[r.value], userId)
    ensures r.Some? ==> forall j :: 0 <= j < r.value ==> !ActiveOf(rows[j], userId)
    ensures r.None? <==> forall j :: 0 <= j < |rows| ==> !ActiveOf(rows[j], userId)
  {
    FirstIndex(rows, (row: Subscription) => ActiveOf(row, userId))
  }

  /** Some row of the user is active. */
  ghost predicate HasActive(rows: seq<Subscription>, userId: string) {
    exists i :: 0 <= i < |rows| && ActiveOf(rows[i], userId)
  }

  /** The invariant the subscribe route maintains: no user owns two active rows. */
  ghost predicate AtMostOneActivePerUser(rows: seq<Subscription>) {
    forall i, j ::
      0 <= i < |rows| && 0 <= j < |rows| && rows[i].isActive && rows[j].isActive && rows[i].userId == rows[j].userId
      ==> i == j
  }

  /** The unique indexes: `_id` and `subscriptionId` each identify one row. */
  ghost predicate UniqueKeys(rows: seq<Subscription>) {
    forall i, j :: 0 <= i < |rows| && 0 <= j < |rows| && i != j ==>
      rows[i].id != rows[j].id && rows[i].subscriptionId != rows[j].subscriptionId
  }

  /** Inserting `s` would violate one of the unique indexes. */
  predicate KeyTaken(rows: seq<Subscription>, s: Subscription) {
    exists i :: 0 <= i < |rows| && (rows[i].id == s.id || rows[i].subscriptionId == s.subscriptionId)
  }

  /** `updateMany({ userId, isActive: true }, { isActive: false })`: only `isActive` is written. */
  function DeactivateAll(rows: seq<Subscription>, userId: string): (r: seq<Subscription>)
    ensures |r| == |rows|
    ensures forall i :: 0 <= i < |rows| ==>
      r[i] == if ActiveOf(rows[i], userId) then rows[i].(isActive := false) else rows[i]
  {
    seq(|rows|, i requires 0 <= i < |rows| =>
      if ActiveOf(rows[i], userId) then rows[i].(isActive := false) else rows[i])
  }

  /** `find({ userId })`: every row of the user, active or not, in collection order. */
  function OwnedBy(rows: seq<Subscription>, userId: string): (r: seq<Subscription>)
    ensures forall k :: 0 <= k < |r| ==> r[k].userId == userId
    ensures forall i :: 0 <= i < |rows| && rows[i].userId == userId ==> rows[i] in r
    ensures IsSubsequence(r, rows)
    ensures forall x: Subscription :: x.userId == userId ==> multiset(r)[x] == multiset(rows)[x]
  {
    var keep := (row: Subscription) => row.userId == userId;
    FilterSound(rows, keep);
    FilterCount(rows, keep);
    Filter(rows, keep)
  }
}
