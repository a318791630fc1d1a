/**
 * The subscriptions router: `/subscribe` and `/cancel` change the collection
 * in place, `/status` and `/all` only read it. Every route sits behind
 * `authenticateToken` (without the subscription gate).
 */
module SubscriptionRoutes {

  import opened Base
  import opened Seqs
  import opened Http
  import opened Crypto
  import opened Sanitizers
  import opened SubscriptionModel
  import UserModel
  import opened AuthGate

  const InvalidUserId := "Invalid user ID"
  const PlanRequired := "Plan is required"
  const UserNotFound := "User not found"
  const NoActiveSubscription := "No active subscription found"

  /** The validator chain of `/subscribe`, by message, in declaration order. */
  function SubscribeErrors(v: Validators, body: map<string, string>): (errors: seq<string>)
    ensures errors == [] <==> v.isMongoId(Field(body, "userId")) && Field(body, "plan") != ""
    ensures InvalidUserId in errors <==> !v.isMongoId(Field(body, "userId"))
  {
    (if v.isMongoId(Field(body, "userId")) then [] else [InvalidUserId])
    + RequireNonEmpty(Field(body, "plan"), PlanRequired)
  }

  /** The collection after `/subscribe` has deactivated the user's rows and saved `s`. */
  function Subscribed(rows: seq<Subscription>, s: Subscription): (r: seq<Subscription>)
    ensures |r| == |rows| + 1 && r[|rows|] == s
    ensures forall i :: 0 <= i < |rows| ==> r[i].userId == rows[i].userId
  {
    DeactivateAll(rows, s.userId) + [s]
  }

  class SubscriptionTable {

    var rows: seq<Subscription>

    /** The unique indexes hold, and the routes' own invariant: at most one active row per user. */
    ghost predicate Valid()
      reads this
    {
      UniqueKeys(rows) && AtMostOneActivePerUser(rows)
    }

    constructor()
      ensures rows == [] && Valid()
    {
      rows := [];
    }

    /**
     * `POST /subscribe`. The subscribed user is the body's `userId`, not the
     * token's. The deactivation is written before the new row is validated,
     * so a plan outside the enum leaves the user with no active row at all.
     * `id` and `subscriptionId` are the generated `_id` and uuid.
     */
    method Subscribe(req: Request, env: Env, verify: (string, string) -> Option<Claims>, v: Validators,
                     users: seq<UserModel.User>, id: string, subscriptionId: string, now: int)
      returns (r: Outcome<()>)
      requires Valid()
      modifies this
      ensures Valid()
      ensures !r.Next?
      ensures !AuthenticateToken(req.authorization, env.accessSecret, verify).Next? ==>
        r == Halt(AuthenticateToken(req.authorization, env.accessSecret, verify)) && rows == old(rows)
      ensures AuthenticateToken(req.authorization, env.accessSecret, verify).Next? ==>
        var userId, plan := Field(req.body, "userId"), Field(req.body, "plan");
        var s := NewSubscription(id, userId, Sanitized(v, plan), now, subscriptionId);
        if SubscribeErrors(v, req.body) != [] then
          r == Respond(400, ValidationErrors(SubscribeErrors(v, req.body))) && rows == old(rows)
        else if UserModel.FindById(users, userId).None? then
          r == Respond(404, Message(UserNotFound)) && rows == old(rows)
        else if !SchemaValid(s) then
          r == Fail(InvalidSubscription) && rows == DeactivateAll(old(rows), userId)
        else if KeyTaken(DeactivateAll(old(rows), userId), s) then
          r == Fail(DuplicateKey) && rows == DeactivateAll(old(rows), userId)
        else
          r == Respond(201, SubscriptionCreated(subscriptionId)) && rows == Subscribed(old(rows), s)
    {
      var auth := AuthenticateToken(req.authorization, env.accessSecret, verify);
      if !auth.Next? {
        return Halt(auth);
      }
      var errors := SubscribeErrors(v, req.body);
      if errors != [] {
        return Respond(400, ValidationErrors(errors));
      }
      var userId := Field(req.body, "userId");
      if UserModel.FindById(users, userId).None? {
        return Respond(404, Message(UserNotFound));
      }
      DeactivationKeepsInvariant(rows, userId);
      rows := DeactivateAll(rows, userId);
      var s := NewSubscription(id, userId, Sanitized(v, Field(req.body, "plan")), now, subscriptionId);
      if !SchemaValid(s) {
        return Fail(InvalidSubscription);
      }
      if KeyTaken(rows, s) {
        return Fail(DuplicateKey);
      }
      InsertAfterDeactivationKeepsInvariant(rows, s);
      rows := rows + [s];
      return Respond(201, SubscriptionCreated(subscriptionId));
    }

    /** `GET /status`: the caller's active row, or 404 as text. */
    function Status(req: Request, env: Env, verify: (string, string) -> Option<Claims>): (r: Outcome<()>)
      reads this
      ensures !r.Next?
      ensures !AuthenticateToken(req.authorization, env.accessSecret, verify).Next? ==>
        r == Halt(AuthenticateToken(req.authorization, env.accessSecret, verify))
      ensures AuthenticateToken(req.authorization, env.accessSecret, verify).Next? ==>
        var userId := AuthenticateToken(req.authorization, env.accessSecret, verify).ctx.userId;
        && (r == Respond(404, Text(NoActiveSubscription)) <==> !HasActive(rows, userId))
        && (r.Respond? && r.status == 200 ==>
              r.body.SubscriptionRecord? && r.body.subscription in rows && ActiveOf(r.body.subscription, userId))
        && (HasActive(rows, userId) ==> r == Respond(200, SubscriptionRecord(rows[FindActive(rows, userId).value])))
    {
      var auth := AuthenticateToken(req.authorization, env.accessSecret, verify);
      if !auth.Next? then Halt(auth)
      else
        match FindActive(rows, auth.ctx.userId)
        case None => Respond(404, Text(NoActiveSubscription))
        case Some(i) => Respond(200, SubscriptionRecord(rows[i]))
    }

    /** `GET /all`: every row of the caller, active or not, in collection order. */
    function All(req: Request, env: Env, verify: (string, string) -> Option<Claims>): (r: Outcome<()>)
      reads this
      ensures !r.Next? && !r.Fail?
      ensures !AuthenticateToken(req.authorization, env.accessSecret, verify).Next? ==>
        r == Halt(AuthenticateToken(req.authorization, env.accessSecret, verify))
      ensures AuthenticateToken(req.authorization, env.accessSecret, verify).Next? ==>
        var userId := AuthenticateToken(req.authorization, env.accessSecret, verify).ctx.userId;
        && r.Respond? && r.status == 200 && r.body.SubscriptionList?
        && IsSubsequence(r.body.subscriptions, rows)
        && (forall k :: 0 <= k < |r.body.subscriptions| ==> r.body.subscriptions[k].userId == userId)
        && (forall i :: 0 <= i < |rows| && rows[i].userId == userId ==> rows[i] in r.body.subscriptions)
        && (forall x: Subscription :: x.userId == userId ==> multiset(r.body.subscriptions)[x] == multiset(rows)[x])
    {
      var auth := AuthenticateToken(req.authorization, env.accessSecret, verify);
      if !auth.Next? then Halt(auth)
      else Respond(200, SubscriptionList(OwnedBy(rows, auth.ctx.userId)))
    }

    /**
     * `PUT /cancel`: the caller's first active row becomes inactive with
     * `endDate` = now and is returned as updated; without one, 404 and no
     * change.
     */
    method Cancel(req: Request, env: Env, verify: (string, string) -> Option<Claims>, now: int)
      returns (r: Outcome<()>)
      requires Valid()
      modifies this
      ensures Valid()
      ensures !r.Next? && !r.Fail?
      ensures !AuthenticateToken(req.authorization, env.accessSecret, verify).Next? ==>
        r == Halt(AuthenticateToken(req.authorization, env.accessSecret, verify)) && rows == old(rows)
      ensures AuthenticateToken(req.authorization, env.accessSecret, verify).Next? ==>
        var userId := AuthenticateToken(req.authorization, env.accessSecret, verify).ctx.userId;
        match FindActive(old(rows), userId)
        case None => r == Respond(404, Text(NoActiveSubscription)) && rows == old(rows)
        case Some(i) =>
          && rows == old(rows)[i := Ended(old(rows)[i], now)]
          && r == Respond(200, SubscriptionRecord(rows[i]))
          && !HasActive(rows, userId)
    {
      var auth := AuthenticateToken(req.authorization, env.accessSecret, verify);
      if !auth.Next? {
        return Halt(auth);
      }
      var found := FindActive(rows, auth.ctx.userId);
      if found.None? {
        return Respond(404, Text(NoActiveSubscription));
      }
      var i := found.value;
      EndingKeepsInvariant(rows, i, now);
      rows := rows[i := Ended(rows[i], now)];
      return Respond(200, SubscriptionRecord(rows[i]));
    }
  }

  /** `{ isActive: false, endDate: new Date() }` applied to one row. */
  function Ended(s: Subscription, now: int): (r: Subscription)
    ensures !r.isActive && r.endDate == Some(now)
    ensures r.id == s.id && r.userId == s.userId && r.plan == s.plan
    ensures r.startDate == s.startDate && r.subscriptionId == s.subscriptionId
  {
    s.(isActive := false, endDate := Some(now))
  }

  /** Deactivation keeps both indexes and the invariant, and leaves the user with no active row. */
  lemma DeactivationKeepsInvariant(rows: seq<Subscription>, userId: string)
    requires UniqueKeys(rows) && AtMostOneActivePerUser(rows)
    ensures UniqueKeys(DeactivateAll(rows, userId)) && AtMostOneActivePerUser(DeactivateAll(rows, userId))
    ensures !HasActive(DeactivateAll(rows, userId), userId)
  {
    var d := DeactivateAll(rows, userId);
    forall i, j | 0 <= i < |d| && 0 <= j < |d| && d[i].isActive && d[j].isActive && d[i].userId == d[j].userId
      ensures i == j
    {
      assert rows[i].isActive && rows[j].isActive;
    }
  }

  /** Saving a row whose keys are fresh, after its owner's rows were deactivated, keeps every invariant. */
  lemma InsertAfterDeactivationKeepsInvariant(rows: seq<Subscription>, s: Subscription)
    requires UniqueKeys(rows) && AtMostOneActivePerUser(rows)
    requires !HasActive(rows, s.userId) && !KeyTaken(rows, s)
    ensures UniqueKeys(rows + [s]) && AtMostOneActivePerUser(rows + [s])
  {
    var t := rows + [s];
    forall i, j | 0 <= i < |t| && 0 <= j < |t| && t[i].isActive && t[j].isActive && t[i].userId == t[j].userId
      ensures i == j
    {
      if i != j {
        var k := if i < |rows| then i else j;
        assert ActiveOf(rows[k], s.userId);
        assert false;
      }
    }
  }

  /** Ending one row keeps the indexes and the invariant. */
  lemma EndingKeepsInvariant(rows: seq<Subscription>, i: nat, now: int)
    requires i < |rows| && UniqueKeys(rows) && AtMostOneActivePerUser(rows)
    ensures UniqueKeys(rows[i := Ended(rows[i], now)]) && AtMostOneActivePerUser(rows[i := Ended(rows[i], now)])
  {
  }

  /** After `/subscribe` the user has exactly one active row, the one just saved, and the lookup finds it. */
  lemma SubscribeLeavesOnlyNewRowActive(rows: seq<Subscription>, s: Subscription)
    requires s.isActive
    ensures forall i :: 0 <= i < |Subscribed(rows, s)| ==> (ActiveOf(Subscribed(rows, s)[i], s.userId) <==> i == |rows|)
    ensures FindActive(Subscribed(rows, s), s.userId) == Some(|rows|)
  {
    var t := Subscribed(rows, s);
    assert t[|rows|] == s;
    forall i | 0 <= i < |rows| ensures !ActiveOf(t[i], s.userId) {
      assert t[i] == DeactivateAll(rows, s.userId)[i];
    }
  }

  /**
   * `/subscribe` leaves other users' rows as they were; the user's replaced
   * rows only lose `isActive`, so they keep an unset `endDate`.
   */
  lemma SubscribeTouchesOnlyIsActive(rows: seq<Subscription>, s: Subscription, i: nat)
    requires i < |rows|
    ensures rows[i].userId != s.userId ==> Subscribed(rows, s)[i] == rows[i]
    ensures Subscribed(rows, s)[i] == rows[i].(isActive := Subscribed(rows, s)[i].isActive)
    ensures Subscribed(rows, s)[i].isActive <==> rows[i].isActive && rows[i].userId != s.userId
  {
    assert Subscribed(rows, s)[i] == DeactivateAll(rows, s.userId)[i];
  }

  /**
   * A plan outside the enum fails validation only after deactivation has
   * been written: the user is left without any active subscription.
   */
  lemma InvalidPlanLeavesNoActive(rows: seq<Subscription>, id: string, userId: string, plan: string, now: int, subscriptionId: string)
    requires plan !in Plans
    ensures !SchemaValid(NewSubscription(id, userId, plan, now, subscriptionId))
    ensures !HasActive(DeactivateAll(rows, userId), userId)
  {
    var d := DeactivateAll(rows, userId);
    forall i | 0 <= i < |d| ensures !ActiveOf(d[i], userId) {
    }
  }

  /** Under the invariant, the row `/status` returns is the user's only active row. */
  lemma StatusFindsTheActiveRow(rows: seq<Subscription>, userId: string, i: nat)
    requires AtMostOneActivePerUser(rows)
    requires i < |rows| && ActiveOf(rows[i], userId)
    ensures FindActive(rows, userId) == Some(i)
  {
    var found := FindActive(rows, userId);
    assert found.Some?;
    assert ActiveOf(rows[found.value], userId);
  }

  /** Under the invariant, ending the row `/cancel` finds leaves the user with no active row. */
  lemma CancelClearsUser(rows: seq<Subscription>, userId: string, now: int)
    requires AtMostOneActivePerUser(rows)
    requires FindActive(rows, userId).Some?
    ensures var i := FindActive(rows, userId).value;
      !HasActive(rows[i := Ended(rows[i], now)], userId)
  {
    var i := FindActive(rows, userId).value;
    var t := rows[i := Ended(rows[i], now)];
    forall j | 0 <= j < |t| ensures !ActiveOf(t[j], userId) {
      if j != i {
        assert t[j] == rows[j];
      }
    }
  }
}
