# SipBlast SEO generator backend, modelled in Dafny

This project models the request-decision logic of the SipBlast SEO
generator's Express backend and the small MongoDB collections behind it:

- **The gate pipeline.** `authenticateToken` reads the `Authorization`
  header. It follows the Bearer scheme of section 2.1 of RFC 6750, with a
  case-sensitive `"Bearer "` prefix and the token taken as the second
  space-separated field. `checkSubscription` looks for one active
  subscription of the caller. `errorHandler` turns every forwarded error
  into a 500.
- **The routers.** Subscriptions (`/subscribe`, `/status`, `/all`,
  `/cancel`), sessions (`/start`, `/end`), auth (`/register`, `/login`,
  `/token`), and the two generation routers (topics and chat), each with
  `/generate-topics` and `/generate-blog`.
- **The documents.** User, Subscription and Session, with their defaults,
  their schema validation and the lookups the routes run on them.

Each middleware stage or handler returns an `Outcome`. It either answers
(`Respond(status, body)`), calls `next()` with what it attached to the
request (`Next(ctx)`), or forwards an error with `next(error)` (`Fail(err)`).
`Http.Then` chains stages in the order a router declaration lists them.

Routes that change a collection in place are methods of a class holding the
collection as a sequence of documents in insertion order:
`SubscriptionRoutes.SubscriptionTable`, `SessionRoutes.SessionTable` and
`AuthRoutes.UserTable`. Each class keeps an invariant `Valid()`: the unique
indexes, and for subscriptions "at most one active subscription per user".
Each method states its outcome and the whole new collection for every path.
Read-only routes are functions.

Library code is passed in as parameters and is not modelled:

- bcryptjs and jsonwebtoken are one `Crypto.Library` value. The facts the
  backend relies on are the hypothesis `Crypto.Lawful`:
  - `compare(p, hash(p, salt))` holds;
  - signed tokens are compact;
  - `verify(sign(c, s), s) == Some(c)` for a set secret and no expiry.
- The express-validator checks and sanitizers are one
  `Sanitizers.Validators` value. `trim` and `isEmpty` are modelled exactly.
- The chat-completions call is a `Completions.Upstream` function.
- The clock (`now`, in milliseconds), generated ids (`_id`, uuid), the
  bcrypt salt and the two signing secrets are parameters. A secret of ""
  stands for an unset one.

## Model

| member | source | states |
|---|---|---|
| AuthGate.AuthenticateToken | backend/middleware/authenticateToken.js:4-34 | Each outcome holds exactly when its condition does: 401 "Authorization header missing or malformed" iff the header is absent or lacks the case-sensitive "Bearer " prefix; 401 "Token missing" iff the second space-separated field is empty; 500 "Internal server error" iff both pass and the secret is unset; 403 "Invalid token" iff verification fails; otherwise `next()` with `req.user` equal to the verified claims. It never forwards an error. |
| AuthGate.WellFormed | backend/middleware/authenticateToken.js:8 | The header is present and starts with the exact, case-sensitive "Bearer ". |
| AuthGate.SecondField | backend/middleware/authenticateToken.js:12 | `split(' ')[1]`, a missing field read as "": the token never contains a space. |
| AuthGate.SecondFieldAfterPrefix | backend/middleware/authenticateToken.js:12 | The token is the text after "Bearer " up to the next space: it contains no space and is a prefix of the rest. |
| AuthGate.PrefixCheckedFirst | backend/middleware/authenticateToken.js:8-10 | A missing header, or one starting "bearer " (lower case), gets 401 malformed whatever the secret. |
| AuthGate.EmptyAfterPrefix | backend/middleware/authenticateToken.js:12-17 | "Bearer " gets 401 "Token missing". |
| AuthGate.DoubleSpaceAfterPrefix | backend/middleware/authenticateToken.js:12-17 | "Bearer  x" (double space) gets 401 "Token missing". |
| AuthGate.TrailingFieldIgnored | backend/middleware/authenticateToken.js:12-17 | "Bearer a b" is answered exactly as "Bearer a": only "a" is verified. |
| AuthGate.SecretCheckedAfterHeader | backend/middleware/authenticateToken.js:8-23 | With a missing or malformed header, or an empty token, the answer is 401 even when the secret is unset. |
| AuthGate.AcceptsIssuedToken | backend/middleware/authenticateToken.js:26-32 | Under the library laws, "Bearer " plus a token signed with the secret and no expiry passes with exactly the signed claims. |
| SubscriptionGate.CheckSubscription | backend/middleware/checkSubscription.js:4-20 | `next()` with the same user iff the user has an active row; 403 "Active subscription required" iff not; a failed query is forwarded unchanged. |
| SubscriptionGate.OnlyOwnActiveRowsUnlock | backend/middleware/checkSubscription.js:7 | Adding inactive rows, or rows of other users, before or after the collection never changes the gate's answer. |
| SubscriptionGate.LookupFailureIsServerError | backend/middleware/checkSubscription.js:16-18 | A failed lookup reaches the client as the error handler's 500 carrying the query's message. |
| SubscriptionGate.ProtectedGates | backend/routes/topics.js:53 | `authenticateToken, checkSubscription` in sequence. A refusal of the token gate is passed on unchanged. After it passes: a failed lookup is forwarded, an active row of the verified user gives `next()` with the verified claims, and no active row gives 403 "Active subscription required". Passing means the token gate verified these claims. |
| SubscriptionGate.RejectedBeforeLookup | backend/routes/chat.js:47 | A request the token gate refuses gets the same response whatever the subscription collection holds, and it is a response, not an error. |
| ErrorReporting.ErrorHandler | backend/middleware/errorHandler.js:2-11 | Every error gives status 500, `success` false, the fixed generic message, and `error` equal to the error's message. |
| ErrorReporting.ErrorDetailExposed | backend/middleware/errorHandler.js:9 | Two errors get identical responses iff their messages are equal: the internal message is exposed. |
| ErrorReporting.Serve | backend/middleware/errorHandler.js:6-10 | A response is sent as given, a forwarded error goes through the error handler, and a stray `next()` ends in Express's 404. |
| Http.Then | backend/routes/topics.js:53 | Router chaining: the next stage runs on what the previous one passed to `next()`, and an answer or forwarded error stops the chain unchanged. |
| Crypto.Sign | backend/routes/auth.js:74-75 | `jwt.sign` throws exactly when the secret is unset, and otherwise returns the library's signature of the claims. |
| Sanitizers.Sanitized | backend/routes/auth.js:12 | `.trim().escape()`: the value a handler reads is the escape of the ECMAScript trim of the raw value. The same chain is used at auth.js:54 and 86, subscriptions.js:12, topics.js:54-55 and chat.js:48. |
| Sanitizers.RequireNonEmpty | backend/routes/auth.js:54 | `.not().isEmpty().withMessage(m)` reports nothing for a non-empty raw value and exactly `[m]` for an empty one; this pins "Password is required", "Plan is required", "Topic is required" and "Model is required" in the 400 bodies. |
| SubscriptionModel.NewSubscription | backend/models/Subscription.js:5-32 | A new subscription keeps the given owner and plan, starts now, is active, has no end date, and carries the generated `subscriptionId`. |
| SubscriptionModel.SchemaValid | backend/models/Subscription.js:6-15 | `userId` and `plan` are present and `plan` is "premium". |
| SubscriptionModel.ActiveOf | backend/middleware/checkSubscription.js:7 | The filter `{ userId, isActive: true }`: the row belongs to the user and is active. The same filter is used at subscriptions.js:30, 51 and 76. |
| SubscriptionModel.AtMostOneActivePerUser | backend/routes/subscriptions.js:30-38 | No user owns two active rows: the invariant `/subscribe` keeps by deactivating before it inserts. |
| SubscriptionModel.UniqueKeys | backend/models/Subscription.js:31 | The `subscriptionId` unique index and the `_id` index: no two rows share either key. |
| SubscriptionModel.KeyTaken | backend/routes/subscriptions.js:38 | `save` would violate a unique index: some row already has the new row's `_id` or `subscriptionId`. |
| SubscriptionModel.FindActive | backend/routes/subscriptions.js:51 | `findOne({ userId, isActive: true })`: a row that belongs to the user and is active, with no such row before it; none exactly when no such row exists. |
| SubscriptionModel.DeactivateAll | backend/routes/subscriptions.js:30 | `updateMany`: the user's active rows lose `isActive`, and every other row and field stays as it was. |
| SubscriptionModel.OwnedBy | backend/routes/subscriptions.js:64 | `find({ userId })`: a subsequence of the collection holding only the user's rows, with each of the user's rows as many times as the collection holds it, so duplicates are kept too. |
| SessionModel.NewSession | backend/models/Session.js:4-22 | A new session is owned by the given user, starts now, has no `endTime`, and has duration 0. |
| SessionModel.SchemaValid | backend/models/Session.js:5-9 | `userId` is present. |
| SessionModel.Closed | backend/routes/sessions.js:33-35 | Closing sets `endTime` to now and `duration` to the elapsed milliseconds divided by 1000; id, owner and start are kept. |
| SessionModel.ClosedDurationNonNegative | backend/routes/sessions.js:35 | With a clock that does not run backwards, the duration is not negative. |
| SessionModel.CloseTwiceOverwrites | backend/routes/sessions.js:33-37 | Closing an already closed session overwrites the first `endTime` and `duration`. |
| SessionModel.FindById | backend/routes/sessions.js:26 | `findById`: the first session with that id, or none exactly when no session has it. |
| SessionModel.UniqueIds | backend/routes/sessions.js:10-12 | The `_id` index: no two sessions share an id. |
| SessionModel.IdTaken | backend/routes/sessions.js:12 | `save` would violate the `_id` index: some session already has the new id. |
| UserModel.NewUser | backend/models/User.js:5-24 | A new user keeps the given e-mail and password, gets the generated `subscriptionId`, and has `activeTime` 0. |
| UserModel.MatchAt | backend/models/User.js:10 | `/.+\@.+\..+/` matching with its '@' and its '.' at the given positions: at least one character before the '@', at least one between, at least one after the '.', none a line terminator. |
| UserModel.MatchesEmailPattern | backend/models/User.js:10 | The unanchored regular expression matches somewhere in the e-mail. |
| UserModel.SchemaValid | backend/models/User.js:5-24 | A user document passes mongoose validation: no schema error. |
| UserModel.EmailPatternUnanchored | backend/models/User.js:10 | The regular expression is unanchored: any text around a matching string still matches. |
| UserModel.EmailPatternShape | backend/models/User.js:10 | A matching string has at least five characters, with an '@' after the first character and a '.' after a character that follows the '@'. |
| UserModel.EmailPatternExamples | backend/models/User.js:10 | "a@b.co" matches; "a@b", "@b.co" and "a@.c" do not. |
| UserModel.SchemaErrors | backend/models/User.js:6-15 | A user is valid exactly when the e-mail is present and matches the pattern and the password is present. |
| UserModel.ValidationFailure | backend/routes/auth.js:37-42 | The mongoose ValidationError that `save` throws for an invalid user: name "ValidationError" and message "User validation failed: " followed by the failing paths' messages, which `/register` returns in its 400 body. |
| UserModel.FindByEmail | backend/routes/auth.js:24 | `findOne({ email })`: the first user with that e-mail, or none exactly when no user has it. |
| UserModel.FindById | backend/routes/subscriptions.js:24 | `findById`: the first user with that id, or none exactly when no user has it. |
| UserModel.UniqueKeys | backend/models/User.js:9 | The `email` unique index and the `_id` index: no two users share an e-mail or an id. |
| UserModel.IdTaken | backend/routes/auth.js:37 | `save` would violate the `_id` index: some user already has the new id. |
| SubscriptionRoutes.SubscribeErrors | backend/routes/subscriptions.js:11-18 | No validation errors iff `userId` is an ObjectId string and the raw plan is non-empty; "Invalid user ID" is reported iff the id check fails. |
| SubscriptionRoutes.Subscribed | backend/routes/subscriptions.js:30-38 | The collection after a successful subscribe: the old rows (owners kept, the user's deactivated) followed by the new row. |
| SubscriptionRoutes.SubscriptionTable.Valid | backend/routes/subscriptions.js:30-38 | The collection's invariant: the unique indexes hold and no user has two active rows. |
| SubscriptionRoutes.SubscriptionTable.Subscribe | backend/routes/subscriptions.js:9-45 | In order: the token gate's refusal; 400 with the validation errors; 404 for an unknown user (the body's `userId`, not the token's); each with the collection unchanged. Otherwise the user's rows are deactivated first, then: a plan outside the enum is a forwarded ValidationError with the deactivation kept; a key collision is a forwarded duplicate-key error; else the new row is appended and 201 returns its `subscriptionId`. Keeps the unique indexes and at most one active row per user. |
| SubscriptionRoutes.SubscriptionTable.Status | backend/routes/subscriptions.js:48-58 | After the token gate: 404 "No active subscription found" iff the caller has no active row; when the caller has one, 200 with the row the active-row lookup finds. |
| SubscriptionRoutes.SubscriptionTable.All | backend/routes/subscriptions.js:61-69 | After the token gate: 200 with a subsequence of the collection that holds only the caller's rows, each of them, active or not, as many times as the collection holds it. |
| SubscriptionRoutes.SubscriptionTable.Cancel | backend/routes/subscriptions.js:72-86 | After the token gate: with no active row, 404 and no change; otherwise exactly the found row becomes inactive with `endDate` now and is returned updated, and the caller has no active row left. Keeps the invariants. |
| SubscriptionRoutes.Ended | backend/routes/subscriptions.js:77 | The update sets `isActive` false and `endDate` to now and keeps every other field. |
| SubscriptionRoutes.DeactivationKeepsInvariant | backend/routes/subscriptions.js:30 | Deactivation keeps both unique indexes and the one-active-row invariant, and leaves the user with no active row. |
| SubscriptionRoutes.InsertAfterDeactivationKeepsInvariant | backend/routes/subscriptions.js:30-38 | Saving a row with fresh keys after its owner's rows were deactivated keeps every invariant. |
| SubscriptionRoutes.EndingKeepsInvariant | backend/routes/subscriptions.js:75-79 | Ending one row keeps every invariant. |
| SubscriptionRoutes.SubscribeLeavesOnlyNewRowActive | backend/routes/subscriptions.js:30-41 | After a successful subscribe the user's only active row is the new one, and the active-row lookup finds it. |
| SubscriptionRoutes.SubscribeTouchesOnlyIsActive | backend/routes/subscriptions.js:30 | Other users' rows are unchanged; a replaced row differs only in `isActive`, so its `endDate` stays unset. |
| SubscriptionRoutes.InvalidPlanLeavesNoActive | backend/routes/subscriptions.js:30-38 | A non-empty plan other than "premium" fails the schema after deactivation has run, leaving the user with no active subscription. |
| SubscriptionRoutes.StatusFindsTheActiveRow | backend/routes/subscriptions.js:51-54 | Under the invariant, `/status` returns the user's only active row. |
| SubscriptionRoutes.CancelClearsUser | backend/routes/subscriptions.js:75-80 | Under the invariant, ending the row `/cancel` finds leaves the user with no active row. |
| SessionRoutes.OwnedSession | backend/routes/sessions.js:26-30 | The session `/end` may close exists and belongs to the caller; none exactly when the id is unknown or the owner differs. |
| SessionRoutes.SessionTable.Valid | backend/routes/sessions.js:10-12 | The collection's invariant: the `_id` index holds. |
| SessionRoutes.SessionTable.Start | backend/routes/sessions.js:7-18 | After the token gate: exactly one new session owned by the token's user, started now, is appended and 201 returns its id. An empty owner or an id collision is forwarded and changes nothing. Keeps the `_id` index. |
| SessionRoutes.SessionTable.End | backend/routes/sessions.js:21-43 | After the token gate: a missing session or someone else's gets 403 "Unauthorized" and no change; otherwise exactly that session is closed at now (already ended or not) and returned. Keeps the `_id` index. |
| SessionRoutes.StartedSessionIsOwned | backend/routes/sessions.js:10-30 | A session saved by `/start` is the one `/end` finds for its owner, and no other caller can end it. |
| SessionRoutes.CloseTouchesOnlyTarget | backend/routes/sessions.js:33-37 | Closing a session leaves every other session unchanged, keeps the `_id` index, and sets the duration to elapsed milliseconds over 1000. |
| AuthRoutes.RegisterErrors | backend/routes/auth.js:11-18 | No errors iff the e-mail passes `isEmail` and the raw, untrimmed password has at least 6 characters; the length message appears iff it is shorter. |
| AuthRoutes.LoginErrors | backend/routes/auth.js:53-60 | No errors iff the e-mail passes `isEmail` and the raw password is non-empty. |
| AuthRoutes.NormalizedEmail | backend/routes/auth.js:11 | The e-mail both routes read: the `normalizeEmail` of the raw body field (also at auth.js:53). |
| AuthRoutes.SanitizedPassword | backend/routes/auth.js:12 | The password both routes read: the raw field after `.trim().escape()` (also at auth.js:54). |
| AuthRoutes.NewAccount | backend/routes/auth.js:30-35 | The saved user holds the normalised e-mail and the hash of the trimmed and escaped password, never the plaintext. |
| AuthRoutes.UserTable.Register | backend/routes/auth.js:9-48 | In order: 400 with validation errors; 400 "User with this email already exists" for a taken normalised e-mail; 400 with the schema's ValidationError message; a forwarded duplicate-key error. All of these leave the table unchanged. Otherwise exactly one user is appended and 201 "User registered successfully" is sent. Keeps the unique indexes. |
| AuthRoutes.UserTable.Valid | backend/models/User.js:9 | The collection's invariant: the `email` unique index and the `_id` index hold. |
| AuthRoutes.Login | backend/routes/auth.js:51-81 | 400 with validation errors; 400 "User not found" for an unknown e-mail; 403 "Invalid credentials" iff the password does not compare equal; a forwarded error iff the password matches and a secret is unset, and that error is always `jwt.sign`'s "secretOrPrivateKey must have a value"; when the password matches and both secrets are set, 200 with access and refresh tokens both carrying the user's id, no expiry, signed with the two secrets. |
| AuthRoutes.RefreshToken | backend/routes/auth.js:84-105 | 400 iff the token is absent or empty; 401 iff it is empty after trim and escape; 403 iff it does not verify under the refresh secret, an unset secret included. When it verifies: a forwarded `jwt.sign` error iff the access secret is unset, and otherwise 200 with an access token signed for the verified user with a 15-minute expiry. |
| AuthRoutes.LengthCheckedBeforeTrim | backend/routes/auth.js:12 | "  abcd" passes the 6-character check although it is shorter than 6 once trimmed. |
| AuthRoutes.RegisterThenLogin | backend/routes/auth.js:9-77 | Credentials that registered log in on the resulting table, and the access token issued passes `authenticateToken` with the new user's id. |
| AuthRoutes.CompactTokenSurvivesSanitizing | backend/routes/auth.js:86 | `trim` and `escape` leave a compact token unchanged. |
| AuthRoutes.RefreshAfterLogin | backend/routes/auth.js:74-103 | The refresh token `/login` issued, sent to `/token`, is exchanged for an access token of the same user with a 15-minute expiry. |
| TopicRoutes.LeadingDigits | backend/routes/topics.js:28 | `\d+` at the start of a line: the longest run of leading digits. |
| TopicRoutes.HasOrdinal | backend/routes/topics.js:28 | The line begins with `^\d+\.`: one or more digits at column 0 followed by '.'. |
| TopicRoutes.StripOrdinal | backend/routes/topics.js:28 | The replacement removes one leading "<digits>." and the whitespace after it, and leaves any other line unchanged. |
| TopicRoutes.CleanTopic | backend/routes/topics.js:28 | A cleaned line has no leading or trailing whitespace. |
| TopicRoutes.IsTopic | backend/routes/topics.js:29 | `t && !t.startsWith('-')`: non-empty and not starting with '-'. |
| TopicRoutes.CleanedLines | backend/routes/topics.js:27-28 | One line per `'\n'`-separated piece, the i-th being the i-th piece with its ordinal stripped and trimmed; each is trimmed. |
| TopicRoutes.ParseTopics | backend/routes/topics.js:27-29 | Every topic is non-empty, does not start with '-', and is trimmed. The topics are an order-preserving subsequence of the cleaned lines, include every cleaned line that passes the filter, and are no more numerous than the lines. |
| TopicRoutes.ParseSingleLine | backend/routes/topics.js:27-29 | A single line gives its cleaned form if that passes the filter, and nothing otherwise. |
| TopicRoutes.ParseTopicsLineByLine | backend/routes/topics.js:27-29 | Parsing "a\nrest" is parsing "a" followed by parsing "rest". |
| TopicRoutes.LeadingDigitsOf | backend/routes/topics.js:28 | `\d+` consumes every digit of an all-digit prefix. |
| TopicRoutes.OneOrdinalRemoved | backend/routes/topics.js:28 | Only one ordinal is removed: "<digits>." plus whitespace plus t cleans to trim(t), so "1. 2. x" becomes "2. x". |
| TopicRoutes.IndentedLineKeepsOrdinal | backend/routes/topics.js:28 | An ordinal counts only at column 0: an indented line is only trimmed, so " 1. x" becomes "1. x". |
| TopicRoutes.NumberedBulletDropped | backend/routes/topics.js:28-29 | A numbered bullet such as "3. - x" is dropped, because the dash test runs after stripping. |
| TopicRoutes.GenerationErrors | backend/routes/topics.js:54-55 | No validation errors iff both the topic and the model are non-empty. |
| TopicRoutes.TopicsHandler | backend/routes/topics.js:56-70 | 400 with the validation errors, before any upstream call; otherwise the upstream is asked with the sanitised model and topic, its error is forwarded, and its text is returned parsed. |
| TopicRoutes.BlogHandler | backend/routes/topics.js:76-90 | 400 with the validation errors; otherwise the upstream's error is forwarded and its text is returned unchanged as the blog post. |
| TopicRoutes.GenerateTopics | backend/routes/topics.js:53-70 | Both gates run first and their refusal is the answer; only then does the handler run. |
| TopicRoutes.GenerateBlog | backend/routes/topics.js:73-90 | Both gates run first and their refusal is the answer; only then does the handler run. |
| TopicRoutes.GatesBeforeValidation | backend/routes/topics.js:53 | A request the gates refuse gets the same answer with an empty body and with any upstream. |
| TopicRoutes.EmptyFieldNeverReachesUpstream | backend/routes/topics.js:57-60 | An empty topic or model gives 400 on both routes whatever the upstream would have answered. |
| ChatRoutes.TrimmedLines | backend/routes/chat.js:25 | One line per `'\n'`-separated piece, the i-th being the i-th piece trimmed. |
| ChatRoutes.ParseLines | backend/routes/chat.js:25 | The topics are non-empty and trimmed, an order-preserving subsequence of the trimmed lines, include every non-empty trimmed line, and are no more numerous than the lines. |
| ChatRoutes.ParseLinesLineByLine | backend/routes/chat.js:25 | Parsing "a\nrest" is parsing "a" followed by parsing "rest". |
| ChatRoutes.EveryNonEmptyLineKept | backend/routes/chat.js:25 | A single line gives its trimmed form exactly when that is non-empty: numbered and '-'-prefixed lines are kept. |
| ChatRoutes.ChatErrors | backend/routes/chat.js:48 | Only the topic is validated: no errors iff it is non-empty. |
| ChatRoutes.TopicsHandler | backend/routes/chat.js:49-63 | 400 with the validation errors; otherwise the upstream is asked with "gpt-3.5-turbo" and the sanitised topic, its error is forwarded, and its text is returned as the trimmed non-empty lines. |
| ChatRoutes.BlogHandler | backend/routes/chat.js:67-81 | 400 with the validation errors; otherwise the upstream is asked with "gpt-3.5-turbo", its error is forwarded, and its text is returned unchanged. |
| ChatRoutes.GenerateTopics | backend/routes/chat.js:47-63 | Both gates run first and their refusal is the answer; only then does the handler run. |
| ChatRoutes.GenerateBlog | backend/routes/chat.js:65-81 | Both gates run first and their refusal is the answer; only then does the handler run. |
| ChatRoutes.ModelFieldIgnored | backend/routes/chat.js:14-33 | Whatever model the request names, or none, both routes answer the same. |
| ChatRoutes.GatesBeforeValidation | backend/routes/chat.js:47 | A request the gates refuse gets the same answer with an empty body and with any upstream. |
| JsText.Trim | backend/routes/chat.js:25 | `trim()` returns a trimmed infix of its input with only whitespace around it. |
| JsText.TrimIdempotent | backend/routes/chat.js:25 | Trimming twice is trimming once. |
| JsText.TrimEmptyIffAllWhitespace | backend/routes/chat.js:25 | A line trims to "" exactly when it is all whitespace, which is when the filter drops it. |
| JsText.TrimStartSkipsWhitespace | backend/routes/topics.js:28 | `\s*` after the ordinal: leading whitespace of any length is skipped. |
| JsText.Split | backend/routes/chat.js:25 | `split('\n')` gives at least one piece, no piece contains the separator, and joining the pieces restores the text. |
| JsText.SplitJoin | backend/routes/chat.js:25 | Splitting the join of separator-free pieces gives the pieces back. |
| Seqs.FilterSound | backend/routes/chat.js:25 | `filter` keeps only passing elements and every passing element, in their original order. |
| Seqs.FilterCount | backend/routes/subscriptions.js:64 | `filter` keeps every copy of a passing element and no copy of a failing one. |
| Seqs.FilterConcat | backend/routes/topics.js:29 | Filtering distributes over concatenation. |

## Left out

- Mongoose casting: an id that is not an ObjectId string makes mongoose throw a CastError, which is forwarded to the error handler. This happens for the `sessionId` of `/end` (`findById`), and for a token whose `userId` is not an ObjectId in `checkSubscription`'s `findOne`, in `/status`, `/all` and `/cancel`, and in `/start`'s `save`. The model treats such an id as an ordinary string that matches no document, and saves it as any other.
- SubscriptionRoutes.SubscriptionTable.Subscribe: ids are compared as exact strings. Mongoose casts a 24-digit hex `userId` in either case to the same ObjectId, so `User.findById` finds the user for an upper-case spelling of a stored id, while the model answers 404 "User not found".
- SessionRoutes.SessionTable.End: `Session.findById` also casts the `sessionId`, so an upper-case spelling of a stored session id finds the session in the source, while the model answers 403 "Unauthorized". The owner comparison `session.userId.toString() !== req.user.userId` is an exact string comparison in both.
- Likewise, the `userId` claim used in `checkSubscription`, `/status`, `/all` and `/cancel` is matched against stored ids as an exact string; a token carrying an upper-case spelling of the user's id matches no row in the model.
- The `createdAt`/`updatedAt` timestamps of User and Subscription are not modelled.
- Mongoose and express-validator error objects are reduced to their messages. The exact texts of mongoose's ValidationError and of MongoDB's duplicate-key error are approximations.
- AuthRoutes.RegisterErrors: the password length counts every Unicode character, whereas `isLength` does not count the variation selectors U+FE0E and U+FE0F.
- Concurrency: calls run one at a time. The race between `updateMany` and `save` in `/subscribe`, and concurrent closes of one session, are not modelled.
- SessionModel.Closed: the duration is the exact quotient (end − start)/1000, without floating-point rounding.
- `console` logging is not modelled.
- The algorithms of bcryptjs, jsonwebtoken and express-validator (`isEmail`, `normalizeEmail`, `escape`, `isMongoId`) are parameters. Only the laws stated by `Crypto.Lawful` and `Sanitizers.Lawful` are assumed where a lemma needs them.
- jsonwebtoken's `iat` claim and its expiry checking inside `verify` are not modelled. `Claims` records only the user id and the requested `expiresIn`.
- The OpenAI HTTP call, its prompt texts and the API key are not modelled. The upstream is a function from model and prompt to completion text or an error.
- Store failures are modelled only for the lookup in `checkSubscription`. In the other routes a failing query would be forwarded to the error handler like any other thrown error.
- `User.activeTime` is never updated by any route; the model keeps it at its default 0.
- backend/server.js (connection, mounting, `listen`), backend/middleware/security.js (helmet, cors, rate limiting) and the React frontend are not part of this model.
- AuthRoutes.RefreshToken: an unset access secret is modelled as a forwarded error. In the source, `jwt.sign` throws inside `jwt.verify`'s callback, so the error escapes the async handler and no response is sent.
