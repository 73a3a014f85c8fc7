# Notification API write path in Dafny

This project models the write path of a small Laravel notification-logging API.
`POST /notifications` takes a body naming a channel (`email`, `sms` or `slack`), a
message, and a polymorphic target (`notifiable_type` is the class name
`App\Models\User` or `App\Models\Post`, and `notifiable_id` is the row id). The path
has three parts, one module each:

- **AccessGuard** (`ThrottleNotifications::handle`). It makes a pure decision on the
  `X-Client-Key` header value. A missing header gets 401 with the missing-key
  message. A header that differs from the configured key gets 401 with the
  invalid-key message. When no key is configured, the key is `your-secret-key`.
  Anything else passes.
- **RequestValidation** (`NotificationRequest::rules` and `messages`). The field
  rules, with the custom messages, run the way the framework's validator runs them.
  Every field is checked. The rules of a field run in order. `required` is an
  implicit rule, so when it fails the field's other rules are skipped. Every other
  rule runs, and each failing rule adds its message. So `message` can collect both the
  `string` and the `max` message, and `notifiable_id` can collect both the `integer`
  and the existence message. The existence closure reads the raw `notifiable_type`
  input:
  - a falsy value (missing, null, `""`, `"0"`, `0`, empty array) skips the lookup;
  - each of the two class names maps, through an explicit table, to the ids of its
    model's rows;
  - the model treats every other truthy value as a name that cannot be
    instantiated: validation ends in `ClassNotFound`, answered with a 500, even
    though the `in` rule on `notifiable_type` also fails. For a string that names
    no class this is what the PHP code does (it throws). Other names that do
    resolve at run time are covered under "## Left out".
- **NotificationEndpoint** (`NotificationController::store`). A `Database` class
  holds the user and post ids, the `activity_logs` table as a sequence of rows, and
  the next id. `Store` appends one row copied from the validated submission and
  answers 201 with `success`, the fixed message and the row echoed back. `Handle`
  runs the guard, then validation, then `Store`. Both methods are specified
  against the pure functions `Insert` and `Process`, and the lemmas about the
  write path are proved about those functions.

**FeatureScenarios** restates the six feature tests of tests/Feature/NotificationTest.php as lemmas about `Process`, with their expected status (201, 401 or 422), body and stored rows.

Assumptions of the model:
- The guard runs before validation. The feature test for a missing key expects
  this, but the route declaration (routes/api.php:6-7) attaches no middleware, so
  the ordering is an assumption.
- The custom message for `notifiable_type.in` is the one in the code: "Notifiable
  type must be App\Models\User or App\Models\Post.", with the full class names.
- `message.string` has no custom message. The model uses the framework's default
  text "The message field must be a string.".
- `max:255` on a non-string measures the length of the value's string form, or an
  array's element count. `IntegerFitsMaxLength` proves that a 64-bit integer is at
  most 20 characters long, so `max` never rejects one.

Inputs the caller supplies: the header value (`None` when absent), the configured
key (`None` when unset), the body as typed optional values, the creation time, and
the user and post ids held by `Database`.

## Model

| member | source | states |
|---|---|---|
| `Domain.ParseChannel` | app/Http/Requests/NotificationRequest.php:28-31 | a channel string is recognised iff it is one of email, sms, slack, and then it names that channel |
| `AccessGuard.Check` | app/Http/Middleware/ThrottleNotifications.php:16-37 | missing iff no header; invalid iff a header that differs from the configured key (or `your-secret-key` when none is configured); pass iff the header equals that key exactly |
| `AccessGuard.Rejection` | app/Http/Middleware/ThrottleNotifications.php:19-35 | a rejection is a 401 reply, `success=false`, no data, with the missing-key message iff the key was missing and the invalid-key message iff it was wrong |
| `RequestValidation.ChannelErrors` | app/Http/Requests/NotificationRequest.php:28-31 | no error iff the channel is a string in {email, sms, slack}; "Channel is required." iff it is absent, null or blank; otherwise exactly "Channel must be one of: email, sms, slack." |
| `RequestValidation.MessageErrors` | app/Http/Requests/NotificationRequest.php:32-36 | no error iff the message is a non-blank string of at most 255 characters; the required message alone iff it is missing or blank; the string message iff it is present and not a string; the length message iff its size exceeds 255; no other message and none twice; when both fail, the string message comes first, in rule order |
| `RequestValidation.IntegerFitsMaxLength` | app/Http/Requests/NotificationRequest.php:35 | the decimal text of any 64-bit integer has at most 20 characters, under the 255 limit |
| `RequestValidation.IntegerMessageIsNotString` | app/Http/Requests/NotificationRequest.php:32-36 | an integer message gets exactly the `string` rule's message and no length message |
| `RequestValidation.TypeErrors` | app/Http/Requests/NotificationRequest.php:37-40 | no error iff the type is exactly `App\Models\User` or `App\Models\Post`; the required message iff it is missing or blank; otherwise the `in` message |
| `RequestValidation.ExistenceCheck` | app/Http/Requests/NotificationRequest.php:44-58 | no lookup iff the raw type input is falsy; a throw iff it is truthy and names neither model; not found iff it names a model whose table `find` misses, with the message naming that type |
| `RequestValidation.IdErrors` | app/Http/Requests/NotificationRequest.php:41-58 | a missing id gets only "Notifiable ID is required."; validation throws iff the id is present and the type input is truthy and names no model; no error iff the id is an integer and the type is falsy or names a table holding it; otherwise the integer message iff the id is not an integer, the not-found message iff the lookup misses (never when it is skipped or finds a row), nothing else and nothing twice; when both fail, the integer message comes first, in rule order |
| `RequestValidation.MissingTargetIdErrors` | app/Http/Requests/NotificationRequest.php:50-56 | an integer id under either class name that its table does not hold gets exactly the not-found message naming that class |
| `RequestValidation.Validate` | app/Http/Requests/NotificationRequest.php:25-61 | accepted iff every field's rules pass; the accepted data is the body's four fields; validation throws iff the existence closure does; otherwise an error map keyed by exactly the failing fields, each holding that field's messages |
| `RequestValidation.AcceptsExactly` | app/Http/Requests/NotificationRequest.php:27-60 | the body built from a submission validates back to that same submission iff its message is non-blank and at most 255 characters and its target row exists |
| `RequestValidation.AcceptedIsToPayload` | app/Http/Requests/NotificationRequest.php:27-60 | an accepted body is exactly the submission's four fields, and the submission's target row exists |
| `RequestValidation.FalsyTypeSkipsLookup` | app/Http/Requests/NotificationRequest.php:45-49 | with a falsy type input, the id's messages are the same whatever the user and post tables hold, and validation does not throw |
| `RequestValidation.UnknownClassThrows` | app/Http/Requests/NotificationRequest.php:52 | a present id with a truthy type input that names neither model makes validation throw, whatever the other fields hold |
| `NotificationEndpoint.EchoOf` | app/Http/Controllers/NotificationController.php:30-37 | the echo carries the saved row's id, message, notifiable_id and created_at, and the wire strings of its channel and target type |
| `NotificationEndpoint.Created` | app/Http/Controllers/NotificationController.php:27-38 | the store reply is 201, `success=true`, "Notification logged successfully." and echoes the row |
| `NotificationEndpoint.InsertAppendsOne` | app/Http/Controllers/NotificationController.php:20-25 | an insert on a well-formed store keeps it well-formed, adds exactly one row at the end with the submitted fields and an id no earlier row has, and keeps the earlier rows and the user and post ids |
| `NotificationEndpoint.InsertAllAppends` | app/Http/Controllers/NotificationController.php:20-25 | any sequence of inserts appends one row per submission, in order, with consecutive fresh ids, and keeps the earlier rows and the user and post ids |
| `NotificationEndpoint.IdenticalSubmissionsTwoRows` | app/Http/Controllers/NotificationController.php:20-25 | no deduplication: two identical submissions make two rows with the same fields and distinct ids |
| `NotificationEndpoint.GuardFirst` | app/Http/Middleware/ThrottleNotifications.php:19-37 | when the key is missing or wrong, the request gets 401 with the matching message whatever the body, and the store is unchanged |
| `NotificationEndpoint.StoresOnlyValidRequests` | app/Http/Controllers/NotificationController.php:14-38 | the reply is 201 iff the key matches and the body is accepted; then exactly one row is appended, its fields are the body's and its target row exists, and the 201 data carry the new id, the creation time and the body's four values; every other outcome leaves the store unchanged; the user and post ids never change |
| `NotificationEndpoint.FailedValidationStoresNothing` | app/Http/Controllers/NotificationController.php:14-17 | with the right key, a rejected body is answered 422 with exactly the validator's error map; the reply is 422 iff the key matches and the body is rejected, and 500 iff the key matches and the existence closure throws; neither stores anything |
| `NotificationEndpoint.Database.constructor` | app/Models/ActivityLog.php:12-19 | an empty activity_logs table over the given users and posts, first id 1 |
| `NotificationEndpoint.Database.Store` | app/Http/Controllers/NotificationController.php:14-38 | the new state is `Insert` of the old one, and the reply is `Created` for the appended row |
| `NotificationEndpoint.Database.Handle` | app/Http/Middleware/ThrottleNotifications.php:16-37 | the new state and the reply are those `Process` gives for the old state: guard, then validate, then store |
| `FeatureScenarios.Repeat` | tests/Feature/NotificationTest.php:134 | `n` copies of the character, position by position |
| `FeatureScenarios.MessageLengthLimit` | tests/Feature/NotificationTest.php:131-146 | a message of n letters is accepted iff 1 <= n <= 255; with the expected key a longer one is answered 422 with only the length message, and nothing is stored |
| `FeatureScenarios.MissingClientKey` | tests/Feature/NotificationTest.php:78-92 | no header gives 401, `success=false`, the missing-key message, for any body and configuration, and no row |
| `FeatureScenarios.NonExistentUser` | tests/Feature/NotificationTest.php:114-126 | with the expected key, user id 99999 with no row is answered 422 with only "The specified App\Models\User does not exist.", and nothing is stored |
| `FeatureScenarios.InvalidChannel` | tests/Feature/NotificationTest.php:97-109 | with the expected key, channel `invalid_channel` is answered 422 with the channel message whatever the tables hold, and nothing is stored; when user 1 exists that is the only message |
| `FeatureScenarios.StoreWithUser` | tests/Feature/NotificationTest.php:21-54 | a valid email body for an existing user, sent with the expected key under any configuration, stores exactly that row and answers 201 echoing it |
| `FeatureScenarios.StoreWithPost` | tests/Feature/NotificationTest.php:59-73 | a valid sms body for an existing post, sent with the expected key, answers 201 |
| `FeatureScenarios.StoreValidBody` | app/Http/Controllers/NotificationController.php:14-38 | any valid body for an existing target with the expected key appends exactly the submitted row with the next id and answers 201 echoing it |

## Left out

- HTTP and JSON plumbing: header-name matching, repeated header values, routing and serialisation. A response is a datatype. The 422 body is the error map alone, without its summary `message` line.
- The framework's global input middleware (string trimming, empty strings turned into null). The body is taken as it reaches the validator.
- Laravel's coercions. The body is already typed: a numeric string does not count as an integer, and a textual id finds no row. Booleans and floats are not represented. Arrays are represented by their element count only.
- RequestValidation.ExistenceCheck: instantiating the type string as a class is replaced by a table from the two exact class names to their id sets, and any other truthy value is `ClassNotFound` (500). Names that do instantiate at run time are not modelled: `App\Models\ActivityLog`, a name with a leading backslash, or a different-case spelling such as `app\models\user`. For those the source runs `find` and answers 422, because the `in` rule fails anyway.
- The configuration lookup. The configured key is a parameter. The configuration files are not part of this model, so a key configured as null is not represented.
- `authorize()`: it always returns true, so the 403 path never happens.
- Timestamps: `created_at` and `updated_at` are a value the caller supplies. Ids come from a counter standing in for the database's auto-increment.
- Database failures (a 500), concurrency between requests, and atomicity of the insert. These are left to the store.
- The model declarations and their polymorphic relations (`morphTo`, `morphMany`). Only the row's fields are modelled.
