# Request validation in the hydrosense API

This project models the request-validation cascades of three HTTP handlers of
the hydrosense API, a service that records water-quality experiments:

- `POST /experiments` creates an experiment;
- `GET /experiments?userId=` lists one user's experiments;
- `POST /users` registers a user.

Each handler is a fixed sequence of early returns. Each check that fails
answers 400 with its own message. A request that passes every check reaches
one database call. The model is pure. Every handler is a function from an
abstract request to a response, with the database call as a parameter:

- The request is the `Content-Type` header (absent or a string) and the
  parsed body. The body is absent when `request.json()` threw.
- The body is a JSON value. JavaScript destructuring and truthiness are
  written out over it (module `Json`).
- The insert is a function from the values to be inserted to the rows it
  returns, or a failure.
- The select is the table's rows at the time of the query, or a failure.
  The handler's equality filter on `userId` is modelled over those rows.

The UUID test both experiment handlers use,
`/^[0-9a-f]{8}-[0-9a-f]{4}-[0-9a-f]{4}-[0-9a-f]{4}-[0-9a-f]{12}$/i`, is modelled
as the sequence of 36 single-character classes it expands to. An anchored
matcher consumes one character per class. The model proves that this matcher
accepts exactly the 36-character strings with '-' at indices 8, 13, 18 and 23
and a hex digit of either case everywhere else, so the nil UUID is accepted.

Modules: `Wrappers` (Option), `Json` (values, destructuring, truthiness),
`Strings` (`includes`, ASCII lower-casing), `Uuid` (the pattern), `Schema`
(table rows, shaped after `drizzle/schema.ts`), `Http` (request, response,
the shared header and body checks), `Experiments` and `Users` (the handlers).

Points where the model is more precise than a plain reading of the code:

- `const { … } = body` throws a TypeError when the body is the JSON value
  `null`. The outer `catch` turns that into the handler's 500 response. Any
  other non-object body (an array, string, number or boolean) destructures
  to `undefined` fields, so it fails the first field check instead.
- `experiment[0].id` throws when the insert returns no row, so
  `POST /experiments` then answers 500. `POST /users` does not read a field
  of `newUser[0]`, so an empty result still answers 201, and the `user` key
  of the body is then absent.
- `experiments.user_id` is a Postgres `uuid` column. The filter
  `eq(experiments.userId, userId)` therefore compares UUID values: hex
  digits match regardless of letter case, and a NULL `user_id` never
  matches. Every listed row belongs to the queried user in this sense. When
  the stored id and the query are both written in lower case, the row's
  `userId` is the query string itself (`Experiments.ListedBelongToUser`).
- `contentType.includes("application/json")` is case-sensitive.
  `Application/JSON` is refused, while `application/json; charset=utf-8` and
  any other header containing the substring are accepted.

## Model

| member | source | states |
|---|---|---|
| `Json.Get` | src/app/experiments/route.ts:29 | destructuring yields a property iff the body is an object that has that key, and then yields that key's value; on any other body it yields `undefined` |
| `Json.OrNull` | src/app/experiments/route.ts:62 | `description \|\| null` keeps a truthy value unchanged and turns every falsy one into null |
| `Json.FalsyValues` | src/app/experiments/route.ts:32 | the falsy JavaScript values are exactly `undefined`, `null`, `false`, `0` and `""` |
| `Json.ValidStringIff` | src/app/experiments/route.ts:32 | `ValidString`, the negation of `!x \|\| typeof x !== "string"`, holds exactly for non-empty strings |
| `Strings.IncludesIff` | src/app/experiments/route.ts:10 | the left-to-right scan modelling `includes` succeeds iff the needle occurs at some index of the string |
| `Http.ContentTypeOkIff` | src/app/experiments/route.ts:9-10 | the header check passes iff the header is present and `application/json` occurs in it somewhere |
| `Http.ContentTypeWithCharset` | src/app/users/route.ts:8-9 | a header carrying parameters after the media type passes |
| `Http.ContentTypeRejected` | src/app/users/route.ts:8-14 | another media type, the media type in a different letter case, and a missing header all fail the check |
| `Http.ReadJsonBody` | src/app/experiments/route.ts:8-27 | the header is checked before the body. The Content-Type error is given iff the header check fails, and the invalid-JSON error iff the header passed and parsing failed. Otherwise the parsed body proceeds unchanged |
| `Uuid.MatchesIff` | src/app/experiments/route.ts:47-48 | an anchored sequence of single-character classes matches a string iff the string has one character per class and each character matches its class |
| `Uuid.UuidPatternLayout` | src/app/experiments/route.ts:47-48 | the expanded pattern has 36 classes: '-' at indices 8, 13, 18 and 23 and a case-insensitive hex digit everywhere else |
| `Uuid.IsUuidIff` | src/app/experiments/route.ts:47-49 | the regex test accepts a string iff it has exactly 36 characters, '-' at indices 8, 13, 18 and 23, and a hex digit of either case everywhere else |
| `Uuid.GroupsAccepted` | src/app/experiments/route.ts:97-99 | any five hex groups of 8, 4, 4, 4 and 12 digits joined by '-' pass, whatever their digits, so no version or variant nibble is checked |
| `Uuid.NilUuidAccepted` | src/app/experiments/route.ts:97-99 | the nil UUID passes |
| `Uuid.UpperCaseAccepted` | src/app/experiments/route.ts:47-49 | upper-case hex digits pass (the `i` flag) |
| `Uuid.RejectedExamples` | src/app/experiments/route.ts:47-49 | the unhyphenated form, braces, a trailing newline, a non-hex digit, `not-a-uuid` and the empty string all fail |
| `Uuid.SameUuidLowerCase` | src/app/experiments/route.ts:110 | for strings written in lower case, comparing as UUID values is string equality |
| `Experiments.ValidateCreate` | src/app/experiments/route.ts:29-54 | the cascade rejects only with status 400. It throws exactly when the body is `null`. A request it lets through carries a userId that matches the UUID pattern, a non-empty name, and a description that is either null or truthy |
| `Experiments.Create` | src/app/experiments/route.ts:56-80 | the handler answers only 201, 400 or 500. A 201 answer carries the success message and an `experimentId` equal to the `id` of the returned `experiment` |
| `Experiments.CreateRejectsBeforeInsert` | src/app/experiments/route.ts:9-57 | a rejected or throwing request gets a response that does not depend on the insert, so the database is never reached, and the response is never 201 |
| `Experiments.CreateContentType` | src/app/experiments/route.ts:9-15 | the Content-Type error is given iff the header is absent or lacks `application/json`, whatever the body is |
| `Experiments.CreateInvalidJson` | src/app/experiments/route.ts:17-27 | the invalid-JSON error is given iff the header passed and the body did not parse |
| `Experiments.CreateUserIdError` | src/app/experiments/route.ts:29-37 | the userId error is given iff the header and the parse pass, the body is not `null`, and userId is falsy or not a string |
| `Experiments.CreateNameError` | src/app/experiments/route.ts:39-44 | the name error is given iff every earlier check passes and the name is falsy or not a string. The UUID format of userId does not affect it |
| `Experiments.CreateUuidError` | src/app/experiments/route.ts:46-54 | the UUID error is given iff userId and name are non-empty strings and userId fails the pattern |
| `Experiments.NameCheckedBeforeUuid` | src/app/experiments/route.ts:32-54 | a body with a malformed string userId and no name gets the name error, not the UUID error |
| `Experiments.CreateNullBody` | src/app/experiments/route.ts:74-79 | a body that parses to `null` ends in the 500 response, because destructuring throws |
| `Experiments.CreateAccepted` | src/app/experiments/route.ts:29-64 | the cascade lets a request through iff every check passes. The insert then carries exactly the submitted userId and name. A truthy description is passed on unchanged and a falsy one becomes null |
| `Experiments.CreateSucceeds` | src/app/experiments/route.ts:56-79 | after the cascade, the answer is 201 iff the insert returns a row. It then carries that first row and its id. Otherwise the answer is 500 "Failed to create experiment" |
| `Experiments.ValidateList` | src/app/experiments/route.ts:86-104 | the query parameter passes iff it is present and matches the UUID pattern, and then it passes unchanged. Every rejection has status 400 |
| `Experiments.SelectByUser` | src/app/experiments/route.ts:106-110 | the filter returns each table row whose userId is the queried UUID exactly as many times as the table holds it, and returns no other row. A NULL userId never matches |
| `Experiments.List` | src/app/experiments/route.ts:83-120 | the handler answers 200 iff the query passes and the select succeeds. The list then holds the rows owned by the queried user, each as often as in the table, and no other row. A failed select after a valid query answers 500 "Failed to get experiments". A rejected query answers 400 with the cascade's own message |
| `Experiments.ListErrors` | src/app/experiments/route.ts:89-104 | the missing-parameter error is given iff the parameter is absent or empty. The UUID error is given iff it is present and non-empty but fails the pattern |
| `Experiments.ListRejectsBeforeSelect` | src/app/experiments/route.ts:89-110 | a rejected query gets a response that does not depend on the table |
| `Experiments.ListedBelongToUser` | src/app/experiments/route.ts:106-112 | a listed experiment has, in lower-case form, exactly the queried userId |
| `Users.ValidateCreate` | src/app/users/route.ts:16-33 | the cascade rejects only with status 400 and throws exactly when the body is `null`. A request it lets through carries a truthy email |
| `Users.Create` | src/app/users/route.ts:35-57 | the handler answers only 201, 400 or 500. A 201 answer carries the message "User created successfully" |
| `Users.CreateContentType` | src/app/users/route.ts:7-14 | the Content-Type error is given iff the header is absent or lacks `application/json`, whatever the body is |
| `Users.CreateInvalidJson` | src/app/users/route.ts:16-26 | the invalid-JSON error is given iff the header passed and the body did not parse |
| `Users.CreateEmailError` | src/app/users/route.ts:28-33 | the email error is given iff the header and the parse pass, the body is not `null`, and the email is falsy |
| `Users.CreateNullBody` | src/app/users/route.ts:51-57 | a body that parses to `null` ends in the 500 response, because destructuring throws |
| `Users.CreateAccepted` | src/app/users/route.ts:28-42 | the cascade lets a request through iff header, parse and email pass. The id is forwarded unchecked, `undefined` included, together with the email |
| `Users.NumericEmailAccepted` | src/app/users/route.ts:31-42 | a numeric email with no id passes validation, since there is no type check |
| `Users.CreateRejectsBeforeInsert` | src/app/users/route.ts:8-36 | a rejected or throwing request gets a response that does not depend on the insert, and the response is never 201 |
| `Users.CreateOutcome` | src/app/users/route.ts:35-57 | after the cascade, a failed insert gives 500 "Failed to create user". A successful one gives 201 with the first returned row, or with no user when no row came back |

## Left out

- The database (drizzle `insert`, `select`), the framework's request and
  response objects and the body parser are outside the model. The insert is
  an arbitrary function parameter. The select is the table's rows, or a
  failure. The parse result is an optional JSON value.
- What the database does with the inserted values is not modelled. This
  covers column defaults (`defaultRandom`, `defaultNow`), the coercion of a
  non-string description or email to text, and how it rejects an `undefined`
  user id. The rows it returns are arbitrary.
- The `numeric` and timestamp columns are kept as the text the response
  body carries. Decimal and time semantics are not modelled. `drizzle/schema.ts`
  only shapes the row datatypes.
- `Json.Json` holds numbers as reals and strings as Dafny strings. So it
  cannot represent the `Infinity` that `JSON.parse` yields for an
  out-of-range literal such as `1e400`, or a string that holds a lone
  surrogate from an escape such as `\uD800`. For such a body,
  `Users.CreateAccepted`'s "forwarded as it came" is not stated. Which check
  fails does not change: `Infinity` is truthy and not a string, and a lone
  surrogate is neither a hex digit nor '-'.
- `console.error` logging has no observable effect and is left out.
- `Experiments.SelectByUser`: states which rows are returned and how often,
  but not that they keep the table's order, since the select has no ORDER BY and the
  database promises no order either.
- Exceptions other than the ones named above are not modelled. The model
  covers destructuring `null`, a failed database call, and reading `.id` of
  a missing row. Anything else thrown inside the `try` would also end in the
  fixed 500 response.
- `PATCH /experiments/{id}` and `GET /experiments/{id}`
  (`src/app/experiments/[id]/route.ts`) are not part of this model. This
  includes the sensor-value merge and the two text-completion calls with
  their fallbacks. Their external calls are network I/O.
