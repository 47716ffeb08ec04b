# Parking-fee service, modelled in Dafny

This project models the core of a small parking-fee web service. The service
exposes `POST /parking`, which records a stay and charges a fee, and
`GET /parking`, which lists stays matching a filter. The model covers:

- the fee calculation `calculatePrice`: whole days, leftover hours and leftover
  minutes of a stay in epoch milliseconds, charged at car or motorcycle rates;
- the INSERT statement of `addParkingData` and its zero-rows error;
- the imperative WHERE-clause builder of `getParkingData`;
- the row mapper `mapParkingDBToModel`;
- the Joi request schemas, as explicit rules;
- the validator wrappers, with a thrown error modelled as a `Result` failure;
- the two request handlers, with the validator and service abstract;
- the server's `onPreResponse` error-to-response mapping.

One module per source file:

| file | module | models |
|---|---|---|
| wrappers.dfy | Wrappers | `Option`, `Result` |
| exceptions.dfy | Exceptions | what the server hook sees of an error: its two `instanceof` tests, its message and `output.statusCode` |
| parking_utils.dfy | ParkingUtils | src/utils/index.js |
| parking_service.dfy | ParkingService | src/services/postgres/ParkingService.js |
| parking_schema.dfy | ParkingSchema | src/validator/parking/schema.js |
| parking_validator.dfy | ParkingValidator | src/validator/parking/index.js |
| toolkit.dfy | Toolkit | the hapi response object (`h.response`, `response.code`) |
| parking_handler.dfy | ParkingHandler | src/api/parking/handler.js |
| server.dfy | Server | the `onPreResponse` hook of src/server.js |

Modelling choices:

- **Fee.** JavaScript's truncating `%` is written out (`JsRem`), and `Math.floor` is
  Dafny's `/` with a positive divisor. `CalculatePriceCharges` states the fee
  independently of the code's split: the day rate times whole days, plus the
  hour rate times the hours started, with seconds under a minute not counted.
- **Filter builder.** `BuildFilterQuery` is a method with the same sequence of
  `if` blocks and the same three locals (`textToAppend`, `valuesToPush`,
  `index`). The text being appended is held as the list of clauses it spells and
  rendered once at the end; `RenderAppend` shows that this is the same string.
  The builder's specification is declarative: the conditions the filter switches
  on, numbered consecutively from `$1` (`FilterClauses`), and one value per
  condition except the exit-time one (`PushedValues`). Filter fields use
  JavaScript truthiness, so `0` and `""` skip a clause exactly like an absent field.
- **Schemas.** Joi checks keys in schema order and stops at the first error.
  `CheckPost` and `CheckGet` return that first violation. Each is proved equal
  in verdict to a one-line validity predicate and to "no rule broken".
- **Handlers.** These are methods of a `ParkingHandler` class whose validator and
  service are records of functions. A ghost trace `calls` records each call made
  on the validator, the service and the response toolkit. This states which calls
  happen before an error and which never happen.

The model keeps these behaviours of the code as written:

- `addParkingData` returns nothing: there is no `return` after the row-count check. The success value is `()`, and the POST handler's `parkingId` is whatever the service gave. The stubs in tests/parking-handler-test.js (a service returning `1`, and an expected `parkingId: 1`) do not describe the code.
- Error envelopes always have status `fail`, also in the hook's 500 branch (src/server.js:57-62).
- The GET handler's second validation leaves out `exitTime`. So nothing about the end time is checked on query parameters: a reversed range and an end without a start both reach the service (`SecondValidationIgnoresExitTime`, `ReversedTimeRangeReachesService`, `LoneExitTimeReachesService`).
- The exit-time clause takes a placeholder but pushes no value. Every later placeholder then points one slot past its value (`ExitClauseShiftsLaterBindings`).

## Model

| member | source | states |
|---|---|---|
| ParkingUtils.MapParkingDBToModel | src/utils/index.js:2-14 | id, type and price are copied; `enterTime` is `enter_time` and `exitTime` is `exit_time` |
| ParkingUtils.MapParkingDBToModelRoundTrip | src/utils/index.js:2-14 | renaming back gives the row with exactly the five named columns; mapping again gives the same record |
| ParkingUtils.ModelToDbRowRoundTrip | src/utils/index.js:2-14 | every record is the image of the row it renames back to |
| ParkingUtils.MapParkingDBToModelDropsOtherColumns | src/utils/index.js:2-14 | columns other than the five named ones do not affect the record |
| ParkingUtils.MapRows | src/services/postgres/ParkingService.js:78 | one record per row, same count, record i is the mapping of row i |
| ParkingUtils.MapRowsAppend | src/services/postgres/ParkingService.js:78 | mapping distributes over concatenated result sets |
| Exceptions.InvariantError | src/services/postgres/ParkingService.js:35 | `new InvariantError(message)` passes the InvariantError test, fails the NotFoundError test, and keeps its message |
| Exceptions.NotFoundError | src/server.js:49 | a NotFoundError fails the InvariantError test, passes the NotFoundError test, and keeps its message |
| ParkingService.FloorDiv | src/services/postgres/ParkingService.js:12-14 | `Math.floor(a / d)` is the q with q·d ≤ a < q·d + d |
| ParkingService.JsRem | src/services/postgres/ParkingService.js:13-14 | JavaScript `%`: magnitude below d, sign of the dividend, equal to the mathematical remainder for a ≥ 0 |
| ParkingService.SplitStay | src/services/postgres/ParkingService.js:11-14 | definition: days = `Math.floor(range / 86400000)`, hours = `Math.floor((range % 86400000) / 3600000)`, minutes = `Math.floor((range % 3600000) / 60000)`, with JavaScript's `%`; its properties are `SplitStayDecomposes` and `SplitStayBounds` |
| ParkingService.CalculatePrice | src/services/postgres/ParkingService.js:10-22 | the fee is never negative when the exit time is not before the enter time |
| ParkingService.TariffFor | src/services/postgres/ParkingService.js:16-19 | definition: 80000 per day and 5000 per hour for the exact string 'car', 40000 and 2000 for every other type; `CalculatePriceCharges` ties `CalculatePrice` to it |
| ParkingService.SplitStayDecomposes | src/services/postgres/ParkingService.js:11-14 | for range ≥ 0, (days, hours, minutes) is the split of range into days, hours 0..23, minutes 0..59 and ms 0..59999, and it is the only such split |
| ParkingService.SplitStayBounds | src/services/postgres/ParkingService.js:12-14 | days = range div 86400000 ≥ 0, hours in 0..23, minutes in 0..59 |
| ParkingService.CalculatePriceCharges | src/services/postgres/ParkingService.js:10-22 | fee = per-day rate × whole days + per-hour rate × hours started (whole minutes past the last day, rounded up to hours); only the exact string "car" gets 80000/5000, every other string gets 40000/2000 |
| ParkingService.UnderOneMinuteIsFree | src/services/postgres/ParkingService.js:12-19 | a stay shorter than one minute costs 0 for every type |
| ParkingService.SubMinuteRemainderNotCharged | src/services/postgres/ParkingService.js:14-17 | a car for 1 h + 1 ms, or 1 h + 59.999 s, is charged 5000 |
| ParkingService.CalculatePriceExamples | src/services/postgres/ParkingService.js:12-19 | one hour: car 5000, motorcycle 2000; one day: car 80000, motorcycle 40000; 1 h 1 min: car 10000 |
| ParkingService.CalculatePriceNotMonotone | src/services/postgres/ParkingService.js:12-17 | a car for 23 h 59 min costs 120000 but for 24 h costs 80000 |
| ParkingService.AddParkingData | src/services/postgres/ParkingService.js:24-37 | issues the fixed INSERT text with values [type, enterTime, exitTime, calculatePrice(...)]; fails exactly when rowCount is 0, with InvariantError 'Insertion of parking data failed' |
| ParkingService.TruthyText | src/services/postgres/ParkingService.js:47 | definition: `if (type)` on a string is taken exactly when the string is present and not empty |
| ParkingService.TruthyInt | src/services/postgres/ParkingService.js:53-69 | definition: `if (timeRange.start)` and the other number guards are taken exactly when the number is present and not 0 |
| ParkingService.Tests | src/services/postgres/ParkingService.js:47-69 | definition: which of the five guards is taken, each inner guard only when its range object is present; `ActiveConditionsAreTested` ties it to `ActiveConditions` |
| ParkingService.FieldValue | src/services/postgres/ParkingService.js:49-71 | definition: the value each `valuesToPush.push` adds (type, start, min, max; the exit time's value is never pushed); `PlaceholdersBindTheirValues` and `ExitClauseShiftsLaterBindings` state which placeholder binds it |
| ParkingService.ActiveConditions | src/services/postgres/ParkingService.js:47-74 | definition: the conditions the `if` chain adds, in its order; `BuildFilterQuery` is proved against it through `StepTracks` and `TracksAllConditions` |
| ParkingService.Numbered | src/services/postgres/ParkingService.js:46-73 | one clause per condition |
| ParkingService.FilterClauses | src/services/postgres/ParkingService.js:47-73 | definition: the clauses the `if` blocks append, for the truthy conditions in order, numbered from `$1` |
| ParkingService.PushedValues | src/services/postgres/ParkingService.js:47-73 | definition: the `valuesToPush.push` calls, one value per condition except the exit-time one |
| ParkingService.NatText | src/services/postgres/ParkingService.js:48 | `${index}` is a non-empty string of decimal digits with no leading zero |
| ParkingService.NatTextSpellsValue | src/services/postgres/ParkingService.js:48 | the digits of `${index}` read back as a decimal number give `index` |
| ParkingService.NatTextInjective | src/services/postgres/ParkingService.js:48-70 | different placeholder numbers are written differently, so no two clauses share a placeholder text |
| ParkingService.ClauseText | src/services/postgres/ParkingService.js:48-70 | definition: the template ` AND <column> <operator> $<index>` each `if` block appends |
| ParkingService.Render | src/services/postgres/ParkingService.js:44-75 | definition: the clause texts concatenated in order; its property is `RenderAppend` |
| ParkingService.TracksAllConditions | src/services/postgres/ParkingService.js:46-76 | after the last `if` block the locals are the filter's clauses and values, with one value fewer exactly when the exit time is tested, and `index` is one past the last placeholder |
| ParkingService.NumberedConsecutive | src/services/postgres/ParkingService.js:46-73 | clause k of a numbered list carries placeholder first + k |
| ParkingService.NumberedAppend | src/services/postgres/ParkingService.js:46-73 | numbering a concatenation numbers the second part from where the first stopped |
| ParkingService.RenderAppend | src/services/postgres/ParkingService.js:44-75 | rendering clause lists commutes with concatenation, so appending clause texts one by one gives the rendered list |
| ParkingService.PushedValuesWithoutExit | src/services/postgres/ParkingService.js:47-73 | without the exit-time condition each condition pushes exactly its own value |
| ParkingService.PushedValuesWithOneExit | src/services/postgres/ParkingService.js:58-61 | a single exit-time condition contributes no value, so one value fewer than conditions |
| ParkingService.ActiveConditionsAreTested | src/services/postgres/ParkingService.js:47-74 | a condition is added exactly when its field is truthy |
| ParkingService.ActiveConditionsInFixedOrder | src/services/postgres/ParkingService.js:47-74 | added conditions follow the order type, enter_time, exit_time, price min, price max |
| ParkingService.FilterValueCount | src/services/postgres/ParkingService.js:58-61 | values = clauses − 1 when the exit-time bound is truthy, values = clauses otherwise |
| ParkingService.FilterPlaceholdersConsecutive | src/services/postgres/ParkingService.js:46-73 | clause k of the filter carries `$(k+1)` |
| ParkingService.PlaceholdersBindTheirValues | src/services/postgres/ParkingService.js:46-73 | without an exit-time bound, `$k` binds values[k−1], the value of the field clause k tests |
| ParkingService.ExitClauseShiftsLaterBindings | src/services/postgres/ParkingService.js:58-73 | with an exit-time bound: one value fewer than clauses; clauses before it bind their own values; each later clause's value sits one slot before its placeholder; the last placeholder has no value |
| ParkingService.EarlierBindOwnValues | src/services/postgres/ParkingService.js:47-57 | with an exit-time bound, clauses before it bind their own values |
| ParkingService.LaterBindShiftedValues | src/services/postgres/ParkingService.js:58-73 | with an exit-time bound, each later clause's value is at placeholder − 2 |
| ParkingService.ExitSplitsConditions | src/services/postgres/ParkingService.js:47-74 | with an exit-time bound the conditions are those before it, then it, then those after it |
| ParkingService.NoFilterIsBaseQuery | src/services/postgres/ParkingService.js:40-43 | no truthy field: text 'SELECT * FROM parking WHERE TRUE', no values |
| ParkingService.TypeOnlyQuery | src/services/postgres/ParkingService.js:47-51 | a type-only filter adds ' AND type = $1' and binds the type |
| ParkingService.FullFilterQuery | src/services/postgres/ParkingService.js:44-76 | all five fields: the five clauses in order with `$1`..`$5`, and only four values, without the exit time |
| ParkingService.StepTracks | src/services/postgres/ParkingService.js:47-73 | each `if` step keeps the locals equal to the clauses, values and next number of the conditions handled so far |
| ParkingService.BuildFilterQuery | src/services/postgres/ParkingService.js:40-76 | final text = base + the numbered clauses of the truthy conditions; values = one per condition except exit time; the count relation |
| ParkingService.GetParkingData | src/services/postgres/ParkingService.js:39-79 | issues the built statement and returns one mapped record per row, in order |
| ParkingSchema.LowerChar | src/validator/parking/schema.js:4 | upper-case ASCII letters move to lower case; every other character is unchanged |
| ParkingSchema.MatchesIgnoringCase | src/validator/parking/schema.js:4 | definition: equal length, and each character lower-cases to the word's character |
| ParkingSchema.IsVehicleType | src/validator/parking/schema.js:4-10 | definition of `.insensitive().valid('car', 'motorcycle')`: the string matches one of the two words ignoring case; its properties are `CaseVariantsAccepted`, `OtherWordsRejected` and `AcceptedTypeFitsColumn` |
| ParkingSchema.AcceptedTypeFitsColumn | migrations/1673163793566_create-parking-table.js:7-10 | every accepted type fits the VARCHAR(10) column |
| ParkingSchema.CaseVariantsAccepted | src/validator/parking/schema.js:4 | "car", "Car", "CAR", "motorcycle", "MotorCycle" are accepted types |
| ParkingSchema.OtherWordsRejected | src/validator/parking/schema.js:4 | "motor", "others" and "" are not |
| ParkingSchema.Message | src/validator/parking/index.js:11 | the error message is non-empty and starts with the quoted key name |
| ParkingSchema.PostPayloadValid | src/validator/parking/schema.js:3-7 | definition: all three keys present, an allowed type, and exitTime greater than enterTime; `CheckPost` accepts exactly these payloads |
| ParkingSchema.PostBreaks | src/validator/parking/schema.js:3-7 | definition: which POST rule (required, valid, greater) a payload breaks; `PostValidIffNoBrokenRule` and `CheckPost` relate it to `PostPayloadValid` |
| ParkingSchema.CheckPost | src/validator/parking/schema.js:3-7 | accepted iff type present and allowed, enterTime present, exitTime present and greater; a rejection names a broken rule with no broken rule at an earlier key |
| ParkingSchema.PostValidIffNoBrokenRule | src/validator/parking/schema.js:3-7 | the POST payload is valid iff it breaks none of the rules |
| ParkingSchema.PostRequiresEveryKey | src/validator/parking/schema.js:4-6 | omitting any one of the three keys is rejected |
| ParkingSchema.PostRejectsEqualTimes | src/validator/parking/schema.js:6 | equal enter and exit times are rejected: the bound is strict |
| ParkingSchema.PostSchemaExamples | tests/validator-parking-test.js:7-49 | the six POST cases of the validator tests |
| ParkingSchema.GetPayloadValid | src/validator/parking/schema.js:9-23 | definition: a present type is allowed, a present exitTime has an enterTime it is greater than, and a present priceMax has a priceMin it is at least; `CheckGet` accepts exactly these payloads |
| ParkingSchema.GetBreaks | src/validator/parking/schema.js:9-23 | definition: which GET rule (valid, missing reference, greater, min) a payload breaks; `GetValidIffNoBrokenRule` and `CheckGet` relate it to `GetPayloadValid` |
| ParkingSchema.CheckGet | src/validator/parking/schema.js:9-23 | accepted iff a present type is allowed, a present exitTime has an enterTime it is greater than, and a present priceMax has a priceMin it is at least; a rejection names a broken rule with no broken rule at an earlier key, and a missing reference is Joi's `any.ref` error |
| ParkingSchema.GetValidIffNoBrokenRule | src/validator/parking/schema.js:9-23 | the GET payload is valid iff it breaks none of the rules |
| ParkingSchema.EmptyGetAccepted | src/validator/parking/schema.js:9-23 | the empty parameter set is accepted |
| ParkingSchema.GetRangesNeedBothEnds | src/validator/parking/schema.js:12-22 | an exitTime without an enterTime, or a priceMax without a priceMin, is rejected on the missing reference; a lone enterTime or priceMin constrains nothing |
| ParkingSchema.GetPriceBoundInclusive | src/validator/parking/schema.js:18-22 | priceMax = priceMin is accepted |
| ParkingSchema.GetSchemaExamples | tests/validator-parking-test.js:52-92 | the four GET cases of the validator tests |
| ParkingValidator.ValidatePostParkingPayload | src/validator/parking/index.js:8-14 | succeeds iff the POST schema accepts, with the payload unchanged; otherwise an InvariantError carrying the schema's message |
| ParkingValidator.ValidateGetParkingPayload | src/validator/parking/index.js:15-21 | succeeds iff the GET schema accepts, with the payload unchanged; otherwise an InvariantError carrying the schema's message |
| ParkingValidator.RejectionMessageNonEmpty | src/validator/parking/index.js:10-12 | a thrown validation error always has a message |
| ParkingValidator.ValidatorFollowsSchema | src/validator/parking/index.js:9-20 | the wrapper accepts exactly what the schema accepts |
| ParkingValidator.ValidatorExamples | tests/validator-parking-test.js:7-92 | which payloads of the validator tests throw and which return |
| Toolkit.Response.constructor | src/api/parking/handler.js:16-21 | `h.response(source)` holds the source with the default code 200 |
| Toolkit.Response.Code | src/api/parking/handler.js:22 | `response.code(c)` sets the code and keeps the source |
| ParkingHandler.SecondValidationPayload | src/api/parking/handler.js:31-33 | the second validation gets the query's type, enterTime, priceMin and priceMax, and no exitTime |
| ParkingHandler.ServiceFilter | src/api/parking/handler.js:34-44 | the service always gets a time range {start: enterTime, end: exitTime} and a price range {min: priceMin, max: priceMax} |
| ParkingHandler.ParkingHandler.constructor | src/api/parking/handler.js:4-9 | the handler keeps the service and validator it is given |
| ParkingHandler.ParkingHandler.PostParkingHandler | src/api/parking/handler.js:11-24 | validation first; on its error only the validation call has happened and the error is thrown; the service gets the payload's type, enterTime and exitTime; on success the response is {status:'success', data:{parkingId}} with code 201 |
| ParkingHandler.ParkingHandler.GetParkingHandler | src/api/parking/handler.js:26-54 | validates the body, then the query without exitTime; on either error nothing else has been called; the service gets `ServiceFilter(query)`; on success {status:'success', data:{parkingData}} with code 200 |
| ParkingHandler.SecondValidationIgnoresExitTime | src/api/parking/handler.js:31-33 | the second validation's result does not depend on the query's exitTime; it passes iff a present type is allowed and a present priceMax has a priceMin it is at least |
| ParkingHandler.ReversedTimeRangeReachesService | src/api/parking/handler.js:27-44 | a query with exitTime ≤ enterTime and no body passes both validations although the GET schema rejects it, and the service receives that range |
| ParkingHandler.LoneExitTimeReachesService | src/api/parking/handler.js:27-44 | a query with exitTime but no enterTime and no body passes both validations although the GET schema rejects it, and the service receives a time range with only its end |
| ParkingHandler.CaseVariantChargedMotorcycleRates | src/services/postgres/ParkingService.js:16-19 | "Car" is an accepted type but is charged the motorcycle fee: never more than a car, and less for a stay of a minute or more |
| Server.MessageOr | src/server.js:44 | `message ? message : fallback` for strings |
| Server.ErrorReplyFor | src/server.js:40-62 | the message is never empty and is the error's own when it has one; InvariantError gives 400 / 'Bad request', else NotFoundError 404 / 'Not found', else output.statusCode / 'Server error' |
| Server.OnPreResponse | src/server.js:37-66 | a non-error response continues unchanged; an error gets a new response {status:'fail', message} with the code of `ErrorReplyFor` |
| Server.ErrorClassCodes | src/server.js:41-56 | InvariantError maps to 400 and NotFoundError to 404, each with its default message |
| Server.InvariantTestedBeforeNotFound | src/server.js:41-49 | an error that is both kinds is answered 400 |
| Server.RejectedPayloadIsBadRequest | src/validator/parking/index.js:10-12 | a rejected body or query reaches the client as 400 with the schema's message |
| Server.FailedInsertIsBadRequest | src/services/postgres/ParkingService.js:34-35 | a failed insert reaches the client as 400 'Insertion of parking data failed' |

## Left out

- Database I/O: the `pg` pool is a parameter `pool` mapping a statement to its `{rowCount, rows}`. The model does not cover what Postgres does with the SQL, including comparing TIMESTAMP columns with numeric parameters. A rejected `await this._pool.query(...)` is not modelled either. Postgres would reject every SELECT built with a truthy `timeRange.end`, because its last placeholder has no value (`ExitClauseShiftsLaterBindings`). Such a request fails; the model instead returns the pool's rows.
- `rowCount` is a natural number here. A `null` row count, which `!result.rowCount` would also treat as zero, is not modelled.
- Asynchrony and concurrency: each `await` is a plain call, and interleaving between requests is not modelled.
- Server boot (dotenv, hapi setup, CORS, plugin registration, `server.start`, logging), routing, and the migration are left out. The migration contributes only the VARCHAR(10) type column in `AcceptedTypeFitsColumn`.
- Joi internals: conversion of timestamps into `Date` objects, coercion of numeric strings, the unknown-key policy, and non-string or non-number values. The value a successful validation returns is modelled as the payload itself. Query parameters are taken already parsed as integers.
- ParkingSchema.Message: Joi's error wording is approximated. Only its non-emptiness and its quoted-key prefix are stated, because the rest is Joi's own text.
- ParkingSchema.LowerChar: lower-casing is ASCII only. Joi's case-insensitive match uses full Unicode lower-casing, which is not modelled.
- JavaScript numbers are unbounded integers here. Timestamps stay far below 2^53, and fractional prices and timestamps are not modelled. The BIGINT width of the price column is not modelled.
- The response object is modelled only as its source and its status code. Headers and other hapi response state are not modelled.
- ParkingService.AddParkingData: the code calls `this._calculatePrice` (src/services/postgres/ParkingService.js:27), which the class does not define. In the program as written, every call therefore throws a TypeError before `pool.query` runs. The hook answers it in its generic branch (src/server.js:57-62) with 500 and the message 'this._calculatePrice is not a function', so every valid POST fails. The model instead computes the price with the static `CalculatePrice`, the evident intent, and models the INSERT and the zero-row error from there. A comment in the method says so.
- The body of a plain GET is taken to be absent, so the first validation in `getParkingHandler` sees the empty payload. If hapi gives such a request a `null` body, `Joi.object()` rejects it with `object.base`, and every GET fails with 400. That case is not modelled.
- The POST handler's service is abstract. That the registered service's `addParkingData` gives no id (so `parkingId` is `undefined`) is stated on `ParkingService.AddParkingData`, not carried into the handler, because a method cannot be passed as a function value.
- The classes under src/exceptions/ are not part of this model. An error is its two `instanceof` answers, its message, and the status code hapi attaches to it (500 for the service's own errors).
- The sinon test doubles are not modelled. These stale expectations of tests/parking-service-test.js do not match the code, and the model follows the code:
  - a constructor taking the database;
  - `lower($1)` and `to_timestamp` in the INSERT;
  - an explicit column list in the SELECT;
  - a returned id.
