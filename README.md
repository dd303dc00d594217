# Musical-piece CRUD service, modelled in Dafny

This project models the core of a small web service that keeps one kind of record: a
musical *piece*. The service has four layers.

- **Schema** (`Models`). It holds the nine data fields of a piece and the validators the
  schema declares. Each validator reports its own French message.
- **Storage accessor** (`Repos`). The collection is a class whose field is a
  `map<Id, Piece>`. It has four queries. Its writes are add, update (overwrite all nine
  fields) and delete. `save()` runs the schema's validators before it writes.
- **Domain service** (`Services`). Reads are passed straight through. Single-record read,
  update and delete first check that the record exists, and raise NotFound ("Piece not
  found", status 404) when it does not.
- **HTTP layer.** `PieceRoutes` holds the seven handlers. `Router` holds the
  `validatePiece` middleware and the route table; only creation is guarded.
  `Server` holds the error middleware and one request run through the whole application.

The mutating layers are proved against the table. Every write states the whole new table
in terms of the old one. Every guarded failure leaves the table unchanged. When the table
conformed to the schema before a call, it still conforms after it. The pure parts are
tied to independent reference definitions by lemmas:
- the schema's error list against the direct statement of each field's constraint;
- `new Set(arr).size === arr.length` against "no two positions are equal";
- the two alive-status queries against a partition of the table;
- the year query against "start ≤ year ≤ end".

Modelling choices:
- Dates are calendar days `(year, month, day)`, and the subset type `Date` admits only
  real days. Order is chronological. The current time `now` is a parameter of every
  operation that validates.
- Identifiers are naturals. The repository's counter `nextId` stands for the database's
  identifier generator: every stored key is below it, so the id an insertion uses is fresh.
- In a client's piece (`RawPiece`) every field may be missing. The `required` rule of a
  string field also rejects the empty string, as the ODM's string type does. A missing
  field of another type fails its `required` rule.
- Building a document with `new Piece(piece)` gives each missing array field its default,
  the empty array (`NewDocument`). Creation and the `validatePiece` middleware both build
  such a document before they validate. Update assigns the client's fields to the stored
  document one by one, so no default applies there.
- The `piece` member of a request body is one of four kinds of value: missing, `null`,
  another falsy value (`false`, `0`, `""`), or a piece object. The routes tell them apart.
  Creation from `false` or `0` raises the document constructor's `ObjectParameterError`,
  which refuses any value that is neither an object nor `undefined` nor `null`. Creation
  from `""` raises the model constructor's error for a string argument, which is checked
  first.
- The schema reports at most one error per field: the first failing validator of that
  field. `required` is checked first, then the others in declaration order. The error
  list keeps the fields in schema order.
- The runtime errors of the unguarded update route are `TypeError` values. They come from
  reading `req.body.piece` of a missing body, or `piece._id` of a missing or `null` piece.
  Their messages are the JavaScript engine's wording. For another falsy piece, `piece._id`
  is undefined, so the service answers NotFound (404).

Behaviour of the code worth noting:
- A thrown error that is not a `RouteError` becomes status 400, not 500 (`src/server.ts:45`).
- Successful add, update and delete send an empty body, not `{success: true}`
  (`src/routes/PieceRoutes.ts:55`, `:64`, `:73`).
- Update does validate the schema, because `save()` runs the validators
  (`src/repos/PieceRepo.ts:65`). A piece that breaks the schema gets status 400 with the
  validation message.
- Single-record read of an unknown id answers 404. The service throws before the handler
  could send `{piece: null}`.

## Model

| member | source | states |
|---|---|---|
| Models.DateLeIsTotalOrder | src/models/Piece.ts:37-39 | the date comparison used by "not after now" is a total order: reflexive, antisymmetric, transitive, total |
| Models.BetweenYearBoundsIff | src/repos/PieceRepo.ts:33-34 | a day lies between Jan 1 of `start` and Dec 31 of `end`, both included, iff its year is from `start` to `end` |
| Models.ElementSet | src/models/Piece.ts:59 | `new Set(arr)` holds exactly the strings of the list, and has no more elements than the list has positions |
| Models.SetSizeIsLengthIffNoDuplicates | src/models/Piece.ts:58-59 | the duplicate test "set size equals list length" holds exactly when no two positions of the list hold the same string |
| Models.FieldCheck | src/models/Piece.ts:17-94 | a path's validators all pass iff its constraint holds: names present, non-empty and ≤ 100; duration present and ≥ 0; date present and ≤ now; alive status present; instruments present, each ≤ 100 and duplicate-free; difficulty present and 1 ≤ level ≤ 6; styles present, each ≤ 50 and duplicate-free; url present, non-empty and ≤ 200. The `required` message is reported iff the value is missing (or an empty string on a string path). Every other rule that fails once the rules before it pass reports its own message: too long (names, each instrument, each style, url), negative duration, date in the future, difficulty below 1 or above 6, duplicated instruments or styles |
| Models.SchemaOrderListsEachFieldOnce | src/models/Piece.ts:17-94 | the schema declares each of the nine paths exactly once |
| Models.CollectErrors | src/models/Piece.ts:17-94 | each reported error belongs to a listed field and carries that field's first failing message; every failing listed field is reported; no more errors than fields; when the listed fields are distinct, no two errors name the same field |
| Models.SchemaErrors | src/routes/index.ts:19 | `validateSync()` reports at most nine errors; each carries its path's first failing message; every failing path is reported; no path is reported twice |
| Models.SchemaErrorsPerField | src/models/Piece.ts:17-94 | the schema reports message `m` for field `f` iff `m` is the message of `f`'s first failing validator; some error names `f` iff `f`'s constraint fails |
| Models.NoErrorsIffConforms | src/models/Piece.ts:17-94 | a piece is valid (every field's constraint holds) iff the schema's error list is empty |
| Models.Conforms | src/models/Piece.ts:17-94 | validity is the conjunction of the nine paths' constraints; the `required` rules mean a valid piece has all nine fields |
| Models.ConformsLater | src/models/Piece.ts:36-41 | a piece valid at `now` stays valid at any later time; the one time-dependent rule is "release date not after now" |
| Models.NewDocument | src/repos/PieceRepo.ts:44 | `new Piece(piece)` always has both array paths; a given array is kept; every other path keeps the client's value |
| Models.NewDocumentDefaults | src/routes/index.ts:18 | in a freshly built document the array paths never fail `required`; a missing array is valid as the empty array; a piece that was valid stays valid once built |
| Repos.AliveFilter | src/repos/PieceRepo.ts:22-25 | the alive-status query holds exactly the records whose `compositorIsAlive` equals the argument, unchanged |
| Repos.AliveFiltersPartition | src/repos/PieceRepo.ts:22-25 | the results for true and for false are disjoint, their union is the whole table, and their sizes add up to its size |
| Repos.YearFilter | src/repos/PieceRepo.ts:30-38 | the year query holds exactly the records released in a year from `start` to `end` inclusive, unchanged, and nothing when `start > end` |
| Repos.PieceRepo.GetOne | src/repos/PieceRepo.ts:6-9 | returns the stored record when the id is present and nothing (null) otherwise; never an error |
| Repos.PieceRepo.GetAll | src/repos/PieceRepo.ts:14-17 | returns the whole table |
| Repos.PieceRepo.GetIsAlive | src/repos/PieceRepo.ts:22-25 | returns exactly the records with the given alive status |
| Repos.PieceRepo.GetBetweenYears | src/repos/PieceRepo.ts:30-38 | returns exactly the records whose release year is from `start` to `end` inclusive |
| Repos.PieceRepo.Add | src/repos/PieceRepo.ts:43-46 | the document built from the piece (missing arrays empty) is validated; an invalid one raises its validation errors and leaves the table unchanged; a valid one is stored under an id not already in the table, with every other record unchanged; a conforming table stays conforming |
| Repos.PieceRepo.Update | src/repos/PieceRepo.ts:51-66 | a missing or unknown `_id` raises the plain error "Piece non trouvé" and changes nothing; otherwise all nine fields are overwritten; an invalid result raises its validation errors and changes nothing; a valid one replaces the record under the same id and nothing else |
| Repos.PieceRepo.Delete | src/repos/PieceRepo.ts:71-73 | removes the id if present; when it is absent the table is unchanged and no error is raised |
| Services.PieceService.GetOne | src/services/PieceService.ts:12-18 | raises NotFound ("Piece not found", 404) iff the id is absent; otherwise returns the stored record |
| Services.PieceService.GetAll | src/services/PieceService.ts:23-25 | returns exactly what the repository returns: the whole table |
| Services.PieceService.GetIsAlive | src/services/PieceService.ts:30-32 | returns exactly the repository's alive-status query |
| Services.PieceService.GetBetweenYears | src/services/PieceService.ts:37-39 | returns exactly the repository's year query |
| Services.PieceService.AddOne | src/services/PieceService.ts:44-46 | same effect and outcome as the repository's add (validation of the built document, storage under a fresh id), with no check of its own |
| Services.PieceService.UpdateOne | src/services/PieceService.ts:51-62 | a missing or unknown `_id` raises NotFound and leaves the table unchanged; otherwise the effect is the repository's update; the repository's own "Piece non trouvé" error is never raised |
| Services.PieceService.Delete | src/services/PieceService.ts:67-74 | an unknown id raises NotFound and leaves the table unchanged; a known id removes exactly that record, so the table shrinks by one |
| PieceRoutes.GetOne | src/routes/PieceRoutes.ts:14-18 | 200 with `{piece}` when the record exists; otherwise the service's NotFound propagates and nothing is sent |
| PieceRoutes.GetAll | src/routes/PieceRoutes.ts:23-26 | 200 with `{pieces}` holding the whole table |
| PieceRoutes.GetIsAlive | src/routes/PieceRoutes.ts:31-36 | the path text means true only when it is exactly "true"; 200 with the records whose alive status is that boolean |
| PieceRoutes.GetBetweenYears | src/routes/PieceRoutes.ts:41-47 | 200 with the records released from year `start` to year `end` inclusive |
| PieceRoutes.Add | src/routes/PieceRoutes.ts:52-56 | 201 with an empty body only after the service stored the document built from the piece (the empty document for a missing or `null` piece); a validation error propagates with the table unchanged; a missing body raises a TypeError; `false` or `0` as piece raises the document constructor's object-parameter error and `""` the model constructor's string-argument error, neither a RouteError, with the table unchanged |
| PieceRoutes.Update | src/routes/PieceRoutes.ts:61-65 | 200 with an empty body only after the update succeeded; a missing body raises the destructuring TypeError; a missing piece and a `null` piece raise the TypeError for reading `_id` of undefined and of null; another falsy piece has no `_id`, so NotFound; NotFound and validation errors propagate, each with the table unchanged |
| PieceRoutes.Delete | src/routes/PieceRoutes.ts:70-74 | 200 with an empty body after removing a known record; for an unknown id NotFound propagates and the table is unchanged |
| Router.ValidatePiece | src/routes/index.ts:10-24 | a missing body or a falsy piece gives 400 `{error: "Piece requise"}`; a piece whose built document (missing arrays empty) the schema rejects gives 400 with its validation errors; `next()` is reached iff a piece object is given and its document is valid |
| Router.Dispatch | src/routes/index.ts:45-178 | only POST add runs `validatePiece` first, so a rejected piece creates no record; PUT update is unguarded; reads never change the table; a falsy non-null piece on update gives NotFound; a raised error never changes the table and is a RouteError only as NotFound |
| Server.HandleError | src/server.ts:36-46 | a RouteError gives its own status, any other error gives 400; the body is `{error: err.message}` either way; logging happens iff the environment is not the test one |
| Server.ResponseIndependentOfEnv | src/server.ts:37-39 | the response to an error does not depend on the environment; only logging does |
| Server.NoServerErrorStatus | src/server.ts:41-45 | for the errors the layers raise, the status is 404 exactly for NotFound and 400 otherwise; never 500 |
| Server.Serve | src/server.ts:33-46 | end to end: every status is 200, 201, 400 or 404; update or delete of an unknown id gives 404 `{error: "Piece not found"}` and changes nothing; add of a missing, falsy or invalid piece gives 400 and creates nothing; add of a valid piece gives 201 and stores its built document under a fresh id; only 200 and 201 responses follow a change to the table |

## Left out

- Asynchrony and concurrent requests: each operation is one atomic step on the table, so
  races between an update and a delete of the same id are not modelled.
- The order of query results: results are sub-tables (maps), not arrays in the database's
  natural order.
- Casting by the ODM: a malformed id (CastError, then 400) and type coercion of field
  values are not modelled. Ids are naturals and field values arrive with their types.
- Repos.PieceRepo.Update: the cast `new Date(piece.dateOfRelease)` is not modelled. A
  `null` date becomes 1970-01-01 in the source, so the record is saved and the answer is
  200; the model reports "La date de sortie est requise" and answers 400. A missing date
  becomes Invalid Date, which the source refuses with a cast error; the model refuses it
  with the `required` message.
- Services.PieceService.UpdateOne: inherits the unmodelled date cast of the repository's
  update. An update of a known id whose `dateOfRelease` is `null` and whose other fields
  are valid is saved with the date 1970-01-01 in the source; the model refuses it with
  "La date de sortie est requise".
- PieceRoutes.Update: inherits the same gap. That request answers 200 in the source; the
  model raises the ValidationError.
- Router.Dispatch: inherits the same gap for PUT update. The source's handler answers 200;
  the model raises the ValidationError.
- Server.Serve: inherits the same gap. PUT /pieces/update with a known `_id`,
  `dateOfRelease: null` and every other field valid answers 200 in the source and 400 with
  the validation message in the model, and the record is not changed.
- Repos.PieceRepo.Update: `RawPiece` does not tell a missing field from a `null` one. A
  missing or `null` array assigned on update is taken to fail `required`.
- Client-supplied `_id` on add: the model always uses a fresh id. The real document would
  keep the given `_id`, and a duplicate would raise the database's duplicate-key error.
- Models.NewDocument: the default `[]` is given to a `null` array as well as to a missing
  one, because `RawPiece` does not tell them apart. The ODM applies defaults to missing
  values only.
- Router.ValidatePiece, Repos.PieceRepo.Add, Services.PieceService.AddOne, PieceRoutes.Add,
  Router.Dispatch and Server.Serve inherit that gap: an add whose piece has
  `instruments: null` (or `styles: null`) and is otherwise valid gets 201 in the model,
  while the source answers 400 with "Les instruments sont requis" (or "Les styles sont
  requis").
- Timestamps and time zones: dates are whole days. A release at a later hour of December
  31 would fall outside the real query's upper bound. The model admits the whole day.
- `Number(start)`/`Number(end)` and NaN: the year parameters are integers. A year outside
  1000..9999 does not render as four digits in the `${start}-01-01` and `${end}-12-31`
  texts, so the engine's fallback date parser decides those bounds; the model keeps the
  exact Jan 1 / Dec 31 bounds for every year.
- Floating-point `durationMinutes` and non-integer `difficultyLevel`: both are integers.
- Models.FieldCheck: string lengths (`maxlength` and `.length` at `src/models/Piece.ts:21`,
  `:26`, `:53`, `:77`, `:92`) count UTF-16 code units in the source. The model counts
  characters, so a name of 60 characters outside the Basic Multilingual Plane is 120 long
  to the schema and 60 long to the model.
- A truthy piece that is not an object (a non-empty string, a number, `true`) is not
  modelled.
- `err.message` of a schema ValidationError: it is modelled as "Piece validation failed: "
  followed by `path: message` pairs in schema order. The ODM's exact ordering of paths is
  not modelled.
- Logging is a flag. What the logger writes is not modelled.
- The rest of `src/server.ts`: Express setup, morgan, helmet, body parsers, static files,
  views and the welcome route are framework plumbing.
- `src/swagger.ts`: it only builds and serves the OpenAPI document.
- `src/routes/common/util/index.ts`: `parseReq` is not used by the piece routes.
- The ODM itself is not part of this model. The wording of its constructor errors
  (`ObjectParameterError`, and the model constructor's refusal of a string) follows its
  current releases. Either error is a non-RouteError, so the answer is 400 whatever the
  wording.
- `src/common/util/route-errors` and `src/common/constants` are not part of this model.
  `RouteError` is taken to carry a status and a message. The status codes are the
  standard HTTP ones.
- Authentication appears only in documentation comments and is not modelled.
