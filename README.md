# Robots API request pipeline — a Dafny model

This project models the request pipeline of a one-entity CRUD service for
robots (`id`, `name`, `purpose`, `created_at`, `updated_at`). Each request
runs through the same layers, and the model proves what each layer promises:

- **Validator** (`Validator`): checks the request body's keys. It accepts a
  body exactly when its key set is `{name, purpose}`, and returns it
  unchanged. Every rejection is the failure `{message "Invalid parameters",
  status 422}`.
- **Builder** (`Builder`): copies `name` and `purpose` onto a fresh, unsaved
  robot and drops every other key.
- **Repository** (`Repository.RobotRepository`): a table held in memory. It
  is a `map` from id to row plus the next value of the id sequence; it stands
  in for the ORM the source delegates to. It provides equality-filtered
  listing, lookup by id (absent on a miss), insert under a fresh id, and
  update, purpose update and delete. Each mutation reports an affected count
  of 0 or 1. A ghost set of issued ids shows that an id is never handed out
  twice, even after its row was deleted.
- **Service** (`Service.RobotService`): runs the existence guard
  `CheckIfRobotExist` before every single-robot read or mutation. When the
  guard fails with `{message "Robot not found", status 404}`, the store is
  left unchanged. `Create` fails with `{message "Failed to add new robot.",
  status 422}` when the store yields no record. Successful reads are wrapped
  in the result envelope (`ServiceResponse`).
- **Response formatter** (`ApiResponse`): builds a status and an optional
  body. The cases are 200 and 201 with the given body, 204 with no body, and
  error responses with body `{status, code, error{title, detail}}`.
- **Controller** (`Controller.RobotController`): the six HTTP handlers.
  `Create` and `Update` validate the body before calling the service, so an
  invalid body gets 422 even when the id does not exist. `UpdatePurpose`
  does no validation and forwards only `body.purpose`. Every failure is
  rendered by `Error`, and the response status equals the failure's status.
- **Scenarios**: client methods that replay the multi-call behaviour the
  tests check. Examples: create then fetch, update then fetch, delete then
  fetch or delete again, DELETE twice giving 204 then 404, and the POST/PUT/GET
  examples. They are proved from the single calls' contracts alone.

The status codes follow RFC 9110: section 15.3.1 (200 OK), 15.3.2
(201 Created), 15.3.5 (204 No Content), 15.5.5 (404 Not Found) and 15.5.21
(422). The `http-status` package's constant names and reason phrases for
those five codes are a table in `HttpStatus`.

`RobotService.create` and `RobotService.update` do not validate; only the
controller calls the validator (src/Controller/RobotController.ts:34,46), so
`Service.RobotService.Create` and `Service.RobotService.Update` accept any body.

Helpers without a row of their own: `HttpStatus.Name` and `HttpStatus.Phrase`
are the `http-status` lookups ``HttpStatus[`${status}_NAME`]`` and
`HttpStatus[status]` used by `error` (src/Response/ApiResponse.ts:29-30);
`Entity.Field` is property access on a body (`payload.name`), `undefined`
when the key is missing; `Repository.Matches` is the ORM's `where` equality
on the filtered columns.

Clock, inputs and outputs: the store's clock is a `now: Timestamp`
parameter of every mutating call. Route parameters arrive as integers.
Request bodies and query strings arrive as `map<string, string>`. Responses
are returned as values.

## Model

| member | source | states |
|---|---|---|
| `Validator.Check` | src/Validator/RobotValidator.ts:4-26 | An accepted body is returned unchanged; every rejection is exactly `InvalidParameters` (422, "Invalid parameters"); a body with fewer than two keys is rejected |
| `Validator.CheckAcceptsExactlyRequired` | src/Validator/RobotValidator.ts:5-25 | The key-count rule and the unexpected-key rule together accept a body if and only if its key set is `{name, purpose}`, and then return `Ok(body)` |
| `Validator.CheckFailsOnlyWith422` | src/Validator/RobotValidator.ts:7-22 | Any failure of `Check` has status 422 and message "Invalid parameters", never anything else |
| `Validator.CheckRejectsEmpty` | src/Validator/RobotValidator.ts:7-12 | The empty body is rejected with `InvalidParameters` |
| `Validator.CheckRejectsShort` | src/Validator/RobotValidator.ts:7-12 | A body with fewer than two keys (such as `{name}` alone) is rejected |
| `Validator.CheckRejectsUnexpectedKey` | src/Validator/RobotValidator.ts:14-23 | A body holding any key other than `name`/`purpose` is rejected, whatever else it holds |
| `Validator.CheckRejectsExtraParameter` | test/RobotControllerTest.spec.ts:38-46 | `{name: "Yern", purpose: "AI", invalid: "No"}` is rejected |
| `Builder.Build` | src/Builder/RobotBuilder.ts:4-9 | The draft's `name` is the body's `name` when present and undefined otherwise; likewise `purpose` |
| `Builder.BuildIgnoresOtherKeys` | src/Builder/RobotBuilder.ts:5-8 | Whitelisting: bodies that agree on `name` and `purpose` build the same draft, whatever other keys they carry; the draft has no id or timestamps |
| `Builder.BuildIdempotent` | src/Builder/RobotBuilder.ts:5-8 | Building from a built robot gives back the same name and purpose |
| `Builder.BuildOfValidated` | src/Service/RobotService.ts:21-23 | A body the validator accepts builds a draft whose two fields are the body's values |
| `Repository.Select` | src/Repository/RobotRepository.ts:7-9 | Lists exactly the rows in an id range that pass the equality filter, each keyed by its own id, in strictly increasing id order |
| `Repository.SelectCount` | test/RobotRepositoryTest.spec.ts:18-51 | The listing has exactly as many entries as there are matching rows (0 when none match) |
| `Repository.EmptyFilterMatchesAll` | src/Repository/RobotRepository.ts:7-9 | With the empty filter every stored row matches |
| `Repository.Overwrite` | src/Repository/RobotRepository.ts:21-23 | An update keeps id and creation time, overwrites the fields the draft carries, keeps the absent ones and refreshes `updated_at` |
| `Repository.RobotRepository.constructor` | src/Entity/Robot.ts:10-26 | An empty table whose generated ids start at 1 |
| `Repository.RobotRepository.GetAll` | src/Repository/RobotRepository.ts:7-9 | Returns exactly the stored rows that pass the filter, once each, with count equal to the number of matches |
| `Repository.RobotRepository.GetOne` | src/Repository/RobotRepository.ts:11-15 | The stored row with identical fields for a stored id, absent (not an error) otherwise |
| `Repository.RobotRepository.Insert` | src/Repository/RobotRepository.ts:17-19 | Stores the draft under a never-issued id with both timestamps `now` and returns that row; the table grows by exactly that row; a draft lacking a field yields no record and no change |
| `Repository.RobotRepository.Update` | src/Repository/RobotRepository.ts:21-23 | Affected 1 and only the identified row overwritten, or affected 0 and no change for a missing id |
| `Repository.RobotRepository.UpdatePurpose` | src/Repository/RobotRepository.ts:25-27 | Affected 1 and only `purpose`/`updated_at` of the identified row changed, or affected 0 and no change |
| `Repository.RobotRepository.Delete` | src/Repository/RobotRepository.ts:29-31 | Affected 1 and the row removed, or affected 0 and no change; issued ids are kept so none is reused |
| `ServiceResponse.TransformOne` | src/Service/RobotService.ts:18 | A single robot's id, name, purpose and timestamps sit under `data.attributes` |
| `ServiceResponse.TransformAll` | src/Service/RobotService.ts:13 | A collection envelope has one entry per robot, in order, each carrying that robot's fields |
| `Service.CheckIfRobotExist` | src/Service/RobotService.ts:54-65 | Succeeds with the stored row exactly when the id is stored; otherwise fails with `NotFound` (404, "Robot not found") |
| `Service.RobotService.GetAll` | src/Service/RobotService.ts:11-14 | Never fails; the envelope has exactly one entry per matching robot, every entry a stored matching row |
| `Service.RobotService.GetOne` | src/Service/RobotService.ts:16-19 | Fails with `NotFound` exactly when the id is missing; otherwise the stored row under `data.attributes` |
| `Service.RobotService.Create` | src/Service/RobotService.ts:21-33 | Succeeds exactly when the body has name and purpose, with an envelope of the new row (body's values, fresh id); otherwise 422 "Failed to add new robot." and the store is unchanged |
| `Service.RobotService.Update` | src/Service/RobotService.ts:35-41 | A missing id gives `NotFound` with the store unchanged; otherwise `Ok(1)` with the row overwritten by the builder's projection of the body |
| `Service.RobotService.UpdatePurpose` | src/Service/RobotService.ts:43-46 | A missing id gives `NotFound` with the store unchanged; otherwise `Ok(1)` with only the purpose changed |
| `Service.RobotService.Delete` | src/Service/RobotService.ts:48-51 | A missing id gives `NotFound` with the store unchanged; otherwise `Ok(1)` with the row removed |
| `ApiResponse.Success` | src/Response/ApiResponse.ts:5-10 | Status 200 and body exactly the given data |
| `ApiResponse.Created` | src/Response/ApiResponse.ts:12-17 | Status 201 and body exactly the given data |
| `ApiResponse.NoContent` | src/Response/ApiResponse.ts:18-22 | Status 204 and no body |
| `ApiResponse.Error` | src/Response/ApiResponse.ts:24-36 | Response status and `body.status` both equal the failure's status; `body.error.detail` is its message |
| `ApiResponse.ErrorRoundTrip` | src/Response/ApiResponse.ts:24-36 | The failure can be read back whole from the error response it was rendered into |
| `ApiResponse.ErrorNamesDependOnStatusOnly` | src/Response/ApiResponse.ts:29-30 | `body.code` and `body.error.title` are determined by the status alone |
| `ApiResponse.ErrorNamesOfServiceStatuses` | src/Response/ApiResponse.ts:29-30 | For 404 and 422 the code and title are the status table's `NOT_FOUND`/"Not Found" and `UNPROCESSABLE_ENTITY`/"Unprocessable Entity" |
| `ApiResponse.ErrorIsNotSuccess` | src/Response/ApiResponse.ts:5-36 | An error response for a 4xx failure equals no 200/201/204 response and carries no envelope |
| `Controller.RobotController.FindAll` | src/Controller/RobotController.ts:11-21 | 200 with the service's collection envelope: every entry is a stored row matching the query, every stored matching row appears, and the count equals the number of matches |
| `Controller.RobotController.GetOne` | src/Controller/RobotController.ts:23-30 | 200 with the stored robot's envelope, or the rendered `NotFound` (404) for a missing id |
| `Controller.RobotController.Create` | src/Controller/RobotController.ts:32-42 | A rejected body gives the rendered 422 and the store is untouched; a valid body gives 201 with the new row's envelope and the table grows by that row |
| `Controller.RobotController.Update` | src/Controller/RobotController.ts:44-54 | Validation wins: an invalid body gives 422 for any id with no change; a valid body on a missing id gives 404; otherwise 200 "Robot updated successfully." with the row overwritten |
| `Controller.RobotController.UpdatePurpose` | src/Controller/RobotController.ts:56-66 | No validation; only `body.purpose` is forwarded; 404 with no change for a missing id, else 200 "Robot updated successfully." |
| `Controller.RobotController.Remove` | src/Controller/RobotController.ts:68-75 | 204 with the row removed, or the rendered 404 with no change |
| `Scenarios.CreateThenGetOne` | test/RobotServiceTest.spec.ts:110-126 | After `create`, `getOne` on the new id returns the body's name and purpose under that id |
| `Scenarios.CreateDeleteCreate` | src/Entity/Robot.ts:12-13 | Two creates give different ids even when the first robot was deleted in between |
| `Scenarios.UpdateThenGetOne` | test/RobotServiceTest.spec.ts:150-171 | After `update`, `getOne` shows the body's name and purpose under the same id, creation time unchanged |
| `Scenarios.UpdatePurposeThenGetOne` | src/Service/RobotService.ts:43-46 | After `updatePurpose`, `getOne` shows the new purpose, the old name and the refreshed update time |
| `Scenarios.DeleteThenGetOne` | test/RobotServiceTest.spec.ts:89-107 | `delete` gives affected 1; afterwards `getOne` and a second `delete` both fail with `NotFound` |
| `Scenarios.RemoveTwice` | test/RobotControllerTest.spec.ts:138-154 | DELETE on an existing id gives 204 with no body, and repeating it gives 404 with detail "Robot not found" |
| `Scenarios.PostValidRobot` | test/RobotControllerTest.spec.ts:27-36 | POST `{name: "Yern", purpose: "AI"}` gives 201 with `data.attributes.name == "Yern"` |
| `Scenarios.PostExtraKey` | test/RobotControllerTest.spec.ts:38-46 | POST with an extra `invalid` key gives 422 with an error body |
| `Scenarios.PutInvalidOnMissingId` | test/RobotControllerTest.spec.ts:238-256 | PUT with an invalid body on a non-existent id gives 422, not 404 |
| `Scenarios.GetMissingRobot` | test/RobotControllerTest.spec.ts:129-135 | GET on a non-existent id gives 404 with detail "Robot not found" |

## Left out

- HTTP listener, body parsing, route table and bootstrap (src/index.ts, src/routes.ts): I/O plumbing. The controller methods take the parsed body, id and query directly.
- Test fixtures (src/Resolver/TestHelper.ts): raw SQL against the live database, with no model counterpart.
- The ORM and its query semantics: the store is a map. The entity decorators contribute only the record shape and the generated id.
- `parseInt` of route parameters: ids are integers, so a non-numeric id (NaN) is not modelled.
- Asynchronous execution and concurrent requests: every call is sequential, so the race between the existence check and the mutation cannot arise.
- Timestamps: the clock is the `now` parameter. No ordering between `created_at`, `updated_at` and successive clock readings is modelled.
- `ServiceResponse.transform`: its source file is not part of this model. The envelope has the shape the service tests observe. The collection entries are a sequence, not an object keyed by index.
- The `http-status` tables: only the five codes this service uses are named. Any other code has no name or phrase (absent).
- Errors outside the failure taxonomy, such as store connectivity failures: every store call succeeds, apart from the insert case below.
- Request and query values: strings only. JSON numbers, booleans and nested objects in a body are not modelled.
- Repository.RobotRepository.GetAll: only `name` and `purpose` are compared. A filter key naming any other column matches no row, whereas in the source the store decides (a type-converted comparison for `id` and the timestamps, an ORM error for an unknown column). Rows come out in increasing id order, where the store promises no order.
- Repository.RobotRepository.Insert: a draft missing `name` or `purpose` violates the NOT NULL columns. The ORM would throw its own error; the model yields no record and the store is unchanged. The service's "no record" branch (src/Service/RobotService.ts:25-30) then reports it as 422 "Failed to add new robot.". On every path through the controller the body is validated first, so this case never arises there.
- Repository.RobotRepository.Update: fields undefined on the draft are taken as "left unchanged". This is the ORM's handling of undefined properties, read here as skipping them.
