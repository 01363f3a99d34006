# Routes resource: a Dafny model

This project models the Express router of the Transport application's `routes` resource
(`routes/api/routes.js`): the five endpoints GET `/`, GET `/:id`, POST `/`, PUT `/:id` and
DELETE `/:id`, the "not empty" rules that guard creation, the mapping of every outcome to a
status and a body, and what each endpoint does to the stored routes.

The store behind the `Routes` model is an object of class `RouteCollection` holding a
`map<Id, Route>`; a route's `date` is an integer. Store failures are boolean inputs
(`fails`, and for delete `findFails`/`removeFails`), the authorization middleware's verdict
is the boolean `authorized`, the store's id generator is the input `freshId`, and the
creation time is the input `now`.

Modules:

- `RouteData` (`route_data.dfy`): identifiers, the `WellFormedId` shape (24 lower-case
  hexadecimal digits), stored routes, request bodies.
- `Validation` (`validation.dfy`): the create rules, run in declaration order, one error
  per empty field; "empty" is an absent field or `""`.
- `RouteStore` (`route_store.dfy`): `RouteCollection` (find by id, find all newest first,
  save, remove) and `RouteDocument`, the mutable loaded document the update handler
  assigns to.
- `RoutesApi` (`routes_api.dfy`): responses, the five handler methods, and an outcome
  function for get, create, update and delete. Each of those four handlers is proved to
  agree with its outcome function. The list handler is specified directly: every stored
  route once, newest first. List, get and update have no `modifies` clause, so they cannot
  change the store. Update assigns the body to a loaded `RouteDocument` and never saves it.
- `RoutesProperties` (`routes_properties.dfy`): the promised behaviour as lemmas over the
  outcome functions.

Behaviour of the handlers worth noting:

- Update assigns the five fields to the loaded document and never calls `save()`. The
  store is unchanged and only the response shows the new values.
- Update declares the three "not empty" rules but never calls `validationResult`, so the
  rules have no effect on its outcome.
- A malformed id on get or update makes the store's cast throw. The handler catches it
  as any other error: 500 "Server error". Only delete maps it to 404 "Ruta no existe".
- Delete's 500 text is "Server Error"; the other handlers send "Server error".

## Model

| member | source | states |
|---|---|---|
| `Validation.RunChecks` | routes/api/routes.js:45-55 | no more errors than rules; no errors exactly when every rule's field is non-empty; every error is the error of a rule whose field is empty |
| `Validation.CreateErrors` | routes/api/routes.js:57-59 | at most three errors, none exactly when name, origin and destination are all filled, each naming one of those three fields |
| `Validation.CreateErrorsExact` | routes/api/routes.js:45-60 | the create errors are exactly the empty required fields, in the order name, origin, destination, with their fixed messages; the count equals the number of empty fields |
| `RouteStore.RouteCollection.FindById` | routes/api/routes.js:147 | a malformed id throws a cast error of kind "ObjectId"; a failing call throws; otherwise the route stored under the id, carrying that id, or nothing |
| `RouteStore.RouteCollection.FindAllByDateDesc` | routes/api/routes.js:15-16 | every stored route exactly once, dates non-increasing; a failing call throws |
| `RouteStore.RouteCollection.Save` | routes/api/routes.js:81-82 | saves only a well-formed, unused id when the call does not fail, and then stores exactly that route under it; a malformed id is refused with a validation error; otherwise the store is unchanged |
| `RouteStore.RouteDocument.constructor` | routes/api/routes.js:120 | the loaded document holds exactly the stored route's fields |
| `RouteStore.RouteCollection.Remove` | routes/api/routes.js:153 | removes exactly the given key, or fails and changes nothing |
| `RoutesApi.DeleteFailure` | routes/api/routes.js:156-162 | a cast error of kind "ObjectId" is a 404 "Ruta no existe", any other error a 500 "Server Error" |
| `RoutesApi.NewRoute` | routes/api/routes.js:62-81 | the new document has the body's `_id` (or the generated one when absent), the body's five other fields, and the creation time |
| `RoutesApi.Overwritten` | routes/api/routes.js:122-126 | the document keeps its id and date and takes all five fields from the body, missing ones included |
| `RoutesApi.GetOutcome` | routes/api/routes.js:30-38 | only 200 or 500; 200 exactly for a well-formed id and no failure, then the route stored under the id when it is present and null exactly when it is absent |
| `RoutesApi.CreateOutcome` | routes/api/routes.js:43-89 | only 200, 400 or 500; the store changes only on 200, and then gains exactly the returned route under a previously unused id; a 400 carries a non-empty error list |
| `RoutesApi.UpdateOutcome` | routes/api/routes.js:94-143 | rejected exactly when unauthorized; otherwise 200, 400 or 500; 200 only for a stored id, with the stored route overwritten by the body; 400 only for an absent id |
| `RoutesApi.DeleteOutcome` | routes/api/routes.js:145-163 | rejected exactly when unauthorized; otherwise 200, 404 or 500; on 200 the store loses exactly the stored id, on anything else it is unchanged |
| `RoutesApi.ListRoutes` | routes/api/routes.js:13-25 | 200 with every stored route once, newest first; 500 "Server error" on failure; the store is untouched |
| `RoutesApi.GetRoute` | routes/api/routes.js:30-38 | response equals the get outcome of the current store; the store is untouched |
| `RoutesApi.CreateRoute` | routes/api/routes.js:43-89 | response and new store equal the create outcome of the old store; the store stays consistent |
| `RoutesApi.UpdateRoute` | routes/api/routes.js:94-143 | response equals the update outcome; no modifies clause, so the store is unchanged in every case |
| `RoutesApi.DeleteRoute` | routes/api/routes.js:145-163 | response and new store equal the delete outcome of the old store; the store stays consistent |
| `RoutesProperties.CreateRejectsEmptyFields` | routes/api/routes.js:45-60 | an empty required field gives 400 with one error per empty field in declaration order, and the store is unchanged |
| `RoutesProperties.CreateStoresSubmittedRoute` | routes/api/routes.js:62-83 | a valid, successful create gives 200 with exactly the submitted id and fields; the store gains that id only, stays consistent, and get returns the route |
| `RoutesProperties.CreateSaveFailure` | routes/api/routes.js:80-87 | a malformed or taken id, or a store failure, gives 500 "Server error" and no write |
| `RoutesProperties.CreateStatuses` | routes/api/routes.js:43-89 | create answers 200, 400 or 500; 200 exactly when the fields are filled and the save can succeed; the store changes only on 200 |
| `RoutesProperties.GetFindsStoredRoute` | routes/api/routes.js:30-37 | 200 exactly for a well-formed id and no failure, with the route stored under that id whenever it is present, and null exactly when it is absent; otherwise 500 "Server error" |
| `RoutesProperties.UpdateOverwritesFields` | routes/api/routes.js:119-127 | a stored id gives 200 with the five body fields, missing ones included, and the kept id and date, whatever the body holds |
| `RoutesProperties.UpdateMissingRoute` | routes/api/routes.js:128-136 | an absent id gives 400 with the single fixed message |
| `RoutesProperties.UpdateFailure` | routes/api/routes.js:138-141 | a malformed id or a store failure gives 500 "Server error" |
| `RoutesProperties.UpdateStatusIgnoresBody` | routes/api/routes.js:98-110 | the update status never depends on the body, so the declared rules have no effect |
| `RoutesProperties.UnauthorizedNeverReachesStore` | routes/api/routes.js:94-97 | an unauthorized update or delete gets the gate's rejection whatever the store holds, and delete leaves the store as it was |
| `RoutesProperties.DeleteRemovesExactlyOne` | routes/api/routes.js:147-155 | a stored id gives 200 "Ruta eliminada", removes only that key, keeps the store consistent, and a second delete gives 404 "La ruta no existe" |
| `RoutesProperties.DeleteMissingRoute` | routes/api/routes.js:149-151 | an absent id gives 404 "La ruta no existe" and no write |
| `RoutesProperties.DeleteMalformedId` | routes/api/routes.js:158-160 | a malformed id gives 404 "Ruta no existe", a message distinct from the not-found one, and no write |
| `RoutesProperties.DeleteStoreFailure` | routes/api/routes.js:156-161 | any other failure gives 500 "Server Error" and no write |
| `RoutesProperties.DeleteChangesOnlyOnSuccess` | routes/api/routes.js:145-163 | 200 exactly when authorized, well-formed, present and no failure, and then the key is removed; otherwise the store is unchanged and the answer is 404, 500 or the gate's |
| `RoutesProperties.DeleteNeverSucceedsTwice` | routes/api/routes.js:147-155 | after a successful delete, a second delete of the same id never succeeds |
| `RoutesProperties.CreateGetDeleteScenario` | routes/api/routes.js:43-163 | create, get, delete, delete, get of one route give 200, the same route, 200, 404, null, and the store ends as it began |
| `RoutesProperties.ListNewestFirst` | routes/api/routes.js:15-16 | three routes dated t1 < t2 < t3 are listed third, second, first |

## Left out

- Express routing, the `req`/`res` objects and JSON serialisation: a response is a status
  and a body value.
- The validator's internals. `check` in fact looks for a field in every request location;
  the model reads only the body. The emptiness test is modelled for strings and absent
  fields only, not for numbers, arrays or objects. An error entry keeps the parameter, the
  value and the message, but not the location.
- `.populate` of the two province references on the list endpoint. Listed routes carry the
  province ids as stored. The `Provinces` model is not part of this model.
- The `Routes` schema is not part of this model: defaults, casting of provinces and
  stations, the `__v` key. Schema validation failures on save are covered only by the
  `fails` input.
- The authorization middleware's token check and its rejection status and body:
  `authorized` is an input and `AuthRejected` stands for its response.
- Logging with `console.log` and `console.error`.
- Asynchronous suspension and concurrent requests. The model runs one request at a time,
  so lost updates cannot occur in it.
- Generation of identifiers and timestamps: `freshId` and `now` are inputs. A generated
  id that is malformed or already used makes the save fail, like a supplied one.
- `WellFormedId` takes an object id's 24-character hexadecimal form (lower case) as the
  only spelling. Other strings the driver also casts (upper-case hexadecimal, 12-character
  strings) are treated as malformed.
- RouteStore.RouteCollection.FindAllByDateDesc: the store's sort is modelled by a selection
  loop; routes with equal dates come in an unspecified order, as with the store.
