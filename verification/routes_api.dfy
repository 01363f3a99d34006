/** The five handlers of the routes resource. Get, create, update and delete each have a
    pure function giving the response (and, for create and delete, the store afterwards)
    from the inputs and the store's contents, and a method that runs the endpoint's
    pipeline against a `RouteCollection` and is proved to agree with that function. The
    list handler's method states its listing property directly. */
module RoutesApi {
  import opened RouteData
  import opened Validation
  import opened RouteStore

  /** A response body: JSON (a list, one route, null, an `errors` array, a `msg` object)
      or plain text. */
  datatype Body =
    | RouteList(routes: seq<Route>)
    | RouteJson(route: Route)
    | Null
    | Errors(errors: seq<ErrorEntry>)
    | Msg(msg: string)
    | Text(text: string)

  /** A response this router sends, or the authorization middleware's own rejection,
      whose status and body lie outside this model. */
  datatype Response = Reply(status: int, body: Body) | AuthRejected

  const UpdateFailed: string := "Ups hubo un error al intentar actualizar la información de la ruta"
  const RouteMissing: string := "La ruta no existe"
  const IdMalformed: string := "Ruta no existe"
  const RouteDeleted: string := "Ruta eliminada"

  /** The 500 of list, get, create and update. */
  function ServerError(): Response {
    Reply(500, Text("Server error"))
  }

  /** The catch block of delete: a cast error of kind "ObjectId" is a 404, anything else
      a 500 with a differently capitalised text. */
  function DeleteFailure(e: StoreError): (resp: Response)
    ensures resp.Reply? && resp.status in {404, 500}
    ensures resp.status == 404 <==> e == CastError("ObjectId")
    ensures resp.status == 404 ==> resp.body == Msg(IdMalformed)
    ensures resp.status == 500 ==> resp.body == Text("Server Error")
  {
    if e.CastError? && e.kind == "ObjectId" then Reply(404, Msg(IdMalformed))
    else Reply(500, Text("Server Error"))
  }

  /** The identifier a created route gets: the body's `_id` when given, otherwise the
      one the store's generator supplies. */
  function AssignedId(b: RouteBody, freshId: Id): Id {
    match b.id
    case Some(id) => id
    case None => freshId
  }

  /** `new Routes(routeFields)`: the six body fields, the assigned id and the creation
      time. */
  function NewRoute(b: RouteBody, freshId: Id, now: int): (r: Route)
    ensures b.id.Some? ==> r.id == b.id.value
    ensures b.id.None? ==> r.id == freshId
    ensures r.name == b.name && r.originProvince == b.originProvince
    ensures r.destinationProvince == b.destinationProvince
    ensures r.active == b.active && r.stations == b.stations && r.date == now
  {
    Route(AssignedId(b, freshId), b.name, b.originProvince, b.destinationProvince,
          b.active, b.stations, now)
  }

  /** The loaded document after the update handler's five assignments. */
  function Overwritten(r: Route, b: RouteBody): (u: Route)
    ensures u.id == r.id && u.date == r.date
    ensures u.name == b.name && u.originProvince == b.originProvince
    ensures u.destinationProvince == b.destinationProvince
    ensures u.active == b.active && u.stations == b.stations
  {
    r.(name := b.name, originProvince := b.originProvince,
       destinationProvince := b.destinationProvince, active := b.active, stations := b.stations)
  }

  // ---------------------------------------------------------------------------------
  // Endpoint outcomes as functions of the inputs and the store's contents
  // ---------------------------------------------------------------------------------

  function GetOutcome(docs: map<Id, Route>, id: Id, fails: bool): (resp: Response)
    ensures resp.Reply? && resp.status in {200, 500}
    ensures resp.status == 200 <==> WellFormedId(id) && !fails
    ensures resp.status == 200 ==> (resp.body.Null? <==> id !in docs)
    ensures resp.status == 200 && resp.body.RouteJson? ==> id in docs && resp.body.route == docs[id]
    ensures resp.status == 200 && id in docs ==> resp.body == RouteJson(docs[id])
  {
    if !WellFormedId(id) || fails then ServerError()
    else if id in docs then Reply(200, RouteJson(docs[id]))
    else Reply(200, Null)
  }

  function CreateOutcome(docs: map<Id, Route>, b: RouteBody, freshId: Id, now: int, fails: bool)
    : (out: (Response, map<Id, Route>))
    ensures out.0.Reply? && out.0.status in {200, 400, 500}
    ensures out.0.status != 200 ==> out.1 == docs
    ensures out.0.status == 400 ==> out.0.body.Errors? && out.0.body.errors != []
    ensures out.0.status == 200 ==>
      && out.0.body.RouteJson?
      && out.0.body.route.id !in docs
      && out.1 == docs[out.0.body.route.id := out.0.body.route]
  {
    var errors := CreateErrors(b);
    if errors != [] then (Reply(400, Errors(errors)), docs)
    else
      var doc := NewRoute(b, freshId, now);
      if !WellFormedId(doc.id) || doc.id in docs || fails then (ServerError(), docs)
      else (Reply(200, RouteJson(doc)), docs[doc.id := doc])
  }

  function UpdateOutcome(docs: map<Id, Route>, authorized: bool, id: Id, b: RouteBody, fails: bool)
    : (resp: Response)
    ensures resp.AuthRejected? <==> !authorized
    ensures resp.Reply? ==> resp.status in {200, 400, 500}
    ensures resp.Reply? && resp.status == 200 ==>
      id in docs && resp.body == RouteJson(Overwritten(docs[id], b))
    ensures resp.Reply? && resp.status == 400 ==> id !in docs
  {
    if !authorized then AuthRejected
    else if !WellFormedId(id) || fails then ServerError()
    else if id in docs then Reply(200, RouteJson(Overwritten(docs[id], b)))
    else Reply(400, Errors([Message(UpdateFailed)]))
  }

  function DeleteOutcome(docs: map<Id, Route>, authorized: bool, id: Id,
                         findFails: bool, removeFails: bool): (out: (Response, map<Id, Route>))
    ensures out.0.AuthRejected? <==> !authorized
    ensures out.0.Reply? ==> out.0.status in {200, 404, 500}
    ensures out.0.Reply? && out.0.status == 200 ==> id in docs && out.1 == docs - {id}
    ensures !(out.0.Reply? && out.0.status == 200) ==> out.1 == docs
  {
    if !authorized then (AuthRejected, docs)
    else if !WellFormedId(id) then (Reply(404, Msg(IdMalformed)), docs)
    else if findFails then (Reply(500, Text("Server Error")), docs)
    else if id !in docs then (Reply(404, Msg(RouteMissing)), docs)
    else if removeFails then (Reply(500, Text("Server Error")), docs)
    else (Reply(200, Msg(RouteDeleted)), docs - {id})
  }

  // ---------------------------------------------------------------------------------
  // The handlers
  // ---------------------------------------------------------------------------------

  /** GET /: the store's routes newest first, or a 500 when the query fails. The method
      cannot change the store: it has no modifies clause. */
  method ListRoutes(db: RouteCollection, fails: bool) returns (resp: Response)
    requires db.Valid()
    ensures fails ==> resp == ServerError()
    ensures !fails ==> resp.Reply? && resp.status == 200 && resp.body.RouteList?
                       && IsDateDescListing(db.docs, resp.body.routes)
  {
    var result := db.FindAllByDateDesc(fails);
    match result
    case Threw(_) =>
      resp := ServerError();
    case Done(routes) =>
      resp := Reply(200, RouteList(routes));
  }

  /** GET /:id, read-only. */
  method GetRoute(db: RouteCollection, id: Id, fails: bool) returns (resp: Response)
    requires db.Valid()
    ensures resp == GetOutcome(db.docs, id, fails)
  {
    var result := db.FindById(id, fails);
    match result
    case Threw(_) =>
      resp := ServerError();
    case Done(found) =>
      resp := Reply(200, match found case Some(r) => RouteJson(r) case None => Null);
  }

  /** POST /: validate, then build the document and save it. */
  method CreateRoute(db: RouteCollection, b: RouteBody, freshId: Id, now: int, fails: bool)
    returns (resp: Response)
    requires db.Valid()
    modifies db
    ensures db.Valid()
    ensures (resp, db.docs) == CreateOutcome(old(db.docs), b, freshId, now, fails)
  {
    var errors := CreateErrors(b);
    if errors != [] {
      return Reply(400, Errors(errors));
    }
    var saved := db.Save(NewRoute(b, freshId, now), fails);
    match saved
    case Threw(_) =>
      resp := ServerError();
    case Done(route) =>
      resp := Reply(200, RouteJson(route));
  }

  /** PUT /:id: behind the authorization gate, load the route and assign the five body
      fields to the loaded document, then answer with it. The document is never saved, so
      the method has no modifies clause: the store is the same afterwards in every case. */
  method UpdateRoute(db: RouteCollection, authorized: bool, id: Id, b: RouteBody, fails: bool)
    returns (resp: Response)
    requires db.Valid()
    ensures resp == UpdateOutcome(db.docs, authorized, id, b, fails)
  {
    if !authorized {
      return AuthRejected;
    }
    var result := db.FindById(id, fails);
    match result
    case Threw(_) =>
      resp := ServerError();
    case Done(None) =>
      resp := Reply(400, Errors([Message(UpdateFailed)]));
    case Done(Some(stored)) =>
      var doc := new RouteDocument(stored);
      doc.name := b.name;
      doc.originProvince := b.originProvince;
      doc.destinationProvince := b.destinationProvince;
      doc.active := b.active;
      doc.stations := b.stations;
      resp := Reply(200, RouteJson(doc.Snapshot()));
  }

  /** DELETE /:id: behind the authorization gate, load the route, answer 404 when it is
      absent, otherwise remove it. Store errors go through `DeleteFailure`. */
  method DeleteRoute(db: RouteCollection, authorized: bool, id: Id, findFails: bool, removeFails: bool)
    returns (resp: Response)
    requires db.Valid()
    modifies db
    ensures db.Valid()
    ensures (resp, db.docs) == DeleteOutcome(old(db.docs), authorized, id, findFails, removeFails)
  {
    if !authorized {
      return AuthRejected;
    }
    var result := db.FindById(id, findFails);
    match result
    case Threw(e) =>
      resp := DeleteFailure(e);
    case Done(None) =>
      resp := Reply(404, Msg(RouteMissing));
    case Done(Some(route)) =>
      var removed := db.Remove(route.id, removeFails);
      match removed
      case Threw(e) =>
        resp := DeleteFailure(e);
      case Done(_) =>
        resp := Reply(200, Msg(RouteDeleted));
  }
}
