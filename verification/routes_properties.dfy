/** What the routes resource promises, stated over the endpoint outcome functions. */
module RoutesProperties {
  import opened RouteData
  import opened Validation
  import opened RouteStore
  import opened RoutesApi

  /** All three required fields are filled. */
  predicate RequiredFilled(b: RouteBody) {
    !IsEmpty(b.name) && !IsEmpty(b.originProvince) && !IsEmpty(b.destinationProvince)
  }

  // ---------------------------------------------------------------------------------
  // Create
  // ---------------------------------------------------------------------------------

  /** A create request with an empty required field is a 400 whose errors are exactly the
      empty fields, in declaration order, with their fixed messages; nothing is written. */
  lemma CreateRejectsEmptyFields(docs: map<Id, Route>, b: RouteBody, freshId: Id, now: int, fails: bool)
    requires !RequiredFilled(b)
    ensures CreateOutcome(docs, b, freshId, now, fails) == (Reply(400, Errors(RequiredFieldErrors(b))), docs)
    ensures 1 <= |RequiredFieldErrors(b)| == EmptyRequiredCount(b) <= 3
  {
    CreateErrorsExact(b);
  }

  /** A valid create whose save succeeds answers 200 with a route carrying exactly the
      submitted fields; the store gains that id, keeps every other entry, stays consistent,
      and a later get of the id returns the route. */
  lemma CreateStoresSubmittedRoute(docs: map<Id, Route>, b: RouteBody, freshId: Id, now: int)
    requires Consistent(docs)
    requires RequiredFilled(b)
    requires WellFormedId(AssignedId(b, freshId)) && AssignedId(b, freshId) !in docs
    ensures var (resp, after) := CreateOutcome(docs, b, freshId, now, false);
      var id := AssignedId(b, freshId);
      && resp.Reply? && resp.status == 200 && resp.body.RouteJson?
      && var r := resp.body.route;
      && r.id == id && (b.id.Some? ==> r.id == b.id.value)
      && r.name == b.name && r.originProvince == b.originProvince
      && r.destinationProvince == b.destinationProvince
      && r.active == b.active && r.stations == b.stations && r.date == now
      && after.Keys == docs.Keys + {id}
      && after[id] == r
      && (forall k :: k in docs ==> after[k] == docs[k])
      && Consistent(after)
      && GetOutcome(after, id, false) == Reply(200, RouteJson(r))
  {
    CreateErrorsExact(b);
  }

  /** A valid create whose save fails (malformed or taken id, or a store failure) answers
      500 "Server error" and writes nothing. */
  lemma CreateSaveFailure(docs: map<Id, Route>, b: RouteBody, freshId: Id, now: int, fails: bool)
    requires RequiredFilled(b)
    requires var id := AssignedId(b, freshId); !WellFormedId(id) || id in docs || fails
    ensures CreateOutcome(docs, b, freshId, now, fails) == (Reply(500, Text("Server error")), docs)
  {
    CreateErrorsExact(b);
  }

  /** Create answers only 200, 400 or 500, changes the store only on a 200, and keeps a
      consistent store consistent. */
  lemma CreateStatuses(docs: map<Id, Route>, b: RouteBody, freshId: Id, now: int, fails: bool)
    requires Consistent(docs)
    ensures var (resp, after) := CreateOutcome(docs, b, freshId, now, fails);
      && resp.Reply? && resp.status in {200, 400, 500}
      && (resp.status != 200 ==> after == docs)
      && (resp.status == 200 <==>
            (RequiredFilled(b) && !fails
             && WellFormedId(AssignedId(b, freshId)) && AssignedId(b, freshId) !in docs))
      && Consistent(after)
  {
    CreateErrorsExact(b);
  }

  // ---------------------------------------------------------------------------------
  // Get
  // ---------------------------------------------------------------------------------

  /** Get answers 200 exactly when the id is well formed and the store does not fail, and
      then with the route stored under that id, whose own id is the requested one, or null
      when there is none. */
  lemma GetFindsStoredRoute(docs: map<Id, Route>, id: Id, fails: bool)
    requires Consistent(docs)
    ensures var resp := GetOutcome(docs, id, fails);
      && resp.Reply?
      && (resp.status == 200 <==> WellFormedId(id) && !fails)
      && (resp.status != 200 ==> resp == Reply(500, Text("Server error")))
      && (resp.status == 200 ==>
            && (resp.body.Null? <==> id !in docs)
            && (id in docs ==> resp.body == RouteJson(docs[id]) && docs[id].id == id)
            && (resp.body.RouteJson? ==> resp.body.route == docs[id] && resp.body.route.id == id))
  {
  }

  // ---------------------------------------------------------------------------------
  // Update
  // ---------------------------------------------------------------------------------

  /** Update of a stored route answers 200 with the stored route whose name, provinces,
      active flag and stations are replaced by the body's, missing ones included, while its
      id and date are kept. Nothing is required of the body: validation is never
      consulted. */
  lemma UpdateOverwritesFields(docs: map<Id, Route>, id: Id, b: RouteBody)
    requires Consistent(docs)
    requires WellFormedId(id) && id in docs
    ensures var resp := UpdateOutcome(docs, true, id, b, false);
      && resp.Reply? && resp.status == 200 && resp.body.RouteJson?
      && var r := resp.body.route;
      && r.id == id && r.date == docs[id].date
      && r.name == b.name && r.originProvince == b.originProvince
      && r.destinationProvince == b.destinationProvince
      && r.active == b.active && r.stations == b.stations
  {
  }

  /** Update of an absent id answers 400 with the single fixed message. */
  lemma UpdateMissingRoute(docs: map<Id, Route>, id: Id, b: RouteBody)
    requires WellFormedId(id) && id !in docs
    ensures UpdateOutcome(docs, true, id, b, false) == Reply(400, Errors([Message(UpdateFailed)]))
  {
  }

  /** Update with a malformed id or a failing store answers 500 "Server error". */
  lemma UpdateFailure(docs: map<Id, Route>, id: Id, b: RouteBody, fails: bool)
    requires !WellFormedId(id) || fails
    ensures UpdateOutcome(docs, true, id, b, fails) == Reply(500, Text("Server error"))
  {
  }

  /** The update rules have no effect: the status never depends on the body, so a body
      with every required field empty fares exactly like a complete one. */
  lemma UpdateStatusIgnoresBody(docs: map<Id, Route>, authorized: bool, id: Id,
                                b1: RouteBody, b2: RouteBody, fails: bool)
    ensures UpdateOutcome(docs, authorized, id, b1, fails).AuthRejected?
        <==> UpdateOutcome(docs, authorized, id, b2, fails).AuthRejected?
    ensures UpdateOutcome(docs, authorized, id, b1, fails).Reply? ==>
      UpdateOutcome(docs, authorized, id, b1, fails).status
        == UpdateOutcome(docs, authorized, id, b2, fails).status
  {
  }

  // ---------------------------------------------------------------------------------
  // Authorization
  // ---------------------------------------------------------------------------------

  /** An unauthorized update or delete is rejected by the gate whatever the store holds
      or would do, and delete then leaves the store as it was. */
  lemma UnauthorizedNeverReachesStore(docs1: map<Id, Route>, docs2: map<Id, Route>, id: Id, b: RouteBody,
                                      f1: bool, f2: bool, g1: bool, g2: bool)
    ensures UpdateOutcome(docs1, false, id, b, f1) == UpdateOutcome(docs2, false, id, b, f2) == AuthRejected
    ensures DeleteOutcome(docs1, false, id, f1, g1).0 == DeleteOutcome(docs2, false, id, f2, g2).0
    ensures DeleteOutcome(docs1, false, id, f1, g1) == (AuthRejected, docs1)
  {
  }

  // ---------------------------------------------------------------------------------
  // Delete
  // ---------------------------------------------------------------------------------

  /** Deleting a stored route answers 200 "Ruta eliminada" and removes exactly that key:
      every other entry stays, the store stays consistent, and deleting the id again
      answers 404 "La ruta no existe". */
  lemma DeleteRemovesExactlyOne(docs: map<Id, Route>, id: Id)
    requires Consistent(docs)
    requires WellFormedId(id) && id in docs
    ensures var (resp, after) := DeleteOutcome(docs, true, id, false, false);
      && resp == Reply(200, Msg(RouteDeleted))
      && after.Keys == docs.Keys - {id}
      && (forall k :: k in after ==> after[k] == docs[k])
      && |after| == |docs| - 1
      && Consistent(after)
      && DeleteOutcome(after, true, id, false, false) == (Reply(404, Msg(RouteMissing)), after)
  {
  }

  /** Deleting an absent, well-formed id answers 404 "La ruta no existe" unless the lookup
      fails; the store is unchanged. */
  lemma DeleteMissingRoute(docs: map<Id, Route>, id: Id, removeFails: bool)
    requires WellFormedId(id) && id !in docs
    ensures DeleteOutcome(docs, true, id, false, removeFails) == (Reply(404, Msg(RouteMissing)), docs)
  {
  }

  /** Deleting a malformed id answers 404 with the other message, "Ruta no existe",
      whatever the store would do; the store is unchanged. */
  lemma DeleteMalformedId(docs: map<Id, Route>, id: Id, findFails: bool, removeFails: bool)
    requires !WellFormedId(id)
    ensures DeleteOutcome(docs, true, id, findFails, removeFails) == (Reply(404, Msg(IdMalformed)), docs)
    ensures IdMalformed != RouteMissing
  {
  }

  /** Any other store failure answers 500 "Server Error" and leaves the store unchanged. */
  lemma DeleteStoreFailure(docs: map<Id, Route>, id: Id, findFails: bool, removeFails: bool)
    requires WellFormedId(id)
    requires findFails || (id in docs && removeFails)
    ensures DeleteOutcome(docs, true, id, findFails, removeFails) == (Reply(500, Text("Server Error")), docs)
  {
  }

  /** Delete changes the store only on a 200, and then by removing the requested key;
      in every other case it answers 404, 500 or the gate's rejection. */
  lemma DeleteChangesOnlyOnSuccess(docs: map<Id, Route>, authorized: bool, id: Id,
                                   findFails: bool, removeFails: bool)
    ensures var (resp, after) := DeleteOutcome(docs, authorized, id, findFails, removeFails);
      && (resp == Reply(200, Msg(RouteDeleted)) <==>
            authorized && WellFormedId(id) && id in docs && !findFails && !removeFails)
      && (resp == Reply(200, Msg(RouteDeleted)) ==> after == docs - {id} && id !in after)
      && (resp != Reply(200, Msg(RouteDeleted)) ==>
            after == docs && (resp.AuthRejected? || resp.status in {404, 500}))
  {
  }

  /** A second delete of the same id never succeeds, whatever the two requests' gates and
      failures were. */
  lemma DeleteNeverSucceedsTwice(docs: map<Id, Route>, id: Id,
                                a1: bool, f1: bool, g1: bool,
                                a2: bool, f2: bool, g2: bool)
    ensures var (r1, s1) := DeleteOutcome(docs, a1, id, f1, g1);
      r1 == Reply(200, Msg(RouteDeleted)) ==>
        DeleteOutcome(s1, a2, id, f2, g2).0 != Reply(200, Msg(RouteDeleted))
  {
    DeleteChangesOnlyOnSuccess(docs, a1, id, f1, g1);
  }

  // ---------------------------------------------------------------------------------
  // Scenarios
  // ---------------------------------------------------------------------------------

  /** Create {name: "R1", origin: "P1", destination: "P2"} with a generated id, read it
      back, delete it, delete it again, read it again: 200 with the fields, the same route,
      200, 404, null; and the store ends where it began. */
  lemma CreateGetDeleteScenario(docs: map<Id, Route>, freshId: Id, now: int)
    requires Consistent(docs)
    requires WellFormedId(freshId) && freshId !in docs
    ensures
      var b := RouteBody(None, Some("R1"), Some("P1"), Some("P2"), None, None);
      var r := Route(freshId, Some("R1"), Some("P1"), Some("P2"), None, None, now);
      var (created, s1) := CreateOutcome(docs, b, freshId, now, false);
      var (deleted, s2) := DeleteOutcome(s1, true, freshId, false, false);
      var (again, s3) := DeleteOutcome(s2, true, freshId, false, false);
      && created == Reply(200, RouteJson(r))
      && GetOutcome(s1, freshId, false) == Reply(200, RouteJson(r))
      && deleted == Reply(200, Msg(RouteDeleted))
      && again == Reply(404, Msg(RouteMissing))
      && GetOutcome(s3, freshId, false) == Reply(200, Null)
      && s3 == docs
  {
    var b := RouteBody(None, Some("R1"), Some("P1"), Some("P2"), None, None);
    CreateStoresSubmittedRoute(docs, b, freshId, now);
    var s1 := CreateOutcome(docs, b, freshId, now, false).1;
    assert s1 - {freshId} == docs;
  }

  /** Every stored route appears somewhere in a listing of the store. */
  lemma ListedSomewhere(docs: map<Id, Route>, rs: seq<Route>, k: Id)
    requires IsDateDescListing(docs, rs) && k in docs
    ensures exists i :: 0 <= i < |rs| && rs[i] == docs[k]
  {
    assert k in IdsOf(rs);
    var r :| r in rs && r.id == k;
    var i :| 0 <= i < |rs| && rs[i] == r;
  }

  /** In a newest-first sequence of three that holds routes with dates t1 < t2 < t3, the
      order is forced. */
  lemma ThreeInDateOrder(rs: seq<Route>, r1: Route, r2: Route, r3: Route, i1: nat, i2: nat, i3: nat)
    requires |rs| == 3 && i1 < 3 && i2 < 3 && i3 < 3
    requires rs[i1] == r1 && rs[i2] == r2 && rs[i3] == r3
    requires r1.date < r2.date < r3.date
    requires forall i, j :: 0 <= i < j < |rs| ==> rs[j].date <= rs[i].date
    ensures rs == [r3, r2, r1]
  {
    assert i3 < i2 < i1;
  }

  /** Three routes created at t1 < t2 < t3 are listed as [third, second, first]. */
  lemma ListNewestFirst(docs: map<Id, Route>, r1: Route, r2: Route, r3: Route, rs: seq<Route>)
    requires r1.id != r2.id && r2.id != r3.id && r1.id != r3.id
    requires docs == map[r1.id := r1, r2.id := r2, r3.id := r3]
    requires r1.date < r2.date < r3.date
    requires IsDateDescListing(docs, rs)
    ensures rs == [r3, r2, r1]
  {
    assert docs.Keys == {r1.id, r2.id, r3.id};
    assert |rs| == 3;
    ListedSomewhere(docs, rs, r1.id);
    ListedSomewhere(docs, rs, r2.id);
    ListedSomewhere(docs, rs, r3.id);
    var i1 :| 0 <= i1 < 3 && rs[i1] == r1;
    var i2 :| 0 <= i2 < 3 && rs[i2] == r2;
    var i3 :| 0 <= i3 < 3 && rs[i3] == r3;
    ThreeInDateOrder(rs, r1, r2, r3, i1, i2, i3);
  }
}
