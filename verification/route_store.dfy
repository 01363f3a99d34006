/** An in-memory stand-in for the document store behind the `Routes` model: a map from
    identifier to route, with the few queries the handlers issue. */
module RouteStore {
  import opened RouteData

  /** What the store throws. A cast error's `kind` names the type the value could not be
      cast to ("ObjectId" for a malformed identifier in a query); a document whose fields do
      not validate is refused on save with a validation error. */
  datatype StoreError =
    | CastError(kind: string)
    | ValidationError(path: string)
    | DuplicateKey(key: Id)
    | Unavailable

  /** A store call either completes with a value or throws. */
  datatype Outcome<+T> = Done(value: T) | Threw(error: StoreError)

  /** Every key is a well-formed identifier and the route under it carries that key. */
  ghost predicate Consistent(docs: map<Id, Route>) {
    forall k :: k in docs ==> WellFormedId(k) && docs[k].id == k
  }

  function IdsOf(rs: seq<Route>): set<Id> {
    set r | r in rs :: r.id
  }

  /** `rs` lists every stored route exactly once, newest `date` first. */
  ghost predicate IsDateDescListing(docs: map<Id, Route>, rs: seq<Route>) {
    && |rs| == |docs|
    && IdsOf(rs) == docs.Keys
    && (forall i :: 0 <= i < |rs| ==> rs[i].id in docs && docs[rs[i].id] == rs[i])
    && (forall i, j :: 0 <= i < j < |rs| ==> rs[i].id != rs[j].id)
    && (forall i, j :: 0 <= i < j < |rs| ==> rs[j].date <= rs[i].date)
  }

  /** A non-empty set of stored keys has a key whose route is at least as recent as
      every other in the set. */
  lemma {:induction false} LatestExists(docs: map<Id, Route>, ks: set<Id>)
    requires ks != {} && ks <= docs.Keys
    ensures exists k :: k in ks && forall k' :: k' in ks ==> docs[k'].date <= docs[k].date
  {
    var x :| x in ks;
    if ks != {x} {
      var rest := ks - {x};
      LatestExists(docs, rest);
      var y :| y in rest && forall k' :: k' in rest ==> docs[k'].date <= docs[y].date;
      if docs[y].date < docs[x].date {
        assert forall k' :: k' in ks ==> docs[k'].date <= docs[x].date;
      } else {
        assert forall k' :: k' in ks ==> docs[k'].date <= docs[y].date;
      }
    }
  }

  /** `listed` enumerates, each once, exactly the stored routes whose keys are not in
      `rest`. */
  ghost predicate EnumeratesTaken(docs: map<Id, Route>, listed: seq<Route>, rest: set<Id>)
    requires rest <= docs.Keys
  {
    && |listed| == |docs.Keys - rest|
    && IdsOf(listed) == docs.Keys - rest
    && (forall i :: 0 <= i < |listed| ==> listed[i].id in docs && docs[listed[i].id] == listed[i])
    && (forall i, j :: 0 <= i < j < |listed| ==> listed[i].id != listed[j].id)
  }

  /** `listed` is newest first and none of its routes is older than one still in `rest`. */
  ghost predicate NewestFirstBefore(docs: map<Id, Route>, listed: seq<Route>, rest: set<Id>)
    requires rest <= docs.Keys
  {
    && (forall i, j :: 0 <= i < j < |listed| ==> listed[j].date <= listed[i].date)
    && (forall i, k :: 0 <= i < |listed| && k in rest ==> docs[k].date <= listed[i].date)
  }

  /** `listed` holds, newest first, exactly the stored routes whose keys are not in
      `rest`, and none of them is older than a route still in `rest`. */
  ghost predicate PartialListing(docs: map<Id, Route>, listed: seq<Route>, rest: set<Id>) {
    && rest <= docs.Keys
    && EnumeratesTaken(docs, listed, rest)
    && NewestFirstBefore(docs, listed, rest)
  }

  lemma IdsOfAppend(rs: seq<Route>, r: Route)
    ensures IdsOf(rs + [r]) == IdsOf(rs) + {r.id}
  {
    assert forall x :: x in rs + [r] <==> x in rs || x == r;
  }

  /** Moving a remaining key's route to the end keeps `listed` an exact, duplicate-free
      enumeration of the keys taken so far. */
  lemma TakeKeepsEnumeration(docs: map<Id, Route>, listed: seq<Route>, rest: set<Id>, k: Id)
    requires Consistent(docs) && rest <= docs.Keys && k in rest
    requires EnumeratesTaken(docs, listed, rest)
    ensures EnumeratesTaken(docs, listed + [docs[k]], rest - {k})
  {
    var next, rest' := listed + [docs[k]], rest - {k};
    assert docs.Keys - rest' == (docs.Keys - rest) + {k};
    IdsOfAppend(listed, docs[k]);
    forall i | 0 <= i < |listed| ensures listed[i].id != k {
      assert listed[i] in listed;
    }
    forall i, j | 0 <= i < j < |next| ensures next[i].id != next[j].id {
      if j == |listed| {
        assert next[j] == docs[k];
      }
    }
  }

  /** Appending the latest remaining route keeps the listing newest first and keeps every
      listed route at least as recent as those still remaining. */
  lemma TakeKeepsOrder(docs: map<Id, Route>, listed: seq<Route>, rest: set<Id>, k: Id)
    requires rest <= docs.Keys && k in rest
    requires forall k' :: k' in rest ==> docs[k'].date <= docs[k].date
    requires NewestFirstBefore(docs, listed, rest)
    ensures NewestFirstBefore(docs, listed + [docs[k]], rest - {k})
  {
    var next := listed + [docs[k]];
    forall i, j | 0 <= i < j < |next| ensures next[j].date <= next[i].date {
      if j == |listed| {
        assert next[j] == docs[k];
      }
    }
    forall i, k' | 0 <= i < |next| && k' in rest - {k} ensures docs[k'].date <= next[i].date {
      if i == |listed| {
        assert next[i] == docs[k];
      }
    }
  }

  /** Moving the latest remaining route to the end of the listing keeps it a partial
      listing. */
  lemma ListLatestNext(docs: map<Id, Route>, listed: seq<Route>, rest: set<Id>, k: Id)
    requires Consistent(docs)
    requires PartialListing(docs, listed, rest)
    requires k in rest && forall k' :: k' in rest ==> docs[k'].date <= docs[k].date
    ensures PartialListing(docs, listed + [docs[k]], rest - {k})
  {
    TakeKeepsEnumeration(docs, listed, rest, k);
    TakeKeepsOrder(docs, listed, rest, k);
  }

  /** A loaded document: a mutable object whose fields a handler may assign. Changing it
      does not change the store; only saving would. */
  class RouteDocument {
    var id: Id
    var name: Option<string>
    var originProvince: Option<string>
    var destinationProvince: Option<string>
    var active: Option<bool>
    var stations: Option<seq<string>>
    var date: int

    constructor (r: Route)
      ensures Snapshot() == r
    {
      id, name, originProvince, destinationProvince := r.id, r.name, r.originProvince, r.destinationProvince;
      active, stations, date := r.active, r.stations, r.date;
    }

    /** The document as it serialises to JSON. */
    function Snapshot(): Route
      reads this
    {
      Route(id, name, originProvince, destinationProvince, active, stations, date)
    }
  }

  class RouteCollection {
    var docs: map<Id, Route>

    ghost predicate Valid()
      reads this
    {
      Consistent(docs)
    }

    constructor ()
      ensures Valid() && docs == map[]
    {
      docs := map[];
    }

    /** `findById(id)` / `findOne({_id: id})`: a malformed id throws a cast error before
        the store is asked; `fails` stands for any other failure of the call. */
    method FindById(id: Id, fails: bool) returns (r: Outcome<Option<Route>>)
      requires Valid()
      ensures !WellFormedId(id) ==> r == Threw(CastError("ObjectId"))
      ensures WellFormedId(id) && fails ==> r == Threw(Unavailable)
      ensures WellFormedId(id) && !fails ==> r.Done?
      ensures r.Done? ==> (r.value.Some? <==> id in docs)
      ensures r.Done? && r.value.Some? ==> r.value.value == docs[id] && r.value.value.id == id
    {
      if !WellFormedId(id) {
        return Threw(CastError("ObjectId"));
      }
      if fails {
        return Threw(Unavailable);
      }
      r := Done(if id in docs then Some(docs[id]) else None);
    }

    /** `find().sort({date: -1})`: every stored route once, newest first. Routes with
        equal dates come in an unspecified order. */
    method FindAllByDateDesc(fails: bool) returns (r: Outcome<seq<Route>>)
      requires Valid()
      ensures fails <==> r.Threw?
      ensures r.Threw? ==> r.error == Unavailable
      ensures r.Done? ==> IsDateDescListing(docs, r.value)
    {
      if fails {
        return Threw(Unavailable);
      }
      var listed: seq<Route> := [];
      var rest := docs.Keys;
      while rest != {}
        invariant PartialListing(docs, listed, rest)
        decreases rest
      {
        LatestExists(docs, rest);
        var k :| k in rest && forall k' :: k' in rest ==> docs[k'].date <= docs[k].date;
        ListLatestNext(docs, listed, rest, k);
        listed := listed + [docs[k]];
        rest := rest - {k};
      }
      assert docs.Keys - rest == docs.Keys;
      r := Done(listed);
    }

    /** `save()` of a new document: the identifier must validate, must not be taken, and the
        call must not fail; only then is the route stored. */
    method Save(doc: Route, fails: bool) returns (r: Outcome<Route>)
      requires Valid()
      modifies this
      ensures Valid()
      ensures r.Done? <==> WellFormedId(doc.id) && doc.id !in old(docs) && !fails
      ensures !WellFormedId(doc.id) ==> r == Threw(ValidationError("_id"))
      ensures r.Done? ==> r.value == doc && docs == old(docs)[doc.id := doc]
      ensures r.Threw? ==> docs == old(docs)
    {
      if !WellFormedId(doc.id) {
        return Threw(ValidationError("_id"));
      }
      if fails {
        return Threw(Unavailable);
      }
      if doc.id in docs {
        return Threw(DuplicateKey(doc.id));
      }
      docs := docs[doc.id := doc];
      r := Done(doc);
    }

    /** `remove()` of a loaded document. */
    method Remove(id: Id, fails: bool) returns (r: Outcome<()>)
      requires Valid()
      modifies this
      ensures Valid()
      ensures r.Done? <==> !fails
      ensures r.Done? ==> docs == old(docs) - {id}
      ensures r.Threw? ==> r.error == Unavailable && docs == old(docs)
    {
      if fails {
        return Threw(Unavailable);
      }
      docs := docs - {id};
      r := Done(());
    }
  }
}
