/** Values shared by the routes resource: identifiers, stored routes and request bodies. */
module RouteData {

  datatype Option<+T> = None | Some(value: T)

  /** A store identifier as it travels in URLs and JSON bodies. */
  type Id = string

  predicate IsHexDigit(c: char) {
    '0' <= c <= '9' || 'a' <= c <= 'f'
  }

  /** The identifiers this model treats as castable: the 24 lower-case hexadecimal digits
      of an object id. This is narrower than the driver, which also casts other spellings;
      in the model every other string makes the store throw a cast error. */
  predicate WellFormedId(id: Id) {
    |id| == 24 && forall i :: 0 <= i < |id| ==> IsHexDigit(id[i])
  }

  /** A route as the store keeps it. Every field but `id` and `date` may be unset,
      because the handlers copy whatever the request body held. */
  datatype Route = Route(
    id: Id,
    name: Option<string>,
    originProvince: Option<string>,
    destinationProvince: Option<string>,
    active: Option<bool>,
    stations: Option<seq<string>>,
    date: int)

  /** The JSON body of a create or update request; any field may be missing. */
  datatype RouteBody = RouteBody(
    id: Option<Id>,
    name: Option<string>,
    originProvince: Option<string>,
    destinationProvince: Option<string>,
    active: Option<bool>,
    stations: Option<seq<string>>)
}
