/** The "not empty" checks that guard route creation. */
module Validation {
  import opened RouteData

  /** The three body fields the create handler requires. */
  datatype Field = Name | OriginProvince | DestinationProvince

  function ParamName(f: Field): string {
    match f
    case Name => "name"
    case OriginProvince => "origin_province"
    case DestinationProvince => "destination_province"
  }

  function FieldValue(b: RouteBody, f: Field): Option<string> {
    match f
    case Name => b.name
    case OriginProvince => b.originProvince
    case DestinationProvince => b.destinationProvince
  }

  /** The validator's emptiness test: a missing field reads as the empty string. */
  predicate IsEmpty(v: Option<string>) {
    match v
    case None => true
    case Some(s) => s == ""
  }

  /** One declared rule: `check(param, msg).not().isEmpty()`. */
  datatype Check = NotEmpty(field: Field, msg: string)

  /** An entry of an `errors` array in a 400 response. A validation failure carries the
      parameter, the submitted value and the rule's message; a handler's own error only
      a message. */
  datatype ErrorEntry =
    | FieldError(param: string, value: Option<string>, msg: string)
    | Message(msg: string)

  const NameRequired: string := "Nombre es requerido"
  const OriginRequired: string := "La provincia origen es requerido"
  const DestinationRequired: string := "La provincia destino es requerido"

  /** The create handler's rules, in declaration order. */
  const CreateChecks: seq<Check> := [
    NotEmpty(Name, NameRequired),
    NotEmpty(OriginProvince, OriginRequired),
    NotEmpty(DestinationProvince, DestinationRequired)
  ]

  predicate Passes(c: Check, b: RouteBody) {
    !IsEmpty(FieldValue(b, c.field))
  }

  function ErrorFor(c: Check, b: RouteBody): ErrorEntry {
    FieldError(ParamName(c.field), FieldValue(b, c.field), c.msg)
  }

  /** Runs the rules in order and collects one error per failing rule. */
  function RunChecks(checks: seq<Check>, b: RouteBody): (errors: seq<ErrorEntry>)
    ensures |errors| <= |checks|
    ensures errors == [] <==> forall i :: 0 <= i < |checks| ==> Passes(checks[i], b)
    ensures forall e :: e in errors ==> e.FieldError? && IsEmpty(e.value)
    ensures forall e :: e in errors ==>
      exists i :: 0 <= i < |checks| && !Passes(checks[i], b) && e == ErrorFor(checks[i], b)
  {
    if checks == [] then []
    else
      (if Passes(checks[0], b) then [] else [ErrorFor(checks[0], b)])
      + RunChecks(checks[1..], b)
  }

  /** What `validationResult(req).array()` holds for a create request: at most one error
      per rule, and none exactly when the three required fields are filled. */
  function CreateErrors(b: RouteBody): (errors: seq<ErrorEntry>)
    ensures |errors| <= 3
    ensures errors == [] <==>
      !IsEmpty(b.name) && !IsEmpty(b.originProvince) && !IsEmpty(b.destinationProvince)
    ensures forall e :: e in errors ==>
      e.FieldError? && e.param in {"name", "origin_province", "destination_province"}
  {
    assert Passes(CreateChecks[0], b) <==> !IsEmpty(b.name);
    assert Passes(CreateChecks[1], b) <==> !IsEmpty(b.originProvince);
    assert Passes(CreateChecks[2], b) <==> !IsEmpty(b.destinationProvince);
    RunChecks(CreateChecks, b)
  }

  /** The error list written out field by field: one entry per empty required field,
      in the order name, origin province, destination province. */
  function RequiredFieldErrors(b: RouteBody): seq<ErrorEntry> {
    (if IsEmpty(b.name) then [FieldError("name", b.name, NameRequired)] else [])
    + (if IsEmpty(b.originProvince)
       then [FieldError("origin_province", b.originProvince, OriginRequired)] else [])
    + (if IsEmpty(b.destinationProvince)
       then [FieldError("destination_province", b.destinationProvince, DestinationRequired)] else [])
  }

  /** Number of required fields left empty. */
  function EmptyRequiredCount(b: RouteBody): nat {
    (if IsEmpty(b.name) then 1 else 0)
    + (if IsEmpty(b.originProvince) then 1 else 0)
    + (if IsEmpty(b.destinationProvince) then 1 else 0)
  }

  /** The create rules report exactly the empty required fields, in declaration order,
      each with its fixed message; so the list is empty iff all three are filled and
      its length is the number of empty ones. */
  lemma CreateErrorsExact(b: RouteBody)
    ensures CreateErrors(b) == RequiredFieldErrors(b)
    ensures |CreateErrors(b)| == EmptyRequiredCount(b)
    ensures CreateErrors(b) == [] <==>
      !IsEmpty(b.name) && !IsEmpty(b.originProvince) && !IsEmpty(b.destinationProvince)
  {
    var c0, c1, c2 := CreateChecks[0], CreateChecks[1], CreateChecks[2];
    var e0 := if Passes(c0, b) then [] else [ErrorFor(c0, b)];
    var e1 := if Passes(c1, b) then [] else [ErrorFor(c1, b)];
    var e2 := if Passes(c2, b) then [] else [ErrorFor(c2, b)];
    assert [c2][1..] == [];
    assert RunChecks([c2], b) == e2;
    assert [c1, c2][1..] == [c2];
    assert RunChecks([c1, c2], b) == e1 + e2;
    assert CreateChecks[1..] == [c1, c2];
    assert RunChecks(CreateChecks, b) == e0 + (e1 + e2);
    assert e0 + (e1 + e2) == e0 + e1 + e2;
  }
}
