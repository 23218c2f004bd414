/** What a rejected construction reports. Like a pydantic `ValidationError`,
    a rejection lists one entry per offending field, in field order, each with
    the field's location and what was wrong with it. */
module Errors {
  import opened Wrappers

  /** One step of a location: a field name, or a position in a list field. */
  datatype LocItem = Field(name: string) | Index(i: nat)

  type Loc = seq<LocItem>

  datatype ErrorKind =
    | Missing
      /** the value is not of the field's type, named by `typeName` */
    | WrongType(typeName: string)
      /** the value is below the inclusive lower bound `min` */
    | TooSmall(min: real, value: real)
      /** the value is above the inclusive upper bound `max` */
    | TooLarge(max: real, value: real)
      /** the value is not one of the literals `allowed` */
    | NotAllowed(allowed: seq<string>, given: string)

  datatype FieldError = FieldError(loc: Loc, kind: ErrorKind)

  /** The errors a partial result contributes: none when it succeeded. */
  function ErrorsOf<T>(r: Result<T, seq<FieldError>>): seq<FieldError> {
    match r
    case Success(_) => []
    case Failure(e) => e
  }

  /** The errors of one field check: none when it succeeded. */
  function ErrorOf<T>(r: Result<T, FieldError>): seq<FieldError> {
    match r
    case Success(_) => []
    case Failure(e) => [e]
  }

  /** A required field: present, or reported as missing at `loc`. */
  function Require<T>(loc: Loc, v: Option<T>): (r: Result<T, FieldError>)
    ensures r.Success? <==> v.Some?
    ensures r.Success? ==> r.value == v.value
    ensures r.Failure? ==> r.error == FieldError(loc, Missing)
  {
    match v
    case Some(x) => Success(x)
    case None => Failure(FieldError(loc, Missing))
  }

  /** Every error of `errs` sits under the location prefix `loc`. */
  predicate AllUnder(errs: seq<FieldError>, loc: Loc) {
    forall i :: 0 <= i < |errs| ==> loc <= errs[i].loc
  }
}
