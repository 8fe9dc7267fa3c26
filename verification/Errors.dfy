/** Error chains and their classification.

    An error is one of the sentinels the service distinguishes, an error of some other
    package, a message wrapped around a cause by `fmt.Errorf("...: %w", cause)`, or several
    errors joined by `errors.Join`. */
module Errors {
  import opened Wrappers

  datatype Error =
    | InvalidArgument
    | DependencyUnavailable
    | Overflow
    | Canceled
    | DeadlineExceeded
    | Other(text: string)
    | Wrapped(text: string, cause: Error)
    | Joined(parts: seq<Error>)

  /** `errors.Is(e, target)` for a sentinel target. */
  predicate Is(e: Error, target: Error) {
    || e == target
    || match e
       case Wrapped(_, cause) => Is(cause, target)
       case Joined(parts) => exists i :: 0 <= i < |parts| && Is(parts[i], target)
       case _ => false
  }

  /** The errors that are present. */
  function Present(errs: seq<Option<Error>>): (parts: seq<Error>)
    ensures |parts| <= |errs|
    ensures forall i :: 0 <= i < |errs| && errs[i].Some? ==> errs[i].value in parts
    ensures forall p :: p in parts ==> exists i :: 0 <= i < |errs| && errs[i] == Some(p)
  {
    if errs == [] then []
    else if errs[0].None? then Present(errs[1..])
    else [errs[0].value] + Present(errs[1..])
  }

  /** `errors.Join`: absent errors are dropped, nothing is left when all are absent. */
  function Join(errs: seq<Option<Error>>): Option<Error> {
    if Present(errs) == [] then None else Some(Joined(Present(errs)))
  }

  /** A join is absent only when every part is, and matches a sentinel exactly when a part does. */
  lemma JoinMatchesParts(errs: seq<Option<Error>>, target: Error)
    requires !target.Joined?
    ensures Join(errs).None? <==> forall i :: 0 <= i < |errs| ==> errs[i].None?
    ensures Join(errs).Some? ==>
              (Is(Join(errs).value, target) <==>
               exists i :: 0 <= i < |errs| && errs[i].Some? && Is(errs[i].value, target))
  {
    var parts := Present(errs);
    if Join(errs).Some? && Is(Join(errs).value, target) {
      var k :| 0 <= k < |parts| && Is(parts[k], target);
      assert parts[k] in parts;
    }
    if i :| 0 <= i < |errs| && errs[i].Some? && Is(errs[i].value, target) {
      var k :| 0 <= k < |parts| && parts[k] == errs[i].value;
      assert Is(Joined(parts).parts[k], target);
    }
    if i :| 0 <= i < |errs| && errs[i].Some? {
      assert errs[i].value in parts;
    }
    if parts != [] {
      assert parts[0] in parts;
    }
  }

  // ----- The SQL repository's classifier -----

  /** What the SQL repository of the named source reports for a driver error. */
  function WrapErr(source: string, e: Error): Error {
    if Is(e, Canceled) || Is(e, DeadlineExceeded) then e
    else Wrapped(source, DependencyUnavailable)
  }

  // ----- The HTTP layer's classifier -----

  datatype Class = BadRequest400 | Unavailable503 | GatewayTimeout504 | Internal500

  function MapDomainError(e: Error): Class {
    if Is(e, InvalidArgument) then BadRequest400
    else if Is(e, DependencyUnavailable) then Unavailable503
    else if Is(e, DeadlineExceeded) then GatewayTimeout504
    else Internal500
  }

  /** A joined error has the first class, in the order 400, 503, 504, that one of its parts has,
      and 500 when none has any of them. */
  lemma JoinClass(parts: seq<Error>)
    ensures var cs := set p | p in parts :: MapDomainError(p);
            MapDomainError(Joined(parts)) ==
            if BadRequest400 in cs then BadRequest400
            else if Unavailable503 in cs then Unavailable503
            else if GatewayTimeout504 in cs then GatewayTimeout504
            else Internal500
  {
    var e := Joined(parts);
    forall t: Error | !t.Joined?
      ensures Is(e, t) <==> exists p :: p in parts && Is(p, t)
    {
      if p :| p in parts && Is(p, t) {
        var i :| 0 <= i < |parts| && parts[i] == p;
        assert Is(e.parts[i], t);
      }
      if i :| 0 <= i < |parts| && Is(parts[i], t) {
        assert parts[i] in parts;
      }
    }
    hide Is;
  }

  /** A driver's chain never carries the service's own sentinels. */
  predicate Foreign(e: Error) {
    !Is(e, InvalidArgument) && !Is(e, DependencyUnavailable) && !Is(e, Overflow)
  }

  /** Wrapping a message around an error, however often, keeps every classification. */
  lemma WrappingKeepsClass(text: string, e: Error)
    ensures MapDomainError(Wrapped(text, e)) == MapDomainError(e)
    ensures forall t: Error :: !t.Wrapped? ==> (Is(Wrapped(text, e), t) <==> Is(e, t))
  {
  }

  /** A driver error becomes 504 exactly when it is a deadline, 500 exactly when it is a
      cancellation and no deadline, and 503 otherwise; classifying twice changes nothing. */
  lemma WrapErrClass(source: string, e: Error)
    requires Foreign(e)
    ensures MapDomainError(WrapErr(source, e)) ==
            if Is(e, DeadlineExceeded) then GatewayTimeout504
            else if Is(e, Canceled) then Internal500
            else Unavailable503
    ensures Is(WrapErr(source, e), Canceled) <==> Is(e, Canceled)
    ensures MapDomainError(WrapErr(source, WrapErr(source, e))) == MapDomainError(WrapErr(source, e))
  {
    WrappingKeepsClass(source, DependencyUnavailable);
  }
}
