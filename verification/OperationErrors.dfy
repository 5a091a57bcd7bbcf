/** Errors of operations: a cause, what it was wrapped in, and the compensations that failed after it. */
module OperationErrors {
  import opened Options

  datatype Cause =
    | NotFound | ParentMissing | AlreadyExists | InvalidName | Protected | PersistFailed | Unavailable
    | HistoryUnavailable | OperationInProgress | OperationPersistence

  datatype Error =
    | Leaf(cause: Cause)
    | Wrapped(inner: Error)
    | Joined(errors: seq<Option<Error>>)
    | Compensated(primary: Error, compensation: seq<Option<Error>>)

  /** Whether an error, or anything that it wraps, is a cause. */
  predicate Is(e: Error, cause: Cause) {
    match e
    case Leaf(c) => c == cause
    case Wrapped(inner) => Is(inner, cause)
    case Joined(errors) => exists k | 0 <= k < |errors| && errors[k].Some? :: Is(errors[k].value, cause)
    case Compensated(primary, compensation) =>
      Is(primary, cause)
      || exists k | 0 <= k < |compensation| && compensation[k].Some? :: Is(compensation[k].value, cause)
  }

  predicate AnyIs(errors: seq<Option<Error>>, cause: Cause) {
    exists k | 0 <= k < |errors| && errors[k].Some? :: Is(errors[k].value, cause)
  }

  /** Joining no error at all is no error. */
  function Join(errors: seq<Option<Error>>): Option<Error> {
    if exists k | 0 <= k < |errors| :: errors[k].Some? then Some(Joined(errors)) else None
  }

  function AddCompensation(primary: Option<Error>, compensation: seq<Option<Error>>): Option<Error> {
    match primary
    case None => Join(compensation)
    case Some(Compensated(first, earlier)) => Some(Compensated(first, earlier + compensation))
    case Some(e) => Some(Compensated(e, compensation))
  }

  /** The first compensated error found in an error, outermost first and then from left to right. */
  function FirstCompensated(e: Error): (found: Option<Error>)
    ensures found.Some? ==> found.value.Compensated?
  {
    match e
    case Leaf(_) => None
    case Wrapped(inner) => FirstCompensated(inner)
    case Joined(errors) => FirstOf(errors)
    case Compensated(_, _) => Some(e)
  }

  function FirstOf(errors: seq<Option<Error>>): (found: Option<Error>)
    ensures found.Some? ==> found.value.Compensated?
  {
    if errors == [] then None
    else
      var first := if errors[0].Some? then (assert errors[0].value < errors[0]; FirstCompensated(errors[0].value))
                   else None;
      if first.Some? then first else FirstOf(errors[1..])
  }

  /** The error by which an operation's failure is classified. */
  function PrimaryOperationError(e: Error): Error {
    match FirstCompensated(e)
    case None => e
    case Some(c) => c.primary
  }

  /** An error without the compensations that were added to it. */
  function Uncompensated(e: Error): Error {
    if e.Compensated? then e.primary else e
  }

  function Failures(errors: seq<Option<Error>>): nat {
    if errors == [] then 0 else (if errors[0].Some? then 1 else 0) + Failures(errors[1..])
  }

  /** How many of the compensations that were added to an error have failed; one that succeeded adds nothing. */
  function Reports(e: Error): nat {
    if e.Compensated? then Failures(e.compensation) else 0
  }

  predicate HasCompensation(e: Error) {
    FirstCompensated(e).Some?
  }

  /** A compensated failure is still classified by the error that started the compensation. */
  lemma CompensationKeepsPrimary(e: Error, compensation: seq<Option<Error>>)
    ensures var added := AddCompensation(Some(e), compensation);
            && added.Some? && HasCompensation(added.value)
            && PrimaryOperationError(added.value) == if e.Compensated? then e.primary else e
  {
  }

  /** What an error is classified by, if nothing below its own compensations is compensated. */
  lemma UncompensatedIsPrimary(e: Error)
    requires !HasCompensation(Uncompensated(e))
    ensures PrimaryOperationError(e) == Uncompensated(e)
  {
  }

  /** Compensations accumulate on the one error, in order. */
  lemma CompensationAccumulates(e: Error, first: seq<Option<Error>>, second: seq<Option<Error>>)
    ensures AddCompensation(AddCompensation(Some(e), first), second) == AddCompensation(Some(e), first + second)
  {
    if e.Compensated? {
      assert e.compensation + first + second == e.compensation + (first + second);
    }
  }

  lemma {:induction false} FailuresConcat(a: seq<Option<Error>>, b: seq<Option<Error>>)
    ensures Failures(a + b) == Failures(a) + Failures(b)
  {
    if a == [] {
      assert a + b == b;
    } else {
      assert (a + b)[1..] == a[1..] + b;
      FailuresConcat(a[1..], b);
    }
  }

  /** A compensation that was tried is reported exactly when it failed. */
  lemma CompensationIsReported(e: Error, compensation: seq<Option<Error>>)
    ensures var added := AddCompensation(Some(e), compensation);
            added.Some? && Reports(added.value) == Reports(e) + Failures(compensation)
  {
    if e.Compensated? {
      FailuresConcat(e.compensation, compensation);
    }
  }

  lemma ReportsOne(e: Error, compensation: Option<Error>)
    ensures Reports(AddCompensation(Some(e), [compensation]).value)
            == Reports(e) + if compensation.Some? then 1 else 0
  {
    CompensationIsReported(e, [compensation]);
    assert [compensation][1..] == [];
  }

  lemma ReportsTwo(e: Error, first: Option<Error>, second: Option<Error>)
    ensures Reports(AddCompensation(Some(e), [first, second]).value)
            == Reports(e) + (if first.Some? then 1 else 0) + if second.Some? then 1 else 0
  {
    CompensationIsReported(e, [first, second]);
    assert [first, second][1..] == [second] && [second][1..] == [];
    assert Failures([second]) == if second.Some? then 1 else 0;
  }

  lemma AnyIsConcat(a: seq<Option<Error>>, b: seq<Option<Error>>, cause: Cause)
    ensures AnyIs(a + b, cause) <==> AnyIs(a, cause) || AnyIs(b, cause)
  {
    if AnyIs(a, cause) {
      var k :| 0 <= k < |a| && a[k].Some? && Is(a[k].value, cause);
      assert (a + b)[k] == a[k];
    }
    if AnyIs(b, cause) {
      var k :| 0 <= k < |b| && b[k].Some? && Is(b[k].value, cause);
      assert (a + b)[|a| + k] == b[k];
    }
  }

  /** Nothing is lost and nothing invented: the causes are those of the failure and of its compensations. */
  lemma CompensationKeepsCauses(primary: Option<Error>, compensation: seq<Option<Error>>, cause: Cause)
    ensures var added := AddCompensation(primary, compensation);
            (added.Some? && Is(added.value, cause))
            <==> ((primary.Some? && Is(primary.value, cause)) || AnyIs(compensation, cause))
  {
    if primary.Some? && primary.value.Compensated? {
      AnyIsConcat(primary.value.compensation, compensation, cause);
      assert Is(primary.value, cause) <==> Is(primary.value.primary, cause) || AnyIs(primary.value.compensation, cause);
    }
  }
}
