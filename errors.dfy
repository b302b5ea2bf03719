// The domain's error classes.  Every one of them extends DomainError; they
// differ in the message they build and in their class name.  The model
// adds the two non-domain failures the core raises (a plain `Error` and a
// runtime `TypeError`) and the configuration validation error.
module Errors {
  import opened Wrappers

  datatype Error =
    | DomainError(message: string)
    | InvalidTimeRange(reason: string)
    | InvalidBookingTransition(from: string, to: string, why: Option<string>)
    | HoldRequiresExpiry
    | InvalidBookingActor(reason: string)
    | Overlap(custom: Option<string>)
    | ResourceNotFound(resourceId: string)
    | BookingNotFound(bookingId: string)
    | ConfigValidation(detail: string)
    | PlainError(text: string)
    | TypeError(text: string)
  {
    /** The `message` the error carries. */
    function Message(): string
    {
      match this
      case DomainError(m) => m
      case InvalidTimeRange(r) => "Invalid TimeRange: " + r
      case InvalidBookingTransition(f, t, r) =>
        "Invalid transition from " + f + " to " + t + ReasonSuffix(r)
      case HoldRequiresExpiry => "Booking status HELD requires a valid expiration date"
      case InvalidBookingActor(r) => "Invalid Booking Actor: " + r
      case Overlap(m) => m.GetOr(OVERLAP_DEFAULT)
      case ResourceNotFound(id) => "Resource not found: " + id
      case BookingNotFound(id) => "Booking not found: " + id
      case ConfigValidation(d) => "[ConfigValidation] " + d
      case PlainError(t) => t
      case TypeError(t) => t
    }

    /** The error's `name`, which the source sets from its class. */
    function Name(): string
    {
      match this
      case DomainError(_) => "DomainError"
      case InvalidTimeRange(_) => "InvalidTimeRangeError"
      case InvalidBookingTransition(_, _, _) => "InvalidBookingTransitionError"
      case HoldRequiresExpiry => "HoldRequiresExpiryError"
      case InvalidBookingActor(_) => "InvalidBookingActorError"
      case Overlap(_) => "OverlapError"
      case ResourceNotFound(_) => "ResourceNotFoundError"
      case BookingNotFound(_) => "BookingNotFoundError"
      case ConfigValidation(_) => "ConfigValidationError"
      case PlainError(_) => "Error"
      case TypeError(_) => "TypeError"
    }

    /** `instanceof DomainError`. */
    predicate IsDomainError()
    {
      !(ConfigValidation? || PlainError? || TypeError?)
    }
  }

  const OVERLAP_DEFAULT := "Selected time slot overlaps with an existing booking"

  /** The optional ` (reason)` tail: present only for a non-empty reason (JavaScript truthiness). */
  function ReasonSuffix(reason: Option<string>): string
  {
    if reason.Some? && reason.value != "" then " (" + reason.value + ")" else ""
  }

  /** No status name contains a parenthesis. */
  predicate NoParen(s: string)
  {
    forall i :: 0 <= i < |s| ==> s[i] != ')'
  }

  /** A transition message ends with a parenthesis exactly when a non-empty reason was given. */
  lemma TransitionReasonShown(from: string, to: string, reason: Option<string>)
    requires NoParen(from) && NoParen(to)
    ensures var m := InvalidBookingTransition(from, to, reason).Message();
      (m[|m| - 1] == ')') <==> (reason.Some? && reason.value != "")
  {
    var m := InvalidBookingTransition(from, to, reason).Message();
    if !(reason.Some? && reason.value != "") {
      if to == [] {
        assert m[|m| - 1] == " to "[3];
      } else {
        assert m[|m| - 1] == to[|to| - 1];
      }
    }
  }

  /** The not-found messages carry the identifier, so distinct identifiers give distinct messages. */
  lemma NotFoundMessagesKeepId(a: string, b: string)
    ensures BookingNotFound(a).Message() == BookingNotFound(b).Message() ==> a == b
    ensures ResourceNotFound(a).Message() == ResourceNotFound(b).Message() ==> a == b
    ensures BookingNotFound(a).Message() != ResourceNotFound(b).Message()
  {
    var p, q := "Booking not found: ", "Resource not found: ";
    if BookingNotFound(a).Message() == BookingNotFound(b).Message() {
      assert a == (p + a)[|p|..] == (p + b)[|p|..] == b;
    }
    if ResourceNotFound(a).Message() == ResourceNotFound(b).Message() {
      assert a == (q + a)[|q|..] == (q + b)[|q|..] == b;
    }
    assert (p + a)[0] != (q + b)[0];
  }
}
