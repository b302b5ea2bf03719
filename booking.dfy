// The Booking aggregate: identity and interval fixed at construction, a
// status that moves along the lifecycle graph, a hold expiry that exists
// exactly while the booking is HELD, and an update stamp.
//
// The transitions are first given as functions on a snapshot
// (`BookingData`), where the lifecycle properties are proved; the class
// `Booking` then performs them in place and is proved to agree with them.
// The clock is the parameter `now`.
module Bookings {
  import opened Wrappers
  import opened Errors
  import opened Json
  import opened TimeRanges
  import opened BookingStatuses
  import opened BookingActors

  datatype BookingProps = BookingProps(
    id: string, resourceId: string, period: Range, status: Status,
    holdExpiresAt: Option<int>, actor: Actor, serviceRef: Option<string>,
    metadata: Option<map<string, Json>>, createdAt: int, updatedAt: int)

  /** The observable state of a Booking object. */
  datatype BookingData = BookingData(
    id: string, resourceId: string, period: Range, status: Status,
    holdExpiresAt: Option<int>, actor: Actor, serviceRef: Option<string>,
    metadata: map<string, Json>, createdAt: int, updatedAt: int)

  /** The aggregate's invariant: an expiry is present exactly while HELD. */
  predicate Consistent(b: BookingData)
  {
    b.status == HELD <==> b.holdExpiresAt.Some?
  }

  /** The fields no transition may change. */
  predicate SameIdentity(a: BookingData, b: BookingData)
  {
    a.id == b.id && a.resourceId == b.resourceId && a.period == b.period && a.actor == b.actor
    && a.serviceRef == b.serviceRef && a.createdAt == b.createdAt
  }

  /**
   * The constructor with `validateInvariants`: a HELD booking without an
   * expiry is refused; any other status drops a stray expiry.
   */
  function Admit(p: BookingProps): (r: Result<BookingData, Error>)
    ensures r.Err? <==> p.status == HELD && p.holdExpiresAt.None?
    ensures r.Err? ==> r.error == HoldRequiresExpiry
    ensures r.Ok? ==> Consistent(r.value)
    ensures r.Ok? ==>
              && r.value.id == p.id && r.value.period == p.period && r.value.status == p.status
              && r.value.updatedAt == p.updatedAt && r.value.metadata == p.metadata.GetOr(map[])
              && r.value.resourceId == p.resourceId && r.value.actor == p.actor
              && r.value.serviceRef == p.serviceRef && r.value.createdAt == p.createdAt
    ensures r.Ok? && p.status == HELD ==> r.value.holdExpiresAt == p.holdExpiresAt
  {
    if p.status == HELD && p.holdExpiresAt.None? then Err(HoldRequiresExpiry)
    else
      Ok(BookingData(p.id, p.resourceId, p.period, p.status,
                     if p.status == HELD then p.holdExpiresAt else None,
                     p.actor, p.serviceRef, p.metadata.GetOr(map[]), p.createdAt, p.updatedAt))
  }

  function Refuse(b: BookingData, to: Status, reason: Option<string>): Error
  {
    InvalidBookingTransition(b.status.Name(), to.Name(), reason)
  }

  const ONLY_PENDING_HELD := "Only PENDING bookings can be HELD"
  const HOLD_EXPIRED := "Hold has expired"
  const ALREADY_TERMINAL := "Already terminal"
  const ONLY_CONFIRMED_COMPLETE := "Only CONFIRMED bookings can complete"
  const ONLY_CONFIRMED_NO_SHOW := "Only CONFIRMED bookings can be NO_SHOW"

  /** `isHoldExpired`: an expiry that is not in the future. */
  predicate HoldExpired(b: BookingData, now: int)
  {
    b.holdExpiresAt.Some? && b.holdExpiresAt.value <= now
  }

  /** `hold`: PENDING to HELD with an expiry strictly in the future. */
  function HoldStep(b: BookingData, expiresAt: int, now: int): (r: Result<BookingData, Error>)
    ensures r.Ok? <==> b.status == PENDING && expiresAt > now
    ensures b.status != PENDING ==> r == Err(Refuse(b, HELD, Some(ONLY_PENDING_HELD)))
    ensures b.status == PENDING && expiresAt <= now ==> r == Err(HoldRequiresExpiry)
    ensures r.Ok? ==> r.value.status == HELD && r.value.holdExpiresAt == Some(expiresAt)
  {
    if b.status != PENDING then Err(Refuse(b, HELD, Some(ONLY_PENDING_HELD)))
    else if expiresAt <= now then Err(HoldRequiresExpiry)
    else Ok(b.(status := HELD, holdExpiresAt := Some(expiresAt), updatedAt := now))
  }

  /** `confirm`: from PENDING, or from HELD while the hold has not expired. */
  function ConfirmStep(b: BookingData, now: int): (r: Result<BookingData, Error>)
    ensures r.Ok? <==> b.status == PENDING || (b.status == HELD && !HoldExpired(b, now))
    ensures b.status != PENDING && b.status != HELD ==> r == Err(Refuse(b, CONFIRMED, None))
    ensures b.status == HELD && HoldExpired(b, now) ==> r == Err(Refuse(b, CONFIRMED, Some(HOLD_EXPIRED)))
    ensures r.Ok? ==> r.value.status == CONFIRMED && r.value.holdExpiresAt.None?
  {
    if b.status != PENDING && b.status != HELD then Err(Refuse(b, CONFIRMED, None))
    else if b.status == HELD && HoldExpired(b, now) then Err(Refuse(b, CONFIRMED, Some(HOLD_EXPIRED)))
    else Ok(b.(status := CONFIRMED, holdExpiresAt := None, updatedAt := now))
  }

  /** `cancel`: from any non-terminal state; the reason is recorded in the metadata. */
  function CancelStep(b: BookingData, reason: string, now: int): (r: Result<BookingData, Error>)
    ensures r.Ok? <==> !b.status.IsTerminal()
    ensures r.Err? ==> r.error == Refuse(b, CANCELLED, Some(ALREADY_TERMINAL))
    ensures r.Ok? ==>
              && r.value.status == CANCELLED && r.value.holdExpiresAt.None?
              && r.value.metadata == b.metadata["cancellation_reason" := JStr(reason)]
  {
    if b.status.IsTerminal() then Err(Refuse(b, CANCELLED, Some(ALREADY_TERMINAL)))
    else Ok(b.(status := CANCELLED, holdExpiresAt := None,
               metadata := b.metadata["cancellation_reason" := JStr(reason)], updatedAt := now))
  }

  /** `complete`: CONFIRMED only. */
  function CompleteStep(b: BookingData, now: int): (r: Result<BookingData, Error>)
    ensures r.Ok? <==> b.status == CONFIRMED
    ensures r.Err? ==> r.error == Refuse(b, COMPLETED, Some(ONLY_CONFIRMED_COMPLETE))
    ensures r.Ok? ==> r.value.status == COMPLETED && r.value.holdExpiresAt == b.holdExpiresAt
  {
    if b.status != CONFIRMED then Err(Refuse(b, COMPLETED, Some(ONLY_CONFIRMED_COMPLETE)))
    else Ok(b.(status := COMPLETED, updatedAt := now))
  }

  /** `markNoShow`: CONFIRMED only. */
  function NoShowStep(b: BookingData, now: int): (r: Result<BookingData, Error>)
    ensures r.Ok? <==> b.status == CONFIRMED
    ensures r.Err? ==> r.error == Refuse(b, NO_SHOW, Some(ONLY_CONFIRMED_NO_SHOW))
    ensures r.Ok? ==> r.value.status == NO_SHOW && r.value.holdExpiresAt == b.holdExpiresAt
  {
    if b.status != CONFIRMED then Err(Refuse(b, NO_SHOW, Some(ONLY_CONFIRMED_NO_SHOW)))
    else Ok(b.(status := NO_SHOW, updatedAt := now))
  }

  /** The five transitions, as one type so that properties can range over all of them. */
  datatype Op = HoldOp(expiresAt: int) | ConfirmOp | CancelOp(reason: string) | CompleteOp | NoShowOp

  function Apply(b: BookingData, op: Op, now: int): Result<BookingData, Error>
  {
    match op
    case HoldOp(e) => HoldStep(b, e, now)
    case ConfirmOp => ConfirmStep(b, now)
    case CancelOp(reason) => CancelStep(b, reason, now)
    case CompleteOp => CompleteStep(b, now)
    case NoShowOp => NoShowStep(b, now)
  }

  /** The lifecycle graph the entity implements. */
  predicate Edge(from: Status, to: Status)
  {
    || (from == PENDING && to == HELD)
    || ((from == PENDING || from == HELD) && to == CONFIRMED)
    || (!from.IsTerminal() && to == CANCELLED)
    || (from == CONFIRMED && (to == COMPLETED || to == NO_SHOW))
  }

  /**
   * Every successful transition follows an edge of the graph, keeps the
   * invariant and the identity fields, and stamps `updatedAt` with the clock.
   */
  lemma TransitionsFollowGraph(b: BookingData, op: Op, now: int)
    requires Consistent(b)
    ensures var r := Apply(b, op, now);
      r.Ok? ==>
        && Edge(b.status, r.value.status) && Consistent(r.value)
        && SameIdentity(b, r.value) && r.value.updatedAt == now
        && (op.CancelOp? || r.value.metadata == b.metadata)
  {
  }

  /** Every edge of the graph is taken by some operation from a consistent state. */
  lemma EveryEdgeIsTaken(b: BookingData, to: Status, now: int)
    requires Consistent(b) && Edge(b.status, to)
    requires b.status == HELD ==> !HoldExpired(b, now)
    ensures exists op :: Apply(b, op, now).Ok? && Apply(b, op, now).value.status == to
  {
    var op := if to == HELD then HoldOp(now + 1)
              else if to == CONFIRMED then ConfirmOp
              else if to == CANCELLED then CancelOp("")
              else if to == COMPLETED then CompleteOp
              else NoShowOp;
    assert Apply(b, op, now).Ok? && Apply(b, op, now).value.status == to;
  }

  /** The terminal states admit no transition, and every refusal leaves a typed error. */
  lemma TerminalIsAbsorbing(b: BookingData, op: Op, now: int)
    requires b.status.IsTerminal()
    ensures Apply(b, op, now).Err?
    ensures Apply(b, op, now).error.InvalidBookingTransition?
    ensures Apply(b, op, now).error.from == b.status.Name()
  {
  }

  /** A hold that has lapsed can no longer be confirmed, but it can still be cancelled. */
  lemma ExpiredHoldOnlyCancels(b: BookingData, now: int)
    requires b.status == HELD && Consistent(b) && b.holdExpiresAt.value <= now
    ensures ConfirmStep(b, now) == Err(InvalidBookingTransition("HELD", "CONFIRMED", Some(HOLD_EXPIRED)))
    ensures CancelStep(b, "timeout", now).Ok?
  {
  }

  /** The Booking object.  Identity fields are read-only; the rest change through transitions. */
  class Booking {
    const id: string
    const resourceId: string
    const period: Range
    const actor: Actor
    const serviceRef: Option<string>
    const createdAt: int
    var metadata: map<string, Json>
    var status: Status
    var holdExpiresAt: Option<int>
    var updatedAt: int

    function Data(): (d: BookingData)
      reads this
      ensures d.status == status && d.holdExpiresAt == holdExpiresAt
    {
      BookingData(id, resourceId, period, status, holdExpiresAt, actor, serviceRef, metadata, createdAt, updatedAt)
    }

    predicate Valid()
      reads this
    {
      Consistent(Data())
    }

    /** Builds the object for props the constructor accepts. */
    constructor (p: BookingProps)
      requires Admit(p).Ok?
      ensures Data() == Admit(p).value && Valid()
    {
      id := p.id;
      resourceId := p.resourceId;
      period := p.period;
      status := p.status;
      holdExpiresAt := p.holdExpiresAt;
      actor := p.actor;
      serviceRef := p.serviceRef;
      metadata := p.metadata.GetOr(map[]);
      createdAt := p.createdAt;
      updatedAt := p.updatedAt;
      new;
      if status != HELD && holdExpiresAt.Some? {
        holdExpiresAt := None;
      }
    }

    /** `new Booking(props)`, which throws instead of building a HELD booking without expiry. */
    static method Create(p: BookingProps) returns (r: Result<Booking, Error>)
      ensures r.Err? <==> Admit(p).Err?
      ensures r.Err? ==> r.error == HoldRequiresExpiry
      ensures r.Ok? ==> fresh(r.value) && r.value.Data() == Admit(p).value && r.value.Valid()
    {
      if p.status == HELD && p.holdExpiresAt.None? {
        return Err(HoldRequiresExpiry);
      }
      var b := new Booking(p);
      return Ok(b);
    }

    method Hold(expiresAt: int, now: int) returns (o: Outcome<Error>)
      requires Valid()
      modifies this
      ensures Valid()
      ensures var r := HoldStep(old(Data()), expiresAt, now);
        if r.Ok? then o.Pass? && Data() == r.value else o == Fail(r.error) && Data() == old(Data())
    {
      if status != PENDING {
        return Fail(InvalidBookingTransition(status.Name(), HELD.Name(), Some(ONLY_PENDING_HELD)));
      }
      if expiresAt <= now {
        return Fail(HoldRequiresExpiry);
      }
      status := HELD;
      holdExpiresAt := Some(expiresAt);
      Touch(now);
      return Pass;
    }

    method Confirm(now: int) returns (o: Outcome<Error>)
      requires Valid()
      modifies this
      ensures Valid()
      ensures var r := ConfirmStep(old(Data()), now);
        if r.Ok? then o.Pass? && Data() == r.value else o == Fail(r.error) && Data() == old(Data())
    {
      if status != PENDING && status != HELD {
        return Fail(InvalidBookingTransition(status.Name(), CONFIRMED.Name(), None));
      }
      var expired := IsHoldExpired(now);
      if status == HELD && expired {
        return Fail(InvalidBookingTransition(status.Name(), CONFIRMED.Name(), Some(HOLD_EXPIRED)));
      }
      status := CONFIRMED;
      holdExpiresAt := None;
      Touch(now);
      return Pass;
    }

    method Cancel(reason: string, now: int) returns (o: Outcome<Error>)
      requires Valid()
      modifies this
      ensures Valid()
      ensures var r := CancelStep(old(Data()), reason, now);
        if r.Ok? then o.Pass? && Data() == r.value else o == Fail(r.error) && Data() == old(Data())
    {
      if status == CANCELLED || status == COMPLETED || status == NO_SHOW {
        return Fail(InvalidBookingTransition(status.Name(), CANCELLED.Name(), Some(ALREADY_TERMINAL)));
      }
      status := CANCELLED;
      holdExpiresAt := None;
      AddMetadata("cancellation_reason", JStr(reason));
      Touch(now);
      return Pass;
    }

    method Complete(now: int) returns (o: Outcome<Error>)
      requires Valid()
      modifies this
      ensures Valid()
      ensures var r := CompleteStep(old(Data()), now);
        if r.Ok? then o.Pass? && Data() == r.value else o == Fail(r.error) && Data() == old(Data())
    {
      if status != CONFIRMED {
        return Fail(InvalidBookingTransition(status.Name(), COMPLETED.Name(), Some(ONLY_CONFIRMED_COMPLETE)));
      }
      status := COMPLETED;
      Touch(now);
      return Pass;
    }

    method MarkNoShow(now: int) returns (o: Outcome<Error>)
      requires Valid()
      modifies this
      ensures Valid()
      ensures var r := NoShowStep(old(Data()), now);
        if r.Ok? then o.Pass? && Data() == r.value else o == Fail(r.error) && Data() == old(Data())
    {
      if status != CONFIRMED {
        return Fail(InvalidBookingTransition(status.Name(), NO_SHOW.Name(), Some(ONLY_CONFIRMED_NO_SHOW)));
      }
      status := NO_SHOW;
      Touch(now);
      return Pass;
    }

    method Touch(now: int)
      modifies this
      ensures Data() == old(Data()).(updatedAt := now)
    {
      updatedAt := now;
    }

    method IsHoldExpired(now: int) returns (expired: bool)
      ensures expired == HoldExpired(Data(), now)
    {
      if holdExpiresAt.None? {
        return false;
      }
      return holdExpiresAt.value <= now;
    }

    method AddMetadata(key: string, value: Json)
      modifies this
      ensures Data() == old(Data()).(metadata := old(metadata)[key := value])
    {
      metadata := metadata[key := value];
    }
  }
}
