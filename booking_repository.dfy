// The reservation store: the `bookings` table as a map from id to row, the
// database's atomic insert (expired holds on the slot are cancelled first,
// then an exclusion constraint refuses two HELD/CONFIRMED rows of one
// resource with overlapping periods, and a foreign key refuses an unknown
// resource), its conditional updates, and the repository's translation of
// database errors into domain errors.  `now` is the database clock.
module BookingRepository {
  import opened Wrappers
  import opened Errors
  import opened Json
  import opened TimeRanges
  import opened BookingStatuses
  import opened BookingActors
  import opened TimeSlotRequests

  /** A row as the database holds it; the period is the typed range column. */
  datatype Stored = Stored(id: string, resourceId: string, period: Range, status: Status,
                           holdExpiresAt: Option<int>, bookedBy: Json, serviceRef: Option<string>,
                           metadata: Option<map<string, Json>>, createdAt: int, updatedAt: int)

  type Table = map<string, Stored>

  /** A failure reported by the database client: a code and a message. */
  datatype DbError = DbError(code: string, message: string)

  const EXCLUSION_VIOLATION := "23P01"
  const FOREIGN_KEY_VIOLATION := "23503"
  const NOT_SINGLE := "PGRST116"
  const EXCLUSION_MESSAGE := "conflicting key value violates exclusion constraint"
  const FOREIGN_KEY_MESSAGE := "insert or update on table \"bookings\" violates foreign key constraint"
  const NOT_SINGLE_MESSAGE := "JSON object requested, multiple (or no) rows returned"

  /** The rows the exclusion constraint ranges over. */
  predicate Blocks(s: Stored)
  {
    s.status == HELD || s.status == CONFIRMED
  }

  /** "Active" as the queries define it: confirmed, or held with an expiry still ahead. */
  predicate Active(s: Stored, now: int)
  {
    s.status == CONFIRMED || (s.status == HELD && s.holdExpiresAt.Some? && s.holdExpiresAt.value > now)
  }

  /** A hold whose expiry has passed: what the self-healing trigger cancels. */
  predicate Stale(s: Stored, now: int)
  {
    s.status == HELD && s.holdExpiresAt.Some? && s.holdExpiresAt.value <= now
  }

  predicate Clash(s: Stored, resourceId: string, period: Range)
  {
    s.resourceId == resourceId && s.period.Overlaps(period)
  }

  /** The exclusion constraint. */
  predicate Exclusive(t: Table)
  {
    forall a, b :: a in t && b in t && a != b && Blocks(t[a]) && Blocks(t[b]) && t[a].resourceId == t[b].resourceId
      ==> !t[a].period.Overlaps(t[b].period)
  }

  /** What the table always satisfies: rows keyed by their id, holds carry an expiry, resources exist, no overlap. */
  predicate TableInvariant(t: Table, resources: set<string>)
  {
    && (forall k :: k in t ==> t[k].id == k && t[k].resourceId in resources)
    && (forall k :: k in t && t[k].status == HELD ==> t[k].holdExpiresAt.Some?)
    && Exclusive(t)
  }

  /** The ids of the active rows of a resource whose periods overlap `period`. */
  function ActiveIds(t: Table, resourceId: string, period: Range, now: int): set<string>
  {
    set k | k in t && Clash(t[k], resourceId, period) && Active(t[k], now)
  }

  /** The ids of the constrained rows of a resource whose periods overlap `period`. */
  function BlockingIds(t: Table, resourceId: string, period: Range): set<string>
  {
    set k | k in t && Clash(t[k], resourceId, period) && Blocks(t[k])
  }

  /** The self-healing trigger: every stale hold on the slot becomes CANCELLED. */
  function Heal(t: Table, resourceId: string, period: Range, now: int): (h: Table)
    ensures h.Keys == t.Keys
    ensures forall k :: k in t ==> h[k] == (if Clash(t[k], resourceId, period) && Stale(t[k], now)
                                             then t[k].(status := CANCELLED) else t[k])
  {
    map k | k in t :: if Clash(t[k], resourceId, period) && Stale(t[k], now) then t[k].(status := CANCELLED) else t[k]
  }

  /** Once the slot is healed, the rows that still block it are exactly the active ones. */
  lemma HealedBlockers(t: Table, resources: set<string>, resourceId: string, period: Range, now: int)
    requires TableInvariant(t, resources)
    ensures BlockingIds(Heal(t, resourceId, period, now), resourceId, period) == ActiveIds(t, resourceId, period, now)
  {
  }

  /** The database's insert of one row, trigger and constraints included, as one atomic step. */
  function DbInsert(t: Table, resources: set<string>, row: Stored, now: int): (r: Result<Table, DbError>)
    requires row.id !in t
    ensures row.resourceId !in resources ==> r == Err(DbError(FOREIGN_KEY_VIOLATION, FOREIGN_KEY_MESSAGE))
    ensures row.resourceId in resources && r.Err? ==> r.error == DbError(EXCLUSION_VIOLATION, EXCLUSION_MESSAGE)
    ensures r.Ok? <==> row.resourceId in resources
                       && (!Blocks(row) || BlockingIds(Heal(t, row.resourceId, row.period, now), row.resourceId, row.period) == {})
    ensures r.Ok? ==> r.value == Heal(t, row.resourceId, row.period, now)[row.id := row]
  {
    if row.resourceId !in resources then Err(DbError(FOREIGN_KEY_VIOLATION, FOREIGN_KEY_MESSAGE))
    else
      var healed := Heal(t, row.resourceId, row.period, now);
      if Blocks(row) && BlockingIds(healed, row.resourceId, row.period) != {} then
        Err(DbError(EXCLUSION_VIOLATION, EXCLUSION_MESSAGE))
      else Ok(healed[row.id := row])
  }

  function KindName(kind: RequestType): string
  {
    match kind
    case CUSTOMER_BOOKING => "CUSTOMER_BOOKING"
    case ADMIN_BLOCK => "ADMIN_BLOCK"
  }

  /** The row `createHold` asks the database to insert; `id` and the stamps stand for the column defaults. */
  function NewHold(id: string, request: TimeSlotRequest, actor: Actor, holdExpiresAt: int, now: int): Stored
  {
    Stored(id, request.resourceId, request.timeRange, HELD, Some(holdExpiresAt), ToJson(actor), None,
           Some(map["request_type" := JStr(KindName(request.kind))]), now, now)
  }

  /** `createHold`'s error mapping: the exclusion code is an overlap, the foreign-key code a missing resource. */
  function InsertError(e: DbError, resourceId: string): (err: Error)
    ensures err.IsDomainError()
    ensures err.Overlap? <==> e.code == EXCLUSION_VIOLATION
    ensures err.ResourceNotFound? <==> e.code == FOREIGN_KEY_VIOLATION
    ensures err.Overlap? ==> err.Message() == "Slot overlap detected for resource " + resourceId
    ensures err.ResourceNotFound? ==> err.resourceId == resourceId
    ensures !err.Overlap? && !err.ResourceNotFound? ==> err.Message() == "Database Error: " + e.message
  {
    if e.code == EXCLUSION_VIOLATION then Overlap(Some("Slot overlap detected for resource " + resourceId))
    else if e.code == FOREIGN_KEY_VIOLATION then ResourceNotFound(resourceId)
    else DomainError("Database Error: " + e.message)
  }

  /**
   * `createHold` against the table: a missing resource and an active
   * overlapping booking are the two refusals; otherwise the new HELD row is
   * added, the stale holds on the slot are cancelled and nothing else changes.
   */
  function CreateHoldResult(t: Table, resources: set<string>, id: string, request: TimeSlotRequest,
                            actor: Actor, holdExpiresAt: int, now: int): (r: Result<Table, Error>)
    requires id !in t && TableInvariant(t, resources)
    ensures request.resourceId !in resources ==> r == Err(ResourceNotFound(request.resourceId))
    ensures request.resourceId in resources ==>
              (r.Err? <==> ActiveIds(t, request.resourceId, request.timeRange, now) != {})
    ensures r.Err? && request.resourceId in resources ==>
              r.error == Overlap(Some("Slot overlap detected for resource " + request.resourceId))
    ensures r.Ok? ==> r.value.Keys == t.Keys + {id} && r.value[id] == NewHold(id, request, actor, holdExpiresAt, now)
    ensures r.Ok? ==> forall k :: k in t ==>
              r.value[k] == (if Clash(t[k], request.resourceId, request.timeRange) && Stale(t[k], now)
                             then t[k].(status := CANCELLED) else t[k])
  {
    var row := NewHold(id, request, actor, holdExpiresAt, now);
    HealedBlockers(t, resources, request.resourceId, request.timeRange, now);
    match DbInsert(t, resources, row, now)
    case Err(e) => Err(InsertError(e, request.resourceId))
    case Ok(t') => Ok(t')
  }

  /** Healing only takes rows out of the constraint. */
  lemma HealKeepsInvariant(t: Table, resources: set<string>, resourceId: string, period: Range, now: int)
    requires TableInvariant(t, resources)
    ensures TableInvariant(Heal(t, resourceId, period, now), resources)
  {
    var h := Heal(t, resourceId, period, now);
    assert forall k :: k in h && Blocks(h[k]) ==> h[k] == t[k];
  }

  /** A row that clashes with no constrained row of its resource can be added. */
  lemma AddRowKeepsInvariant(h: Table, resources: set<string>, row: Stored)
    requires TableInvariant(h, resources) && row.id !in h && row.resourceId in resources
    requires row.status == HELD ==> row.holdExpiresAt.Some?
    requires Blocks(row) ==> BlockingIds(h, row.resourceId, row.period) == {}
    ensures TableInvariant(h[row.id := row], resources)
  {
    var t' := h[row.id := row];
    forall a, b | a in t' && b in t' && a != b && Blocks(t'[a]) && Blocks(t'[b]) && t'[a].resourceId == t'[b].resourceId
      ensures !t'[a].period.Overlaps(t'[b].period)
    {
      if a == row.id {
        assert b !in BlockingIds(h, row.resourceId, row.period);
      } else if b == row.id {
        assert a !in BlockingIds(h, row.resourceId, row.period);
      }
    }
  }

  /** A successful hold keeps the table's invariant. */
  lemma CreateHoldKeepsInvariant(t: Table, resources: set<string>, id: string, request: TimeSlotRequest,
                                 actor: Actor, holdExpiresAt: int, now: int)
    requires id !in t && TableInvariant(t, resources)
    ensures var r := CreateHoldResult(t, resources, id, request, actor, holdExpiresAt, now);
      r.Ok? ==> TableInvariant(r.value, resources)
  {
    var r := CreateHoldResult(t, resources, id, request, actor, holdExpiresAt, now);
    if r.Ok? {
      HealKeepsInvariant(t, resources, request.resourceId, request.timeRange, now);
      HealedBlockers(t, resources, request.resourceId, request.timeRange, now);
      AddRowKeepsInvariant(Heal(t, request.resourceId, request.timeRange, now), resources,
                           NewHold(id, request, actor, holdExpiresAt, now));
    }
  }

  /** The outcome of a conditional update with `.select()`: the new table, no matching row, or a database error. */
  datatype Update = Updated(table: Table) | NoRow | Refused(error: DbError)

  /** `.single()`: a result without exactly one row is an error. */
  function Single(u: Update): (s: Update)
    ensures u.NoRow? ==> s == Refused(DbError(NOT_SINGLE, NOT_SINGLE_MESSAGE))
    ensures !u.NoRow? ==> s == u
  {
    if u.NoRow? then Refused(DbError(NOT_SINGLE, NOT_SINGLE_MESSAGE)) else u
  }

  /** The confirming update: only a HELD or PENDING row matches; a PENDING one entering the constraint may violate it. */
  function ConfirmUpdate(t: Table, id: string, now: int): (u: Update)
    ensures u.NoRow? <==> id !in t || (t[id].status != HELD && t[id].status != PENDING)
    ensures u.Refused? ==> id in t && t[id].status == PENDING && u.error.code == EXCLUSION_VIOLATION
    ensures u.Updated? ==> u.table == t[id := t[id].(status := CONFIRMED, holdExpiresAt := None, updatedAt := now)]
    ensures id in t && t[id].status == HELD ==> u.Updated?
  {
    if id !in t || (t[id].status != HELD && t[id].status != PENDING) then NoRow
    else if t[id].status == PENDING && BlockingIds(t - {id}, t[id].resourceId, t[id].period) != {} then
      Refused(DbError(EXCLUSION_VIOLATION, EXCLUSION_MESSAGE))
    else Updated(t[id := t[id].(status := CONFIRMED, holdExpiresAt := None, updatedAt := now)])
  }

  /** `confirm` once the update has answered: a database error, a missing row told apart from a row in the wrong state, or success. */
  function ConfirmOutcome(u: Update, t: Table, id: string): (r: Result<Table, Error>)
    ensures u.Refused? ==> r == Err(DomainError("Confirm Error: " + u.error.message))
    ensures u.NoRow? && id !in t ==> r == Err(BookingNotFound(id))
    ensures u.NoRow? && id in t ==>
              r == Err(DomainError("Cannot confirm booking " + id + ": Invalid state " + t[id].status.Name()))
    ensures u.Updated? ==> r == Ok(u.table)
  {
    match u
    case Refused(e) => Err(DomainError("Confirm Error: " + e.message))
    case NoRow =>
      if id !in t then Err(BookingNotFound(id))
      else Err(DomainError("Cannot confirm booking " + id + ": Invalid state " + t[id].status.Name()))
    case Updated(t') => Ok(t')
  }

  /** `confirm` as written: the update ends in `.single()`. */
  function ConfirmRowsAsWritten(t: Table, id: string, now: int): Result<Table, Error>
  {
    ConfirmOutcome(Single(ConfirmUpdate(t, id, now)), t, id)
  }

  /** `confirm` as intended: a missing row reaches the not-found and wrong-state branches. */
  function ConfirmRows(t: Table, id: string, now: int): (r: Result<Table, Error>)
    ensures id !in t ==> r == Err(BookingNotFound(id))
    ensures id in t && t[id].status != HELD && t[id].status != PENDING ==>
              r == Err(DomainError("Cannot confirm booking " + id + ": Invalid state " + t[id].status.Name()))
    ensures r.Ok? ==> id in t && (t[id].status == HELD || t[id].status == PENDING)
                      && r.value == t[id := t[id].(status := CONFIRMED, holdExpiresAt := None, updatedAt := now)]
  {
    ConfirmOutcome(ConfirmUpdate(t, id, now), t, id)
  }

  /**
   * As written, `confirm` can never report a missing booking or a wrong
   * state: with `.single()` an empty match is a database error, which is
   * rethrown as "Confirm Error" before the not-found branch is reached.
   */
  lemma ConfirmAsWrittenHidesNotFound(t: Table, id: string, now: int)
    ensures !(ConfirmRowsAsWritten(t, id, now).Err? && ConfirmRowsAsWritten(t, id, now).error.BookingNotFound?)
    ensures id !in t ==> ConfirmRowsAsWritten(t, id, now) == Err(DomainError("Confirm Error: " + NOT_SINGLE_MESSAGE))
  {
  }

  /** The store confirms a lapsed hold, which the entity itself would refuse. */
  lemma ConfirmIgnoresExpiry(t: Table, id: string, now: int)
    requires id in t && t[id].status == HELD && t[id].holdExpiresAt.Some? && t[id].holdExpiresAt.value <= now
    ensures ConfirmRows(t, id, now).Ok? && ConfirmRows(t, id, now).value[id].status == CONFIRMED
  {
  }

  /** A successful confirm keeps the table's invariant. */
  lemma ConfirmKeepsInvariant(t: Table, resources: set<string>, id: string, now: int)
    requires TableInvariant(t, resources)
    ensures ConfirmRows(t, id, now).Ok? ==> TableInvariant(ConfirmRows(t, id, now).value, resources)
  {
    var r := ConfirmRows(t, id, now);
    if r.Ok? {
      var t' := r.value;
      forall a, b | a in t' && b in t' && a != b && Blocks(t'[a]) && Blocks(t'[b]) && t'[a].resourceId == t'[b].resourceId
        ensures !t'[a].period.Overlaps(t'[b].period)
      {
        if t[id].status == PENDING && (a == id || b == id) {
          var other := if a == id then b else a;
          assert other in t - {id};
          assert other !in BlockingIds(t - {id}, t[id].resourceId, t[id].period);
        }
      }
    }
  }

  /** The cancelling update: any existing row, whatever its state. */
  function CancelUpdate(t: Table, id: string, reason: string, now: int): (u: Update)
    ensures u.NoRow? <==> id !in t
    ensures u.Updated? ==> u.table == t[id := t[id].(status := CANCELLED, holdExpiresAt := None,
                                              metadata := Some(map["cancellation_reason" := JStr(reason)]), updatedAt := now)]
  {
    if id !in t then NoRow
    else Updated(t[id := t[id].(status := CANCELLED, holdExpiresAt := None,
                                metadata := Some(map["cancellation_reason" := JStr(reason)]), updatedAt := now)])
  }

  /** `cancel` once the update has answered. */
  function CancelOutcome(u: Update, id: string): (r: Result<Table, Error>)
    ensures u.Refused? ==> r == Err(DomainError(u.error.message))
    ensures u.NoRow? ==> r == Err(BookingNotFound(id))
    ensures u.Updated? ==> r == Ok(u.table)
  {
    match u
    case Refused(e) => Err(DomainError(e.message))
    case NoRow => Err(BookingNotFound(id))
    case Updated(t') => Ok(t')
  }

  /** `cancel` as written, ending in `.single()`. */
  function CancelRowsAsWritten(t: Table, id: string, reason: string, now: int): Result<Table, Error>
  {
    CancelOutcome(Single(CancelUpdate(t, id, reason, now)), id)
  }

  /** `cancel` as intended: an unknown id is reported as such. */
  function CancelRows(t: Table, id: string, reason: string, now: int): (r: Result<Table, Error>)
    ensures r.Err? <==> id !in t
    ensures r.Err? ==> r.error == BookingNotFound(id)
    ensures r.Ok? ==> r.value.Keys == t.Keys && r.value[id].status == CANCELLED && r.value[id].holdExpiresAt.None?
    ensures r.Ok? ==> r.value[id].metadata == Some(map["cancellation_reason" := JStr(reason)])
    ensures r.Ok? ==> forall k :: k in t && k != id ==> r.value[k] == t[k]
  {
    CancelOutcome(CancelUpdate(t, id, reason, now), id)
  }

  /** As written, cancelling an unknown id surfaces the client's "not a single row" error instead of BookingNotFound. */
  lemma CancelAsWrittenHidesNotFound(t: Table, id: string, reason: string, now: int)
    ensures id !in t ==> CancelRowsAsWritten(t, id, reason, now) == Err(DomainError(NOT_SINGLE_MESSAGE))
    ensures !(CancelRowsAsWritten(t, id, reason, now).Err? && CancelRowsAsWritten(t, id, reason, now).error.BookingNotFound?)
  {
  }

  /** Cancelling takes a row out of the constraint, so it keeps the invariant; terminal rows are cancelled too. */
  lemma CancelKeepsInvariant(t: Table, resources: set<string>, id: string, reason: string, now: int)
    requires TableInvariant(t, resources)
    ensures CancelRows(t, id, reason, now).Ok? ==> TableInvariant(CancelRows(t, id, reason, now).value, resources)
    ensures id in t && t[id].status == COMPLETED ==> CancelRows(t, id, reason, now).Ok?
  {
  }

  /** The bookings table behind the repository.  Row ids are chosen by the caller, standing for generated keys. */
  class BookingTable {
    var rows: Table
    const resources: set<string>

    predicate Valid()
      reads this
    {
      TableInvariant(rows, resources)
    }

    constructor (resources: set<string>)
      ensures rows == map[] && this.resources == resources && Valid()
    {
      rows := map[];
      this.resources := resources;
    }

    /** `createHold`: the insert, then the translation of its error code. */
    method CreateHold(id: string, request: TimeSlotRequest, actor: Actor, holdExpiresAt: int, now: int)
      returns (r: Result<Stored, Error>)
      requires id !in rows && Valid()
      modifies this
      ensures var h := CreateHoldResult(old(rows), resources, id, request, actor, holdExpiresAt, now);
        && (h.Ok? ==> r == Ok(NewHold(id, request, actor, holdExpiresAt, now)) && rows == h.value)
        && (h.Err? ==> r == Err(h.error) && rows == old(rows))
      ensures Valid()
    {
      CreateHoldKeepsInvariant(rows, resources, id, request, actor, holdExpiresAt, now);
      HealedBlockers(rows, resources, request.resourceId, request.timeRange, now);
      var res := DbInsert(rows, resources, NewHold(id, request, actor, holdExpiresAt, now), now);
      if res.Err? {
        return Err(InsertError(res.error, request.resourceId));
      }
      rows := res.value;
      return Ok(rows[id]);
    }

    /** `confirm`, distinguishing a missing booking from a booking in the wrong state. */
    method Confirm(id: string, now: int) returns (o: Outcome<Error>)
      requires Valid()
      modifies this
      ensures var c := ConfirmRows(old(rows), id, now);
        && (c.Ok? ==> o.Pass? && rows == c.value)
        && (c.Err? ==> o == Fail(c.error) && rows == old(rows))
      ensures Valid()
    {
      ConfirmKeepsInvariant(rows, resources, id, now);
      var u := ConfirmUpdate(rows, id, now);
      if u.Refused? {
        return Fail(DomainError("Confirm Error: " + u.error.message));
      }
      if u.NoRow? {
        var found := FindById(id);
        if found.None? {
          return Fail(BookingNotFound(id));
        }
        return Fail(DomainError("Cannot confirm booking " + id + ": Invalid state " + found.value.status.Name()));
      }
      rows := u.table;
      return Pass;
    }

    /** `cancel`: any existing booking becomes CANCELLED with the reason as its only metadata. */
    method Cancel(id: string, reason: string, now: int) returns (o: Outcome<Error>)
      requires Valid()
      modifies this
      ensures var c := CancelRows(old(rows), id, reason, now);
        && (c.Ok? ==> o.Pass? && rows == c.value)
        && (c.Err? ==> o == Fail(c.error) && rows == old(rows))
      ensures Valid()
    {
      CancelKeepsInvariant(rows, resources, id, reason, now);
      var u := CancelUpdate(rows, id, reason, now);
      if u.NoRow? {
        return Fail(BookingNotFound(id));
      }
      rows := u.table;
      return Pass;
    }

    /** `findActiveBookings`: the active rows of the resource overlapping the period (the order of the rows is the database's). */
    function FindActiveBookings(resourceId: string, period: Range, now: int): (ids: set<string>)
      reads this
      ensures forall k :: k in ids ==> k in rows && rows[k].resourceId == resourceId && Active(rows[k], now)
                                        && rows[k].period.Overlaps(period)
      ensures forall k :: k in rows && Active(rows[k], now) && Clash(rows[k], resourceId, period) ==> k in ids
    {
      ActiveIds(rows, resourceId, period, now)
    }

    /** `hasConflicts`: whether `findActiveBookings` would find anything. */
    function HasConflicts(resourceId: string, period: Range, now: int): (b: bool)
      reads this
      ensures b <==> FindActiveBookings(resourceId, period, now) != {}
    {
      ActiveIds(rows, resourceId, period, now) != {}
    }

    /** `findById`: the row with that id, if any. */
    function FindById(id: string): (r: Option<Stored>)
      reads this
      ensures r.Some? <==> id in rows
      ensures r.Some? ==> r.value == rows[id]
    {
      if id in rows then Some(rows[id]) else None
    }
  }
}
