// Turning a row of the `bookings` table, as the database client returns it,
// into a Booking.  The interval column arrives as Postgres range text,
// e.g. `["2024-01-01 10:00:00+00","2024-01-01 11:00:00+00")`; timestamps are
// instants and the status is the stored enum value.
module BookingMapper {
  import opened Wrappers
  import opened Errors
  import opened Json
  import opened Text
  import opened TimeRanges
  import opened BookingStatuses
  import opened BookingActors
  import opened Bookings

  datatype Row = Row(id: string, resourceId: string, period: string, status: Status,
                     holdExpiresAt: Option<int>, bookedBy: Json, serviceRef: Option<string>,
                     metadata: Option<map<string, Json>>, createdAt: int, updatedAt: int)

  const BRACKETS: set<char> := {'[', ']', '(', ')'}
  const QUOTES: set<char> := {'"'}

  const END_MISSING := "Cannot read properties of undefined (reading 'replace')"

  /**
   * `parsePostgresRange`: drops every bracket and parenthesis, splits at the
   * commas and reads the first two parts, quotes removed, as ISO instants;
   * without a comma there is no second part and reading it fails.
   */
  function ParsePostgresRange(text: string, parse: string -> Option<int>): (r: Result<Range, Error>)
    ensures var parts := Split(RemoveChars(text, BRACKETS), ',');
      && (|parts| < 2 ==> r == Err(TypeError(END_MISSING)))
      && (|parts| >= 2 ==> r == FromISO(RemoveChars(parts[0], QUOTES), RemoveChars(parts[1], QUOTES), parse))
  {
    var cleaned := RemoveChars(text, BRACKETS);
    var parts := Split(cleaned, ',');
    if |parts| < 2 then Err(TypeError(END_MISSING))
    else FromISO(RemoveChars(parts[0], QUOTES), RemoveChars(parts[1], QUOTES), parse)
  }

  /** A bound as the range text may carry it: no brackets, parentheses or commas. */
  predicate PlainBound(s: string)
  {
    forall i :: 0 <= i < |s| ==> s[i] !in BRACKETS && s[i] != ','
  }

  /** For text `[a,b)` the bounds read are `a` and `b` with their quotes removed. */
  lemma BoundsOfRangeText(a: string, b: string, parse: string -> Option<int>)
    requires PlainBound(a) && PlainBound(b)
    ensures ParsePostgresRange("[" + a + "," + b + ")", parse) == FromISO(RemoveChars(a, QUOTES), RemoveChars(b, QUOTES), parse)
  {
    StripBrackets(a, b);
    SplitAt(a, ',', b);
    SplitNone(b, ',');
  }

  lemma StripBrackets(a: string, b: string)
    requires PlainBound(a) && PlainBound(b)
    ensures RemoveChars("[" + a + "," + b + ")", BRACKETS) == a + [','] + b
  {
    var x := a + [','] + b;
    assert forall i :: 0 <= i < |x| ==> x[i] !in BRACKETS by {
      forall i | 0 <= i < |x| ensures x[i] !in BRACKETS {
        if i < |a| { assert x[i] == a[i]; }
        else if i > |a| { assert x[i] == b[i - |a| - 1]; }
      }
    }
    assert "[" + a + "," + b + ")" == ("[" + x) + ")";
    RemoveCharsConcat("[" + x, ")", BRACKETS);
    RemoveCharsConcat("[", x, BRACKETS);
    assert RemoveChars("[", BRACKETS) == [];
    assert RemoveChars(")", BRACKETS) == [];
  }

  /** Range text without a comma never yields an interval. */
  lemma NoCommaFails(text: string, parse: string -> Option<int>)
    requires forall i :: 0 <= i < |text| ==> text[i] != ','
    ensures ParsePostgresRange(text, parse) == Err(TypeError(END_MISSING))
  {
    var cleaned := RemoveChars(text, BRACKETS);
    assert forall i :: 0 <= i < |cleaned| ==> cleaned[i] != ',' by {
      RemoveCharsKeeps(text, BRACKETS, ',');
    }
    SplitNone(cleaned, ',');
  }

  lemma {:induction false} RemoveCharsKeeps(s: string, drop: set<char>, c: char)
    requires forall i :: 0 <= i < |s| ==> s[i] != c
    ensures forall i :: 0 <= i < |RemoveChars(s, drop)| ==> RemoveChars(s, drop)[i] != c
  {
    if s != [] {
      RemoveCharsKeeps(s[1..], drop, c);
    }
  }

  /** A bound the database writes: plain and unquoted. */
  predicate BareBound(s: string)
  {
    PlainBound(s) && forall i :: 0 <= i < |s| ==> s[i] !in QUOTES
  }

  /** The text the database sends for an interval: both bounds quoted, `[` closed by `)`. */
  function RangeText(r: Range, render: int -> string): string
  {
    "[\"" + render(r.start) + "\",\"" + render(r.end) + "\")"
  }

  /** An interval sent as range text is read back as itself, as long as the database renders bounds the ISO parser reads back. */
  lemma RangeTextRoundTrip(r: Range, render: int -> string, parse: string -> Option<int>)
    requires BareBound(render(r.start)) && BareBound(render(r.end))
    requires parse(render(r.start)) == Some(r.start) && parse(render(r.end)) == Some(r.end)
    ensures ParsePostgresRange(RangeText(r, render), parse) == Ok(r)
  {
    var a, b := "\"" + render(r.start) + "\"", "\"" + render(r.end) + "\"";
    assert RangeText(r, render) == "[" + a + "," + b + ")";
    Quoted(render(r.start));
    Quoted(render(r.end));
    BoundsOfRangeText(a, b, parse);
  }

  lemma Quoted(s: string)
    requires BareBound(s)
    ensures PlainBound("\"" + s + "\"")
    ensures RemoveChars("\"" + s + "\"", QUOTES) == s
  {
    var q := "\"" + s + "\"";
    forall i | 0 <= i < |q| ensures q[i] !in BRACKETS && q[i] != ',' {
      if 0 < i < |q| - 1 { assert q[i] == s[i - 1]; }
    }
    RemoveCharsConcat("\"" + s, "\"", QUOTES);
    RemoveCharsConcat("\"", s, QUOTES);
    assert RemoveChars("\"", QUOTES) == [];
  }

  /** The Booking props the row describes, once its interval and actor are read. */
  function PropsOf(row: Row, period: Range, actor: Actor): BookingProps
  {
    BookingProps(row.id, row.resourceId, period, row.status, row.holdExpiresAt, actor,
                 row.serviceRef, row.metadata, row.createdAt, row.updatedAt)
  }

  /**
   * `toDomain`: the interval is parsed first, then the actor, then the
   * entity's constructor checks its invariant.
   */
  function ToDomain(row: Row, parse: string -> Option<int>): (r: Result<BookingData, Error>)
    ensures ParsePostgresRange(row.period, parse).Err? ==> r == Err(ParsePostgresRange(row.period, parse).error)
    ensures ParsePostgresRange(row.period, parse).Ok? && FromJson(row.bookedBy).Err? ==> r == Err(FromJson(row.bookedBy).error)
    ensures r.Ok? ==>
      && ParsePostgresRange(row.period, parse) == Ok(r.value.period)
      && FromJson(row.bookedBy) == Ok(r.value.actor)
      && r.value.id == row.id && r.value.resourceId == row.resourceId && r.value.status == row.status
      && r.value.serviceRef == row.serviceRef && r.value.metadata == row.metadata.GetOr(map[])
      && Consistent(r.value)
    ensures (ParsePostgresRange(row.period, parse).Ok? && FromJson(row.bookedBy).Ok?
             && row.status == HELD && row.holdExpiresAt.None?) ==> r == Err(HoldRequiresExpiry)
    ensures row.status == HELD && row.holdExpiresAt.None? ==> r.Err?
    ensures r.Ok? && row.status == HELD ==> r.value.holdExpiresAt == row.holdExpiresAt
    ensures r.Ok? ==> r.value.createdAt == row.createdAt && r.value.updatedAt == row.updatedAt
    ensures (ParsePostgresRange(row.period, parse).Ok? && FromJson(row.bookedBy).Ok?
             && !(row.status == HELD && row.holdExpiresAt.None?)) ==> r.Ok?
  {
    match ParsePostgresRange(row.period, parse)
    case Err(e) => Err(e)
    case Ok(period) =>
      match FromJson(row.bookedBy)
      case Err(e) => Err(e)
      case Ok(actor) => Admit(PropsOf(row, period, actor))
  }
}
