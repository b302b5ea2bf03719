// Who made a booking: a type tag, a non-empty identifier and free-form
// details; stored in the database as a JSON object.
module BookingActors {
  import opened Wrappers
  import opened Errors
  import opened Json

  const CUSTOMER := "CUSTOMER"
  const STAFF := "STAFF"
  const SYSTEM := "SYSTEM"
  const API := "API"

  /** `type` keeps the tag as stored; the four constants above are the declared ones. */
  datatype Actor = Actor(kind: string, id: string, details: Json)

  const ID_REQUIRED := "ID is required"
  const MISSING_FIELDS := "Missing type or id in JSON"

  /** The private constructor: an empty identifier is refused. */
  function Construct(kind: string, id: string, details: Json): (r: Result<Actor, Error>)
    ensures r.Ok? <==> id != ""
    ensures r.Ok? ==> r.value == Actor(kind, id, details)
    ensures r.Err? ==> r.error == InvalidBookingActor(ID_REQUIRED)
  {
    if id == "" then Err(InvalidBookingActor(ID_REQUIRED)) else Ok(Actor(kind, id, details))
  }

  /** `BookingActor.create`; leaving `details` out means an empty object. */
  function Create(kind: string, id: string, details: Option<Json>): (r: Result<Actor, Error>)
    ensures r.Ok? <==> id != ""
    ensures r.Ok? ==> r.value.details == details.GetOr(EmptyObject)
  {
    Construct(kind, id, details.GetOr(EmptyObject))
  }

  /** `toJSON`: the persisted form. */
  function ToJson(a: Actor): (j: Json)
    ensures j.JObj? && j.fields.Keys == {"type", "id", "details"}
    ensures Member(j, "type") == Some(JStr(a.kind))
    ensures Member(j, "id") == Some(JStr(a.id)) && Member(j, "details") == Some(a.details)
  {
    JObj(map["type" := JStr(a.kind), "id" := JStr(a.id), "details" := a.details])
  }

  /** A JSON string member, if the value is one. */
  function StrMember(j: Json, key: string): Option<string>
  {
    match Member(j, key)
    case Some(JStr(s)) => Some(s)
    case _ => None
  }

  /**
   * `fromJSON`.  Reading a field of `null` is a runtime TypeError; a missing
   * or falsy type or id is refused; falsy details become an empty object.
   */
  function FromJson(j: Json): (r: Result<Actor, Error>)
    ensures j.JNull? ==> r.Err? && r.error.TypeError?
    ensures !j.JNull? && (!TruthyOpt(Member(j, "type")) || !TruthyOpt(Member(j, "id"))) ==>
      r == Err(InvalidBookingActor(MISSING_FIELDS))
    ensures r.Ok? ==> r.value.id != "" && r.value.kind != "" && Truthy(r.value.details)
    ensures r.Ok? ==> Member(j, "id") == Some(JStr(r.value.id)) && Member(j, "type") == Some(JStr(r.value.kind))
    ensures r.Ok? ==> r.value.details == if TruthyOpt(Member(j, "details")) then Member(j, "details").value else EmptyObject
  {
    if j.JNull? then Err(TypeError("Cannot read properties of null (reading 'type')"))
    else if !TruthyOpt(Member(j, "type")) || !TruthyOpt(Member(j, "id")) then
      Err(InvalidBookingActor(MISSING_FIELDS))
    else
      var kind := StrMember(j, "type");
      var id := StrMember(j, "id");
      if kind.None? || id.None? then Err(InvalidBookingActor(MISSING_FIELDS))
      else
        var d := Member(j, "details");
        Construct(kind.value, id.value, if TruthyOpt(d) then d.value else EmptyObject)
  }

  /** Persisting an actor and reading it back gives it again, provided its type is set and its details are truthy. */
  lemma JsonRoundTrip(a: Actor)
    requires a.kind != "" && a.id != "" && Truthy(a.details)
    ensures FromJson(ToJson(a)) == Ok(a)
  {
    var j := ToJson(a);
    assert Member(j, "type") == Some(JStr(a.kind));
  }

  /** Falsy persisted details are read back as an empty object. */
  lemma FalsyDetailsBecomeEmpty(a: Actor)
    requires a.kind != "" && a.id != "" && !Truthy(a.details)
    ensures FromJson(ToJson(a)) == Ok(a.(details := EmptyObject))
  {
    var j := ToJson(a);
    assert Member(j, "type") == Some(JStr(a.kind));
  }
}
