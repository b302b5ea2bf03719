// The booking configuration document, its defaults and its validator.
module ConfigTypes {
  import opened Wrappers
  import opened Errors
  import opened Json

  /** The fallback configuration. */
  const DEFAULT_CONFIG: Json := JObj(map[
    "version" := JStr("0.0.0"),
    "featureFlags" := JObj(map[]),
    "policies" := JObj(map[]),
    "business" := JObj(map["timezone" := JStr("UTC"), "currency" := JStr("USD")]),
    "meta" := JObj(map["source" := JStr("FILE")])])

  const ROOT_NOT_OBJECT := "Config root must be an object"
  const BAD_VERSION := "Missing or invalid \"version\""
  const BAD_FLAGS := "Missing or invalid \"featureFlags\" object"
  const BAD_POLICIES := "Missing or invalid \"policies\" object"

  /** A member that is present, truthy and of type object (an array counts, as `typeof` says). */
  predicate ObjectMember(c: Json, key: string)
  {
    TruthyOpt(Member(c, key)) && TypeofObject(Member(c, key).value)
  }

  /** The shape the validator demands of a configuration. */
  predicate WellFormed(c: Json)
  {
    c.JObj? && Member(c, "version").Some? && Member(c, "version").value.JStr?
    && ObjectMember(c, "featureFlags") && ObjectMember(c, "policies")
  }

  /**
   * `validateConfig`: the checks run in a fixed order and the first that
   * fails is reported; a configuration that passes is returned unchanged.
   */
  function ValidateConfig(c: Json): (r: Result<Json, Error>)
    ensures r.Ok? <==> WellFormed(c)
    ensures r.Ok? ==> r.value == c
    ensures !Truthy(c) || !TypeofObject(c) ==> r == Err(ConfigValidation(ROOT_NOT_OBJECT))
    ensures Truthy(c) && TypeofObject(c) && !(Member(c, "version").Some? && Member(c, "version").value.JStr?)
            ==> r == Err(ConfigValidation(BAD_VERSION))
    ensures (Truthy(c) && TypeofObject(c) && Member(c, "version").Some? && Member(c, "version").value.JStr?
             && !ObjectMember(c, "featureFlags")) ==> r == Err(ConfigValidation(BAD_FLAGS))
    ensures (Truthy(c) && TypeofObject(c) && Member(c, "version").Some? && Member(c, "version").value.JStr?
             && ObjectMember(c, "featureFlags") && !ObjectMember(c, "policies")) ==> r == Err(ConfigValidation(BAD_POLICIES))
  {
    if !Truthy(c) || !TypeofObject(c) then Err(ConfigValidation(ROOT_NOT_OBJECT))
    else if !(Member(c, "version").Some? && Member(c, "version").value.JStr?) then Err(ConfigValidation(BAD_VERSION))
    else if !ObjectMember(c, "featureFlags") then Err(ConfigValidation(BAD_FLAGS))
    else if !ObjectMember(c, "policies") then Err(ConfigValidation(BAD_POLICIES))
    else Ok(c)
  }

  /** The defaults pass validation, and the validator's errors carry the ConfigValidation prefix. */
  lemma DefaultIsValid(c: Json)
    ensures ValidateConfig(DEFAULT_CONFIG) == Ok(DEFAULT_CONFIG)
    ensures ValidateConfig(c).Err? ==> ValidateConfig(c).error.Message()[..19] == "[ConfigValidation] "
  {
    assert Member(DEFAULT_CONFIG, "version") == Some(JStr("0.0.0"));
    assert Member(DEFAULT_CONFIG, "featureFlags") == Some(JObj(map[]));
    assert Member(DEFAULT_CONFIG, "policies") == Some(JObj(map[]));
  }
}
