// Layered configuration: code defaults, then the file configuration, then
// the active database configuration, deep-merged in that order and
// validated before it replaces the current one.  The database answer is a
// parameter of `Load`.
module ConfigService {
  import opened Wrappers
  import opened Errors
  import opened Json
  import opened Text
  import opened ConfigTypes
  import opened FeatureFlags

  /** Array elements keyed by their index, as spreading or `Object.keys` sees an array. */
  function IndexFields(items: seq<Json>): (m: map<string, Json>)
    ensures forall k :: k in m ==> m[k] in items
    decreases |items|
  {
    if items == [] then map[]
    else IndexFields(items[..|items| - 1])[NatToString(|items| - 1) := items[|items| - 1]]
  }

  /** The own enumerable entries of a value: an object's members, an array's indexed elements, nothing otherwise. */
  function Entries(v: Json): (m: map<string, Json>)
    ensures forall k :: k in m ==> m[k] < v
  {
    match v
    case JObj(f) => f
    case JArr(items) => IndexFields(items)
    case _ => map[]
  }

  predicate Mergeable(v: Json)
  {
    TypeofObject(v) && !v.JNull?
  }

  /**
   * `deepMerge(target, source)`: a non-object target yields the source, a
   * non-object source yields the target; otherwise every source entry
   * replaces the target's, except that an object entry meeting an existing
   * key is merged into it.  Arrays are replaced whole.
   */
  function Merge(target: Json, source: Json): (r: Json)
    ensures !Mergeable(target) ==> r == source
    ensures Mergeable(target) && !Mergeable(source) ==> r == target
    ensures Mergeable(target) && Mergeable(source) ==>
              && r.JObj?
              && r.fields.Keys == Entries(target).Keys + Entries(source).Keys
              && (forall k :: k in Entries(target) && k !in Entries(source) ==> r.fields[k] == Entries(target)[k])
              && (forall k :: k in Entries(source) && !Entries(source)[k].JObj? ==> r.fields[k] == Entries(source)[k])
    decreases source, 0
  {
    if !Mergeable(target) then source
    else if !Mergeable(source) then target
    else
      var t, s := Entries(target), Entries(source);
      JObj(map k | k in t.Keys + s.Keys :: if k in s then MergeEntry(t, k, s[k]) else t[k])
  }

  /** The value one source entry leaves under its key. */
  function MergeEntry(t: map<string, Json>, k: string, v: Json): Json
    decreases v, 1
  {
    if v.JArr? then v
    else if v.JObj? then (if k in t then Merge(t[k], v) else v)
    else v
  }

  /** The value at a path of object members. */
  function Lookup(v: Json, path: seq<string>): Option<Json>
    decreases |path|
  {
    if path == [] then Some(v)
    else if v.JObj? && path[0] in v.fields then Lookup(v.fields[path[0]], path[1..])
    else None
  }

  /** A leaf the source sets at a path (through objects) is the merged value there: later layers win. */
  lemma {:induction false} SourceLeafWins(target: Json, source: Json, path: seq<string>, leaf: Json)
    requires |path| >= 1 && Lookup(source, path) == Some(leaf) && !leaf.JObj?
    ensures Lookup(Merge(target, source), path) == Some(leaf)
    decreases |path|
  {
    if Mergeable(target) {
      var k := path[0];
      assert source.JObj? && k in source.fields;
      var s := source.fields;
      var r := Merge(target, source);
      var t := Entries(target);
      assert k in r.fields && r.fields[k] == MergeEntry(t, k, s[k]);
      if |path| == 1 {
        assert r.fields[k] == s[k];
      } else {
        assert s[k].JObj?;
        if k in t {
          assert r.fields[k] == Merge(t[k], s[k]);
          SourceLeafWins(t[k], s[k], path[1..], leaf);
        } else {
          assert r.fields[k] == s[k];
        }
      }
    }
  }

  /** The source does not reach the path: some object on the way lacks the next key. */
  predicate Absent(source: Json, path: seq<string>)
    decreases |path|
  {
    |path| >= 1 &&
    (!Mergeable(source)
     || (source.JObj? &&
         (path[0] !in source.fields
          || (source.fields[path[0]].JObj? && Absent(source.fields[path[0]], path[1..])))))
  }

  /** Where the source says nothing, the target's value survives the merge. */
  lemma {:induction false} TargetSurvives(target: Json, source: Json, path: seq<string>)
    requires Lookup(target, path).Some? && Absent(source, path)
    ensures Lookup(Merge(target, source), path) == Lookup(target, path)
    decreases |path|
  {
    if Mergeable(source) {
      var k := path[0];
      var r := Merge(target, source);
      assert target.JObj? && k in target.fields;
      var t := target.fields;
      if k in source.fields {
        assert r.fields[k] == MergeEntry(t, k, source.fields[k]);
        assert r.fields[k] == Merge(t[k], source.fields[k]);
        TargetSurvives(t[k], source.fields[k], path[1..]);
      } else {
        assert r.fields[k] == t[k];
      }
    }
  }

  /** Merging an object with itself changes nothing. */
  lemma {:induction false} MergeIdempotent(x: Json)
    requires x.JObj?
    ensures Merge(x, x) == x
    decreases x
  {
    var r := Merge(x, x);
    forall k | k in x.fields
      ensures r.fields[k] == x.fields[k]
    {
      var v := x.fields[k];
      assert r.fields[k] == MergeEntry(x.fields, k, v);
      if v.JObj? {
        MergeIdempotent(v);
      }
    }
    assert r.fields == x.fields;
  }

  /** The deep copy of the defaults, merged with the file layer and then the database layer if that one is truthy. */
  function MergedConfig(base: Json, db: Json): Json
  {
    var withFile := Merge(DEFAULT_CONFIG, base);
    if Truthy(db) then Merge(withFile, db) else withFile
  }

  /** What `load` arrives at: a failure of the database read, a validation error, or the new configuration. */
  function LoadedConfig(base: Json, db: Result<Json, Error>): (r: Result<Json, Error>)
    ensures r.Ok? ==> WellFormed(r.value)
    ensures db.Err? ==> r == Err(db.error)
    ensures db.Ok? ==> r == ValidateConfig(MergedConfig(base, db.value))
  {
    match db
    case Err(e) => Err(e)
    case Ok(d) => ValidateConfig(MergedConfig(base, d))
  }

  /** A leaf set by the database layer wins over the file layer and the defaults; one it leaves unset keeps the file layer's value. */
  lemma {:induction false} LayersInOrder(base: Json, db: Json, path: seq<string>, leaf: Json)
    requires |path| >= 1 && !leaf.JObj?
    ensures Truthy(db) && Lookup(db, path) == Some(leaf) ==> Lookup(MergedConfig(base, db), path) == Some(leaf)
    ensures Lookup(base, path) == Some(leaf) && (!Truthy(db) || Absent(db, path))
            ==> Lookup(MergedConfig(base, db), path) == Some(leaf)
  {
    var withFile := Merge(DEFAULT_CONFIG, base);
    if Truthy(db) && Lookup(db, path) == Some(leaf) {
      SourceLeafWins(withFile, db, path, leaf);
    }
    if Lookup(base, path) == Some(leaf) && (!Truthy(db) || Absent(db, path)) {
      SourceLeafWins(DEFAULT_CONFIG, base, path, leaf);
      if Truthy(db) {
        TargetSurvives(withFile, db, path);
      }
    }
  }

  /** `isEnabled` on a configuration: a flag the configuration holds wins, by its truthiness; then the code default. */
  function FlagValue(config: Json, flag: string): (on: bool)
    ensures (TruthyOpt(Member(config, "featureFlags")) && Member(Member(config, "featureFlags").value, flag).Some?)
            ==> on == Truthy(Member(Member(config, "featureFlags").value, flag).value)
    ensures !(TruthyOpt(Member(config, "featureFlags")) && Member(Member(config, "featureFlags").value, flag).Some?)
            ==> on == DefaultFlag(flag)
  {
    var ff := Member(config, "featureFlags");
    if TruthyOpt(ff) && Member(ff.value, flag).Some? then Truthy(Member(ff.value, flag).value)
    else DefaultFlag(flag)
  }

  /** `getPolicyParams`: the policy's entry, or an empty object when it is missing or falsy. */
  function PolicyParams(config: Json, name: string): (p: Json)
    ensures Truthy(p)
    ensures var policies := Member(config, "policies").GetOr(JNull);
      p == if TruthyOpt(Member(policies, name)) then Member(policies, name).value else EmptyObject
  {
    var policies := Member(config, "policies").GetOr(JNull);
    var entry := Member(policies, name);
    if TruthyOpt(entry) then entry.value else EmptyObject
  }

  /**
   * The raw policy entry, with no default.  This is the lookup the
   * schedule loader needs to tell a missing configuration apart.
   */
  function PolicyEntry(config: Json, name: string): (p: Json)
    ensures p.JNull? || TruthyOpt(Member(Member(config, "policies").GetOr(JNull), name))
    ensures Truthy(p) ==> p == PolicyParams(config, name)
    ensures var entry := Member(Member(config, "policies").GetOr(JNull), name);
      TruthyOpt(entry) ==> p == entry.value
  {
    var entry := Member(Member(config, "policies").GetOr(JNull), name);
    if TruthyOpt(entry) then entry.value else JNull
  }

  class ConfigService {
    const baseConfig: Json
    const environment: string
    var currentConfig: Json
    var isLoaded: bool

    predicate Valid()
      reads this
    {
      WellFormed(currentConfig)
    }

    constructor (baseConfig: Json, environment: string)
      ensures this.baseConfig == baseConfig && this.environment == environment
      ensures currentConfig == DEFAULT_CONFIG && !isLoaded && Valid()
    {
      this.baseConfig := baseConfig;
      this.environment := environment;
      currentConfig := DEFAULT_CONFIG;
      isLoaded := false;
      new;
      DefaultIsValid(JNull);
    }

    /** `load`: the merged and validated configuration replaces the current one; on failure nothing changes. */
    method Load(db: Result<Json, Error>) returns (o: Outcome<Error>)
      modifies this
      ensures var r := LoadedConfig(baseConfig, db);
        if r.Ok? then o.Pass? && currentConfig == r.value && isLoaded
        else o == Fail(r.error) && currentConfig == old(currentConfig) && isLoaded == old(isLoaded)
      ensures old(Valid()) ==> Valid()
    {
      if db.Err? {
        return Fail(db.error);
      }
      var finalConfig := DeepMerge(DEFAULT_CONFIG, baseConfig);
      if Truthy(db.value) {
        finalConfig := DeepMerge(finalConfig, db.value);
      }
      var checked := ValidateConfig(finalConfig);
      if checked.Err? {
        return Fail(checked.error);
      }
      currentConfig := finalConfig;
      isLoaded := true;
      return Pass;
    }

    function GetConfig(): Json
      reads this
    {
      currentConfig
    }

    function IsEnabled(flag: string): bool
      reads this
    {
      FlagValue(currentConfig, flag)
    }

    function GetPolicyParams(name: string): Json
      reads this
    {
      PolicyParams(currentConfig, name)
    }
  }

  /** `deepMerge`, walking the source's keys one at a time. */
  method DeepMerge(target: Json, source: Json) returns (r: Json)
    ensures r == Merge(target, source)
    decreases source
  {
    if !Mergeable(target) {
      return source;
    }
    if !Mergeable(source) {
      return target;
    }
    var t, s := Entries(target), Entries(source);
    var output := t;
    var remaining := s.Keys;
    while remaining != {}
      invariant remaining <= s.Keys
      invariant output.Keys == t.Keys + (s.Keys - remaining)
      invariant forall k :: k in output ==>
                  output[k] == if k in s && k !in remaining then MergeEntry(t, k, s[k]) else t[k]
      decreases remaining
    {
      var key :| key in remaining;
      var v := s[key];
      if v.JArr? {
        output := output[key := v];
      } else if v.JObj? {
        if key in t {
          var merged := DeepMerge(t[key], v);
          output := output[key := merged];
        } else {
          output := output[key := v];
        }
      } else {
        output := output[key := v];
      }
      remaining := remaining - {key};
    }
    assert output == map k | k in t.Keys + s.Keys :: if k in s then MergeEntry(t, k, s[k]) else t[k];
    return JObj(output);
  }
}
