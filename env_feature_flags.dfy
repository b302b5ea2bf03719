// A feature flag provider that reads `NEXT_PUBLIC_FF_*` environment
// variables and falls back to the code defaults.  The environment is the
// parameter `env`.
module EnvFeatureFlags {
  import opened Text
  import opened FeatureFlags

  const PREFIX := "NEXT_PUBLIC_FF_"

  /** `toEnvKey`: prefix, upper case, dots turned into underscores. */
  function ToEnvKey(flag: string): (key: string)
    ensures |key| == |PREFIX| + |flag| && key[..|PREFIX|] == PREFIX
    ensures forall i :: |PREFIX| <= i < |key| ==> key[i] != '.' && key[i] == ReplaceChar(ToUpper(flag), '.', '_')[i - |PREFIX|]
  {
    PREFIX + ReplaceChar(ToUpper(flag), '.', '_')
  }

  /** `isEnabled`: a set variable wins and means on only when it reads "true" in any case; otherwise the default. */
  function IsEnabled(env: map<string, string>, flag: string): (on: bool)
    ensures ToEnvKey(flag) in env ==> on == (ToLower(env[ToEnvKey(flag)]) == "true")
    ensures ToEnvKey(flag) !in env ==> on == DefaultFlag(flag)
  {
    var key := ToEnvKey(flag);
    if key in env then ToLower(env[key]) == "true" else DefaultFlag(flag)
  }

  /** Distinct flag names can share one variable: the mapping forgets case and dots. */
  lemma EnvKeyCollision()
    ensures ToEnvKey("a.b") == ToEnvKey("a_b") == ToEnvKey("A.B") == "NEXT_PUBLIC_FF_A_B"
  {
    assert ToUpper("a.b") == "A.B";
    assert ToUpper("a_b") == "A_B";
    assert ToUpper("A.B") == "A.B";
    assert ReplaceChar("A.B", '.', '_') == "A_B";
    assert ReplaceChar("A_B", '.', '_') == "A_B";
  }

  /** "TRUE" and "True" switch a flag on; any other text switches it off; no variable keeps the default. */
  lemma EnvValueSamples(flag: string)
    ensures IsEnabled(map[ToEnvKey(flag) := "TRUE"], flag)
    ensures !IsEnabled(map[ToEnvKey(flag) := "yes"], flag)
    ensures IsEnabled(map[], flag) == DefaultFlag(flag)
  {
    assert ToLower("TRUE") == "true";
    assert ToLower("yes") != "true" by { assert ToLower("yes")[0] == 'y'; }
  }
}
