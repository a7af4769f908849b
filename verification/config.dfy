/**
 The compiled-in defaults. Each default is a PHP constant that is defined
 only when it is not defined already, so a site that defines the constant
 first (in its own configuration) always wins. These constants are the
 bottom tier of the settings model.
 */
module Config {
  import opened Php

  /** The PHP constants defined so far, by name. */
  type Env = map<string, Value>

  datatype Definition = Definition(name: string, value: Value)

  const ApiEndpoint := "PURGELY_API_ENDPOINT"
  const FastlyKey := "PURGELY_FASTLY_KEY"
  const FastlyServiceId := "PURGELY_FASTLY_SERVICE_ID"
  const AllowPurgeAll := "PURGELY_ALLOW_PURGE_ALL"
  const EnableStaleWhileRevalidate := "PURGELY_ENABLE_STALE_WHILE_REVALIDATE"
  const StaleWhileRevalidateTtl := "PURGELY_STALE_WHILE_REVALIDATE_TTL"
  const EnableStaleIfError := "PURGELY_ENABLE_STALE_IF_ERROR"
  const StaleIfErrorTtl := "PURGELY_STALE_IF_ERROR_TTL"
  const SurrogateControlTtl := "PURGELY_SURROGATE_CONTROL_TTL"
  const DefaultPurgeType := "PURGELY_DEFAULT_PURGE_TYPE"

  /** The defaults, in the order the configuration file defines them. */
  const Definitions: seq<Definition> := [
    Definition(ApiEndpoint, Str("https://api.fastly.com/")),
    Definition(FastlyKey, Str("")),
    Definition(FastlyServiceId, Str("")),
    Definition(AllowPurgeAll, Bool(false)),
    Definition(EnableStaleWhileRevalidate, Bool(true)),
    Definition(StaleWhileRevalidateTtl, Int(86400)),  // 60 * 60 * 24, one day
    Definition(EnableStaleIfError, Bool(true)),
    Definition(StaleIfErrorTtl, Int(86400)),          // one day
    Definition(SurrogateControlTtl, Int(300)),        // 60 * 5, five minutes
    Definition(DefaultPurgeType, Str("soft"))
  ]

  const SettingFastlyKey := "fastly_key"
  const SettingFastlyServiceId := "fastly_service_id"
  const SettingAllowPurgeAll := "allow_purge_all"
  const SettingApiEndpoint := "api_endpoint"
  const SettingEnableStaleWhileRevalidate := "enable_stale_while_revalidate"
  const SettingStaleWhileRevalidateTtl := "stale_while_revalidate_ttl"
  const SettingEnableStaleIfError := "enable_stale_if_error"
  const SettingStaleIfErrorTtl := "stale_if_error_ttl"
  const SettingSurrogateControlTtl := "surrogate_control_ttl"
  const SettingDefaultPurgeType := "default_purge_type"

  /** The setting names, each the lower-case tail of one constant's name, in the order the option lookup lists them. */
  const SettingNames: seq<string> := [
    SettingFastlyKey,
    SettingFastlyServiceId,
    SettingAllowPurgeAll,
    SettingApiEndpoint,
    SettingEnableStaleWhileRevalidate,
    SettingStaleWhileRevalidateTtl,
    SettingEnableStaleIfError,
    SettingStaleIfErrorTtl,
    SettingSurrogateControlTtl,
    SettingDefaultPurgeType
  ]

  /** The constant that holds a setting's compiled-in value: `PURGELY_` followed by the setting's name in upper case. */
  function ConstantName(setting: string): string {
    "PURGELY_" + Upper(setting)
  }

  function Names(defs: seq<Definition>): set<string> {
    set i | 0 <= i < |defs| :: defs[i].name
  }

  /** No earlier definition in `defs` names the same constant as `defs[i]`. */
  predicate FirstOfItsName(defs: seq<Definition>, i: int)
    requires 0 <= i < |defs|
  {
    forall j :: 0 <= j < i ==> defs[j].name != defs[i].name
  }

  /** Defining a constant only when no constant of that name is defined yet. */
  function Define(env: Env, d: Definition): (r: Env)
    ensures r.Keys == env.Keys + {d.name}
    ensures forall k :: k in env ==> r[k] == env[k]
    ensures d.name !in env ==> r[d.name] == d.value
  {
    if d.name in env then env else env[d.name := d.value]
  }

  /** A run of define-if-undefined steps, first to last. */
  function DefineAll(env: Env, defs: seq<Definition>): (r: Env)
    ensures r.Keys == env.Keys + Names(defs)
    ensures forall k :: k in env ==> r[k] == env[k]
    decreases |defs|
  {
    if defs == [] then env
    else
      NamesCons(defs);
      DefineAll(Define(env, defs[0]), defs[1..])
  }

  /** The first definition of a constant the environment lacks is the one that sticks. */
  lemma {:induction false} DefineAllFirst(env: Env, defs: seq<Definition>, i: nat)
    requires i < |defs| && defs[i].name !in env && FirstOfItsName(defs, i)
    ensures DefineAll(env, defs)[defs[i].name] == defs[i].value
    decreases |defs|
  {
    if i > 0 {
      assert defs[i] == defs[1..][i - 1];
      assert FirstOfItsName(defs[1..], i - 1) by {
        forall j | 0 <= j < i - 1 ensures defs[1..][j].name != defs[1..][i - 1].name {
          assert defs[1..][j] == defs[j + 1];
        }
      }
      assert defs[0].name != defs[i].name;
      DefineAllFirst(Define(env, defs[0]), defs[1..], i - 1);
    }
  }

  lemma NamesCons(defs: seq<Definition>)
    requires defs != []
    ensures Names(defs) == {defs[0].name} + Names(defs[1..])
  {
    forall n | n in Names(defs) ensures n in {defs[0].name} + Names(defs[1..]) {
      var i :| 0 <= i < |defs| && defs[i].name == n;
      if i > 0 {
        assert defs[1..][i - 1].name == n;
      }
    }
  }

  /** The ten constants have ten different names. */
  lemma DefinitionsDistinct()
    ensures forall i, j :: 0 <= i < j < |Definitions| ==> Definitions[i].name != Definitions[j].name
  {
    var n := seq(|Definitions|, i requires 0 <= i < |Definitions| => Definitions[i].name);
    assert |n[0]| == 20 && |n[1]| == 18 && |n[2]| == 25 && |n[3]| == 23 && |n[4]| == 37;
    assert |n[5]| == 34 && |n[6]| == 29 && |n[7]| == 26 && |n[8]| == 29 && |n[9]| == 26;
    assert n[6][8] != n[8][8];
    assert n[7][8] != n[9][8];
  }

  /** All of the plugin's constants are defined. */
  predicate Configured(env: Env) {
    && ApiEndpoint in env && FastlyKey in env && FastlyServiceId in env && AllowPurgeAll in env
    && EnableStaleWhileRevalidate in env && StaleWhileRevalidateTtl in env
    && EnableStaleIfError in env && StaleIfErrorTtl in env
    && SurrogateControlTtl in env && DefaultPurgeType in env
  }

  lemma DefinedNamesConfigured(env: Env)
    requires Names(Definitions) <= env.Keys
    ensures Configured(env)
  {
    var d := Definitions;
    assert d[0].name in Names(d) && d[1].name in Names(d) && d[2].name in Names(d);
    assert d[3].name in Names(d) && d[4].name in Names(d) && d[5].name in Names(d);
    assert d[6].name in Names(d) && d[7].name in Names(d) && d[8].name in Names(d);
    assert d[9].name in Names(d);
  }

  /**
   Loading the configuration file on top of whatever the site defined first.
   Afterwards every constant is defined; a constant the site defined first
   keeps its value, every other constant gets its default, and constants
   foreign to the plugin are untouched.
   */
  function Configure(env: Env): (r: Env)
    ensures Configured(r)
    ensures r.Keys == env.Keys + Names(Definitions)
    ensures forall k :: k in env ==> r[k] == env[k]
    ensures forall i :: 0 <= i < |Definitions| && Definitions[i].name !in env ==>
      r[Definitions[i].name] == Definitions[i].value
  {
    DefinitionsDistinct();
    forall i | 0 <= i < |Definitions| && Definitions[i].name !in env
      ensures DefineAll(env, Definitions)[Definitions[i].name] == Definitions[i].value
    {
      DefineAllFirst(env, Definitions, i);
    }
    DefinedNamesConfigured(DefineAll(env, Definitions));
    DefineAll(env, Definitions)
  }

  /** The API endpoint and credentials the plugin ships with: Fastly's endpoint, no key, no service. */
  lemma DefaultEndpointAndCredentials(env: Env)
    requires ApiEndpoint !in env && FastlyKey !in env && FastlyServiceId !in env
    ensures Configure(env)[ApiEndpoint] == Str("https://api.fastly.com/")
    ensures Configure(env)[FastlyKey] == Str("")
    ensures Configure(env)[FastlyServiceId] == Str("")
  {
    assert Definitions[0].name == ApiEndpoint;
    assert Definitions[1].name == FastlyKey;
    assert Definitions[2].name == FastlyServiceId;
  }

  /** Whole-cache purges are disallowed unless the site says otherwise. */
  lemma DefaultPurgeAllDisallowed(env: Env)
    requires AllowPurgeAll !in env
    ensures Configure(env)[AllowPurgeAll] == Bool(false)
  {
    assert Definitions[3].name == AllowPurgeAll;
  }

  /** Stale-while-revalidate is on by default, for 24 hours. */
  lemma DefaultStaleWhileRevalidate(env: Env)
    requires EnableStaleWhileRevalidate !in env && StaleWhileRevalidateTtl !in env
    ensures Configure(env)[EnableStaleWhileRevalidate] == Bool(true)
    ensures Configure(env)[StaleWhileRevalidateTtl] == Int(86400)
  {
    assert Definitions[4].name == EnableStaleWhileRevalidate;
    assert Definitions[5].name == StaleWhileRevalidateTtl;
  }

  /** Stale-if-error is on by default, for 24 hours. */
  lemma DefaultStaleIfError(env: Env)
    requires EnableStaleIfError !in env && StaleIfErrorTtl !in env
    ensures Configure(env)[EnableStaleIfError] == Bool(true)
    ensures Configure(env)[StaleIfErrorTtl] == Int(86400)
  {
    assert Definitions[6].name == EnableStaleIfError;
    assert Definitions[7].name == StaleIfErrorTtl;
  }

  /** Pages are cached for five minutes by default, and purges are soft. */
  lemma DefaultTtlAndPurgeType(env: Env)
    requires SurrogateControlTtl !in env && DefaultPurgeType !in env
    ensures Configure(env)[SurrogateControlTtl] == Int(300)
    ensures Configure(env)[DefaultPurgeType] == Str("soft")
  {
    assert Definitions[8].name == SurrogateControlTtl;
    assert Definitions[9].name == DefaultPurgeType;
  }
}
