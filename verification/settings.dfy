/**
 The settings registry and its negotiation. Ten settings are registered, each
 with one sanitizer and one default taken from the configuration constants.
 The effective value of a setting is its saved value when one is saved, else
 its default, and either way it goes through the sanitizer. The negotiated
 map is memoized in a process-wide cache, modelled here as a value that every
 lookup takes and returns.
 */
module Settings {
  import opened Php
  import opened Config
  import Sanitizers

  /** The sanitizer callbacks the registry names. */
  datatype Sanitizer = KeyFilter | Checkbox | EscUrl | AbsoluteInt | WpSanitizeKey

  /** WordPress's `esc_url` and `sanitize_key`, whose code is not part of this model. */
  datatype WpCore = WpCore(escUrl: string -> string, sanitizeKey: string -> string)

  datatype Setting = Setting(name: string, sanitizer: Sanitizer, default: Value)

  /** The negotiated settings, by name. */
  type Cache = map<string, Value>

  /** A lookup's answer together with the memo cache it leaves behind. */
  datatype Memo<T> = Memo(value: T, cache: Cache)

  /** Running a registered sanitizer callback on a value. */
  function Apply(s: Sanitizer, v: Value, wp: WpCore): (r: Value)
    ensures r != Null
    ensures s == Checkbox ==> r.Bool?
    ensures s == AbsoluteInt ==> r.Int? && r.i >= 0
    ensures s == KeyFilter ==> r.Str? && Sanitizers.All(r.s, Sanitizers.IsAlnum)
  {
    match s
    case KeyFilter => Str(Sanitizers.SanitizeKey(ToPhpString(v)))
    case Checkbox => Bool(Sanitizers.SanitizeCheckbox(v))
    case EscUrl => Str(wp.escUrl(ToPhpString(v)))
    case AbsoluteInt => Int(Absint(v))
    case WpSanitizeKey => Str(wp.sanitizeKey(ToPhpString(v)))
  }

  /** Every sanitizer is idempotent on the values it produces, given idempotent WordPress helpers. */
  lemma ApplyIdempotent(s: Sanitizer, v: Value, wp: WpCore)
    requires forall u :: wp.escUrl(wp.escUrl(u)) == wp.escUrl(u)
    requires forall u :: wp.sanitizeKey(wp.sanitizeKey(u)) == wp.sanitizeKey(u)
    ensures Apply(s, Apply(s, v, wp), wp) == Apply(s, v, wp)
  {
    match s
    case KeyFilter =>
      Sanitizers.KeyIdempotent(ToPhpString(v));
    case Checkbox =>
    case EscUrl =>
    case AbsoluteInt =>
      var n := Absint(v);
      assert Absint(Int(n)) == n;
    case WpSanitizeKey =>
  }

  /** `get_registered_settings`: the ten settings, with their sanitizers and defaults. */
  function Registry(env: Env): (r: seq<Setting>)
    requires Configured(env)
    ensures |r| == |SettingNames| == 10
    ensures forall i :: 0 <= i < |r| ==> r[i].name == SettingNames[i]
  {
    [
      Setting(SettingFastlyKey, KeyFilter, env[FastlyKey]),
      Setting(SettingFastlyServiceId, KeyFilter, env[FastlyServiceId]),
      Setting(SettingAllowPurgeAll, Checkbox, env[AllowPurgeAll]),
      Setting(SettingApiEndpoint, EscUrl, env[ApiEndpoint]),
      Setting(SettingEnableStaleWhileRevalidate, Checkbox, env[EnableStaleWhileRevalidate]),
      Setting(SettingStaleWhileRevalidateTtl, AbsoluteInt, env[StaleWhileRevalidateTtl]),
      Setting(SettingEnableStaleIfError, Checkbox, env[EnableStaleIfError]),
      Setting(SettingStaleIfErrorTtl, AbsoluteInt, env[StaleIfErrorTtl]),
      Setting(SettingSurrogateControlTtl, AbsoluteInt, env[SurrogateControlTtl]),
      Setting(SettingDefaultPurgeType, WpSanitizeKey, env[DefaultPurgeType])
    ]
  }

  predicate DistinctNames(regs: seq<Setting>) {
    forall i, j :: 0 <= i < j < |regs| ==> regs[i].name != regs[j].name
  }

  function NameSet(regs: seq<Setting>): set<string> {
    set i | 0 <= i < |regs| :: regs[i].name
  }

  /** The registry has ten settings under ten different names, one sanitizer and one default each. */
  lemma RegistryWellFormed(env: Env)
    requires Configured(env)
    ensures DistinctNames(Registry(env))
    ensures |NameSet(Registry(env))| == 10
  {
    var r := Registry(env);
    assert |r[0].name| == 10 && |r[1].name| == 17 && |r[2].name| == 15 && |r[3].name| == 12;
    assert |r[4].name| == 29 && |r[5].name| == 26 && |r[6].name| == 21 && |r[7].name| == 18;
    assert |r[8].name| == 21 && |r[9].name| == 18;
    assert r[6].name[0] != r[8].name[0];
    assert r[7].name[0] != r[9].name[0];
    DistinctNameSetSize(r);
  }

  /**
   Each entry's sanitizer and default: the credentials go through the key
   filter, the three switches through the checkbox sanitizer, the three TTLs
   through `absint`, the endpoint through `esc_url` and the purge type
   through `sanitize_key`; each default is the constant of the same name.
   */
  lemma RegistryEntries(env: Env)
    requires Configured(env)
    ensures forall i :: 0 <= i < 10 ==> (Registry(env)[i].sanitizer == KeyFilter <==> i in {0, 1})
    ensures forall i :: 0 <= i < 10 ==> (Registry(env)[i].sanitizer == Checkbox <==> i in {2, 4, 6})
    ensures forall i :: 0 <= i < 10 ==> (Registry(env)[i].sanitizer == AbsoluteInt <==> i in {5, 7, 8})
    ensures Registry(env)[3].sanitizer == EscUrl && Registry(env)[9].sanitizer == WpSanitizeKey
    ensures Registry(env)[0].default == env[FastlyKey] && Registry(env)[1].default == env[FastlyServiceId]
    ensures Registry(env)[2].default == env[AllowPurgeAll] && Registry(env)[3].default == env[ApiEndpoint]
    ensures Registry(env)[4].default == env[EnableStaleWhileRevalidate]
    ensures Registry(env)[5].default == env[StaleWhileRevalidateTtl]
    ensures Registry(env)[6].default == env[EnableStaleIfError] && Registry(env)[7].default == env[StaleIfErrorTtl]
    ensures Registry(env)[8].default == env[SurrogateControlTtl] && Registry(env)[9].default == env[DefaultPurgeType]
  {
  }

  lemma {:induction false} DistinctNameSetSize(regs: seq<Setting>)
    requires DistinctNames(regs)
    ensures |NameSet(regs)| == |regs|
    decreases |regs|
  {
    if regs != [] {
      var last := regs[|regs| - 1];
      var init := regs[..|regs| - 1];
      DistinctNameSetSize(init);
      NameSetSnoc(regs);
      assert last.name !in NameSet(init);
    }
  }

  lemma NameSetSnoc(regs: seq<Setting>)
    requires regs != []
    ensures NameSet(regs) == NameSet(regs[..|regs| - 1]) + {regs[|regs| - 1].name}
  {
    var init := regs[..|regs| - 1];
    forall n | n in NameSet(regs) ensures n in NameSet(init) + {regs[|regs| - 1].name} {
      var i :| 0 <= i < |regs| && regs[i].name == n;
      if i < |regs| - 1 {
        assert init[i].name == n;
      }
    }
  }

  /** The value a registered setting starts from: the saved one if set, else the default if set, else ''. */
  function Choose(saved: Cache, reg: Setting): (r: Value)
    ensures r != Null
    ensures IsSet(saved, reg.name) ==> r == saved[reg.name]
    ensures !IsSet(saved, reg.name) ==> r == DefaultOrEmpty(reg)
  {
    if IsSet(saved, reg.name) then saved[reg.name]
    else if reg.default != Null then reg.default
    else Str("")
  }

  /** The negotiation loop: every registered name, mapped to its sanitized value. */
  function Negotiate(regs: seq<Setting>, saved: Cache, wp: WpCore): (r: Cache)
    ensures regs != [] ==> regs[|regs| - 1].name in r
    ensures regs != [] ==> r[regs[|regs| - 1].name] == Negotiated(regs[|regs| - 1], saved, wp)
    decreases |regs|
  {
    if regs == [] then map[]
    else
      var last := regs[|regs| - 1];
      Negotiate(regs[..|regs| - 1], saved, wp)[last.name := Apply(last.sanitizer, Choose(saved, last), wp)]
  }

  /** The negotiated map has exactly the registered names as keys. */
  lemma {:induction false} NegotiateKeys(regs: seq<Setting>, saved: Cache, wp: WpCore)
    ensures Negotiate(regs, saved, wp).Keys == NameSet(regs)
    decreases |regs|
  {
    if regs != [] {
      NegotiateKeys(regs[..|regs| - 1], saved, wp);
      NameSetSnoc(regs);
    }
  }

  /** The value a registered setting negotiates to: its chosen starting value, sanitized. */
  function Negotiated(reg: Setting, saved: Cache, wp: WpCore): Value {
    Apply(reg.sanitizer, Choose(saved, reg), wp)
  }

  /**
   Under distinct names, each registered setting negotiates to its sanitized
   saved value, or its sanitized default when nothing is saved: a later
   setting never overwrites an earlier one.
   */
  lemma {:induction false} NegotiateAt(regs: seq<Setting>, saved: Cache, wp: WpCore, i: nat)
    requires i < |regs|
    requires forall j :: i < j < |regs| ==> regs[j].name != regs[i].name
    ensures regs[i].name in Negotiate(regs, saved, wp)
    ensures Negotiate(regs, saved, wp)[regs[i].name] == Negotiated(regs[i], saved, wp)
    decreases |regs|
  {
    var init := regs[..|regs| - 1];
    var last := regs[|regs| - 1];
    if i < |init| {
      assert regs[i] == init[i];
      assert forall j :: i < j < |init| ==> init[j] == regs[j];
      NegotiateAt(init, saved, wp, i);
    }
  }

  lemma NegotiateValues(regs: seq<Setting>, saved: Cache, wp: WpCore)
    requires DistinctNames(regs)
    ensures forall i :: 0 <= i < |regs| ==>
      regs[i].name in Negotiate(regs, saved, wp) && Negotiate(regs, saved, wp)[regs[i].name] == Negotiated(regs[i], saved, wp)
  {
    forall i | 0 <= i < |regs|
      ensures regs[i].name in Negotiate(regs, saved, wp)
        && Negotiate(regs, saved, wp)[regs[i].name] == Negotiated(regs[i], saved, wp)
    {
      assert forall j :: i < j < |regs| ==> regs[j].name != regs[i].name;
      NegotiateAt(regs, saved, wp, i);
    }
  }

  /**
   `get_settings`: an empty cache is filled by negotiating the registry
   against the saved settings; a non-empty cache is returned as it is.
   */
  function GetSettings(cache: Cache, stored: Option<Cache>, env: Env, wp: WpCore): (r: Memo<Cache>)
    requires Configured(env)
    ensures r.cache == r.value && r.cache != map[]
    ensures cache != map[] ==> r.value == cache
    ensures cache == map[] ==> r.value.Keys == NameSet(Registry(env))
    ensures cache == map[] ==> forall i :: 0 <= i < 10 ==>
      r.value[Registry(env)[i].name] == Apply(Registry(env)[i].sanitizer, Choose(stored.GetOr(map[]), Registry(env)[i]), wp)
  {
    if cache != map[] then Memo(cache, cache)
    else
      RegistryWellFormed(env);
      var regs := Registry(env);
      var negotiated := Negotiate(regs, stored.GetOr(map[]), wp);
      NegotiateKeys(regs, stored.GetOr(map[]), wp);
      NegotiateValues(regs, stored.GetOr(map[]), wp);
      assert regs[0].name in negotiated;
      Memo(negotiated, SetSettings(negotiated))
  }

  /** The registered default for `name`, when `name` is registered. */
  function RegisteredDefault(regs: seq<Setting>, name: string): Option<Value>
    decreases |regs|
  {
    if regs == [] then None
    else if regs[0].name == name then Some(regs[0].default)
    else RegisteredDefault(regs[1..], name)
  }

  /** A name nobody registered has no registered default. */
  lemma {:induction false} UnregisteredHasNoDefault(regs: seq<Setting>, name: string)
    requires forall i :: 0 <= i < |regs| ==> regs[i].name != name
    ensures RegisteredDefault(regs, name) == None
    decreases |regs|
  {
    if regs != [] {
      assert forall i :: 0 <= i < |regs| - 1 ==> regs[1..][i] == regs[i + 1];
      UnregisteredHasNoDefault(regs[1..], name);
    }
  }

  /** A name registered once, or first, finds its own entry's default. */
  lemma {:induction false} RegisteredDefaultAt(regs: seq<Setting>, i: nat)
    requires i < |regs|
    requires forall j :: 0 <= j < i ==> regs[j].name != regs[i].name
    ensures RegisteredDefault(regs, regs[i].name) == Some(regs[i].default)
    decreases |regs|
  {
    if i > 0 {
      assert regs[1..][i - 1] == regs[i];
      assert forall j :: 0 <= j < i - 1 ==> regs[1..][j] == regs[j + 1];
      RegisteredDefaultAt(regs[1..], i - 1);
    }
  }

  /** The registered default `get_setting` falls back on, for the ten names and for every other name. */
  lemma RegistryDefaults(env: Env, name: string)
    requires Configured(env)
    ensures name !in SettingNames ==> RegisteredDefault(Registry(env), name) == None
    ensures forall i :: 0 <= i < 10 && SettingNames[i] == name ==>
      RegisteredDefault(Registry(env), name) == Some(Registry(env)[i].default)
  {
    var regs := Registry(env);
    if name !in SettingNames {
      UnregisteredHasNoDefault(regs, name);
    } else {
      RegistryWellFormed(env);
      forall i | 0 <= i < 10 && SettingNames[i] == name
        ensures RegisteredDefault(regs, name) == Some(regs[i].default)
      {
        RegisteredDefaultAt(regs, i);
      }
    }
  }

  /** What `get_setting` answers for a name the negotiated settings lack: the registered default if set, else ''. */
  function DefaultOrEmpty(reg: Setting): (r: Value)
    ensures r != Null
    ensures reg.default != Null ==> r == reg.default
    ensures reg.default == Null ==> r == Str("")
  {
    if reg.default != Null then reg.default else Str("")
  }

  /**
   `get_setting`: the negotiated value if it is set, else the registered
   default if that is set, else ''.
   */
  function GetSetting(cache: Cache, stored: Option<Cache>, env: Env, wp: WpCore, name: string): (r: Memo<Value>)
    requires Configured(env)
    ensures r.cache == GetSettings(cache, stored, env, wp).cache
    ensures cache != map[] && IsSet(cache, name) ==> r.value == cache[name]
    ensures cache == map[] ==> forall i :: 0 <= i < 10 && SettingNames[i] == name ==>
      r.value == Apply(Registry(env)[i].sanitizer, Choose(stored.GetOr(map[]), Registry(env)[i]), wp)
    ensures cache != map[] && !IsSet(cache, name) ==> forall i :: 0 <= i < 10 && SettingNames[i] == name ==>
      r.value == DefaultOrEmpty(Registry(env)[i])
    ensures !IsSet(cache, name) && name !in SettingNames ==> r.value == Str("")
  {
    var settings := GetSettings(cache, stored, env, wp);
    var value :=
      if IsSet(settings.value, name) then settings.value[name]
      else match RegisteredDefault(Registry(env), name)
        case Some(d) => if d != Null then d else Str("")
        case None => Str("");
    RegistryDefaults(env, name);
    Memo(value, settings.cache)
  }

  /** `set_settings`: the new cache is exactly the given settings, nothing added, dropped or re-sanitized. */
  function SetSettings(settings: Cache): (r: Cache)
    ensures r.Keys == settings.Keys
    ensures forall k :: k in settings ==> r[k] == settings[k]
  {
    settings
  }

  /** The lookup the rest of the plugin sees: `Purgely_Settings::get_setting` against one cache state. */
  function Getter(cache: Cache, stored: Option<Cache>, env: Env, wp: WpCore): string -> Value
    requires Configured(env)
  {
    name => GetSetting(cache, stored, env, wp, name).value
  }

  /**
   Once the cache is filled, lookups neither consult the saved store nor
   change the cache: a repeated call, against any store, answers the same.
   */
  lemma GetSettingsMemoized(cache: Cache, stored: Option<Cache>, stored': Option<Cache>, env: Env, wp: WpCore)
    requires Configured(env)
    ensures var first := GetSettings(cache, stored, env, wp);
      GetSettings(first.cache, stored', env, wp) == first
  {
  }

  /**
   A non-empty cache replaced through `set_settings` is what every later
   lookup consults, whatever is saved in the database: a name the map sets
   reads its value, a registered name it lacks reads the registered default
   (or '' when that is null), and any other name reads ''.
   */
  lemma SetSettingsThenGet(settings: Cache, stored: Option<Cache>, env: Env, wp: WpCore, name: string)
    requires Configured(env)
    requires settings != map[]
    ensures GetSettings(SetSettings(settings), stored, env, wp).value == settings
    ensures IsSet(settings, name) ==> GetSetting(SetSettings(settings), stored, env, wp, name).value == settings[name]
    ensures !IsSet(settings, name) ==> forall i :: 0 <= i < 10 && SettingNames[i] == name ==>
      GetSetting(SetSettings(settings), stored, env, wp, name).value == DefaultOrEmpty(Registry(env)[i])
    ensures !IsSet(settings, name) && name !in SettingNames ==>
      GetSetting(SetSettings(settings), stored, env, wp, name).value == Str("")
  {
  }

  /**
   Every lookup after the first one sees the cache the first one filled, so
   a sequence of `get_setting` calls answers as the getter over the original
   cache state does.
   */
  lemma GetterStable(cache: Cache, stored: Option<Cache>, env: Env, wp: WpCore, first: string, name: string)
    requires Configured(env)
    ensures var c := GetSetting(cache, stored, env, wp, first).cache;
      GetSetting(c, stored, env, wp, name).value == Getter(cache, stored, env, wp)(name)
  {
  }

  /** Nothing saved in the database overrides the setting `name`. */
  predicate NotOverridden(stored: Option<Cache>, name: string) {
    stored.None? || !IsSet(stored.value, name)
  }

  /**
   On a fresh request, a registered setting the database does not override
   reads as its sanitized default, and asking again, against the cache the
   first lookup filled, gives the same answer.
   */
  lemma DefaultLookupTwice(stored: Option<Cache>, env: Env, wp: WpCore, i: nat)
    requires Configured(env) && i < |SettingNames|
    requires NotOverridden(stored, SettingNames[i])
    requires Registry(env)[i].default != Null
    ensures var reg := Registry(env)[i];
      var first := GetSetting(map[], stored, env, wp, SettingNames[i]);
      && first.value == Apply(reg.sanitizer, reg.default, wp)
      && GetSetting(first.cache, stored, env, wp, SettingNames[i]).value == first.value
  {
    var reg := Registry(env)[i];
    var first := GetSetting(map[], stored, env, wp, SettingNames[i]);
    RegistryWellFormed(env);
    assert IsSet(first.cache, reg.name);
  }
}
