/**
 The plugin as a site with the shipped configuration sees it: the settings
 negotiate to the compiled-in defaults, the coordinator built from them
 caches pages for five minutes with both staleness directives at 24 hours,
 and a whole-cache purge carries `allow-all` false unless the caller says
 otherwise.
 */
module Plugin {
  import opened Php
  import opened Config
  import opened Headers
  import Settings
  import Coordinator
  import Utils

  /** The constants as the configuration file leaves them on a site that defines none of its own. */
  function ShippedEnv(): (env: Env)
    ensures Configured(env)
  {
    Configure(map[])
  }

  /** The shipped values of the constants the coordinator and the purge helper read. */
  predicate ShippedValues(env: Env) {
    && Configured(env)
    && env[AllowPurgeAll] == Bool(false)
    && env[EnableStaleWhileRevalidate] == Bool(true) && env[StaleWhileRevalidateTtl] == Int(86400)
    && env[EnableStaleIfError] == Bool(true) && env[StaleIfErrorTtl] == Int(86400)
    && env[SurrogateControlTtl] == Int(300)
  }

  lemma ShippedEnvValues()
    ensures ShippedValues(ShippedEnv())
  {
    DefaultPurgeAllDisallowed(map[]);
    DefaultStaleWhileRevalidate(map[]);
    DefaultStaleIfError(map[]);
    DefaultTtlAndPurgeType(map[]);
  }

  /** Nothing saved in the database overrides any of the named settings. */
  predicate NoneOverridden(stored: Option<Settings.Cache>, names: set<string>) {
    forall n :: n in names ==> Settings.NotOverridden(stored, n)
  }

  /** A checkbox setting whose default is a boolean reads as that boolean. */
  lemma DefaultCheckbox(stored: Option<Settings.Cache>, env: Env, wp: Settings.WpCore, i: nat, b: bool)
    requires Configured(env) && i < |SettingNames| && Settings.NotOverridden(stored, SettingNames[i])
    requires Settings.Registry(env)[i].sanitizer == Settings.Checkbox && Settings.Registry(env)[i].default == Bool(b)
    ensures Settings.GetSetting(map[], stored, env, wp, SettingNames[i]).value == Bool(b)
  {
    Settings.DefaultLookupTwice(stored, env, wp, i);
  }

  /** An `absint` setting whose default is a non-negative integer reads as that integer. */
  lemma DefaultInt(stored: Option<Settings.Cache>, env: Env, wp: Settings.WpCore, i: nat, n: nat)
    requires Configured(env) && i < |SettingNames| && Settings.NotOverridden(stored, SettingNames[i])
    requires Settings.Registry(env)[i].sanitizer == Settings.AbsoluteInt && Settings.Registry(env)[i].default == Int(n)
    ensures Settings.GetSetting(map[], stored, env, wp, SettingNames[i]).value == Int(n)
  {
    Settings.DefaultLookupTwice(stored, env, wp, i);
  }

  /**
   The coordinator a fresh request builds on a site with the shipped
   configuration and no saved overrides: no keys, a 300-second
   Surrogate-Control header, and stale-while-revalidate then stale-if-error
   at 86400 seconds each.
   */
  lemma DefaultsConstruct(stored: Option<Settings.Cache>, env: Env, wp: Settings.WpCore)
    requires ShippedValues(env)
    requires NoneOverridden(stored, {SettingNames[4], SettingNames[5], SettingNames[6], SettingNames[7], SettingNames[8]})
    ensures var s := Coordinator.Construct(Settings.Getter(map[], stored, env, wp));
      && s.keys == []
      && s.control.seconds == 300
      && s.cacheControl == [CacheControlHeader(Int(86400), StaleWhileRevalidate), CacheControlHeader(Int(86400), StaleIfError)]
  {
    var get := Settings.Getter(map[], stored, env, wp);
    DefaultStaleness(stored, env, wp);
    DefaultTtl(stored, env, wp);
    Coordinator.ConstructBothEnabled(get);
  }

  /** The staleness settings the constructor reads, on a fresh request with the shipped values. */
  lemma DefaultStaleness(stored: Option<Settings.Cache>, env: Env, wp: Settings.WpCore)
    requires ShippedValues(env)
    requires NoneOverridden(stored, {SettingNames[4], SettingNames[5], SettingNames[6], SettingNames[7]})
    ensures var get := Settings.Getter(map[], stored, env, wp);
      && get(SettingEnableStaleWhileRevalidate) == Bool(true) && get(SettingStaleWhileRevalidateTtl) == Int(86400)
      && get(SettingEnableStaleIfError) == Bool(true) && get(SettingStaleIfErrorTtl) == Int(86400)
  {
    DefaultCheckbox(stored, env, wp, 4, true);
    DefaultInt(stored, env, wp, 5, 86400);
    DefaultCheckbox(stored, env, wp, 6, true);
    DefaultInt(stored, env, wp, 7, 86400);
  }

  /** The page TTL the constructor reads, on a fresh request with the shipped values. */
  lemma DefaultTtl(stored: Option<Settings.Cache>, env: Env, wp: Settings.WpCore)
    requires ShippedValues(env)
    requires Settings.NotOverridden(stored, SettingNames[8])
    ensures Settings.Getter(map[], stored, env, wp)(SettingSurrogateControlTtl) == Int(300)
  {
    DefaultInt(stored, env, wp, 8, 300);
  }

  lemma ShippedCoordinator(stored: Option<Settings.Cache>, wp: Settings.WpCore)
    requires NoneOverridden(stored, {SettingNames[4], SettingNames[5], SettingNames[6], SettingNames[7], SettingNames[8]})
    ensures var s := Coordinator.Construct(Settings.Getter(map[], stored, ShippedEnv(), wp));
      && s.keys == []
      && s.control.seconds == 300
      && s.cacheControl == [CacheControlHeader(Int(86400), StaleWhileRevalidate), CacheControlHeader(Int(86400), StaleIfError)]
  {
    ShippedEnvValues();
    DefaultsConstruct(stored, ShippedEnv(), wp);
  }

  /**
   An anonymous view of a page on a site with the shipped values and no
   saved overrides is sent the filtered keys, `Surrogate-Control:
   max-age=300`, and both staleness directives at 86400 seconds.
   */
  lemma DefaultResponse(stored: Option<Settings.Cache>, env: Env, wp: Settings.WpCore,
                        collected: seq<string>, c: Coordinator.Collaborators)
    requires ShippedValues(env)
    requires NoneOverridden(stored, {SettingNames[4], SettingNames[5], SettingNames[6], SettingNames[7], SettingNames[8]})
    ensures var s := Coordinator.Construct(Settings.Getter(map[], stored, env, wp));
      var (final, sent) := Coordinator.HandleWp(s, false, collected, c);
      sent == [
        SurrogateKeysSent(final.keys),
        Line("Surrogate-Control", "max-age=300"),
        CacheControlSent(Int(86400), StaleWhileRevalidate),
        CacheControlSent(Int(86400), StaleIfError)]
  {
    var s := Coordinator.Construct(Settings.Getter(map[], stored, env, wp));
    DefaultsConstruct(stored, env, wp);
    AnonymousResponse(s, collected, c);
  }

  /** What the `wp` action sends for a coordinator holding the default TTL and directives. */
  lemma AnonymousResponse(s: Coordinator.State, collected: seq<string>, c: Coordinator.Collaborators)
    requires s.control.seconds == 300
    requires s.cacheControl == [CacheControlHeader(Int(86400), StaleWhileRevalidate),
                                CacheControlHeader(Int(86400), StaleIfError)]
    ensures var (final, sent) := Coordinator.HandleWp(s, false, collected, c);
      sent == [
        SurrogateKeysSent(final.keys),
        Line("Surrogate-Control", "max-age=300"),
        CacheControlSent(Int(86400), StaleWhileRevalidate),
        CacheControlSent(Int(86400), StaleIfError)]
  {
    Coordinator.HandleWpTwoDirectives(s, collected, c);
    assert s.control == SurrogateControlHeader(300);
    FiveMinutes();
  }

  /** The shipped page TTL as the header renders it. */
  lemma FiveMinutes()
    ensures MaxAge(SurrogateControlHeader(300)) == "max-age=300"
  {
    assert NatToString(300) == "300";
    assert MaxAgePrefix + "300" == "max-age=300";
  }

  /**
   With the shipped values and no saved override, a whole-cache purge
   requested without arguments carries `allow-all` false.
   */
  lemma DefaultPurgeAll(stored: Option<Settings.Cache>, env: Env, wp: Settings.WpCore)
    requires ShippedValues(env)
    requires Settings.NotOverridden(stored, SettingNames[2])
    ensures var allow := Settings.GetSetting(map[], stored, env, wp, SettingAllowPurgeAll).value;
      Utils.PurgeAll(map[], allow).args == map[Utils.AllowAllArg := Bool(false)]
  {
    DefaultCheckbox(stored, env, wp, 2, false);
    var allow := Settings.GetSetting(map[], stored, env, wp, SettingNames[2]).value;
    PurgeAllWithoutArgs(allow);
  }

  lemma PurgeAllWithoutArgs(allow: Value)
    ensures Utils.PurgeAll(map[], allow).args == map[Utils.AllowAllArg := allow]
  {
    var r := Utils.PurgeAll(map[], allow);
    assert r.args.Keys == {Utils.AllowAllArg};
  }
}
