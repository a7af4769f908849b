/**
 The plugin's public helpers: the option lookup over the stored settings and
 the configuration constants, the argument shaping of the three purge
 helpers, and the TTL and staleness setters that forward to the coordinator.
 The purge itself is not part of this model: a helper's outcome is the
 request it would issue.
 */
module Utils {
  import opened Php
  import opened Config
  import opened Headers
  import Coordinator

  /** An options or purge-arguments array with string keys. */
  type Args = map<string, Value>

  /** The constants' values for the given option names, as the lookup loop collects them. */
  function ConstantOptions(env: Env, names: seq<string>): (r: Args)
    ensures r.Keys == set i | 0 <= i < |names| && ConstantName(names[i]) in env :: names[i]
    ensures forall i :: 0 <= i < |names| && ConstantName(names[i]) in env ==>
      r[names[i]] == env[ConstantName(names[i])]
    decreases |names|
  {
    if names == [] then map[]
    else
      var init := names[..|names| - 1];
      var last := names[|names| - 1];
      var r := ConstantOptions(env, init);
      assert forall i :: 0 <= i < |names| - 1 ==> names[i] == init[i];
      if ConstantName(last) in env then r[last := env[ConstantName(last)]] else r
  }

  /**
   `purgely_get_options`: the stored option when it exists, as a whole;
   otherwise the value of every option whose constant is defined.
   */
  function GetOptions(env: Env, stored: Option<Args>): (r: Args)
    ensures stored.Some? ==> r == stored.value
    ensures stored.None? ==> forall name :: name in r <==> name in SettingNames && ConstantName(name) in env
    ensures stored.None? ==> forall i :: 0 <= i < |SettingNames| && ConstantName(SettingNames[i]) in env ==>
      r[SettingNames[i]] == env[ConstantName(SettingNames[i])]
  {
    match stored
    case Some(options) => options
    case None => ConstantOptions(env, SettingNames)
  }

  /** `purgely_get_option`: the option when it is set, else ''. */
  function GetOption(env: Env, stored: Option<Args>, name: string): (r: Value)
    ensures IsSet(GetOptions(env, stored), name) ==> r == GetOptions(env, stored)[name]
    ensures !IsSet(GetOptions(env, stored), name) ==> r == Str("")
    ensures r != Null
  {
    var options := GetOptions(env, stored);
    if IsSet(options, name) then options[name] else Str("")
  }

  /**
   With nothing stored, an option reads the value of its constant when that
   is defined and not null; a name outside the ten options reads ''.
   */
  lemma OptionFromConstant(env: Env, name: string)
    ensures name in SettingNames && ConstantName(name) in env && env[ConstantName(name)] != Null ==>
      GetOption(env, None, name) == env[ConstantName(name)]
    ensures name !in SettingNames ==> GetOption(env, None, name) == Str("")
  {
    if name in SettingNames && ConstantName(name) in env {
      var i :| 0 <= i < |SettingNames| && SettingNames[i] == name;
    }
  }

  /**
   A stored options array replaces the constants as a whole: an option it
   lacks reads '', even when its constant is defined.
   */
  lemma StoredOptionsShadowConstants(env: Env, stored: Args, name: string)
    requires !IsSet(stored, name)
    ensures GetOption(env, Some(stored), name) == Str("")
  {
  }

  /** The purge a helper asks for. */
  datatype PurgeKind = UrlPurge | SurrogateKeyPurge | AllPurge

  datatype PurgeRequest =
    | Single(kind: PurgeKind, target: string, args: Args)  // one `Purgely_Purge::purge( kind, target, args )`
    | RelatedUrls(url: string, args: Args)                 // a purge of the URL and its related URLs

  /**
   `purgely_purge_url`: the related-URL collection only when `related` is
   set and identically `true`; otherwise one URL purge of the URL as given.
   */
  function PurgeUrl(url: string, args: Args): (r: PurgeRequest)
    ensures r.RelatedUrls? <==> "related" in args && args["related"] == Bool(true)
    ensures r.RelatedUrls? ==> r.url == url && r.args == args
    ensures r.Single? ==> r.kind == UrlPurge && r.target == url && r.args == args
  {
    if IsSet(args, "related") && args["related"] == Bool(true) then RelatedUrls(url, args)
    else Single(UrlPurge, url, args)
  }

  /** A truthy `related` that is not the boolean `true` still purges the single URL. */
  lemma TruthyRelatedIsSingle(url: string, args: Args)
    requires "related" in args && args["related"] in {Int(1), Str("1"), Str("true")}
    ensures PurgeUrl(url, args) == Single(UrlPurge, url, args)
  {
  }

  /** `purgely_purge_surrogate_key`: one surrogate-key purge of the key as given. */
  function PurgeSurrogateKey(key: string, args: Args): (r: PurgeRequest)
    ensures r.Single? && r.kind == SurrogateKeyPurge
    ensures r.target == key && r.args == args
  {
    Single(SurrogateKeyPurge, key, args)
  }

  const AllowAllArg := "allow-all"

  /**
   `purgely_purge_all`: a purge of everything with an empty target, whose
   `allow-all` argument is the caller's when the caller gives one and the
   `allow_purge_all` setting otherwise; every other argument is the caller's.
   */
  function PurgeAll(args: Args, allowPurgeAll: Value): (r: PurgeRequest)
    ensures r.Single? && r.kind == AllPurge && r.target == ""
    ensures r.args.Keys == args.Keys + {AllowAllArg}
    ensures r.args[AllowAllArg] == if AllowAllArg in args then args[AllowAllArg] else allowPurgeAll
    ensures forall k :: k in args ==> r.args[k] == args[k]
  {
    Single(AllPurge, "", map[AllowAllArg := allowPurgeAll] + args)
  }

  /**
   `purgely_set_ttl`: an empty value (null, false, 0, '' or '0') is returned
   as it is and the coordinator is left alone; any other value is passed
   through `absint`, stored as the page's TTL, and the stored TTL returned.
   */
  function SetTtl(s: Coordinator.State, seconds: Value): (r: (Value, Coordinator.State))
    ensures Empty(seconds) ==> r == (seconds, s)
    ensures !Empty(seconds) ==> r.0 == Int(Absint(seconds)) && r.1.control.seconds == Absint(seconds)
    ensures r.1.keys == s.keys && r.1.cacheControl == s.cacheControl
  {
    if Empty(seconds) then (seconds, s)
    else
      var (stored, s') := Coordinator.SetTtl(s, Int(Absint(seconds)));
      (Int(stored), s')
  }

  /** Setting the same TTL twice is setting it once. */
  lemma SetTtlIdempotent(s: Coordinator.State, seconds: Value)
    ensures SetTtl(SetTtl(s, seconds).1, seconds) == SetTtl(s, seconds)
  {
  }

  /**
   A TTL given as the decimal text of a number, as a form submits it: the
   text of a positive number sets the TTL to that number whatever its sign,
   and the text of zero is `'0'`, which is empty and leaves the TTL alone.
   */
  lemma SetTtlFromText(s: Coordinator.State, n: nat)
    ensures SetTtl(s, Str(NatToString(n))).1.control.seconds == if n == 0 then s.control.seconds else n
    ensures SetTtl(s, Str(IntToString(0 - n))).1.control.seconds == if n == 0 then s.control.seconds else n
  {
    AbsintOfRenderedNat(n);
    if n == 0 {
      assert NatToString(0) == "0";
    } else {
      RenderedNotEmpty(n);
    }
  }

  /** The text of a positive number, with or without a minus sign, is not empty in PHP's sense. */
  lemma RenderedNotEmpty(n: nat)
    requires n > 0
    ensures !Empty(Str(NatToString(n))) && !Empty(Str(IntToString(0 - n)))
  {
    var text, negative := NatToString(n), IntToString(0 - n);
    assert text[0] != "0"[0];
    assert negative[0] != "0"[0];
  }

  /**
   `'0'` is empty and leaves the TTL alone, but `'00'` is not empty and sets
   the TTL to zero.
   */
  lemma SetTtlZeroStrings(s: Coordinator.State)
    ensures SetTtl(s, Str("0")).1 == s
    ensures SetTtl(s, Str("00")).1.control.seconds == 0
  {
    assert Str("00") != Str("0") by { assert |"00"| != |"0"|; }
    assert !Empty(Str("00"));
    assert StringToInt("00") == 0 by {
      assert SkipSpace("00") == "00";
      assert LeadingDigits("00") == "00";
    }
  }

  /**
   `purgely_set_stale_while_revalidate`: one more stale-while-revalidate
   directive after the existing ones; the full list is returned.
   */
  function SetStaleWhileRevalidate(s: Coordinator.State, seconds: Value): (r: (seq<CacheControlHeader>, Coordinator.State))
    ensures r.0 == r.1.cacheControl
    ensures r.0 == s.cacheControl + [CacheControlHeader(seconds, StaleWhileRevalidate)]
    ensures r.1.keys == s.keys && r.1.control == s.control
  {
    var s' := Coordinator.AddCacheControlHeader(s, seconds, StaleWhileRevalidate);
    assert s'.cacheControl == s'.cacheControl[..|s.cacheControl|] + [s'.cacheControl[|s.cacheControl|]];
    (s'.cacheControl, s')
  }

  /** `purgely_set_stale_if_error`: one more stale-if-error directive after the existing ones. */
  function SetStaleIfError(s: Coordinator.State, seconds: Value): (r: (seq<CacheControlHeader>, Coordinator.State))
    ensures r.0 == r.1.cacheControl
    ensures r.0 == s.cacheControl + [CacheControlHeader(seconds, StaleIfError)]
    ensures r.1.keys == s.keys && r.1.control == s.control
  {
    var s' := Coordinator.AddCacheControlHeader(s, seconds, StaleIfError);
    assert s'.cacheControl == s'.cacheControl[..|s.cacheControl|] + [s'.cacheControl[|s.cacheControl|]];
    (s'.cacheControl, s')
  }

  /**
   A directive added through the helper is the last Cache-Control header an
   anonymous view is sent.
   */
  lemma StaleWhileRevalidateSentLast(s: Coordinator.State, seconds: Value, collected: seq<string>, c: Coordinator.Collaborators)
    ensures var sent := Coordinator.HandleWp(SetStaleWhileRevalidate(s, seconds).1, false, collected, c).1;
      sent != [] && sent[|sent| - 1] == CacheControlSent(seconds, StaleWhileRevalidate)
  {
    var s' := SetStaleWhileRevalidate(s, seconds).1;
    Coordinator.HandleWpSends(s', false, collected, c);
    assert s'.cacheControl[|s'.cacheControl| - 1] == CacheControlHeader(seconds, StaleWhileRevalidate);
  }

  /**
   A stale-if-error directive added through the helper is the last
   Cache-Control header an anonymous view is sent, and the directives
   registered before it are sent before it, unchanged.
   */
  lemma StaleIfErrorSentLast(s: Coordinator.State, seconds: Value, collected: seq<string>, c: Coordinator.Collaborators)
    ensures var sent := Coordinator.HandleWp(SetStaleIfError(s, seconds).1, false, collected, c).1;
      && |sent| == 3 + |s.cacheControl|
      && sent[|sent| - 1] == CacheControlSent(seconds, StaleIfError)
      && forall i :: 0 <= i < |s.cacheControl| ==>
        sent[2 + i] == CacheControlSent(s.cacheControl[i].seconds, s.cacheControl[i].directive)
  {
    var s' := SetStaleIfError(s, seconds).1;
    Coordinator.HandleWpSends(s', false, collected, c);
    assert s'.cacheControl[|s'.cacheControl| - 1] == CacheControlHeader(seconds, StaleIfError);
    assert forall i :: 0 <= i < |s.cacheControl| ==> s'.cacheControl[i] == s.cacheControl[i];
  }
}
