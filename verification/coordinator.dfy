/**
 The per-request header coordinator. It holds the surrogate keys collected
 for the page, the Surrogate-Control header with its TTL, and an ordered list
 of cache-control directives. Its construction registers the default
 staleness directives and hooks its callbacks onto WordPress's `wp` action;
 when that action runs, keys are collected at priority 100 and then, at
 priority 101, the keys, the Surrogate-Control header and the cache-control
 headers are sent, in that order. Logged-in views get no Surrogate-Control or
 Cache-Control header; the Surrogate-Key header is sent regardless.
 */
module Coordinator {
  import opened Php
  import opened Headers
  import opened Config
  import Hooks

  datatype State = State(keys: seq<string>, control: SurrogateControlHeader, cacheControl: seq<CacheControlHeader>)

  /**
   The code the coordinator hands data to without it being part of this
   model: the Surrogate-Key header's `add_keys`, and the filters
   `purgely_surrogate_keys` and `purgely_surrogate_control`.
   */
  datatype Collaborators = Collaborators(
    addKeys: (seq<string>, seq<string>) -> seq<string>,
    keysFilter: seq<string> -> seq<string>,
    ttlFilter: nat -> Value)

  /** The callbacks the coordinator registers, one per method it hooks. */
  datatype Callback =
    | SetStandardKeysCb       // set_standard_keys
    | SendSurrogateKeysCb     // send_surrogate_keys
    | SendSurrogateControlCb  // send_surrogate_control
    | SendCacheControlCb      // send_cache_control
    | LoadTextdomainCb        // load_plugin_textdomain

  /** `add_cache_control_header`: one more directive, appended after all earlier ones. */
  function AddCacheControlHeader(s: State, seconds: Value, directive: string): (r: State)
    ensures |r.cacheControl| == |s.cacheControl| + 1
    ensures r.cacheControl[..|s.cacheControl|] == s.cacheControl
    ensures r.cacheControl[|s.cacheControl|] == CacheControlHeader(seconds, directive)
    ensures r.keys == s.keys && r.control == s.control
  {
    s.(cacheControl := s.cacheControl + [CacheControlHeader(seconds, directive)])
  }

  /**
   The constructor's state: no keys, the TTL from `surrogate_control_ttl`,
   and the stale-while-revalidate then stale-if-error directives, each only
   when its enable setting is strictly `true`. `get` is the settings lookup.
   */
  function Construct(get: string -> Value): (r: State)
    ensures r.keys == []
    ensures r.control.seconds == Absint(get(SettingSurrogateControlTtl))
    ensures CacheControlHeader(get(SettingStaleWhileRevalidateTtl), StaleWhileRevalidate) in r.cacheControl
      <==> get(SettingEnableStaleWhileRevalidate) == Bool(true)
    ensures CacheControlHeader(get(SettingStaleIfErrorTtl), StaleIfError) in r.cacheControl
      <==> get(SettingEnableStaleIfError) == Bool(true)
    ensures forall h :: h in r.cacheControl ==>
      h == CacheControlHeader(get(SettingStaleWhileRevalidateTtl), StaleWhileRevalidate)
      || h == CacheControlHeader(get(SettingStaleIfErrorTtl), StaleIfError)
    ensures |r.cacheControl| == (if get(SettingEnableStaleWhileRevalidate) == Bool(true) then 1 else 0)
      + (if get(SettingEnableStaleIfError) == Bool(true) then 1 else 0)
    ensures |r.cacheControl| == 2 ==>
      r.cacheControl[0].directive == StaleWhileRevalidate && r.cacheControl[1].directive == StaleIfError
  {
    var s := State([], NewSurrogateControl(get(SettingSurrogateControlTtl)), []);
    var s := if get(SettingEnableStaleWhileRevalidate) == Bool(true)
      then AddCacheControlHeader(s, get(SettingStaleWhileRevalidateTtl), StaleWhileRevalidate) else s;
    var s := if get(SettingEnableStaleIfError) == Bool(true)
      then AddCacheControlHeader(s, get(SettingStaleIfErrorTtl), StaleIfError) else s;
    assert StaleWhileRevalidate != StaleIfError;
    s
  }

  /** With both staleness settings strictly `true`, the directives are exactly stale-while-revalidate then stale-if-error. */
  lemma ConstructBothEnabled(get: string -> Value)
    requires get(SettingEnableStaleWhileRevalidate) == Bool(true) && get(SettingEnableStaleIfError) == Bool(true)
    ensures Construct(get).cacheControl == [
      CacheControlHeader(get(SettingStaleWhileRevalidateTtl), StaleWhileRevalidate),
      CacheControlHeader(get(SettingStaleIfErrorTtl), StaleIfError)]
  {
  }

  /** The `add_action` calls of the constructor, in the order it makes them, on the table as it stood before. */
  function Registrations(t: Hooks.Table<Callback>): (r: Hooks.Table<Callback>)
    ensures r.Keys == t.Keys + {"wp", "plugins_loaded"}
    ensures forall a :: a in t && a != "wp" && a != "plugins_loaded" ==> r[a] == t[a]
  {
    Hooks.AddAction(WpHooks(t), "plugins_loaded", LoadTextdomainCb, 10)
  }

  /** The constructor's four `add_action` calls on `wp`. */
  function WpHooks(t: Hooks.Table<Callback>): (r: Hooks.Table<Callback>)
    ensures r.Keys == t.Keys + {"wp"}
    ensures forall a :: a in t && a != "wp" ==> r[a] == t[a]
  {
    var t := Hooks.AddAction(t, "wp", SetStandardKeysCb, 100);
    var t := Hooks.AddAction(t, "wp", SendSurrogateKeysCb, 101);
    var t := Hooks.AddAction(t, "wp", SendSurrogateControlCb, 101);
    Hooks.AddAction(t, "wp", SendCacheControlCb, 101)
  }

  /** The buckets an action had before the constructor ran. */
  function Before(t: Hooks.Table<Callback>, tag: string): seq<Hooks.Bucket<Callback>> {
    if tag in t then t[tag] else []
  }

  /**
   Whatever was hooked on `wp` before, the constructor adds key collection
   last at priority 100 and the three sends last at priority 101, keys then
   Surrogate-Control then Cache-Control, and leaves every other priority
   alone. Running `wp` then runs the callbacks at 100 immediately before
   those at 101.
   */
  lemma WpRegistrations(t: Hooks.Table<Callback>)
    requires "wp" in t ==> Hooks.Sorted(t["wp"])
    ensures var w := Registrations(t)["wp"];
      && Hooks.Sorted(w)
      && Hooks.At(w, 100) == Hooks.At(Before(t, "wp"), 100) + [SetStandardKeysCb]
      && Hooks.At(w, 101) == Hooks.At(Before(t, "wp"), 101) + [SendSurrogateKeysCb, SendSurrogateControlCb, SendCacheControlCb]
      && (forall q :: q != 100 && q != 101 ==> Hooks.At(w, q) == Hooks.At(Before(t, "wp"), q))
      && Hooks.Run(w) == Hooks.RunBelow(w, 100) + Hooks.At(w, 100) + Hooks.At(w, 101) + Hooks.RunAbove(w, 101)
  {
    assert Registrations(t)["wp"] == WpHooks(t)["wp"];
    WpHooksAt(t);
    Hooks.RunAdjacent(WpHooks(t)["wp"], 100);
  }

  lemma WpHooksAt(t: Hooks.Table<Callback>)
    requires "wp" in t ==> Hooks.Sorted(t["wp"])
    ensures var w := WpHooks(t)["wp"];
      && Hooks.Sorted(w)
      && Hooks.At(w, 100) == Hooks.At(Before(t, "wp"), 100) + [SetStandardKeysCb]
      && Hooks.At(w, 101) == Hooks.At(Before(t, "wp"), 101) + [SendSurrogateKeysCb, SendSurrogateControlCb, SendCacheControlCb]
      && (forall q :: q != 100 && q != 101 ==> Hooks.At(w, q) == Hooks.At(Before(t, "wp"), q))
  {
    var w0 := Before(t, "wp");
    var t1 := Hooks.AddAction(t, "wp", SetStandardKeysCb, 100);
    WpStep(t, SetStandardKeysCb, 100);
    var t2 := Hooks.AddAction(t1, "wp", SendSurrogateKeysCb, 101);
    WpStep(t1, SendSurrogateKeysCb, 101);
    var t3 := Hooks.AddAction(t2, "wp", SendSurrogateControlCb, 101);
    WpStep(t2, SendSurrogateControlCb, 101);
    WpStep(t3, SendCacheControlCb, 101);
    assert Hooks.At(w0, 101) + [SendSurrogateKeysCb] + [SendSurrogateControlCb] + [SendCacheControlCb]
      == Hooks.At(w0, 101) + [SendSurrogateKeysCb, SendSurrogateControlCb, SendCacheControlCb];
  }

  /** One `add_action` on `wp`: the buckets stay sorted and only priority `p` gains `cb`, at its end. */
  lemma WpStep(t: Hooks.Table<Callback>, cb: Callback, p: int)
    requires "wp" in t ==> Hooks.Sorted(t["wp"])
    ensures var w := Hooks.AddAction(t, "wp", cb, p)["wp"];
      && Hooks.Sorted(w)
      && Hooks.At(w, p) == Hooks.At(Before(t, "wp"), p) + [cb]
      && forall q :: q != p ==> Hooks.At(w, q) == Hooks.At(Before(t, "wp"), q)
  {
    Hooks.InsertSorted(Before(t, "wp"), cb, p);
    Hooks.AddActionAt(t, "wp", cb, p);
  }

  /** The text domain is loaded on `plugins_loaded` at the default priority 10, after what was there. */
  lemma TextdomainRegistration(t: Hooks.Table<Callback>)
    requires "plugins_loaded" in t ==> Hooks.Sorted(t["plugins_loaded"])
    ensures var l := Registrations(t)["plugins_loaded"];
      && Hooks.At(l, 10) == Hooks.At(Before(t, "plugins_loaded"), 10) + [LoadTextdomainCb]
      && forall q :: q != 10 ==> Hooks.At(l, q) == Hooks.At(Before(t, "plugins_loaded"), q)
  {
    assert Before(WpHooks(t), "plugins_loaded") == Before(t, "plugins_loaded");
    Hooks.AddActionAt(WpHooks(t), "plugins_loaded", LoadTextdomainCb, 10);
  }

  /**
   On a `wp` action nothing else has hooked, key collection runs first, at
   priority 100; the three sends follow at 101, keys before Surrogate-Control
   before Cache-Control.
   */
  lemma WpCallbackOrder(t: Hooks.Table<Callback>)
    requires "wp" !in t
    ensures Hooks.At(Registrations(t)["wp"], 100) == [SetStandardKeysCb]
    ensures Hooks.At(Registrations(t)["wp"], 101) == [SendSurrogateKeysCb, SendSurrogateControlCb, SendCacheControlCb]
    ensures Hooks.Run(Registrations(t)["wp"]) == WpCallbacks
  {
    WpBuckets(t);
    Hooks.RunTwoBuckets(Hooks.Bucket(100, [SetStandardKeysCb]),
      Hooks.Bucket(101, [SendSurrogateKeysCb, SendSurrogateControlCb, SendCacheControlCb]));
  }

  /** The `wp` action's buckets: one at 100, then one at 101 holding the three sends in order. */
  lemma WpBuckets(t: Hooks.Table<Callback>)
    requires "wp" !in t
    ensures Registrations(t)["wp"] == [
      Hooks.Bucket(100, [SetStandardKeysCb]),
      Hooks.Bucket(101, [SendSurrogateKeysCb, SendSurrogateControlCb, SendCacheControlCb])]
  {
    var t1 := Hooks.AddAction(t, "wp", SetStandardKeysCb, 100);
    Hooks.AddActionAfterLast(t, "wp", SetStandardKeysCb, 100);
    var t2 := Hooks.AddAction(t1, "wp", SendSurrogateKeysCb, 101);
    Hooks.AddActionAfterLast(t1, "wp", SendSurrogateKeysCb, 101);
    var t3 := Hooks.AddAction(t2, "wp", SendSurrogateControlCb, 101);
    JoinSends(t2, SendSurrogateControlCb, [SendSurrogateKeysCb]);
    assert [SendSurrogateKeysCb] + [SendSurrogateControlCb] == [SendSurrogateKeysCb, SendSurrogateControlCb];
    var t4 := Hooks.AddAction(t3, "wp", SendCacheControlCb, 101);
    JoinSends(t3, SendCacheControlCb, [SendSurrogateKeysCb, SendSurrogateControlCb]);
    assert [SendSurrogateKeysCb, SendSurrogateControlCb] + [SendCacheControlCb]
      == [SendSurrogateKeysCb, SendSurrogateControlCb, SendCacheControlCb];
    assert Registrations(t)["wp"] == WpHooks(t)["wp"] == t4["wp"];
  }

  /** A further send at 101 joins the end of the 101 bucket. */
  lemma JoinSends(t: Hooks.Table<Callback>, cb: Callback, sends: seq<Callback>)
    requires "wp" in t && t["wp"] == [Hooks.Bucket(100, [SetStandardKeysCb]), Hooks.Bucket(101, sends)]
    ensures Hooks.AddAction(t, "wp", cb, 101)["wp"] == [Hooks.Bucket(100, [SetStandardKeysCb]), Hooks.Bucket(101, sends + [cb])]
  {
    Hooks.AddActionIntoLast(t, "wp", cb, 101);
    assert t["wp"][..1] == [Hooks.Bucket(100, [SetStandardKeysCb])];
  }

  /** `set_standard_keys`: the keys derived from the current query go to the Surrogate-Key header. */
  function SetStandardKeys(s: State, collected: seq<string>, c: Collaborators): (r: State)
    ensures r.control == s.control && r.cacheControl == s.cacheControl
  {
    s.(keys := c.addKeys(s.keys, collected))
  }

  /**
   `send_surrogate_keys`: the filtered keys replace the stored ones and the
   header is sent. There is no logged-in check.
   */
  function SendSurrogateKeys(s: State, c: Collaborators, out: seq<Sent>): (r: (State, seq<Sent>))
    ensures r.0.keys == c.keysFilter(s.keys)
    ensures r.0.control == s.control && r.0.cacheControl == s.cacheControl
    ensures r.1 == out + [SurrogateKeysSent(r.0.keys)]
  {
    var keys := c.keysFilter(s.keys);
    (s.(keys := keys), out + [SurrogateKeysSent(keys)])
  }

  /**
   `send_surrogate_control`: nothing for a logged-in user; otherwise the
   stored TTL is sent. The filtered seconds reach only the pre- and post-send
   actions, never the header.
   */
  function SendSurrogateControl(s: State, loggedIn: bool, c: Collaborators, out: seq<Sent>): (r: seq<Sent>)
    ensures loggedIn ==> r == out
    ensures !loggedIn ==> |r| == |out| + 1 && r[..|out|] == out
    ensures !loggedIn ==> r[|out|] == Line(SurrogateControlName, MaxAge(s.control))
  {
    if loggedIn then out
    else
      var filtered := c.ttlFilter(s.control.seconds);
      Headers.SendSurrogateControl(s.control, out)
  }

  /** Sending each cache-control header in turn, first to last. */
  function SendAll(hs: seq<CacheControlHeader>, out: seq<Sent>): (r: seq<Sent>)
    ensures |r| == |out| + |hs| && r[..|out|] == out
    ensures forall i :: 0 <= i < |hs| ==> r[|out| + i] == CacheControlSent(hs[i].seconds, hs[i].directive)
    decreases |hs|
  {
    if hs == [] then out else SendAll(hs[1..], SendCacheControlHeader(hs[0], out))
  }

  /** `send_cache_control`: nothing for a logged-in user; otherwise every registered directive, in registration order. */
  function SendCacheControl(s: State, loggedIn: bool, out: seq<Sent>): (r: seq<Sent>)
    ensures loggedIn ==> r == out
    ensures !loggedIn ==> |r| == |out| + |s.cacheControl| && r[..|out|] == out
    ensures !loggedIn ==> forall i :: 0 <= i < |s.cacheControl| ==>
      r[|out| + i] == CacheControlSent(s.cacheControl[i].seconds, s.cacheControl[i].directive)
  {
    if loggedIn then out else SendAll(s.cacheControl, out)
  }

  /**
   `set_ttl`: the header takes the seconds (through `absint`, as its
   constructor does) and the seconds it now holds are returned.
   */
  function SetTtl(s: State, seconds: Value): (r: (nat, State))
    ensures r.0 == r.1.control.seconds
    ensures seconds.Int? && seconds.i >= 0 ==> r.0 == seconds.i
    ensures r.1.keys == s.keys && r.1.cacheControl == s.cacheControl
  {
    var s' := s.(control := NewSurrogateControl(seconds));
    (s'.control.seconds, s')
  }

  /** The `wp` callbacks in the order the hook table runs them (`WpCallbackOrder`). */
  const WpCallbacks := [SetStandardKeysCb, SendSurrogateKeysCb, SendSurrogateControlCb, SendCacheControlCb]

  /** One callback run: each method on the coordinator state and the headers sent so far. */
  function Dispatch(cb: Callback, s: State, loggedIn: bool, collected: seq<string>,
                    c: Collaborators, out: seq<Sent>): (r: (State, seq<Sent>))
    ensures r.0.control == s.control && r.0.cacheControl == s.cacheControl
    ensures |out| <= |r.1| && r.1[..|out|] == out
  {
    match cb
    case SetStandardKeysCb => (SetStandardKeys(s, collected, c), out)
    case SendSurrogateKeysCb => SendSurrogateKeys(s, c, out)
    case SendSurrogateControlCb => (s, SendSurrogateControl(s, loggedIn, c, out))
    case SendCacheControlCb => (s, SendCacheControl(s, loggedIn, out))
    case LoadTextdomainCb => (s, out)
  }

  /**
   Running callbacks in order. No callback changes the TTL or the
   directives, and what was sent is only ever added to.
   */
  function RunCallbacks(cbs: seq<Callback>, s: State, loggedIn: bool, collected: seq<string>,
                        c: Collaborators, out: seq<Sent>): (r: (State, seq<Sent>))
    ensures r.0.control == s.control && r.0.cacheControl == s.cacheControl
    ensures |out| <= |r.1| && r.1[..|out|] == out
    decreases |cbs|
  {
    if cbs == [] then (s, out)
    else
      var (s', out') := Dispatch(cbs[0], s, loggedIn, collected, c, out);
      var r := RunCallbacks(cbs[1..], s', loggedIn, collected, c, out');
      assert r.1[..|out|] == r.1[..|out'|][..|out|];
      r
  }

  /** The `wp` action: the coordinator's four callbacks, run in hook order from an empty response. */
  function HandleWp(s: State, loggedIn: bool, collected: seq<string>, c: Collaborators): (r: (State, seq<Sent>))
    ensures r.0.control == s.control && r.0.cacheControl == s.cacheControl
  {
    RunCallbacks(WpCallbacks, s, loggedIn, collected, c, [])
  }

  /** The fold over the four callbacks, step by step. */
  lemma HandleWpSteps(s: State, loggedIn: bool, collected: seq<string>, c: Collaborators)
    ensures var s1 := SetStandardKeys(s, collected, c);
      var (s2, out) := SendSurrogateKeys(s1, c, []);
      HandleWp(s, loggedIn, collected, c) == (s2, SendCacheControl(s2, loggedIn, SendSurrogateControl(s2, loggedIn, c, out)))
  {
    var w := WpCallbacks;
    assert w[0] == SetStandardKeysCb && w[1..][0] == SendSurrogateKeysCb;
    assert w[1..][1..][0] == SendSurrogateControlCb && w[1..][1..][1..][0] == SendCacheControlCb;
    assert w[1..][1..][1..][1..] == [];
  }

  /**
   What a request's `wp` action sends: always the Surrogate-Key header with
   the filtered keys; for a logged-in user nothing else; otherwise the
   Surrogate-Control header with the stored TTL and then one header per
   registered directive, in registration order.
   */
  lemma HandleWpSends(s: State, loggedIn: bool, collected: seq<string>, c: Collaborators)
    ensures var (final, out) := HandleWp(s, loggedIn, collected, c);
      && final.keys == c.keysFilter(c.addKeys(s.keys, collected))
      && final.control == s.control && final.cacheControl == s.cacheControl
      && (loggedIn ==> out == [SurrogateKeysSent(final.keys)])
      && (!loggedIn ==>
        && |out| == 2 + |s.cacheControl|
        && out[0] == SurrogateKeysSent(final.keys)
        && out[1] == Line(SurrogateControlName, MaxAge(s.control))
        && forall i :: 0 <= i < |s.cacheControl| ==>
          out[2 + i] == CacheControlSent(s.cacheControl[i].seconds, s.cacheControl[i].directive))
  {
    HandleWpSteps(s, loggedIn, collected, c);
  }

  /** With two directives, an anonymous view is sent exactly four headers. */
  lemma HandleWpTwoDirectives(s: State, collected: seq<string>, c: Collaborators)
    requires |s.cacheControl| == 2
    ensures var (final, out) := HandleWp(s, false, collected, c);
      out == [
        SurrogateKeysSent(final.keys),
        Line(SurrogateControlName, MaxAge(s.control)),
        CacheControlSent(s.cacheControl[0].seconds, s.cacheControl[0].directive),
        CacheControlSent(s.cacheControl[1].seconds, s.cacheControl[1].directive)]
  {
    HandleWpSends(s, false, collected, c);
    var out := HandleWp(s, false, collected, c).1;
    assert out[2 + 0] == CacheControlSent(s.cacheControl[0].seconds, s.cacheControl[0].directive);
    assert out[2 + 1] == CacheControlSent(s.cacheControl[1].seconds, s.cacheControl[1].directive);
  }

  /** The filter on the TTL cannot change what is sent. */
  lemma TtlFilterIgnored(s: State, loggedIn: bool, collected: seq<string>, c: Collaborators, f: nat -> Value)
    ensures HandleWp(s, loggedIn, collected, c) == HandleWp(s, loggedIn, collected, c.(ttlFilter := f))
  {
    HandleWpSteps(s, loggedIn, collected, c);
    HandleWpSteps(s, loggedIn, collected, c.(ttlFilter := f));
  }

  /**
   After `set_ttl`, a page that is not viewed by a logged-in user is sent
   `Surrogate-Control: max-age=` with the new seconds, whatever the TTL was.
   */
  lemma SetTtlThenSend(s: State, seconds: nat, collected: seq<string>, c: Collaborators)
    ensures var sent := HandleWp(SetTtl(s, Int(seconds)).1, false, collected, c).1;
      |sent| >= 2 && sent[1].Line? && sent[1].name == SurrogateControlName
      && ParseMaxAge(sent[1].value) == Some(seconds)
  {
    HandleWpSends(SetTtl(s, Int(seconds)).1, false, collected, c);
    MaxAgeRoundTrip(seconds);
  }
}
