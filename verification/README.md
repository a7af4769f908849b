# Purgely, modelled in Dafny

Purgely is a WordPress plugin that puts pages behind the Fastly CDN. On every
request it builds a header coordinator. The coordinator collects surrogate
keys for the page. It sends a `Surrogate-Key` header, a `Surrogate-Control:
max-age=<ttl>` header and one `Cache-Control` header per staleness directive
(`stale-while-revalidate`, `stale-if-error`). The TTLs and switches come from
ten settings. Each setting is negotiated from three tiers:
- the value saved in the database;
- a PHP constant, defined by the site or else by the plugin's configuration file;
- a sanitizer callback applied to whichever value was chosen.

Small helper functions let themes and plugins shape purge requests, read
options, and change the TTL and directives for the current page.

The model is a set of pure functions over immutable values, one module per
concern:

| module | file | models |
|---|---|---|
| `Php` | `php.dfy` | PHP values (`string`, `int`, `bool`, `null`), `isset`, `empty`, decimal rendering and parsing, `absint`, `strtoupper` |
| `Sanitizers` | `sanitizers.dfy` | the surrogate-key, API-key and checkbox sanitizers |
| `Config` | `config.dfy` | the constants and the define-if-undefined rule |
| `Settings` | `settings.dfy` | the registry, the negotiation, the memo cache, `get_setting`, `set_settings` |
| `Headers` | `headers.dfy` | the Surrogate-Control header as its unit test describes it, and records of the other headers sent |
| `Hooks` | `hooks.dfy` | the part of WordPress's action table that orders callbacks by priority |
| `Coordinator` | `coordinator.dfy` | the `Purgely` class: constructor, hook registration, the three sends, `set_ttl`, `add_cache_control_header` |
| `Utils` | `utils.dfy` | the helpers: option lookup, purge-argument shaping, the TTL and staleness setters |
| `Plugin` | `plugin.dfy` | the whole pipeline under the shipped configuration |

How state and side effects are modelled:
- The coordinator's static fields become a `State` value that each operation takes and returns.
- The process-wide settings cache becomes a value that each lookup takes and returns.
- Headers are not written to a socket. Sending one appends a `Sent` record to a list.
- The database row `purgely-settings` becomes an `Option` parameter.
- The defined constants become a map parameter.
- Whether the visitor is logged in becomes a boolean parameter.
- The collected keys, the key filter and the TTL filter become parameters.

Where the documentation and the code disagree, the model follows the code:
- `send_surrogate_keys` has no logged-in check, so a logged-in view still gets the `Surrogate-Key` header. Only Surrogate-Control and Cache-Control are withheld (`Coordinator.HandleWpSends`).
- The comment on `purgely_get_options` says each option falls back to its constant. In the code, a stored options row replaces the constants as a whole, so an option missing from the row reads `''` even when its constant is defined (`Utils.StoredOptionsShadowConstants`).
- The value the `purgely_surrogate_control` filter returns reaches only the pre- and post-send actions. The header always carries the stored TTL (`Coordinator.TtlFilterIgnored`).

## Model

| member | source | states |
|---|---|---|
| Sanitizers.SanitizeSurrogateKey | src/utils.php:12-14 | the result has only `[a-zA-Z0-9_-]`, is a subsequence of the key, has exactly as many characters as the key has allowed ones, and equals the key when the key was already clean |
| Sanitizers.SurrogateKeyIdempotent | src/utils.php:12-14 | sanitizing a surrogate key twice gives the same result as sanitizing it once |
| Sanitizers.SanitizeExample | src/utils.php:12-14 | `"a b!"` sanitizes to `"ab"`: the space and the bang are dropped and the order is kept |
| Sanitizers.SanitizeKey | src/utils.php:180-182 | the result has only `[a-zA-Z0-9]`, is a subsequence of the key, keeps every alphanumeric character, and equals the key when the key was already alphanumeric |
| Sanitizers.KeyIdempotent | src/utils.php:180-182 | sanitizing an API key twice gives the same result as sanitizing it once |
| Sanitizers.KeyRefinesSurrogateKey | src/utils.php:180-182 | a sanitized API key is already a clean surrogate key, and the surrogate-key filter applied first changes nothing about the API-key result |
| Sanitizers.SanitizeCheckbox | src/utils.php:192-194 | the checkbox is on exactly for `'1'`, `1`, `'true'` and `true` under strict comparison |
| Sanitizers.CheckboxFacts | src/utils.php:192-194 | re-sanitizing a sanitized checkbox keeps it; `'yes'`, `2`, `'TRUE'`, `0`, `'0'`, `false`, `null` and `''` are all off |
| Config.Define | src/config.php:7-9 | defining a constant adds its name; a constant already defined keeps its value, and only an undefined one takes the default |
| Config.DefineAll | src/config.php:7-92 | a run of definitions defines every name it mentions and never changes a constant defined before it |
| Config.DefineAllFirst | src/config.php:7-92 | the first definition of a name the site left undefined is the value that sticks |
| Config.DefinitionsDistinct | src/config.php:7-92 | the ten constants have ten different names |
| Config.Configure | src/config.php:7-92 | after the configuration file every plugin constant is defined; constants the site defined first keep their values; every other plugin constant takes its default |
| Config.DefaultEndpointAndCredentials | src/config.php:7-27 | left to the file, the endpoint is `https://api.fastly.com/` and the key and service id are `''` |
| Config.DefaultPurgeAllDisallowed | src/config.php:34-36 | left to the file, whole-cache purges are disallowed |
| Config.DefaultStaleWhileRevalidate | src/config.php:43-54 | left to the file, stale-while-revalidate is on for 86400 seconds |
| Config.DefaultStaleIfError | src/config.php:61-72 | left to the file, stale-if-error is on for 86400 seconds |
| Config.DefaultTtlAndPurgeType | src/config.php:79-92 | left to the file, pages are cached for 300 seconds and purges are `soft` |
| Settings.Apply | src/classes/settings.php:94-96 | a sanitizer never yields null; checkbox yields a boolean, `absint` a non-negative integer, and the key filter an alphanumeric string |
| Settings.ApplyIdempotent | src/classes/settings.php:22-65 | every registered sanitizer gives the same result when applied twice, given that `esc_url` and `sanitize_key` do |
| Settings.Registry | src/classes/settings.php:22-65 | ten settings, under the ten option names, in their order |
| Settings.RegistryEntries | src/classes/settings.php:22-65 | exactly `fastly_key` and `fastly_service_id` use the key filter, exactly the three switches the checkbox sanitizer, exactly the three TTLs `absint`; the endpoint uses `esc_url` and the purge type `sanitize_key`; each default is the constant of the same name |
| Settings.RegistryWellFormed | src/classes/settings.php:22-65 | the registered names are pairwise distinct, ten in all |
| Settings.NegotiateKeys | src/classes/settings.php:85-99 | the negotiated map has exactly the registered names as keys |
| Settings.NegotiateAt | src/classes/settings.php:85-99 | a setting no later one renames negotiates to its sanitized saved value if that is set, else its sanitized default if that is set, else sanitized `''` |
| Settings.NegotiateValues | src/classes/settings.php:85-99 | with distinct names, every registered setting negotiates as above |
| Settings.GetSettings | src/classes/settings.php:77-105 | a non-empty cache is returned unchanged; an empty one is filled with the negotiated settings, which the cache then holds |
| Settings.GetSettingsMemoized | src/classes/settings.php:77-105 | once filled, the cache answers every later call, whatever the database holds |
| Settings.GetSetting | src/classes/settings.php:115-128 | the cached value when set; on a fresh request, the negotiated value of a registered setting; with a filled cache that lacks the name, the registered default when that is not null, else `''`; `''` for a name nobody registered that the cache lacks |
| Settings.SetSettings | src/classes/settings.php:138-140 | the new cache holds exactly the given settings, nothing added, dropped or re-sanitized |
| Settings.Choose | src/classes/settings.php:86-92 | the saved value when it is set; else the default when it is not null; else `''`; never null |
| Settings.Negotiate | src/classes/settings.php:85-99 | the last registration under a name always stands with its sanitized chosen value, so a later entry overwrites an earlier one of the same name |
| Settings.DefaultOrEmpty | src/classes/settings.php:121-127 | the fallback `get_setting` gives a name the negotiated settings lack: never null; the registered default when that is not null, else `''` |
| Settings.RegisteredDefaultAt | src/classes/settings.php:123-124 | a name looked up in the registry finds the default of its first entry |
| Settings.RegistryDefaults | src/classes/settings.php:119-125 | each of the ten names finds its own entry's default; any other name finds none |
| Settings.UnregisteredHasNoDefault | src/classes/settings.php:123-125 | a name absent from the registry has no default to fall back on |
| Settings.SetSettingsThenGet | src/classes/settings.php:138-140 | after `set_settings` with a non-empty map, the database is never consulted again: a name the map sets reads its value, a registered name it lacks reads the registered default (or `''` when that is null), any other name reads `''` |
| Settings.GetterStable | src/classes/settings.php:115-128 | a lookup after any other lookup answers the same as the first lookup would |
| Settings.DefaultLookupTwice | src/classes/settings.php:115-128 | with nothing saved, a registered setting reads as its sanitized default, twice in a row |
| Headers.NewSurrogateControl | test/tests/HeaderSurrogateControlTest.php:11-21 | a header built from a non-negative integer reports that integer as its seconds |
| Headers.MaxAge | test/tests/HeaderSurrogateControlTest.php:20 | the value starts with `max-age=` and parses back to the header's seconds |
| Headers.MaxAgeRoundTrip | test/tests/HeaderSurrogateControlTest.php:11-21 | the seconds can be parsed back from the header's `max-age=` value |
| Headers.SendSurrogateControl | test/tests/HeaderSurrogateControlTest.php:28-40 | sending appends one `Surrogate-Control` line, whose value parses back to the header's seconds, and keeps what was sent before |
| Headers.SurrogateControlContract | test/tests/HeaderSurrogateControlTest.php:11-40 | for every number of seconds: built with `s`, the header reports `s` and its value is `max-age=s`; sending it writes exactly `Surrogate-Control: max-age=s` |
| Headers.SurrogateControlTenSeconds | test/tests/HeaderSurrogateControlTest.php:28-40 | ten seconds send exactly `Surrogate-Control: max-age=10` |
| Php.Absint | src/utils.php:86 | `absint`: the absolute value of an integer; 1 or 0 for a boolean; 0 for null; the absolute value of a string's leading integer |
| Hooks.AddAction | purgely.php:140-158 | `add_action` changes only the named action and adds it if absent |
| Hooks.AddActionWellFormed | purgely.php:140-166 | `add_action` keeps every action's callbacks in ascending priority order |
| Hooks.RunSplit | purgely.php:140-158 | `do_action` on sorted buckets runs every callback below a priority, then those at it, then those above |
| Hooks.RunAdjacent | purgely.php:140-158 | on sorted buckets the callbacks at `p` run immediately before those at `p + 1` |
| Hooks.InsertAt | purgely.php:152-158 | a callback added at a priority runs after the callbacks already at that priority; other priorities keep their callbacks |
| Hooks.AddActionAt | purgely.php:152-158 | the same for a named action in the table; other actions are untouched |
| Coordinator.AddCacheControlHeader | purgely.php:292-299 | the new directive comes after all existing ones, which are kept in order; keys and TTL are unchanged |
| Coordinator.Construct | purgely.php:134-149 | no keys; the TTL is `absint` of `surrogate_control_ttl`; each staleness directive is present exactly when its enable setting is strictly `true`, and then exactly once; no other directive; stale-while-revalidate comes first |
| Coordinator.ConstructBothEnabled | purgely.php:143-149 | with both enable settings `true`, the directives are exactly stale-while-revalidate then stale-if-error, with their TTL settings |
| Coordinator.Registrations | purgely.php:140-166 | construction adds callbacks to the `wp` and `plugins_loaded` actions only; every other action keeps its buckets |
| Coordinator.WpHooks | purgely.php:140-158 | the four `wp` registrations touch only the `wp` action |
| Coordinator.WpHooksAt | purgely.php:140-158 | on any table whose `wp` buckets are sorted, priority 100 gains key collection at its end, priority 101 gains the three sends in order at its end, and every other priority is unchanged |
| Coordinator.WpRegistrations | purgely.php:140-158 | the same after the whole constructor, and running `wp` runs everything below 100, then the callbacks at 100, immediately followed by those at 101, then everything above |
| Coordinator.TextdomainRegistration | purgely.php:166 | `plugins_loaded` gains the text-domain loader at the end of priority 10; its other priorities are unchanged |
| Coordinator.WpBuckets | purgely.php:140-158 | on a table where nothing has hooked `wp` yet, the `wp` action holds key collection at priority 100 and the three sends at 101, in registration order |
| Coordinator.WpCallbackOrder | purgely.php:140-158 | on a table where nothing has hooked `wp` yet, running `wp` calls `set_standard_keys`, then `send_surrogate_keys`, `send_surrogate_control`, `send_cache_control` |
| Coordinator.SetStandardKeys | purgely.php:174-180 | key collection changes only the keys |
| Coordinator.SendSurrogateKeys | purgely.php:193-203 | the filtered keys replace the stored ones and exactly those keys are sent, logged in or not |
| Coordinator.SendSurrogateControl | purgely.php:228-244 | nothing for a logged-in user; otherwise exactly one `Surrogate-Control` line with the stored TTL |
| Coordinator.SendAll | purgely.php:276-280 | each directive is sent once, in list order, after what was sent before |
| Coordinator.SendCacheControl | purgely.php:262-283 | nothing for a logged-in user; otherwise one Cache-Control header per directive, in registration order |
| Coordinator.SetTtl | purgely.php:252-255 | the returned seconds are the seconds the header now holds, a non-negative integer is stored as is, and keys and directives are unchanged |
| Coordinator.Dispatch | purgely.php:174-283 | no callback changes the TTL or the directives, and each only appends to what was sent |
| Coordinator.RunCallbacks | purgely.php:174-283 | the same for any sequence of callbacks run in order |
| Coordinator.HandleWp | purgely.php:140-158 | the `wp` action runs the four callbacks in hook order and leaves the TTL and directives as they were |
| Coordinator.HandleWpSteps | purgely.php:140-158 | the `wp` action is key collection, then the key send, then Surrogate-Control, then Cache-Control |
| Coordinator.HandleWpTwoDirectives | purgely.php:228-283 | with two directives, an anonymous view is sent exactly keys, Surrogate-Control, and the two directives in order |
| Coordinator.HandleWpSends | purgely.php:193-283 | a `wp` action always sends the filtered keys; a logged-in view gets nothing else; otherwise Surrogate-Control with the stored TTL follows, then every directive in order |
| Coordinator.TtlFilterIgnored | purgely.php:238-243 | replacing the TTL filter changes nothing that is sent |
| Coordinator.SetTtlThenSend | purgely.php:252-255 | after `set_ttl( s )`, an anonymous view is sent a Surrogate-Control value that parses back to `s` |
| Utils.ConstantOptions | src/utils.php:159-165 | exactly the options whose constant is defined, each with its constant's value |
| Utils.GetOptions | src/utils.php:143-170 | a stored options row is returned as a whole; with none, exactly the defined constants' values, under the ten option names |
| Utils.GetOption | src/utils.php:123-132 | the option's value when it is set, else `''`; never null |
| Utils.OptionFromConstant | src/utils.php:123-170 | with no stored row, an option reads its constant's value when that is defined and not null; a name outside the ten reads `''` |
| Utils.StoredOptionsShadowConstants | src/utils.php:143-170 | with a stored row, an option the row does not set reads `''`, whatever the constants say |
| Utils.PurgeUrl | src/utils.php:25-35 | related URLs are purged exactly when `related` is present and identically `true`; otherwise one URL purge of the URL with the caller's arguments |
| Utils.TruthyRelatedIsSingle | src/utils.php:25-35 | `1`, `'1'` and `'true'` for `related` still purge the single URL |
| Utils.PurgeSurrogateKey | src/utils.php:46-50 | one surrogate-key purge of the key, with the caller's arguments |
| Utils.PurgeAll | src/utils.php:60-66 | a purge of everything with an empty target; `allow-all` is the caller's when given, else the `allow_purge_all` setting; the caller's other arguments are kept, and nothing else is added |
| Utils.SetTtl | src/utils.php:84-91 | an empty value is returned as it is and nothing changes; any other value is stored as its `absint`, which is returned; keys and directives are unchanged |
| Utils.SetTtlIdempotent | src/utils.php:84-91 | setting the same TTL twice gives the same result as setting it once |
| Utils.SetTtlFromText | src/utils.php:84-91 | the decimal text of a positive number, signed or not, sets the TTL to that number; the text of zero is `'0'` and leaves the TTL alone |
| Utils.SetTtlZeroStrings | src/utils.php:84-91 | `'0'` leaves the TTL alone, while `'00'` sets it to zero |
| Utils.SetStaleWhileRevalidate | src/utils.php:99-102 | one more stale-while-revalidate directive goes after the existing ones, and the full list is returned |
| Utils.SetStaleIfError | src/utils.php:110-113 | one more stale-if-error directive goes after the existing ones, and the full list is returned |
| Utils.StaleIfErrorSentLast | src/utils.php:110-113 | a stale-if-error directive added through the helper is the last header an anonymous view is sent, after the earlier directives, which are sent unchanged |
| Utils.StaleWhileRevalidateSentLast | src/utils.php:99-102 | a directive added through the helper is the last header an anonymous view is sent |
| Plugin.ShippedEnvValues | src/config.php:34-81 | on a site that defines none of the constants, they take the shipped values |
| Plugin.DefaultCheckbox | src/classes/settings.php:115-128 | a checkbox setting with a boolean default and nothing saved reads as that boolean |
| Plugin.DefaultInt | src/classes/settings.php:115-128 | an `absint` setting with a non-negative default and nothing saved reads as that integer |
| Plugin.DefaultStaleness | purgely.php:143-149 | with the shipped values and nothing saved, both directives are enabled at 86400 seconds |
| Plugin.DefaultTtl | purgely.php:137 | with the shipped values and nothing saved, the page TTL reads 300 |
| Plugin.DefaultsConstruct | purgely.php:134-149 | the shipped coordinator has no keys, a 300-second TTL, and the two directives at 86400 seconds, stale-while-revalidate first |
| Plugin.ShippedCoordinator | purgely.php:134-149 | the same, starting from a site that defines no constants |
| Plugin.AnonymousResponse | purgely.php:193-283 | such a coordinator sends keys, `Surrogate-Control: max-age=300`, then the two directives at 86400, to an anonymous view |
| Plugin.DefaultResponse | purgely.php:193-283 | the whole pipeline from the shipped values to those four headers |
| Plugin.DefaultPurgeAll | src/utils.php:60-66 | with the shipped values, a whole-cache purge requested without arguments carries only `allow-all` false |
| Plugin.PurgeAllWithoutArgs | src/utils.php:60-66 | a whole-cache purge requested without arguments carries only `allow-all`, set to the setting's value |

## Left out

- The purge requests are not executed. A purge helper's result is the request it would issue. The related-URL collection, the Fastly API calls and their responses are not part of this model.
- The header classes (`Purgely_Surrogate_Keys_Header`, `Purgely_Cache_Control_Header`) and the key collection from `$wp_query` are not part of this model. Sending their headers is recorded as data, and `add_keys` and the key collection are parameters.
- `header()` itself is not modelled. A sent header is an entry in a list.
- `esc_url` and WordPress's `sanitize_key` are not part of this model. They are arbitrary functions, assumed idempotent only where a lemma says so.
- `apply_filters` and `do_action` are modelled as follows:
  - the two filters are function parameters;
  - the pre- and post-send actions run no code.
- `add_action` keeps callbacks ordered by priority and then by registration. WordPress's de-duplication of an identical callback at one priority is left out, because the coordinator never registers a callback twice.
- Not modelled, because they do not affect headers or settings:
  - the plugin paths and text-domain loading;
  - the singleton accessor;
  - the admin settings page;
  - WP-CLI;
  - automatic purges on post changes;
  - `purgely_add_surrogate_key` and `add_key`, which only forward to the unseen keys header.
- Php.Absint: strings are read as optional whitespace, an optional sign and decimal digits. Exponents, hexadecimal, floats and integer overflow are left out, because the settings are integers or decimal form input.
- Utils.PurgeAll: `array_merge` renumbers integer keys. The model's argument maps have string keys only, so that renumbering is not modelled.
- Coordinator.SetTtl: the Surrogate-Control header's `set_seconds` is not part of this model. The model assumes it applies `absint`, as the constructor does; the unit test mocks `absint` as the identity. The model also assumes the header's value is rendered from its current seconds when it is sent, so Coordinator.SetTtlThenSend rests on that assumption rather than on visible code.
- Headers.NewSurrogateControl: stated for non-negative integers only, the input the unit test uses. Other values go through `absint`.
- Settings.Registry: its own contract states the names and their order. The sanitizer and default of each entry are stated by Settings.RegistryEntries.
- Hooks.Run: carries no contract of its own. Its meaning (run the buckets in priority order) is stated about it by Hooks.RunSplit and Hooks.RunAdjacent.
