# Authentication-service configuration resolver

This project models `AuthenticationServiceConfiguration`, the component of the
XWiki authentication-service backport that answers one question: which
authentication service (by hint) is configured? It asks the main wiki's
configuration document first. That document is
`XWiki.Authentication.Configuration`, and the component reads the `authService`
property of its `XWiki.Authentication.ConfigurationClass` object. If the main
wiki has no value, it falls back to the `xwiki.properties` setting
`security.authentication.authService`. Hints are cached per wiki, and a
"nothing configured" result is cached too. The component can also write the
main wiki's hint and drop a wiki's cache entry.

Files:

- `wrappers.dfy`: `Option` (Java's `null` String) and `Result` (a thrown exception).
- `config_store.dfy` (module `ConfigStore`): the document store as a value. It
  holds each wiki's configuration object and the set of wikis whose document
  cannot be read or saved. It also defines the property-name constants,
  `StringUtils.isBlank` over Java's `Character.isWhitespace`,
  `StringUtils.defaultString`, and the load and save of a wiki's hint as pure
  functions.
- `service_cache.dfy` (module `ServiceCache`): every operation as a state
  transition on values. `ResolveWikiStep` is the cache-aside lookup,
  `ResolveStep` the two-level fallback, `SetWikiStep` the write and
  `InvalidateStep` the invalidation. A `State` holds the cache, the store and
  two counters: how often the store was loaded and how often the instance
  property was read. `EditStep` is a change to the store made outside the
  component. The lemmas state the caching, fallback, write and
  invalidation rules for one call. Further lemmas cover whole runs of calls
  (`Run`): the cache stays coherent with the store when every change to it,
  through the component or from outside, is followed by invalidating the
  changed wiki.
- `configuration.dfy` (module `AuthServiceConfiguration`): the component as a
  class. The field `serviceCache` is updated in place. The field `store` is
  rewritten by the write path. The ghost counters `loads` and `propertyReads`
  track store loads and property reads. Each method's `ensures` ties the new
  state and the result to the matching transition in `ServiceCache`
  (`Snapshot() == o.after`), so the lemmas there apply to the class.
- `scenarios.dfy`: client methods showing what a caller can conclude from the
  class contracts alone: a hint loaded once, the fallback to the instance
  property, an error that propagates, a save that fails, and a write that shows up only after
  invalidation.

Design choices:

- The injected context and configuration source become parameters. The main
  wiki's name is a `string`. The instance properties are a
  `map<string, string>` read with the key `ConfigurationInstanceProperty`.
- A cache entry (`ServiceCacheEntry` in the source) is an `Option<string>`
  stored as the map value. A present key with `None` means "loaded, nothing
  configured". An absent key means "not loaded since the last invalidation".
- No Java integer is involved, so there is no width to model.

Details of the source:

- The write stores `defaultString(id)`. Only a null hint becomes `""`; a blank
  hint is saved verbatim. The load treats both as absent anyway.
- The source calls `getStringValue` and `setStringValue` on the result of
  `getXObject` without a null check, so a document without a configuration
  object makes both the load and the write throw. The model gives this the
  error `MissingConfigurationObject`. An unset property on an existing object
  reads as `""`, so it is blank, so it is absent.
- Reading and saving fail independently. A wiki in `failing` cannot be read
  (`getDocument` throws), so both the load and the write fail with
  `DocumentAccessFailed`. A wiki in `saveFailing` reads fine, but its write
  fails with `DocumentSaveFailed` (`saveDocument` throws).

## Model

| member | source | states |
|---|---|---|
| `ConfigStore.IsBlank` | authservice-backport-api/src/main/java/org/xwiki/security/authservice/internal/AuthenticationServiceConfiguration.java:145 | a string is blank exactly when every one of its characters is Java whitespace (the empty string included) |
| `ConfigStore.LoadAuthenticationService` | authservice-backport-api/src/main/java/org/xwiki/security/authservice/internal/AuthenticationServiceConfiguration.java:137-146 | the load fails exactly when the wiki's document cannot be read or has no configuration object, with the matching error; otherwise it yields absent exactly when the stored value is all whitespace, and the stored value unchanged otherwise |
| `ConfigStore.DefaultString` | authservice-backport-api/src/main/java/org/xwiki/security/authservice/internal/AuthenticationServiceConfiguration.java:154 | a non-null hint is kept as it is and a null one becomes `""`; so the result is blank exactly when the hint is null or blank |
| `ConfigStore.SaveAuthenticationService` | authservice-backport-api/src/main/java/org/xwiki/security/authservice/internal/AuthenticationServiceConfiguration.java:148-157 | the write fails with the load's error when the document or its object cannot be had, and otherwise fails (with `DocumentSaveFailed`) exactly when the save throws; on success the wiki's object holds exactly `defaultString(id)` (a blank id verbatim) and a load reads it back (absent when null or blank), every other wiki's object and load are exactly as before, and which wikis fail is unchanged |
| `ServiceCache.ResolveWikiStep` | authservice-backport-api/src/main/java/org/xwiki/security/authservice/internal/AuthenticationServiceConfiguration.java:124-135 | a successful resolution leaves its returned value cached under the wiki; a failure happens only on a miss and leaves the cache as it was; no other key is added, no existing entry is changed, the store and property reads are untouched, and exactly one load happens on a miss and none on a hit |
| `ServiceCache.ResolveStep` | authservice-backport-api/src/main/java/org/xwiki/security/authservice/internal/AuthenticationServiceConfiguration.java:108-122 | the cache and load count are those of the main wiki's resolution; it fails exactly when that resolution fails; it returns absent exactly when the main wiki has no hint and the instance property key is not set; the property is read once exactly when the main wiki has no hint |
| `ServiceCache.SetWikiStep` | authservice-backport-api/src/main/java/org/xwiki/security/authservice/internal/AuthenticationServiceConfiguration.java:148-157 | the cache and counters are untouched; a failed write changes nothing; a successful one makes the wiki load back `defaultString(id)` and leaves every other wiki's load as it was |
| `ServiceCache.InvalidateStep` | authservice-backport-api/src/main/java/org/xwiki/security/authservice/internal/AuthenticationServiceConfiguration.java:173-176 | the given wiki is no longer cached, every other key's presence and value are kept, and nothing but the cache changes |
| `ServiceCache.CacheHit` | authservice-backport-api/src/main/java/org/xwiki/security/authservice/internal/AuthenticationServiceConfiguration.java:124-135 | on a hit the cached entry is returned and the state (cache, store, load count) is unchanged |
| `ServiceCache.CacheMiss` | authservice-backport-api/src/main/java/org/xwiki/security/authservice/internal/AuthenticationServiceConfiguration.java:128-132 | on a miss the store is loaded exactly once and its result (or error) is returned; a successful result is cached even when absent, a failure leaves the cache as it was |
| `ServiceCache.ResolveTwiceLoadsOnce` | authservice-backport-api/src/main/java/org/xwiki/security/authservice/internal/AuthenticationServiceConfiguration.java:126-134 | negative caching: after a successful resolution the wiki is cached and a second resolution returns the same value with no further load |
| `ServiceCache.LoadFailureLeavesCache` | authservice-backport-api/src/main/java/org/xwiki/security/authservice/internal/AuthenticationServiceConfiguration.java:129-131 | when the load fails the error propagates on a miss and the cache is unchanged |
| `ServiceCache.FallbackOrder` | authservice-backport-api/src/main/java/org/xwiki/security/authservice/internal/AuthenticationServiceConfiguration.java:114-121 | a main-wiki value is returned without reading the instance property; an absent one yields the property `security.authentication.authService` (possibly absent), read once; a load error propagates with no fallback |
| `ServiceCache.SetLeavesCache` | authservice-backport-api/src/main/java/org/xwiki/security/authservice/internal/AuthenticationServiceConfiguration.java:148-157 | the write never changes the cache or loads, and a failed write changes nothing |
| `ServiceCache.ResolveAfterSetIsStale` | authservice-backport-api/src/main/java/org/xwiki/security/authservice/internal/AuthenticationServiceConfiguration.java:163-168 | without invalidation a cached wiki still resolves to its old entry after a write |
| `ServiceCache.InvalidateRemovesOneKey` | authservice-backport-api/src/main/java/org/xwiki/security/authservice/internal/AuthenticationServiceConfiguration.java:173-176 | invalidation removes exactly the given key, keeps every other entry's value, changes nothing else, and is a no-op for a key not cached |
| `ServiceCache.InvalidateForcesReload` | authservice-backport-api/src/main/java/org/xwiki/security/authservice/internal/AuthenticationServiceConfiguration.java:173-176 | after invalidation the next resolution loads exactly once more and returns the fresh load |
| `ServiceCache.WriteRoundTrip` | authservice-backport-api/src/main/java/org/xwiki/security/authservice/internal/AuthenticationServiceConfiguration.java:148-176 | a successful write of a non-blank hint followed by invalidating the main wiki makes resolution return that hint; a null or blank hint makes it return the instance property |
| `ServiceCache.CoherentResolveIsFresh` | authservice-backport-api/src/main/java/org/xwiki/security/authservice/internal/AuthenticationServiceConfiguration.java:124-135 | when every cache entry agrees with the store, resolution returns exactly what a fresh load would |
| `ServiceCache.ResolveWikiKeepsCoherent` | authservice-backport-api/src/main/java/org/xwiki/security/authservice/internal/AuthenticationServiceConfiguration.java:128-132 | resolution only caches what the store currently holds, so cache/store agreement is preserved |
| `ServiceCache.InvalidateKeepsCoherent` | authservice-backport-api/src/main/java/org/xwiki/security/authservice/internal/AuthenticationServiceConfiguration.java:173-176 | invalidating the one wiki whose entry may disagree with the store restores full agreement |
| `ServiceCache.SetKeepsOthersCoherent` | authservice-backport-api/src/main/java/org/xwiki/security/authservice/internal/AuthenticationServiceConfiguration.java:148-157 | a write can make only the written wiki's entry stale; all other entries still agree with the store |
| `ServiceCache.EditKeepsOthersCoherent` | authservice-backport-api/src/main/java/org/xwiki/security/authservice/internal/AuthenticationServiceConfiguration.java:173-176 | a change to the store made outside the component can make only the changed wiki's entry stale |
| `ServiceCache.RunKeepsCoherent` | authservice-backport-api/src/main/java/org/xwiki/security/authservice/internal/AuthenticationServiceConfiguration.java:108-176 | over any run of calls and outside store edits in which each store change is immediately followed by invalidating the changed wiki, cache/store agreement is preserved |
| `ServiceCache.RunResolvesFresh` | authservice-backport-api/src/main/java/org/xwiki/security/authservice/internal/AuthenticationServiceConfiguration.java:108-176 | starting from the empty cache, after such a run (outside edits included) resolving any wiki returns what a fresh load from the current store returns |
| `ServiceCache.RunWithoutInvalidateKeepsEntries` | authservice-backport-api/src/main/java/org/xwiki/security/authservice/internal/AuthenticationServiceConfiguration.java:124-135 | an entry is never replaced or dropped except by invalidating that wiki: over any run with no invalidation of that wiki its entry survives unchanged, whatever other wikis are invalidated |
| `ServiceCache.RunLoadsAtMostOncePerCall` | authservice-backport-api/src/main/java/org/xwiki/security/authservice/internal/AuthenticationServiceConfiguration.java:124-135 | the load count never decreases and grows by at most one per call over any run |
| `AuthServiceConfiguration.AuthenticationServiceConfiguration.constructor` | authservice-backport-api/src/main/java/org/xwiki/security/authservice/internal/AuthenticationServiceConfiguration.java:95 | a new component starts with an empty cache over the given store, with nothing loaded or read yet |
| `AuthServiceConfiguration.AuthenticationServiceConfiguration.GetWikiAuthenticationService` | authservice-backport-api/src/main/java/org/xwiki/security/authservice/internal/AuthenticationServiceConfiguration.java:124-135 | result and new state are those of the cache-aside transition; a hit returns the entry with no load and no cache change, a miss returns the load and counts one load |
| `AuthServiceConfiguration.AuthenticationServiceConfiguration.GetAuthenticationService` | authservice-backport-api/src/main/java/org/xwiki/security/authservice/internal/AuthenticationServiceConfiguration.java:108-122 | result and new state are those of the main-wiki-then-instance-property transition |
| `AuthServiceConfiguration.AuthenticationServiceConfiguration.SetWikiAuthenticationService` | authservice-backport-api/src/main/java/org/xwiki/security/authservice/internal/AuthenticationServiceConfiguration.java:148-157 | the store becomes that of a successful save (unchanged on failure, with the error returned); the cache is not modified |
| `AuthServiceConfiguration.AuthenticationServiceConfiguration.SetAuthenticationService` | authservice-backport-api/src/main/java/org/xwiki/security/authservice/internal/AuthenticationServiceConfiguration.java:163-168 | writes the main wiki's hint, with the same result and new state as the per-wiki write |
| `AuthServiceConfiguration.AuthenticationServiceConfiguration.Invalidate` | authservice-backport-api/src/main/java/org/xwiki/security/authservice/internal/AuthenticationServiceConfiguration.java:173-176 | exactly the given wiki's key leaves the cache; everything else is as before |

## Left out

- The XWiki document and object APIs (`getDocument`, `getXObject`, `getStringValue`, `setStringValue`, `saveDocument`) are foreign persistence calls. They are abstracted as a map from wiki to configuration object, plus two sets of wikis: one where reading throws and one where only saving throws. An `XWikiException` from `getDocument` becomes `DocumentAccessFailed`, one from `saveDocument` becomes `DocumentSaveFailed`, and the null object dereference becomes `MissingConfigurationObject`. Which wikis fail is fixed for a run: an outside `Edit` changes configuration objects only.
- AuthServiceConfiguration.AuthenticationServiceConfiguration.Invalidate: wiki identifiers are never null in the model. The source's `invalidate(null)` throws a NullPointerException from `ConcurrentHashMap.remove` (line 175), and the model has no such outcome. The same holds for a null wiki name reaching the cache lookup at line 126.
- The save message ("Change authenticator service") and document history are persistence details. They are not modelled.
- `Provider<XWikiContext>` and the injected `ConfigurationSource` come from the component container. The main wiki's name and the instance properties are parameters instead. `ServiceCache.GetProperty`, a plain map lookup, stands in for `ConfigurationSource.getProperty` (line 121) and makes no promise of its own.
- The two private overloads, `getAuthenticationService(wiki, xcontext)` and `setAuthenticationService(id, wiki, xcontext)`, are ordinary methods of the class here, since Dafny has no private members. The run model includes the per-wiki lookup as a call of its own, which only makes the run lemmas cover more.
- `ConcurrentHashMap` thread safety and racing duplicate loads are concurrency. The operations are modelled sequentially.
- The "current wiki level" step that the source marks as a TODO (line 112) does nothing, so none is modelled.
- The constants naming the configuration document and class (lines 56-72) only locate the document. The store is keyed by wiki name instead. The two property names (lines 77-83) are modelled.
- The cache is not updated when a configuration document is changed by some other route. That invalidation trigger is outside this component (it only offers `invalidate`). The `Edit` call of the run model stands for such a change, and `RunKeepsCoherent` states the obligation it places on the trigger: invalidate the changed wiki right after the change.
