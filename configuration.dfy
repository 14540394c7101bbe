/**
 * The `AuthenticationServiceConfiguration` component: a singleton that
 * resolves the configured authentication-service hint through a per-wiki
 * cache, writes the main wiki's hint, and drops cache entries on request.
 * The main wiki's name and the instance properties come from the caller,
 * standing in for the injected XWiki context and configuration source.
 */
module AuthServiceConfiguration {
  import opened Wrappers
  import opened ConfigStore
  import opened ServiceCache

  class AuthenticationServiceConfiguration {
    /** `serviceCache`: wiki name to cached hint (`None` caches "nothing configured"). */
    var serviceCache: Cache
    /** The wikis' configuration documents, as the store holds them. */
    var store: DocumentStore
    /** How many times `loadAuthenticationService` has run. */
    ghost var loads: nat
    /** How many times the instance property source has been read. */
    ghost var propertyReads: nat

    /** The component's state as a value of the transition model. */
    ghost function Snapshot(): State
      reads this
    {
      State(serviceCache, store, loads, propertyReads)
    }

    constructor (store: DocumentStore)
      ensures Snapshot() == State(map[], store, 0, 0)
    {
      this.serviceCache := map[];
      this.store := store;
      this.loads := 0;
      this.propertyReads := 0;
    }

    /**
     * The private `getAuthenticationService(wiki, xcontext)`, exposed here so
     * that its contract can be stated on its own: return the
     * cached entry on a hit, without loading; on a miss load once and cache
     * the result, absent included, unless the load throws.
     */
    method GetWikiAuthenticationService(wiki: string) returns (name: Result<Option<string>, StoreError>)
      modifies this
      ensures var o := ResolveWikiStep(old(Snapshot()), wiki); name == o.result && Snapshot() == o.after
      ensures wiki in old(serviceCache) ==> name == Ok(old(serviceCache)[wiki]) && loads == old(loads) && serviceCache == old(serviceCache)
      ensures wiki !in old(serviceCache) ==> name == LoadAuthenticationService(store, wiki) && loads == old(loads) + 1
    {
      if wiki in serviceCache {
        name := Ok(serviceCache[wiki]);
        return;
      }
      loads := loads + 1;
      name := LoadAuthenticationService(store, wiki);
      if name.Ok? {
        serviceCache := serviceCache[wiki := name.value];
      }
    }

    /**
     * The public `getAuthenticationService()`: the main wiki's hint when it
     * has one (the instance properties are then not read); otherwise the
     * instance property `security.authentication.authService`, possibly
     * absent. A load failure propagates without any fallback.
     */
    method GetAuthenticationService(mainWiki: string, instanceProperties: map<string, string>)
      returns (service: Result<Option<string>, StoreError>)
      modifies this
      ensures var o := ResolveStep(old(Snapshot()), mainWiki, instanceProperties); service == o.result && Snapshot() == o.after
    {
      service := GetWikiAuthenticationService(mainWiki);
      if service.Err? || service.value.Some? {
        return;
      }
      propertyReads := propertyReads + 1;
      service := Ok(GetProperty(instanceProperties, ConfigurationInstanceProperty));
    }

    /**
     * The private `setAuthenticationService(id, wiki, xcontext)`, exposed
     * here so that its contract can be stated on its own: write
     * `defaultString(id)` to the wiki's configuration object and save it.
     * The cache is not touched.
     */
    method SetWikiAuthenticationService(id: Option<string>, wiki: string) returns (saved: Result<(), StoreError>)
      modifies this
      ensures var o := SetWikiStep(old(Snapshot()), wiki, id); saved == o.result && Snapshot() == o.after
      ensures serviceCache == old(serviceCache)
    {
      var r := SaveAuthenticationService(store, wiki, id);
      match r {
        case Err(e) =>
          saved := Err(e);
        case Ok(store') =>
          store := store';
          saved := Ok(());
      }
    }

    /** The public `setAuthenticationService(id)`: write the main wiki's hint. */
    method SetAuthenticationService(id: Option<string>, mainWiki: string) returns (saved: Result<(), StoreError>)
      modifies this
      ensures var o := SetWikiStep(old(Snapshot()), mainWiki, id); saved == o.result && Snapshot() == o.after
    {
      saved := SetWikiAuthenticationService(id, mainWiki);
    }

    /** `invalidate(wikiId)`: remove that wiki's entry and no other. */
    method Invalidate(wikiId: string)
      modifies this
      ensures Snapshot() == InvalidateStep(old(Snapshot()), wikiId)
      ensures forall w :: w in serviceCache <==> w in old(serviceCache) && w != wikiId
    {
      serviceCache := serviceCache - {wikiId};
    }
  }
}
