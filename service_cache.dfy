/**
 * The resolver's behaviour as state transitions on values: the per-wiki
 * cache-aside lookup, the two-level fallback, the write path and the
 * per-key invalidation, and what holds of them, one call at a time and
 * over whole runs of calls.
 */
module ServiceCache {
  import opened Wrappers
  import opened ConfigStore

  /**
   * `serviceCache`: wiki name to cache entry. An entry is the loaded hint,
   * `None` when the wiki has none, so a key that is present with `None`
   * ("loaded, nothing configured") differs from a key that is absent
   * ("not loaded since the last invalidation").
   */
  type Cache = map<string, Option<string>>

  /**
   * Everything a resolver call can change or observe: the cache, the
   * document store, and how often the store and the instance property
   * source have been consulted.
   */
  datatype State = State(cache: Cache, store: DocumentStore, loads: nat, propertyReads: nat)

  /** What a call returns (or throws) and the state it leaves behind. */
  datatype Outcome<T> = Outcome(result: Result<T, StoreError>, after: State)

  /** `ConfigurationSource.getProperty`: absent when the key is not set. */
  function GetProperty(properties: map<string, string>, key: string): Option<string>
  {
    if key in properties then Some(properties[key]) else None
  }

  /** The private `getAuthenticationService(wiki, xcontext)`: cache first, load and cache on a miss. */
  function ResolveWikiStep(s: State, wiki: string): (o: Outcome<Option<string>>)
    ensures o.result.Ok? ==> wiki in o.after.cache && o.after.cache[wiki] == o.result.value
    ensures o.result.Err? ==> wiki !in s.cache && o.after.cache == s.cache
    ensures forall w :: w != wiki ==> (w in o.after.cache <==> w in s.cache)
    ensures forall w :: w in s.cache ==> w in o.after.cache && o.after.cache[w] == s.cache[w]
    ensures o.after.store == s.store && o.after.propertyReads == s.propertyReads
    ensures o.after.loads == if wiki in s.cache then s.loads else s.loads + 1
  {
    if wiki in s.cache then Outcome(Ok(s.cache[wiki]), s)
    else
      var s' := s.(loads := s.loads + 1);
      match LoadAuthenticationService(s.store, wiki)
      case Err(e) => Outcome(Err(e), s')
      case Ok(name) => Outcome(Ok(name), s'.(cache := s.cache[wiki := name]))
  }

  /** The public `getAuthenticationService()`: the main wiki's hint, else the instance property. */
  function ResolveStep(s: State, mainWiki: string, properties: map<string, string>): (o: Outcome<Option<string>>)
    ensures o.after.cache == ResolveWikiStep(s, mainWiki).after.cache && o.after.store == s.store
    ensures o.after.loads == ResolveWikiStep(s, mainWiki).after.loads
    ensures o.result.Err? <==> ResolveWikiStep(s, mainWiki).result.Err?
    ensures o.result == Ok(None) <==> ResolveWikiStep(s, mainWiki).result == Ok(None) && ConfigurationInstanceProperty !in properties
    ensures o.after.propertyReads == if ResolveWikiStep(s, mainWiki).result == Ok(None) then s.propertyReads + 1 else s.propertyReads
  {
    var o := ResolveWikiStep(s, mainWiki);
    match o.result
    case Err(_) => o
    case Ok(Some(_)) => o
    case Ok(None) =>
      Outcome(Ok(GetProperty(properties, ConfigurationInstanceProperty)),
              o.after.(propertyReads := o.after.propertyReads + 1))
  }

  /** `setAuthenticationService`: save `defaultString(id)` for the wiki; the cache is left as it is. */
  function SetWikiStep(s: State, wiki: string, id: Option<string>): (o: Outcome<()>)
    ensures o.after.cache == s.cache && o.after.loads == s.loads && o.after.propertyReads == s.propertyReads
    ensures o.result.Err? ==> o.after == s
    ensures o.result.Ok? ==> LoadAuthenticationService(o.after.store, wiki) == Ok(ReadBack(id))
    ensures o.result.Ok? ==> forall w :: w != wiki ==> LoadAuthenticationService(o.after.store, w) == LoadAuthenticationService(s.store, w)
  {
    match SaveAuthenticationService(s.store, wiki, id)
    case Err(e) => Outcome(Err(e), s)
    case Ok(store') => Outcome(Ok(()), s.(store := store'))
  }

  /** `invalidate(wikiId)`: drop that wiki's entry. */
  function InvalidateStep(s: State, wiki: string): (t: State)
    ensures wiki !in t.cache
    ensures forall w :: w != wiki ==> (w in t.cache <==> w in s.cache)
    ensures forall w :: w in t.cache ==> t.cache[w] == s.cache[w]
    ensures t.store == s.store && t.loads == s.loads && t.propertyReads == s.propertyReads
  {
    s.(cache := s.cache - {wiki})
  }

  /**
   * A change to a wiki's configuration object made outside this component
   * (another writer saving the configuration document, or the object being
   * removed); the cache does not see it.
   */
  function EditStep(s: State, wiki: string, edited: Option<ConfigObject>): (t: State)
    ensures t.cache == s.cache && t.loads == s.loads && t.propertyReads == s.propertyReads
    ensures forall w :: w != wiki ==> LoadAuthenticationService(t.store, w) == LoadAuthenticationService(s.store, w)
    ensures wiki !in s.store.failing ==> (LoadAuthenticationService(t.store, wiki).Ok? <==> edited.Some?)
  {
    var objects := if edited.Some? then s.store.objects[wiki := edited.value] else s.store.objects - {wiki};
    s.(store := s.store.(objects := objects))
  }

  // ---------------------------------------------------------------------
  // One call at a time

  /** A hit returns the stored entry, loads nothing and changes nothing. */
  lemma CacheHit(s: State, wiki: string)
    requires wiki in s.cache
    ensures ResolveWikiStep(s, wiki) == Outcome(Ok(s.cache[wiki]), s)
  {
  }

  /**
   * A miss loads exactly once and returns (or throws) what the load gives;
   * a successful load, absent or not, is cached, and a failed one leaves the
   * cache as it was.
   */
  lemma CacheMiss(s: State, wiki: string)
    requires wiki !in s.cache
    ensures var o := ResolveWikiStep(s, wiki);
            && o.result == LoadAuthenticationService(s.store, wiki)
            && o.after.loads == s.loads + 1
            && o.after.store == s.store && o.after.propertyReads == s.propertyReads
            && o.after.cache == (if o.result.Ok? then s.cache[wiki := o.result.value] else s.cache)
  {
  }

  /**
   * Negative caching: after one successful resolution (absent hint
   * included) the wiki is cached, and resolving it again returns the same
   * value without another load.
   */
  lemma ResolveTwiceLoadsOnce(s: State, wiki: string)
    requires ResolveWikiStep(s, wiki).result.Ok?
    ensures var o := ResolveWikiStep(s, wiki);
            && wiki in o.after.cache
            && ResolveWikiStep(o.after, wiki) == Outcome(o.result, o.after)
            && o.after.loads <= s.loads + 1
  {
  }

  /** A failed load propagates its error and leaves the cache alone. */
  lemma LoadFailureLeavesCache(s: State, wiki: string)
    requires LoadAuthenticationService(s.store, wiki).Err?
    ensures wiki !in s.cache ==> ResolveWikiStep(s, wiki).result == LoadAuthenticationService(s.store, wiki)
    ensures ResolveWikiStep(s, wiki).after.cache == s.cache
  {
  }

  /**
   * Fallback order: a main-wiki hint wins and the instance property is not
   * read; an absent one gives the instance property `security.authentication.authService`
   * (itself possibly absent), read once; a load error propagates with no fallback.
   */
  lemma FallbackOrder(s: State, mainWiki: string, properties: map<string, string>)
    ensures var w := ResolveWikiStep(s, mainWiki);
            var o := ResolveStep(s, mainWiki, properties);
            && (w.result.Err? ==> o == w)
            && (w.result.Ok? && w.result.value.Some? ==> o == w)
            && (w.result == Ok(None) ==>
                  && o.result == Ok(GetProperty(properties, "security.authentication.authService"))
                  && o.after == w.after.(propertyReads := s.propertyReads + 1))
  {
    assert ConfigurationInstanceProperty == "security.authentication.authService";
  }

  /** The write never touches the cache and never loads; a failed write changes nothing. */
  lemma SetLeavesCache(s: State, wiki: string, id: Option<string>)
    ensures var o := SetWikiStep(s, wiki, id);
            && o.after.cache == s.cache && o.after.loads == s.loads
            && (o.result.Err? ==> o.after == s)
  {
  }

  /** Without invalidation a cached wiki still resolves to its old entry after a write. */
  lemma ResolveAfterSetIsStale(s: State, wiki: string, id: Option<string>)
    requires wiki in s.cache
    ensures ResolveWikiStep(SetWikiStep(s, wiki, id).after, wiki).result == Ok(s.cache[wiki])
  {
  }

  /**
   * Invalidation removes exactly one key: every other entry is kept as it
   * is, nothing but the cache changes, and for a key that is not cached it is a no-op.
   */
  lemma InvalidateRemovesOneKey(s: State, wiki: string)
    ensures var t := InvalidateStep(s, wiki);
            && t.cache.Keys == s.cache.Keys - {wiki}
            && (forall w :: w in t.cache ==> t.cache[w] == s.cache[w])
            && t.store == s.store && t.loads == s.loads && t.propertyReads == s.propertyReads
            && (wiki !in s.cache ==> t == s)
  {
  }

  /** After invalidation the next resolution loads exactly once more and returns the fresh load. */
  lemma InvalidateForcesReload(s: State, wiki: string)
    ensures var o := ResolveWikiStep(InvalidateStep(s, wiki), wiki);
            && o.after.loads == s.loads + 1
            && o.result == LoadAuthenticationService(s.store, wiki)
  {
  }

  /**
   * Write round trip: a successful write for the main wiki, followed by
   * invalidating the main wiki, makes resolution return the written hint
   * when it is non-blank, and the instance property when it is null or blank.
   */
  lemma WriteRoundTrip(s: State, mainWiki: string, id: Option<string>, properties: map<string, string>)
    requires SetWikiStep(s, mainWiki, id).result.Ok?
    ensures var o := ResolveStep(InvalidateStep(SetWikiStep(s, mainWiki, id).after, mainWiki), mainWiki, properties);
            && (id.Some? && !IsBlank(id.value) ==> o.result == Ok(id))
            && (id.None? || IsBlank(id.value) ==> o.result == Ok(GetProperty(properties, ConfigurationInstanceProperty)))
  {
  }

  // ---------------------------------------------------------------------
  // Runs of calls

  /**
   * The component's operations, the private per-wiki lookup (`ResolveWiki`)
   * included; `Set` writes the main wiki, as the public overload does. `Edit`
   * is a change to the store made outside the component.
   */
  datatype Call =
    | ResolveWiki(wiki: string)
    | Resolve
    | Set(id: Option<string>)
    | Invalidate(wiki: string)
    | Edit(wiki: string, edited: Option<ConfigObject>)

  /** The state one call leaves behind. */
  function Step(s: State, call: Call, mainWiki: string, properties: map<string, string>): State
  {
    match call
    case ResolveWiki(w) => ResolveWikiStep(s, w).after
    case Resolve => ResolveStep(s, mainWiki, properties).after
    case Set(id) => SetWikiStep(s, mainWiki, id).after
    case Invalidate(w) => InvalidateStep(s, w)
    case Edit(w, edited) => EditStep(s, w, edited)
  }

  /** The state a sequence of calls leaves behind, first call first. */
  function Run(s: State, calls: seq<Call>, mainWiki: string, properties: map<string, string>): State
    decreases |calls|
  {
    if calls == [] then s else Run(Step(s, calls[0], mainWiki, properties), calls[1..], mainWiki, properties)
  }

  /** Every cache entry is what a load from the current store would give. */
  ghost predicate Coherent(s: State)
  {
    forall w :: w in s.cache ==> LoadAuthenticationService(s.store, w) == Ok(s.cache[w])
  }

  /** Coherent except possibly for one wiki's entry. */
  ghost predicate CoherentExcept(s: State, wiki: string)
  {
    forall w :: w in s.cache && w != wiki ==> LoadAuthenticationService(s.store, w) == Ok(s.cache[w])
  }

  /** The wiki whose configuration a store-changing call changes. */
  function ChangedWiki(call: Call, mainWiki: string): string
    requires call.Set? || call.Edit?
  {
    if call.Set? then mainWiki else call.wiki
  }

  /**
   * Every change to the store, through `Set` or from outside, is immediately
   * followed by the invalidation of the wiki it changed.
   */
  ghost predicate WritesInvalidated(calls: seq<Call>, mainWiki: string)
  {
    forall i :: 0 <= i < |calls| && (calls[i].Set? || calls[i].Edit?) ==>
      i + 1 < |calls| && calls[i + 1] == Invalidate(ChangedWiki(calls[i], mainWiki))
  }

  /** A coherent cache is transparent: resolution returns exactly what a fresh load would. */
  lemma CoherentResolveIsFresh(s: State, wiki: string)
    requires Coherent(s)
    ensures ResolveWikiStep(s, wiki).result == LoadAuthenticationService(s.store, wiki)
  {
  }

  /** Resolution caches only what the store holds now. */
  lemma ResolveWikiKeepsCoherent(s: State, wiki: string)
    requires Coherent(s)
    ensures Coherent(ResolveWikiStep(s, wiki).after)
  {
  }

  /** Dropping the one entry that may disagree with the store restores agreement. */
  lemma InvalidateKeepsCoherent(s: State, wiki: string)
    requires CoherentExcept(s, wiki)
    ensures Coherent(InvalidateStep(s, wiki))
  {
  }

  /** A write can make only the written wiki's entry stale. */
  lemma SetKeepsOthersCoherent(s: State, wiki: string, id: Option<string>)
    requires Coherent(s)
    ensures CoherentExcept(SetWikiStep(s, wiki, id).after, wiki)
  {
  }

  /** An outside change can make only the changed wiki's entry stale. */
  lemma EditKeepsOthersCoherent(s: State, wiki: string, edited: Option<ConfigObject>)
    requires Coherent(s)
    ensures CoherentExcept(EditStep(s, wiki, edited), wiki)
  {
  }

  /** A suffix of a run whose writes are invalidated has its writes invalidated too. */
  lemma WritesInvalidatedTail(calls: seq<Call>, mainWiki: string, k: nat)
    requires WritesInvalidated(calls, mainWiki) && k <= |calls|
    ensures WritesInvalidated(calls[k..], mainWiki)
  {
  }

  /**
   * The cache stays consistent with the store over any run in which every
   * change to the store, the component's own writes and outside edits alike,
   * is followed by invalidating the changed wiki: resolution then never
   * serves a stale hint.
   */
  lemma {:induction false} RunKeepsCoherent(s: State, calls: seq<Call>, mainWiki: string, properties: map<string, string>)
    requires Coherent(s) && WritesInvalidated(calls, mainWiki)
    ensures Coherent(Run(s, calls, mainWiki, properties))
    decreases |calls|
  {
    if calls == [] {
    } else if calls[0].Set? || calls[0].Edit? {
      var changed := ChangedWiki(calls[0], mainWiki);
      var s1 := Step(s, calls[0], mainWiki, properties);
      if calls[0].Set? {
        SetKeepsOthersCoherent(s, mainWiki, calls[0].id);
      } else {
        EditKeepsOthersCoherent(s, changed, calls[0].edited);
      }
      var s2 := Step(s1, calls[1], mainWiki, properties);
      InvalidateKeepsCoherent(s1, changed);
      assert calls[1..][1..] == calls[2..];
      assert Run(s, calls, mainWiki, properties) == Run(s2, calls[2..], mainWiki, properties);
      WritesInvalidatedTail(calls, mainWiki, 2);
      RunKeepsCoherent(s2, calls[2..], mainWiki, properties);
    } else {
      var s1 := Step(s, calls[0], mainWiki, properties);
      match calls[0] {
        case ResolveWiki(w) => ResolveWikiKeepsCoherent(s, w);
        case Resolve => ResolveWikiKeepsCoherent(s, mainWiki);
        case Invalidate(w) => InvalidateKeepsCoherent(s, w);
      }
      WritesInvalidatedTail(calls, mainWiki, 1);
      RunKeepsCoherent(s1, calls[1..], mainWiki, properties);
    }
  }

  /**
   * Starting from an empty cache, after any run whose store changes are
   * each followed by invalidating the changed wiki, resolving any wiki returns
   * exactly what a fresh load from the current store returns.
   */
  lemma RunResolvesFresh(store: DocumentStore, calls: seq<Call>, mainWiki: string, properties: map<string, string>, wiki: string)
    requires WritesInvalidated(calls, mainWiki)
    ensures var t := Run(State(map[], store, 0, 0), calls, mainWiki, properties);
            ResolveWikiStep(t, wiki).result == LoadAuthenticationService(t.store, wiki)
  {
    RunKeepsCoherent(State(map[], store, 0, 0), calls, mainWiki, properties);
  }

  /**
   * An entry, once loaded, is never replaced or dropped except by
   * invalidating that wiki: over a run with no `Invalidate(wiki)` the wiki's
   * entry survives unchanged, whatever else is resolved, written, edited or
   * invalidated.
   */
  lemma {:induction false} RunWithoutInvalidateKeepsEntries(s: State, calls: seq<Call>, mainWiki: string, properties: map<string, string>, wiki: string)
    requires wiki in s.cache
    requires forall i :: 0 <= i < |calls| ==> calls[i] != Invalidate(wiki)
    ensures var t := Run(s, calls, mainWiki, properties);
            wiki in t.cache && t.cache[wiki] == s.cache[wiki]
    decreases |calls|
  {
    if calls != [] {
      var s1 := Step(s, calls[0], mainWiki, properties);
      assert wiki in s1.cache && s1.cache[wiki] == s.cache[wiki];
      assert forall i :: 0 <= i < |calls[1..]| ==> calls[1..][i] == calls[i + 1];
      RunWithoutInvalidateKeepsEntries(s1, calls[1..], mainWiki, properties, wiki);
    }
  }

  /** Each call loads at most once, so a run never loads more often than it has calls. */
  lemma {:induction false} RunLoadsAtMostOncePerCall(s: State, calls: seq<Call>, mainWiki: string, properties: map<string, string>)
    ensures s.loads <= Run(s, calls, mainWiki, properties).loads <= s.loads + |calls|
    decreases |calls|
  {
    if calls != [] {
      RunLoadsAtMostOncePerCall(Step(s, calls[0], mainWiki, properties), calls[1..], mainWiki, properties);
    }
  }
}
