/** `getManifestOrFail` and its module-level cache: the client reads the
    manifest the server put on the global scope once, deserialises it and
    keeps it; the server reads the global on every call. */
module ManifestCache {
  import opened Wrappers

  /** A component's serialised props, by prop name. */
  type Props = map<string, string>

  /** The current route: its identifier and, when known, its pattern. */
  datatype Route = Route(identifier: string, pattern: Option<string>)

  /** The parts of the manifest the hydration side reads: the props of the
      server-rendered components by props hash, the current route, and the
      patterns of the routes required for hydration by identifier. */
  datatype Manifest = Manifest(props: map<string, Props>, route: Option<Route>, routes: map<string, string>)

  /** `HydrateException.manifestUnavailable()`. */
  datatype ManifestError = ManifestUnavailable

  /** One call: the result, and the cache afterwards. */
  datatype Outcome = Outcome(result: Result<Manifest, ManifestError>, cache: Option<Manifest>)

  /** A call on the client (`isClient`) or the server, with the cache as it
      is, the global as it is, and superjson's deserialisation. */
  function Call(isClient: bool, cache: Option<Manifest>, global: Option<Manifest>, deserialize: Manifest -> Manifest)
    : (o: Outcome)
    ensures isClient && cache.Some? ==> o == Outcome(Ok(cache.value), cache)
    ensures (!isClient || cache.None?) && global.None? ==> o == Outcome(Err(ManifestUnavailable), cache)
    ensures (!isClient || cache.None?) && global.Some? ==>
      o.result.Ok? && o.cache == Some(o.result.value)
      && o.result.value == (if isClient then deserialize(global.value) else global.value)
  {
    if cache.Some? && isClient then Outcome(Ok(cache.value), cache)
    else if global.None? then Outcome(Err(ManifestUnavailable), cache)
    else
      var m := if isClient then deserialize(global.value) else global.value;
      Outcome(Ok(m), Some(m))
  }

  /** The module-level `cachedManifest` and the environment the function
      runs in. */
  class ManifestStore {
    const isClient: bool
    const deserialize: Manifest -> Manifest
    var cachedManifest: Option<Manifest>

    constructor(isClient: bool, deserialize: Manifest -> Manifest)
      ensures this.isClient == isClient && cachedManifest.None?
    {
      this.isClient := isClient;
      this.deserialize := deserialize;
      cachedManifest := None;
    }

    /** `getManifestOrFail`, given what the global `radonisManifest` holds
        at the time of the call. */
    method GetManifestOrFail(global: Option<Manifest>) returns (r: Result<Manifest, ManifestError>)
      modifies this
      ensures Outcome(r, cachedManifest) == Call(isClient, old(cachedManifest), global, deserialize)
    {
      if cachedManifest.Some? && isClient {
        return Ok(cachedManifest.value);
      }
      if global.None? {
        return Err(ManifestUnavailable);
      }
      var manifest := if isClient then deserialize(global.value) else global.value;
      cachedManifest := Some(manifest);
      r := Ok(manifest);
    }
  }

  /** On the client, once a call has succeeded every later call returns the
      same manifest, whatever the global holds by then. */
  lemma ClientCallsAreStable(cache: Option<Manifest>, g1: Option<Manifest>, g2: Option<Manifest>, deserialize: Manifest -> Manifest)
    requires Call(true, cache, g1, deserialize).result.Ok?
    ensures var first := Call(true, cache, g1, deserialize);
      Call(true, first.cache, g2, deserialize) == Outcome(first.result, first.cache)
  {
  }

  /** The server never answers from the cache: each call reflects the
      global as it is then. */
  lemma ServerReadsGlobal(cache: Option<Manifest>, global: Option<Manifest>, deserialize: Manifest -> Manifest)
    ensures Call(false, cache, global, deserialize).result ==
      if global.Some? then Ok(global.value) else Err(ManifestUnavailable)
  {
  }
}
