/** The client's hydration manager: the registry of hydratable components,
    the hydration of one root, the visibility observer's callback, and the
    forwarding of hydration requirements on the server. The DOM, React and
    the IntersectionObserver are abstracted to element identities, a log of
    mounts and the set of elements each observer watches. */
module Hydration {
  import opened Wrappers
  import opened ManifestCache

  /** A registered component implementation, by identity. */
  type Component = nat

  /** The `data-*` attributes of a hydration root element. */
  datatype Dataset = Dataset(hydrationRoot: Option<string>, component: Option<string>, props: Option<string>)

  /** A hydration root element: its identity in the page and its dataset. */
  datatype Root = Root(element: nat, dataset: Dataset)

  /** One entry of an observer callback batch. */
  datatype ObserverEntry = ObserverEntry(target: Root, isIntersecting: bool)

  /** Why a root could not be hydrated. */
  datatype HydrationError =
    | MissingHydrationData
    | ComponentNotRegistered(componentName: string, rootId: string)
    | ManifestFailure(error: ManifestError)

  /** One React hydration: the element, its hydration context and the props
      the component receives. */
  datatype Mount = Mount(element: nat, rootId: string, componentName: string, propsHash: string, component: Component, props: Props)

  /** A requirement forwarded to the server-side managers. */
  datatype Requirement = RouteRequirement(identifier: string) | FlashMessageRequirement(identifier: string) | MessageRequirement(identifier: string)

  /** A data attribute is truthy: present and not empty. */
  predicate Given(attribute: Option<string>) {
    attribute.Some? && attribute.value != ""
  }

  /** The outcome of hydrating one root on the client, and the manifest
      cache afterwards. */
  datatype RootResult = RootResult(result: Result<Mount, HydrationError>, cache: Option<Manifest>)

  /** `hydrateRoot` on the client, with the registry, the manifest cache
      and the manifest global as they are. */
  function RootOutcome(components: map<string, Component>, root: Root, cache: Option<Manifest>,
                       global: Option<Manifest>, deserialize: Manifest -> Manifest): (o: RootResult)
    ensures !Given(root.dataset.hydrationRoot) || !Given(root.dataset.component) ==>
      o == RootResult(Err(MissingHydrationData), cache)
    ensures Given(root.dataset.hydrationRoot) && Given(root.dataset.component) && root.dataset.component.value !in components ==>
      o == RootResult(Err(ComponentNotRegistered(root.dataset.component.value, root.dataset.hydrationRoot.value)), cache)
    ensures o.result.Err? && o.result.error.ManifestFailure? ==>
      o.cache == cache && Call(true, cache, global, deserialize).result.Err?
    ensures Given(root.dataset.hydrationRoot) && Given(root.dataset.component) && root.dataset.component.value in components ==>
      var call := Call(true, cache, global, deserialize);
      && (o.result.Ok? <==> call.result.Ok?)
      && (call.result.Err? ==> o.result == Err(ManifestFailure(call.result.error)))
    ensures o.result.Ok? ==>
      var m := o.result.value;
      var call := Call(true, cache, global, deserialize);
      && call.result.Ok? && o.cache == call.cache
      && root.dataset.hydrationRoot == Some(m.rootId) && root.dataset.component == Some(m.componentName)
      && m.element == root.element
      && m.componentName in components && m.component == components[m.componentName]
      && m.propsHash == root.dataset.props.GetOr("0")
      && m.props == (if m.propsHash in call.result.value.props then call.result.value.props[m.propsHash] else map[])
  {
    var d := root.dataset;
    if !Given(d.hydrationRoot) || !Given(d.component) then RootResult(Err(MissingHydrationData), cache)
    else if d.component.value !in components then
      RootResult(Err(ComponentNotRegistered(d.component.value, d.hydrationRoot.value)), cache)
    else
      var call := Call(true, cache, global, deserialize);
      match call.result
      case Err(e) => RootResult(Err(ManifestFailure(e)), call.cache)
      case Ok(manifest) =>
        var hash := d.props.GetOr("0");
        var props := if hash in manifest.props then manifest.props[hash] else map[];
        RootResult(Ok(Mount(root.element, d.hydrationRoot.value, d.component.value, hash, components[d.component.value], props)), call.cache)
  }

  /** What a callback batch has done so far: the mounts, the elements
      unobserved, the error that abandoned the batch, and the manifest
      cache. */
  datatype BatchOutcome = BatchOutcome(mounts: seq<Mount>, unobserved: set<nat>, error: Option<HydrationError>, cache: Option<Manifest>)

  /** One entry of the batch: skipped once the batch is abandoned or when
      not intersecting; otherwise the root is hydrated and then
      unobserved, or the error abandons the batch. */
  function Step(components: map<string, Component>, global: Option<Manifest>, deserialize: Manifest -> Manifest,
                b: BatchOutcome, e: ObserverEntry): BatchOutcome
  {
    if b.error.Some? || !e.isIntersecting then b
    else
      var o := RootOutcome(components, e.target, b.cache, global, deserialize);
      match o.result
      case Err(err) => b.(error := Some(err), cache := o.cache)
      case Ok(m) => b.(mounts := b.mounts + [m], unobserved := b.unobserved + {e.target.element}, cache := o.cache)
  }

  /** The observer callback's `forEach` over a batch, in order. */
  function Batch(components: map<string, Component>, cache: Option<Manifest>, global: Option<Manifest>,
                 deserialize: Manifest -> Manifest, entries: seq<ObserverEntry>): BatchOutcome
    decreases |entries|
  {
    if |entries| == 0 then BatchOutcome([], {}, None, cache)
    else
      var n := |entries| - 1;
      Step(components, global, deserialize, Batch(components, cache, global, deserialize, entries[..n]), entries[n])
  }

  lemma BatchPrefix(components: map<string, Component>, cache: Option<Manifest>, global: Option<Manifest>,
                    deserialize: Manifest -> Manifest, entries: seq<ObserverEntry>, i: nat)
    requires i < |entries|
    ensures Batch(components, cache, global, deserialize, entries[..i + 1]) ==
      Step(components, global, deserialize, Batch(components, cache, global, deserialize, entries[..i]), entries[i])
  {
    assert entries[..i + 1][..i] == entries[..i];
  }

  /** Once a root's hydration throws, the rest of the batch is abandoned:
      later entries change nothing. */
  lemma {:induction false} AbandonedAfterError(components: map<string, Component>, cache: Option<Manifest>, global: Option<Manifest>,
                                               deserialize: Manifest -> Manifest, entries: seq<ObserverEntry>, rest: seq<ObserverEntry>)
    requires Batch(components, cache, global, deserialize, entries).error.Some?
    ensures Batch(components, cache, global, deserialize, entries + rest) == Batch(components, cache, global, deserialize, entries)
    decreases |rest|
  {
    if |rest| > 0 {
      var n := |rest| - 1;
      assert (entries + rest)[..|entries| + n] == entries + rest[..n];
      AbandonedAfterError(components, cache, global, deserialize, entries, rest[..n]);
    } else {
      assert entries + rest == entries;
    }
  }

  /** An entry that is not intersecting changes nothing. */
  lemma IgnoresNonIntersecting(components: map<string, Component>, cache: Option<Manifest>, global: Option<Manifest>,
                               deserialize: Manifest -> Manifest, entries: seq<ObserverEntry>, e: ObserverEntry)
    requires !e.isIntersecting
    ensures Batch(components, cache, global, deserialize, entries + [e]) == Batch(components, cache, global, deserialize, entries)
  {
    assert (entries + [e])[..|entries|] == entries;
  }

  /** One step either leaves the mounts and the unobserved elements as
      they are, or mounts the entry's root and unobserves its element. */
  lemma StepShape(components: map<string, Component>, global: Option<Manifest>, deserialize: Manifest -> Manifest,
                  b: BatchOutcome, e: ObserverEntry)
    ensures var s := Step(components, global, deserialize, b, e);
      || (s.mounts == b.mounts && s.unobserved == b.unobserved)
      || (&& e.isIntersecting
          && RootOutcome(components, e.target, b.cache, global, deserialize).result.Ok?
          && s.mounts == b.mounts + [RootOutcome(components, e.target, b.cache, global, deserialize).result.value]
          && s.unobserved == b.unobserved + {e.target.element})
  {
  }

  /** The elements a list of mounts hydrated. */
  function Elements(mounts: seq<Mount>): set<nat> {
    set m | m in mounts :: m.element
  }

  /** The elements a batch reports as intersecting. */
  function Reported(entries: seq<ObserverEntry>): set<nat> {
    set e | e in entries && e.isIntersecting :: e.target.element
  }

  /** Every mount uses the registered component its root names. */
  predicate MountsRegistered(components: map<string, Component>, mounts: seq<Mount>) {
    forall k :: 0 <= k < |mounts| ==>
      mounts[k].componentName in components && mounts[k].component == components[mounts[k].componentName]
  }

  /** Exactly the mounted elements are unobserved. */
  lemma {:induction false} UnobservedAreMounted(components: map<string, Component>, cache: Option<Manifest>, global: Option<Manifest>,
                                                deserialize: Manifest -> Manifest, entries: seq<ObserverEntry>)
    ensures Batch(components, cache, global, deserialize, entries).unobserved ==
      Elements(Batch(components, cache, global, deserialize, entries).mounts)
    decreases |entries|
  {
    if |entries| > 0 {
      var n := |entries| - 1;
      UnobservedAreMounted(components, cache, global, deserialize, entries[..n]);
      var b0 := Batch(components, cache, global, deserialize, entries[..n]);
      StepShape(components, global, deserialize, b0, entries[n]);
      var b := Batch(components, cache, global, deserialize, entries);
      if b.mounts != b0.mounts {
        var m := b.mounts[|b0.mounts|];
        assert b.mounts == b0.mounts + [m];
        assert Elements(b.mounts) == Elements(b0.mounts) + {m.element};
      }
    }
  }

  /** Every mount uses the registered component its root names and is of
      an element the batch reports as intersecting. */
  lemma {:induction false} MountsAreRegistered(components: map<string, Component>, cache: Option<Manifest>, global: Option<Manifest>,
                                               deserialize: Manifest -> Manifest, entries: seq<ObserverEntry>)
    ensures MountsRegistered(components, Batch(components, cache, global, deserialize, entries).mounts)
    ensures Elements(Batch(components, cache, global, deserialize, entries).mounts) <= Reported(entries)
    decreases |entries|
  {
    if |entries| > 0 {
      var n := |entries| - 1;
      MountsAreRegistered(components, cache, global, deserialize, entries[..n]);
      var b0 := Batch(components, cache, global, deserialize, entries[..n]);
      StepShape(components, global, deserialize, b0, entries[n]);
      var b := Batch(components, cache, global, deserialize, entries);
      assert entries == entries[..n] + [entries[n]];
      assert Reported(entries[..n]) <= Reported(entries);
      if b.mounts != b0.mounts {
        var m := b.mounts[|b0.mounts|];
        assert b.mounts == b0.mounts + [m];
        assert Elements(b.mounts) == Elements(b0.mounts) + {m.element};
      }
    }
  }

  /** A root is hydrated at most once. `ObserverCallback` leaves its
      observer watching its earlier elements minus the batch's `unobserved`
      set, and an observer reports only elements it watches; so a later
      batch reports none of the elements the first one unobserved, and
      then it mounts none of the elements the first one mounted. */
  lemma MountedAtMostOnce(components: map<string, Component>, cache: Option<Manifest>, global: Option<Manifest>,
                          deserialize: Manifest -> Manifest,
                          first: seq<ObserverEntry>, components2: map<string, Component>, cache2: Option<Manifest>,
                          second: seq<ObserverEntry>)
    requires forall e :: e in second ==>
      e.target.element !in Batch(components, cache, global, deserialize, first).unobserved
    ensures Elements(Batch(components, cache, global, deserialize, first).mounts)
      !! Elements(Batch(components2, cache2, global, deserialize, second).mounts)
  {
    UnobservedAreMounted(components, cache, global, deserialize, first);
    MountsAreRegistered(components2, cache2, global, deserialize, second);
  }

  /** A root naming a component nobody registered is never mounted: its
      entry stops the batch with that error and nothing more is mounted. */
  lemma UnregisteredStopsBatch(components: map<string, Component>, cache: Option<Manifest>, global: Option<Manifest>,
                               deserialize: Manifest -> Manifest, entries: seq<ObserverEntry>, e: ObserverEntry, rest: seq<ObserverEntry>)
    requires Batch(components, cache, global, deserialize, entries).error.None?
    requires e.isIntersecting && Given(e.target.dataset.hydrationRoot) && Given(e.target.dataset.component)
    requires e.target.dataset.component.value !in components
    ensures var b := Batch(components, cache, global, deserialize, entries + [e] + rest);
      && b.mounts == Batch(components, cache, global, deserialize, entries).mounts
      && b.error == Some(ComponentNotRegistered(e.target.dataset.component.value, e.target.dataset.hydrationRoot.value))
  {
    assert (entries + [e])[..|entries|] == entries;
    AbandonedAfterError(components, cache, global, deserialize, entries + [e], rest);
  }

  class HydrationManager {
    /** Whether the code runs on the server (`isServer`). */
    const onServer: bool

    /** The component registry, by identifier. */
    var components: map<string, Component>

    /** The hydrations performed, in order. */
    var mounted: seq<Mount>

    /** The elements each observer created by `hydrateRoots` watches. */
    var observers: seq<set<nat>>

    /** The requirements forwarded to the server-side managers. */
    var forwarded: seq<Requirement>

    /** The server never registers, observes or mounts; the client never
        forwards. */
    ghost predicate Valid()
      reads this
    {
      && (onServer ==> components == map[] && mounted == [] && observers == [])
      && (!onServer ==> forwarded == [])
    }

    constructor(onServer: bool)
      ensures Valid() && this.onServer == onServer
      ensures components == map[] && mounted == [] && observers == [] && forwarded == []
    {
      this.onServer := onServer;
      components := map[];
      mounted := [];
      observers := [];
      forwarded := [];
    }

    /** `hydrateRoot`: nothing on the server; on the client the root is
        checked, its component looked up, the manifest read and the
        component mounted, or the first failure reported. */
    method HydrateRoot(root: Root, store: ManifestStore, global: Option<Manifest>) returns (r: Result<Option<Mount>, HydrationError>)
      requires Valid() && store.isClient == !onServer
      modifies this, store
      ensures Valid()
      ensures components == old(components) && observers == old(observers) && forwarded == old(forwarded)
      ensures onServer ==> r == Ok(None) && mounted == old(mounted) && store.cachedManifest == old(store.cachedManifest)
      ensures !onServer ==>
        var o := RootOutcome(components, root, old(store.cachedManifest), global, store.deserialize);
        && store.cachedManifest == o.cache
        && (o.result.Ok? ==> r == Ok(Some(o.result.value)) && mounted == old(mounted) + [o.result.value])
        && (o.result.Err? ==> r == Err(o.result.error) && mounted == old(mounted))
    {
      if onServer {
        return Ok(None);
      }
      var d := root.dataset;
      if !Given(d.hydrationRoot) || !Given(d.component) {
        return Err(MissingHydrationData);
      }
      var name := d.component.value;
      if name !in components {
        return Err(ComponentNotRegistered(name, d.hydrationRoot.value));
      }
      var manifest := store.GetManifestOrFail(global);
      if manifest.Err? {
        return Err(ManifestFailure(manifest.error));
      }
      var hash := d.props.GetOr("0");
      var props := if hash in manifest.value.props then manifest.value.props[hash] else map[];
      var m := Mount(root.element, d.hydrationRoot.value, name, hash, components[name], props);
      mounted := mounted + [m];
      r := Ok(Some(m));
    }

    /** The callback of observer `o` for one batch: each intersecting root
        is hydrated and then unobserved, in order, until a hydration
        throws. */
    method ObserverCallback(o: nat, entries: seq<ObserverEntry>, store: ManifestStore, global: Option<Manifest>)
      returns (error: Option<HydrationError>)
      requires Valid() && o < |observers| && store.isClient
      modifies this, store
      ensures Valid()
      ensures var b := Batch(components, old(store.cachedManifest), global, store.deserialize, entries);
        && error == b.error
        && mounted == old(mounted) + b.mounts
        && observers == old(observers)[o := old(observers)[o] - b.unobserved]
        && store.cachedManifest == b.cache
      ensures components == old(components) && forwarded == old(forwarded)
    {
      ghost var cache0 := store.cachedManifest;
      error := None;
      for i := 0 to |entries|
        invariant components == old(components) && forwarded == old(forwarded)
        invariant !onServer && Valid()
        invariant var b := Batch(components, cache0, global, store.deserialize, entries[..i]);
          && b.error.None?
          && mounted == old(mounted) + b.mounts
          && |observers| == |old(observers)| && observers[o] == old(observers)[o] - b.unobserved
          && store.cachedManifest == b.cache
        invariant forall j :: 0 <= j < |observers| && j != o ==> observers[j] == old(observers)[j]
      {
        BatchPrefix(components, cache0, global, store.deserialize, entries, i);
        var e := entries[i];
        if !e.isIntersecting {
          continue;
        }
        var r := HydrateRoot(e.target, store, global);
        if r.Err? {
          AbandonedAfterError(components, cache0, global, store.deserialize, entries[..i + 1], entries[i + 1..]);
          assert entries[..i + 1] + entries[i + 1..] == entries;
          assert observers == old(observers)[o := old(observers)[o] - Batch(components, cache0, global, store.deserialize, entries).unobserved];
          return Some(r.error);
        }
        observers := observers[o := observers[o] - {e.target.element}];
      }
      assert entries[..|entries|] == entries;
      assert observers == old(observers)[o := old(observers)[o] - Batch(components, cache0, global, store.deserialize, entries).unobserved];
    }

    /** `hydrateRoots`: on the client, a new observer watching every root
        element of the page. */
    method HydrateRoots(roots: seq<Root>)
      requires Valid()
      modifies this
      ensures Valid()
      ensures components == old(components) && mounted == old(mounted) && forwarded == old(forwarded)
      ensures onServer ==> observers == old(observers)
      ensures !onServer ==>
        && |observers| == |old(observers)| + 1 && observers[..|old(observers)|] == old(observers)
        && forall x :: x in observers[|old(observers)|] <==> exists i :: 0 <= i < |roots| && roots[i].element == x
    {
      if onServer {
        return;
      }
      var watched: set<nat> := {};
      for i := 0 to |roots|
        invariant forall x :: x in watched <==> exists j :: 0 <= j < i && roots[j].element == x
      {
        watched := watched + {roots[i].element};
      }
      observers := observers + [watched];
    }

    /** `registerComponent`: on the client the identifier now names the
        component, replacing any earlier registration. */
    method RegisterComponent(identifier: string, component: Component)
      requires Valid()
      modifies this
      ensures Valid()
      ensures components == if onServer then old(components) else old(components)[identifier := component]
      ensures mounted == old(mounted) && observers == old(observers) && forwarded == old(forwarded)
    {
      if onServer {
        return;
      }
      components := components[identifier := component];
    }

    /** The three `require…ForHydration` methods: forwarded on the server,
        nothing on the client. */
    method Require(requirement: Requirement)
      requires Valid()
      modifies this
      ensures Valid()
      ensures forwarded == if onServer then old(forwarded) + [requirement] else old(forwarded)
      ensures components == old(components) && mounted == old(mounted) && observers == old(observers)
    {
      if !onServer {
        return;
      }
      forwarded := forwarded + [requirement];
    }
  }

  /** The static `instance` the constructor hands out. */
  class Singleton {
    var instance: Option<HydrationManager>

    constructor()
      ensures instance.None?
    {
      instance := None;
    }

    /** `new HydrationManager()`: the existing instance once there is one,
        otherwise a new manager that becomes the instance. */
    method Construct(onServer: bool) returns (m: HydrationManager)
      modifies this
      ensures old(instance).Some? ==> m == old(instance).value && instance == old(instance)
      ensures old(instance).None? ==>
        && fresh(m) && instance == Some(m) && m.Valid() && m.onServer == onServer
        && m.components == map[] && m.mounted == [] && m.observers == [] && m.forwarded == []
    {
      if instance.Some? {
        return instance.value;
      }
      m := new HydrationManager(onServer);
      instance := Some(m);
    }
  }
}
