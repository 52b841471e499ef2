/** `useRoute().isCurrent`: whether a route is the current one, exactly or
    as a prefix of the current pattern, and when the check requires the
    route's pattern to be shipped for hydration. */
module RouteHook {
  import opened Wrappers
  import opened Strings
  import opened ManifestCache

  /** The answer of one check, and whether it asks the hydration manager to
      require the route for hydration. */
  datatype Check = Check(isCurrent: bool, requiresRoute: bool)

  /** `routes[identifier]` is truthy: the route is known with a non-empty
      pattern. */
  predicate Known(routes: map<string, string>, identifier: string) {
    identifier in routes && routes[identifier] != ""
  }

  /** `isCurrent(identifier, exact)` inside a component rendered in the
      hydration root `root` (empty outside one). */
  function IsCurrent(route: Option<Route>, routes: map<string, string>, root: string, identifier: string, exact: bool)
    : (r: Check)
    ensures exact ==> r == Check(route.Some? && route.value.identifier == identifier, false)
    ensures !exact && Known(routes, identifier) ==>
      && r.requiresRoute == (root != "")
      && (r.isCurrent <==> route.Some? && route.value.pattern.Some? && StartsWith(route.value.pattern.value, routes[identifier]))
    ensures !exact && !Known(routes, identifier) ==> r == Check(false, false)
  {
    if exact then Check(route.Some? && route.value.identifier == identifier, false)
    else if identifier in routes && routes[identifier] != "" then
      var matches := route.Some? && route.value.pattern.Some? && StartsWith(route.value.pattern.value, routes[identifier]);
      Check(matches, root != "")
    else Check(false, false)
  }

  /** A route is current, not exactly, for every route whose pattern the
      current pattern extends: a parent route's check is true on its child
      pages. */
  lemma ParentRouteIsCurrent(route: Route, routes: map<string, string>, root: string, parent: string, rest: string)
    requires Known(routes, parent) && route.pattern == Some(routes[parent] + rest)
    ensures IsCurrent(Some(route), routes, root, parent, false).isCurrent
  {
    assert (routes[parent] + rest)[..|routes[parent]|] == routes[parent];
  }

  /** Without a current pattern no non-exact check is true. */
  lemma NoPatternNoMatch(route: Option<Route>, routes: map<string, string>, root: string, identifier: string)
    requires route.None? || route.value.pattern.None?
    ensures !IsCurrent(route, routes, root, identifier, false).isCurrent
  {
  }

  /** Only a non-exact check of a known route inside a hydration root
      requires the route. */
  lemma RequiresOnlyInsideRoots(route: Option<Route>, routes: map<string, string>, root: string, identifier: string, exact: bool)
    ensures IsCurrent(route, routes, root, identifier, exact).requiresRoute <==>
      !exact && Known(routes, identifier) && root != ""
  {
  }
}
