/**
 * The route resolver of src/proxy/routeResolver.js: the first prefix of the
 * route table, in table order, that the path starts with.
 */
module RouteResolver {
  import opened Wrappers
  import opened Strings

  /** One entry of the route table: a URL prefix and its downstream base URL. */
  datatype Route = Route(prefix: string, target: string)

  /** The index of the first route at or after `from` whose prefix starts `path`. */
  function FirstMatch(routes: seq<Route>, path: string, from: nat): (r: Option<nat>)
    requires from <= |routes|
    ensures r.Some? ==> from <= r.value < |routes| && StartsWith(path, routes[r.value].prefix)
    ensures r.Some? ==> forall j :: from <= j < r.value ==> !StartsWith(path, routes[j].prefix)
    ensures r.None? ==> forall j :: from <= j < |routes| ==> !StartsWith(path, routes[j].prefix)
    decreases |routes| - from
  {
    if from == |routes| then None
    else if StartsWith(path, routes[from].prefix) then Some(from)
    else FirstMatch(routes, path, from + 1)
  }

  /** `resolveRoute(path)`: `{ prefix, target }` of the first match, or `null`. */
  function ResolveRoute(routes: seq<Route>, path: string): (r: Option<Route>)
    ensures r.Some? ==>
      exists i :: (0 <= i < |routes| && r.value == routes[i] && StartsWith(path, routes[i].prefix)
                   && forall j :: 0 <= j < i ==> !StartsWith(path, routes[j].prefix))
    ensures r.None? <==> forall j :: 0 <= j < |routes| ==> !StartsWith(path, routes[j].prefix)
  {
    match FirstMatch(routes, path, 0)
    case None => None
    case Some(i) => Some(routes[i])
  }

  /** Conversely, the first entry that matches is the answer. */
  lemma ResolveFindsFirst(routes: seq<Route>, path: string, i: nat)
    requires i < |routes| && StartsWith(path, routes[i].prefix)
    requires forall j :: 0 <= j < i ==> !StartsWith(path, routes[j].prefix)
    ensures ResolveRoute(routes, path) == Some(routes[i])
  {
    var k := FirstMatch(routes, path, 0);
    assert k.Some?;
    assert k.value == i;
  }

  /** First match in table order, not longest match. */
  lemma FirstNotLongest()
    ensures ResolveRoute([Route("/api", "http://a"), Route("/api/inventory", "http://b")], "/api/inventory/items")
      == Some(Route("/api", "http://a"))
  {
    assert StartsWith("/api/inventory/items", "/api") by {
      assert "/api/inventory/items"[0..4] == "/api";
    }
  }
}
