/**
 * The page's state as the event handlers change it: the selected route and
 * direction at module level, the route selector, the map's layers and the
 * stop list.
 */
module App {

  import opened Wrappers
  import opened Direction
  import opened RouteMenu
  import opened EtaGrouping
  import opened Layers
  import opened Geometry
  import opened StopList
  import opened Load

  /** The route guard: no route yet, or the empty string, counts as no selection. */
  predicate Selected(route: Option<string>)
    ensures route == None ==> !Selected(route)
    ensures route == Some("") ==> !Selected(route)
    ensures Selected(route) ==> route.Some? && |route.value| > 0
  {
    route.Some? && route.value != ""
  }

  class Page {
    var menu: seq<string>
    var currentRoute: Option<string>
    var direction: string
    var layers: seq<Layer>
    var stopList: seq<ListItem>

    ghost predicate Valid()
      reads this
    {
      IsDirection(direction) && |menu| <= MenuLimit
    }

    /** The page as loaded: no route, inbound, an empty selector and a map with one tile layer. */
    constructor ()
      ensures Valid()
      ensures menu == [] && currentRoute == None && direction == Inbound
      ensures layers == [TileLayer] && stopList == []
    {
      menu := [];
      currentRoute := None;
      direction := Inbound;
      layers := [TileLayer];
      stopList := [];
    }

    /**
     * Fills the selector from the fetched route list; when that fetch
     * throws (None), nothing changes.
     */
    method LoadRoutes(routes: Option<seq<RouteRecord>>)
      requires Valid()
      modifies this
      ensures Valid()
      ensures menu == if routes.Some? then MenuRoutes(routes.value) else old(menu)
      ensures currentRoute == old(currentRoute) && direction == old(direction)
      ensures layers == old(layers) && stopList == old(stopList)
    {
      if routes.None? {
        return;
      }
      var rs := routes.value;
      var n := Min(|rs|, MenuLimit);
      menu := [];
      var i := 0;
      while i < n
        invariant 0 <= i <= n && |menu| == i
        invariant forall j :: 0 <= j < i ==> menu[j] == rs[j].route
        invariant currentRoute == old(currentRoute) && direction == old(direction)
        invariant layers == old(layers) && stopList == old(stopList)
      {
        menu := menu + [rs[i].route];
        i := i + 1;
      }
    }

    /** A change of the selector: remember the chosen route, then reload. */
    method SelectRoute(value: string, p: Provider, now: int)
      requires Valid()
      modifies this
      ensures Valid()
      ensures currentRoute == Some(value) && direction == old(direction) && menu == old(menu)
      ensures value == "" ==> layers == old(layers) && stopList == old(stopList)
      ensures value != "" ==> View(layers, stopList) == LoadView(p, RouteKey(value, direction), now, old(layers))
    {
      currentRoute := Some(value);
      LoadRouteStops(p, now);
    }

    /** The direction button: flip the direction, then reload if a route is selected. */
    method ToggleDirection(p: Provider, now: int)
      requires Valid()
      modifies this
      ensures Valid()
      ensures direction == Toggle(old(direction)) && direction != old(direction)
      ensures currentRoute == old(currentRoute) && menu == old(menu)
      ensures !Selected(currentRoute) ==> layers == old(layers) && stopList == old(stopList)
      ensures Selected(currentRoute) ==>
                View(layers, stopList) == LoadView(p, RouteKey(currentRoute.value, direction), now, old(layers))
    {
      direction := Toggle(direction);
      if Selected(currentRoute) {
        LoadRouteStops(p, now);
      }
    }

    /**
     * The route loader, run to completion on the given provider data and
     * clock reading. Without a selected route it does nothing.
     */
    method LoadRouteStops(p: Provider, now: int)
      requires Valid()
      modifies this
      ensures Valid()
      ensures menu == old(menu) && currentRoute == old(currentRoute) && direction == old(direction)
      ensures !Selected(currentRoute) ==> layers == old(layers) && stopList == old(stopList)
      ensures Selected(currentRoute) ==>
                View(layers, stopList) == LoadView(p, RouteKey(currentRoute.value, direction), now, old(layers))
    {
      if !Selected(currentRoute) {
        return;
      }
      stopList := [LoadingItem];
      var key := RouteKey(currentRoute.value, direction);
      if key !in p.routeStops {
        stopList := [FailedItem];
        return;
      }
      var ids := p.routeStops[key];
      var kept := RemoveOverlays(layers);
      layers := kept + [TileLayer];
      var coords, markers, complete := DrawRoute(ids, p.stops);
      layers := layers + markers;
      if !complete {
        stopList := [FailedItem];
        return;
      }
      if |coords| > 0 {
        layers := layers + [Polyline(coords)];
      }
      if key !in p.etas {
        stopList := [FailedItem];
        return;
      }
      var etaMap := GroupEtas(p.etas[key]);
      stopList := [];
      stopList := BuildEntries(ids, p.stops, etaMap, now);
    }
  }
}
