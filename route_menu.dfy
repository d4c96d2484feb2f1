/** The route selector: the route numbers of the provider's route list, cut short for the demonstration. */
module RouteMenu {

  /** One entry of the provider's route list; only its route number is used. */
  datatype RouteRecord = RouteRecord(route: string)

  /** How many routes the selector offers at most. */
  const MenuLimit: nat := 100

  function Min(a: nat, b: nat): nat
  {
    if a < b then a else b
  }

  /** The route number of each record, one option per record, in list order. */
  function RouteNumbers(rs: seq<RouteRecord>): (ns: seq<string>)
    ensures |ns| == |rs|
    ensures forall i :: 0 <= i < |rs| ==> ns[i] == rs[i].route
  {
    if rs == [] then [] else [rs[0].route] + RouteNumbers(rs[1..])
  }

  /**
   * The options of the selector: the route numbers of the first
   * min(100, n) records, in the provider's order.
   */
  function MenuRoutes(routes: seq<RouteRecord>): (opts: seq<string>)
    ensures |opts| <= MenuLimit
    ensures |opts| == Min(|routes|, MenuLimit)
    ensures forall i :: 0 <= i < |opts| ==> opts[i] == routes[i].route
  {
    RouteNumbers(routes[..Min(|routes|, MenuLimit)])
  }

  /** A list of at most 100 routes is offered whole. */
  lemma {:induction false} ShortListWhole(routes: seq<RouteRecord>)
    requires |routes| <= MenuLimit
    ensures MenuRoutes(routes) == RouteNumbers(routes)
  {
    assert routes[..Min(|routes|, MenuLimit)] == routes;
  }
}
