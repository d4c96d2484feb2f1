/**
 * One run of the route loader, from the already fetched provider data to
 * the map's layers and the stop list it leaves behind.
 */
module Load {

  import opened EtaGrouping
  import opened Layers
  import opened Geometry
  import opened StopList

  /** What the loader's URLs are built from: the route number and the direction (service type is always 1). */
  datatype RouteKey = RouteKey(route: string, direction: string)

  /**
   * The provider's data as the loader would receive it. A key missing from
   * a map stands for a fetch or a parse of that request that throws.
   */
  datatype Provider = Provider(
    routeStops: map<RouteKey, seq<string>>,
    stops: map<string, StopInfo>,
    etas: map<RouteKey, seq<EtaRecord>>)

  /** What the user sees once the loader is done. */
  datatype View = View(layers: seq<Layer>, items: seq<ListItem>)

  /** Every request of one run succeeds. */
  predicate Succeeds(p: Provider, key: RouteKey)
  {
    && key in p.routeStops
    && (forall j :: 0 <= j < |p.routeStops[key]| ==> p.routeStops[key][j] in p.stops)
    && key in p.etas
  }

  /**
   * The outcome of one run on the map `before`, along its four paths:
   * - the route-stop fetch fails: the map is untouched, the list is the failure item;
   * - a stop lookup fails: the map is cleared and holds the markers of the stops
   *   before it, the list is the failure item;
   * - the ETA fetch fails: the map is cleared and holds all markers and the
   *   polyline, the list is the failure item;
   * - every request succeeds: the same map, and one entry per stop.
   */
  function LoadView(p: Provider, key: RouteKey, now: int, before: seq<Layer>): (v: View)
    ensures key !in p.routeStops ==> v.layers == before
    ensures v.items == [FailedItem] || (Succeeds(p, key) && |v.items| == |p.routeStops[key]|)
    ensures !Succeeds(p, key) ==> v.items == [FailedItem]
    ensures forall i :: 0 <= i < |v.items| ==> v.items[i] != LoadingItem
  {
    if key !in p.routeStops then View(before, [FailedItem])
    else
      var ids := p.routeStops[key];
      var infos := ResolvedPrefix(ids, p.stops);
      var drawn := Cleared(before) + Markers(infos);
      if |infos| < |ids| then View(drawn, [FailedItem])
      else
        var mapped := drawn + RouteLine(Coordinates(infos));
        if key !in p.etas then View(mapped, [FailedItem])
        else View(mapped, Entries(ids, p.stops, Grouping(p.etas[key]), now))
  }

  /** The list is the single failure item exactly when some request of the run fails. */
  lemma FailedIff(p: Provider, key: RouteKey, now: int, before: seq<Layer>)
    ensures LoadView(p, key, now, before).items == [FailedItem] <==> !Succeeds(p, key)
  {
    if Succeeds(p, key) {
      var items := LoadView(p, key, now, before).items;
      ResolvedAll(p.routeStops[key], p.stops);
      assert |items| == 1 ==> items[0].StopItem?;
    } else if key in p.routeStops {
      ResolvedAll(p.routeStops[key], p.stops);
    }
  }

  /** The loading item never outlives a run: whatever fails, the list ends without it. */
  lemma NoLoadingAfterRun(p: Provider, key: RouteKey, now: int, before: seq<Layer>)
    ensures LoadingItem !in LoadView(p, key, now, before).items
  {
    if Succeeds(p, key) {
      SuccessList(p, key, now, before);
    } else {
      FailedIff(p, key, now, before);
    }
  }

  /**
   * On success the list holds one entry per route stop, in route order,
   * each with the stop's names and the label from the grouped ETA records,
   * and neither the loading nor the failure item.
   */
  lemma SuccessList(p: Provider, key: RouteKey, now: int, before: seq<Layer>)
    requires Succeeds(p, key)
    ensures var items, ids := LoadView(p, key, now, before).items, p.routeStops[key];
            && |items| == |ids|
            && (forall j :: 0 <= j < |ids| ==>
                  items[j] == StopItem(p.stops[ids[j]].nameTc, p.stops[ids[j]].nameEn,
                                       EtaLabel.StopLabel(Grouping(p.etas[key]), ids[j], now)))
            && LoadingItem !in items && FailedItem !in items
  {
    ResolvedAll(p.routeStops[key], p.stops);
  }

  /**
   * After a run whose route-stop fetch succeeded, the markers and polylines
   * on the map are exactly the markers of the resolved stops, followed by
   * the route's polyline when every stop resolved: nothing drawn before
   * the run is left.
   */
  lemma OverlaysAfterLoad(p: Provider, key: RouteKey, now: int, before: seq<Layer>)
    requires key in p.routeStops
    ensures var ids := p.routeStops[key];
            var infos := ResolvedPrefix(ids, p.stops);
            Overlays(LoadView(p, key, now, before).layers)
              == Markers(infos) + (if |infos| == |ids| then RouteLine(Coordinates(infos)) else [])
  {
    var ids := p.routeStops[key];
    var infos := ResolvedPrefix(ids, p.stops);
    LayersOfLoad(p, key, now, before);
    OverlaysOfKept(before);
    OverlaysAppend(Kept(before), [TileLayer]);
    AllOverlays(Drawn(ids, infos));
    OverlaysAppend(Cleared(before), Drawn(ids, infos));
  }

  lemma {:induction false} AllOverlays(ls: seq<Layer>)
    requires forall i :: 0 <= i < |ls| ==> IsOverlay(ls[i])
    ensures Overlays(ls) == ls
  {
    if ls != [] {
      AllOverlays(ls[1..]);
    }
  }

  /**
   * After a run whose route-stop fetch succeeded, the map holds a polyline
   * exactly when every stop resolved and the route has at least one stop,
   * and that polyline has one point per stop, in route order.
   */
  lemma PolylineAfterLoad(p: Provider, key: RouteKey, now: int, before: seq<Layer>)
    requires key in p.routeStops
    ensures var ids, layers := p.routeStops[key], LoadView(p, key, now, before).layers;
            && ((exists l :: l in layers && l.Polyline?) <==>
                  (forall j :: 0 <= j < |ids| ==> ids[j] in p.stops) && |ids| > 0)
            && forall l :: l in layers && l.Polyline? ==>
                 |l.points| == |ids| &&
                 forall j :: 0 <= j < |ids| ==> l.points[j] == LatLng(p.stops[ids[j]].lat, p.stops[ids[j]].long)
  {
    var ids := p.routeStops[key];
    var infos := ResolvedPrefix(ids, p.stops);
    var layers := LoadView(p, key, now, before).layers;
    ResolvedAll(ids, p.stops);
    LayersOfLoad(p, key, now, before);
    assert layers == Cleared(before) + Drawn(ids, infos);
    ClearedHasNoPolyline(before);
    PolylinesOfDrawn(ids, infos);
  }

  lemma ClearedHasNoPolyline(ls: seq<Layer>)
    ensures forall l :: l in Cleared(ls) ==> !l.Polyline?
  {
    forall l | l in Cleared(ls) ensures !l.Polyline? {
      assert l in Kept(ls) || l == TileLayer;
      if l in Kept(ls) {
        KeptMembers(ls, l);
      }
    }
  }

  /** The only polyline a run draws is the one through all stops' coordinates. */
  lemma PolylinesOfDrawn(ids: seq<string>, infos: seq<StopInfo>)
    requires |infos| <= |ids|
    ensures forall l :: l in Drawn(ids, infos) && l.Polyline? ==>
              |infos| == |ids| && |ids| > 0 && l == Polyline(Coordinates(infos))
    ensures |infos| == |ids| && |ids| > 0 ==> Polyline(Coordinates(infos)) in Drawn(ids, infos)
  {
    var d := Drawn(ids, infos);
    forall l | l in d && l.Polyline?
      ensures |infos| == |ids| && |ids| > 0 && l == Polyline(Coordinates(infos))
    {
      var i :| 0 <= i < |d| && d[i] == l;
      assert i >= |Markers(infos)|;
    }
    if |infos| == |ids| && |ids| > 0 {
      assert d[|infos|] == Polyline(Coordinates(infos));
    }
  }

  /** The markers and, once every stop resolved, the polyline that a run draws after clearing. */
  function Drawn(ids: seq<string>, infos: seq<StopInfo>): seq<Layer>
  {
    Markers(infos) + (if |infos| < |ids| then [] else RouteLine(Coordinates(infos)))
  }

  lemma LayersOfLoad(p: Provider, key: RouteKey, now: int, before: seq<Layer>)
    requires key in p.routeStops
    ensures LoadView(p, key, now, before).layers
              == Cleared(before) + Drawn(p.routeStops[key], ResolvedPrefix(p.routeStops[key], p.stops))
  {
  }

  lemma DrawnKeepsNothing(ids: seq<string>, infos: seq<StopInfo>)
    ensures Kept(Drawn(ids, infos)) == [] && Tiles(Drawn(ids, infos)) == 0
  {
    NoOverlayKept(Drawn(ids, infos));
  }

  /**
   * Every layer other than a marker, circle marker or polyline survives a
   * run in its place, and a run that got past the route-stop fetch adds
   * exactly one tile layer; a run whose route-stop fetch failed leaves the
   * map as it was.
   */
  lemma OtherLayersAfterLoad(p: Provider, key: RouteKey, now: int, before: seq<Layer>)
    ensures key !in p.routeStops ==> LoadView(p, key, now, before).layers == before
    ensures key in p.routeStops ==> Kept(LoadView(p, key, now, before).layers) == Kept(before) + [TileLayer]
    ensures key in p.routeStops ==> Tiles(LoadView(p, key, now, before).layers) == Tiles(before) + 1
  {
    if key in p.routeStops {
      var tail := Drawn(p.routeStops[key], ResolvedPrefix(p.routeStops[key], p.stops));
      LayersOfLoad(p, key, now, before);
      DrawnKeepsNothing(p.routeStops[key], ResolvedPrefix(p.routeStops[key], p.stops));
      KeptAppend(Cleared(before), tail);
      KeptAppend(Kept(before), [TileLayer]);
      ClearIdempotent(before);
      TilesAppend(Cleared(before), tail);
      ClearedAddsOneTile(before);
    }
  }

  lemma {:induction false} NoOverlayKept(tail: seq<Layer>)
    requires forall i :: 0 <= i < |tail| ==> IsOverlay(tail[i])
    ensures Kept(tail) == [] && Tiles(tail) == 0
  {
    if tail != [] {
      NoOverlayKept(tail[1..]);
    }
  }

  /**
   * Loading the same selection twice on the same data shows the same list
   * and the same markers and polyline; only the tile layers differ.
   */
  lemma LoadTwice(p: Provider, key: RouteKey, now: int, before: seq<Layer>)
    ensures var first := LoadView(p, key, now, before);
            var second := LoadView(p, key, now, first.layers);
            second.items == first.items && Overlays(second.layers) == Overlays(first.layers)
  {
    if key in p.routeStops {
      var first := LoadView(p, key, now, before);
      OverlaysAfterLoad(p, key, now, before);
      OverlaysAfterLoad(p, key, now, first.layers);
    }
  }

  /**
   * A route of three stops with ETA records for two of them: three
   * entries, the stop without records showing the sentinel, the others
   * their clamped minutes, and a polyline of three points.
   */
  lemma ThreeStopsTwoEtas(now: int, before: seq<Layer>)
    ensures var key := RouteKey("1A", "inbound");
            var info := StopInfo("22.3", "114.1", "站", "Stop");
            var p := Provider(map[key := ["A", "B", "C"]],
                              map["A" := info, "B" := info, "C" := info],
                              map[key := [EtaRecord("A", now + 90000), EtaRecord("C", now - 5000)]]);
            var v := LoadView(p, key, now, before);
            && |v.items| == 3
            && v.items[0].eta == EtaLabel.Minutes(1)
            && v.items[1].eta == EtaLabel.NoService
            && v.items[2].eta == EtaLabel.Minutes(0)
            && (exists l :: l in v.layers && l.Polyline? && |l.points| == 3)
  {
    var key := RouteKey("1A", "inbound");
    var info := StopInfo("22.3", "114.1", "站", "Stop");
    var p := Provider(map[key := ["A", "B", "C"]],
                      map["A" := info, "B" := info, "C" := info],
                      map[key := [EtaRecord("A", now + 90000), EtaRecord("C", now - 5000)]]);
    var rs := p.etas[key];
    assert Succeeds(p, key);
    SuccessList(p, key, now, before);
    PolylineAfterLoad(p, key, now, before);
    EtaLabel.LabelFromRecords(rs, 0, now);
    EtaLabel.LabelFromRecords(rs, 1, now);
    EtaLabel.MinutesExact(now, 1, 30000);
    EtaLabel.NoServiceIff(rs, "B", now);
    assert "B" !in StopsOf(rs);
  }
}
