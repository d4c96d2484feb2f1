/**
 * Drawing the route: each stop of the route is looked up in turn, gives one
 * coordinate pair and one marker, and the pairs form the route's polyline.
 */
module Geometry {

  import opened Layers

  /** The part of a stop's metadata the page uses. */
  datatype StopInfo = StopInfo(lat: string, long: string, nameTc: string, nameEn: string)

  /**
   * The metadata of the longest prefix of the route's stops whose lookups
   * succeed; the lookup of the stop right after it, if any, fails.
   */
  function ResolvedPrefix(ids: seq<string>, stops: map<string, StopInfo>): (infos: seq<StopInfo>)
    ensures |infos| <= |ids|
    ensures forall j :: 0 <= j < |infos| ==> ids[j] in stops && infos[j] == stops[ids[j]]
    ensures |infos| < |ids| ==> ids[|infos|] !in stops
  {
    if ids == [] || ids[0] !in stops then []
    else [stops[ids[0]]] + ResolvedPrefix(ids[1..], stops)
  }

  function Position(info: StopInfo): LatLng
  {
    LatLng(info.lat, info.long)
  }

  /** The marker's popup: the Chinese name above the English one. */
  function Popup(info: StopInfo): string
  {
    info.nameTc + "<br>" + info.nameEn
  }

  function Coordinates(infos: seq<StopInfo>): seq<LatLng>
  {
    seq(|infos|, j requires 0 <= j < |infos| => Position(infos[j]))
  }

  function Markers(infos: seq<StopInfo>): seq<Layer>
  {
    seq(|infos|, j requires 0 <= j < |infos| => Marker(Position(infos[j]), Popup(infos[j])))
  }

  /** The polyline layer, present only when there is at least one coordinate. */
  function RouteLine(coords: seq<LatLng>): seq<Layer>
  {
    if |coords| > 0 then [Polyline(coords)] else []
  }

  /**
   * The drawing loop: one coordinate pair and one marker per stop, in
   * route order, stopping at the first stop whose lookup fails.
   */
  method DrawRoute(ids: seq<string>, stops: map<string, StopInfo>)
    returns (coords: seq<LatLng>, markers: seq<Layer>, complete: bool)
    ensures complete <==> forall j :: 0 <= j < |ids| ==> ids[j] in stops
    ensures coords == Coordinates(ResolvedPrefix(ids, stops))
    ensures markers == Markers(ResolvedPrefix(ids, stops))
    ensures complete ==> |coords| == |ids|
  {
    coords, markers := [], [];
    ghost var infos: seq<StopInfo> := [];
    var i := 0;
    while i < |ids|
      invariant 0 <= i <= |ids| && |infos| == i
      invariant forall j :: 0 <= j < i ==> ids[j] in stops && infos[j] == stops[ids[j]]
      invariant coords == Coordinates(infos) && markers == Markers(infos)
    {
      if ids[i] !in stops {
        complete := false;
        PrefixUnique(ids, stops, infos);
        return;
      }
      var info := stops[ids[i]];
      coords := coords + [Position(info)];
      markers := markers + [Marker(Position(info), Popup(info))];
      infos := infos + [info];
      i := i + 1;
    }
    complete := true;
    PrefixUnique(ids, stops, infos);
  }

  /** ResolvedPrefix is the only prefix that resolves and stops at the first failed lookup. */
  lemma PrefixUnique(ids: seq<string>, stops: map<string, StopInfo>, infos: seq<StopInfo>)
    requires |infos| <= |ids|
    requires forall j :: 0 <= j < |infos| ==> ids[j] in stops && infos[j] == stops[ids[j]]
    requires |infos| < |ids| ==> ids[|infos|] !in stops
    ensures ResolvedPrefix(ids, stops) == infos
  {
  }

  /** Every stop is resolved exactly when the resolved prefix is the whole route. */
  lemma ResolvedAll(ids: seq<string>, stops: map<string, StopInfo>)
    ensures |ResolvedPrefix(ids, stops)| == |ids| <==> forall j :: 0 <= j < |ids| ==> ids[j] in stops
  {
  }
}
