/**
 * The map's layers, as a list of layer kinds. Before a route is drawn the
 * page removes every marker, circle marker and polyline and then adds one
 * more tile layer.
 */
module Layers {

  /** A latitude/longitude pair, copied from the provider without arithmetic. */
  datatype LatLng = LatLng(lat: string, long: string)

  datatype Layer =
    | TileLayer
    | Marker(at: LatLng, popup: string)
    | CircleMarker
    | Polyline(points: seq<LatLng>)
    | OtherLayer

  /** The kinds the clearing step removes. */
  predicate IsOverlay(l: Layer)
  {
    l.Marker? || l.CircleMarker? || l.Polyline?
  }

  /** The layers that survive clearing, in map order. */
  function Kept(ls: seq<Layer>): (r: seq<Layer>)
    ensures |r| <= |ls|
    ensures forall i :: 0 <= i < |r| ==> r[i] in ls && !IsOverlay(r[i])
  {
    if ls == [] then []
    else (if IsOverlay(ls[0]) then [] else [ls[0]]) + Kept(ls[1..])
  }

  /** The removed layers, in map order. */
  function Overlays(ls: seq<Layer>): seq<Layer>
  {
    if ls == [] then []
    else (if IsOverlay(ls[0]) then [ls[0]] else []) + Overlays(ls[1..])
  }

  /** How many tile layers the map holds. */
  function Tiles(ls: seq<Layer>): nat
  {
    if ls == [] then 0 else (if ls[0].TileLayer? then 1 else 0) + Tiles(ls[1..])
  }

  /** The map after clearing: the kept layers and one new tile layer on top. */
  function Cleared(ls: seq<Layer>): seq<Layer>
  {
    Kept(ls) + [TileLayer]
  }

  /** The clearing loop over the map's layers. */
  method RemoveOverlays(ls: seq<Layer>) returns (kept: seq<Layer>)
    ensures kept == Kept(ls)
  {
    kept := [];
    var i := 0;
    while i < |ls|
      invariant 0 <= i <= |ls|
      invariant kept == Kept(ls[..i])
    {
      assert ls[..i + 1] == ls[..i] + [ls[i]];
      KeptAppend(ls[..i], [ls[i]]);
      if !IsOverlay(ls[i]) {
        kept := kept + [ls[i]];
      }
      i := i + 1;
    }
    assert ls[..|ls|] == ls;
  }

  lemma {:induction false} KeptAppend(a: seq<Layer>, b: seq<Layer>)
    ensures Kept(a + b) == Kept(a) + Kept(b)
  {
    if a == [] {
      assert a + b == b;
    } else {
      var head := if IsOverlay(a[0]) then [] else [a[0]];
      assert (a + b)[0] == a[0];
      assert (a + b)[1..] == a[1..] + b;
      KeptAppend(a[1..], b);
      assert Kept(a + b) == head + (Kept(a[1..]) + Kept(b));
      assert Kept(a) == head + Kept(a[1..]);
    }
  }

  lemma {:induction false} OverlaysAppend(a: seq<Layer>, b: seq<Layer>)
    ensures Overlays(a + b) == Overlays(a) + Overlays(b)
  {
    if a == [] {
      assert a + b == b;
    } else {
      var head := if IsOverlay(a[0]) then [a[0]] else [];
      assert (a + b)[0] == a[0];
      assert (a + b)[1..] == a[1..] + b;
      OverlaysAppend(a[1..], b);
      assert Overlays(a + b) == head + (Overlays(a[1..]) + Overlays(b));
      assert Overlays(a) == head + Overlays(a[1..]);
    }
  }

  lemma {:induction false} TilesAppend(a: seq<Layer>, b: seq<Layer>)
    ensures Tiles(a + b) == Tiles(a) + Tiles(b)
  {
    if a == [] {
      assert a + b == b;
    } else {
      assert (a + b)[1..] == a[1..] + b;
      TilesAppend(a[1..], b);
    }
  }

  /** A layer survives clearing exactly when it was on the map and is not a marker, circle marker or polyline. */
  lemma {:induction false} KeptMembers(ls: seq<Layer>, l: Layer)
    ensures l in Kept(ls) <==> l in ls && !IsOverlay(l)
  {
    if ls != [] {
      KeptMembers(ls[1..], l);
      assert ls == [ls[0]] + ls[1..];
    }
  }

  /** A map without overlays is left as it is, order included. */
  lemma {:induction false} KeptNoOverlays(ls: seq<Layer>)
    requires forall i :: 0 <= i < |ls| ==> !IsOverlay(ls[i])
    ensures Kept(ls) == ls
  {
    if ls != [] {
      KeptNoOverlays(ls[1..]);
    }
  }

  /** Nothing that clearing keeps is an overlay. */
  lemma {:induction false} OverlaysOfKept(ls: seq<Layer>)
    ensures Overlays(Kept(ls)) == []
  {
    if ls != [] {
      OverlaysOfKept(ls[1..]);
      OverlaysAppend(if IsOverlay(ls[0]) then [] else [ls[0]], Kept(ls[1..]));
    }
  }

  /** Clearing keeps every tile layer, so each clearing leaves one tile layer more. */
  lemma {:induction false} ClearedAddsOneTile(ls: seq<Layer>)
    ensures Tiles(Cleared(ls)) == Tiles(ls) + 1
  {
    KeptTiles(ls);
    TilesAppend(Kept(ls), [TileLayer]);
  }

  lemma {:induction false} KeptTiles(ls: seq<Layer>)
    ensures Tiles(Kept(ls)) == Tiles(ls)
  {
    if ls != [] {
      KeptTiles(ls[1..]);
      TilesAppend(if IsOverlay(ls[0]) then [] else [ls[0]], Kept(ls[1..]));
    }
  }

  /** Clearing a cleared map removes nothing more. */
  lemma ClearIdempotent(ls: seq<Layer>)
    ensures Kept(Kept(ls)) == Kept(ls)
  {
    KeptNoOverlays(Kept(ls));
  }
}
