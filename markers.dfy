/**
 The `pointToLayer` step of the earthquake layer: each GeoJSON point feature
 becomes a circle-marker descriptor placed at the feature's position, coloured
 by its depth and sized by its magnitude.
 */
module Markers {
  import opened DepthColour
  import opened MarkerRadius

  /**
   The fields of a feed feature the marker uses: `geometry.coordinates`
   is `[longitude, latitude, depth]`, and `properties.mag`.
   */
  datatype Feature = Feature(longitude: real, latitude: real, depth: real, mag: real)

  /** Leaflet's map position, latitude first. */
  datatype LatLng = LatLng(lat: real, lng: real)

  /** What `L.circleMarker` is given, apart from the constant opacities. */
  datatype Marker = Marker(at: LatLng, colour: Colour, radius: real)

  /** The marker of one feature. */
  function Style(f: Feature): (m: Marker)
    ensures m.at == LatLng(f.latitude, f.longitude)
    ensures InBucket(f.depth, m.colour)
    ensures m.radius >= 2.0 && m.radius >= 2.0 * f.mag
    ensures m.radius == 2.0 || m.radius == 2.0 * f.mag
  {
    Marker(LatLng(f.latitude, f.longitude), ColourOf(f.depth), Radius(f.mag))
  }

  /** The markers of a whole feed, one per feature, in feed order. */
  function MarkersOf(fs: seq<Feature>): (ms: seq<Marker>)
    ensures |ms| == |fs|
    ensures forall i :: 0 <= i < |fs| ==> ms[i] == Style(fs[i])
  {
    if fs == [] then [] else [Style(fs[0])] + MarkersOf(fs[1..])
  }

  /** Every marker of a feed is in its depth's bucket and at least 2 pixels wide. */
  lemma {:induction false} MarkersWellStyled(fs: seq<Feature>, i: nat)
    requires i < |fs|
    ensures InBucket(fs[i].depth, MarkersOf(fs)[i].colour)
    ensures MarkersOf(fs)[i].radius >= 2.0
  {
  }

  /** An empty feed yields no markers. */
  lemma EmptyFeed()
    ensures MarkersOf([]) == []
  {
  }

  /**
   Worked cases: a 95 km deep magnitude 6.5 quake is red with radius 13, and a
   magnitude -1 quake gets the floor radius 2.
   */
  lemma WorkedExamples(lon: real, lat: real)
    ensures Style(Feature(lon, lat, 95.0, 6.5)) == Marker(LatLng(lat, lon), Red, 13.0)
    ensures Style(Feature(lon, lat, 5.0, -1.0)).radius == 2.0
  {
  }
}
