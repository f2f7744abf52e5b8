# Earthquake marker styling

A model of the styling rule of an earthquake map page (`Leaflet_part-1/static/js/logic.js`).
The page fetches the USGS "significant earthquakes, past month" GeoJSON feed and draws
every feature as a circle marker. What the page decides for itself is:

- the marker colour, from the quake's depth (`geometry.coordinates[2]`), by a first-match
  chain of strict `>` comparisons against 90, 70, 50, 30 and 10 km, into six buckets;
- the marker radius, `2 * Math.max(mag, 1)`;
- the legend, a fixed header and six labelled rows, shallowest bucket first.

The modules follow those three parts, plus the lift over a whole feed:

- `DepthColour` — the colour datatype and its CSS strings, the colour chain `ColourOf`,
  and two independent reference definitions of a bucket: a half-open interval
  (`InBucket`) and the number of thresholds a depth strictly exceeds (`Exceeded`).
  Bucket rank 0 is the shallowest (`#008dff`), rank 5 the deepest (`#ff0000`).
- `MarkerRadius` — `Math.max` and the radius rule.
- `Legend` — the legend rows as data, rendered back to the page's seven strings, and tied
  to the thresholds of the colour chain.
- `Markers` — one feature to one marker descriptor, and a feed to its list of markers.

Depth and magnitude are `real`: the comparisons and `2 * max` are exact there.
The legend row's swatch colour comes from its CSS class (`l10` … `g90`) through a
stylesheet that is not part of this model, so the legend is tied to the colour buckets by
class name, label and order, not by hex value. The first label reads "Less than 10"
while a depth of exactly 10 falls in that bucket; the model keeps the label as written.

## Model

| member | source | states |
|---|---|---|
| `DepthColour.Hex` | Leaflet_part-1/static/js/logic.js:28-35 | each colour is a 7-character CSS hex string |
| `DepthColour.HexInjective` | Leaflet_part-1/static/js/logic.js:28-35 | the six colours have six distinct CSS strings |
| `DepthColour.Rank` | Leaflet_part-1/static/js/logic.js:28-35 | the bucket position of a colour lies in 0..5 |
| `DepthColour.ColourAt` | Leaflet_part-1/static/js/logic.js:28-35 | inverse of `Rank`: position k gives the colour of rank k |
| `DepthColour.ColourOf` | Leaflet_part-1/static/js/logic.js:28-35 | the chosen colour's interval (above the next-shallower threshold, at most its own) holds the depth |
| `DepthColour.BucketsDisjoint` | Leaflet_part-1/static/js/logic.js:28-35 | no depth lies in two buckets |
| `DepthColour.ColourIffBucket` | Leaflet_part-1/static/js/logic.js:28-35 | total partition: a depth gets colour c exactly when c's interval holds it |
| `DepthColour.ExtremeBuckets` | Leaflet_part-1/static/js/logic.js:28-35 | red exactly when depth > 90, `#008dff` exactly when depth <= 10 |
| `DepthColour.StrictBoundaries` | Leaflet_part-1/static/js/logic.js:28-32 | a depth equal to a threshold stays in the shallower bucket: 90, 70, 50, 30, 10 give `#ffc000`, `#faff00`, `#00FF00`, `#00d1ff`, `#008dff` |
| `DepthColour.Exceeded` | Leaflet_part-1/static/js/logic.js:28-32 | the count of thresholds a depth strictly exceeds is at most the number of thresholds |
| `DepthColour.ExceededMonotone` | Leaflet_part-1/static/js/logic.js:28-32 | a deeper depth exceeds at least as many thresholds, for any threshold list |
| `DepthColour.RankIsExceededCount` | Leaflet_part-1/static/js/logic.js:28-35 | the bucket of a depth is the number of thresholds it strictly exceeds |
| `DepthColour.ColourMonotone` | Leaflet_part-1/static/js/logic.js:28-35 | depth d1 <= d2 gives a bucket rank no greater: a deeper quake never gets a shallower colour |
| `MarkerRadius.Max` | Leaflet_part-1/static/js/logic.js:39 | `Math.max` is an upper bound of both arguments and equals one of them |
| `MarkerRadius.Radius` | Leaflet_part-1/static/js/logic.js:38-39 | the radius is at least 2 and at least 2·mag, and is one of the two |
| `MarkerRadius.RadiusCases` | Leaflet_part-1/static/js/logic.js:39 | radius is 2·mag for mag >= 1 and exactly 2 for mag <= 1 |
| `MarkerRadius.RadiusMonotone` | Leaflet_part-1/static/js/logic.js:39 | the radius never decreases as magnitude grows |
| `MarkerRadius.RadiusRecoversMagnitude` | Leaflet_part-1/static/js/logic.js:39 | radius above 2 exactly when mag > 1, and then radius/2 is the magnitude; radius 2 exactly when mag <= 1 |
| `Legend.Items` | Leaflet_part-1/static/js/logic.js:101-108 | the legend is the header followed by one rendered paragraph per row |
| `Legend.Join` | Leaflet_part-1/static/js/logic.js:109 | joining with the empty separator keeps the first piece as a prefix |
| `Legend.JoinAppend` | Leaflet_part-1/static/js/logic.js:109 | joining two lists of pieces is the concatenation of joining each |
| `Legend.JoinSplit` | Leaflet_part-1/static/js/logic.js:109 | every piece appears in the joined string, after the join of the pieces before it and before the join of the pieces after it |
| `Legend.Html` | Leaflet_part-1/static/js/logic.js:101-109 | the legend HTML starts with the "Depth" header |
| `Legend.HtmlRowInPlace` | Leaflet_part-1/static/js/logic.js:101-109 | the legend HTML contains each of the six rendered bucket rows, in order, after the header |
| `Legend.RenderedL10` | Leaflet_part-1/static/js/logic.js:103 | row 0 renders to exactly the paragraph string of the page script |
| `Legend.RenderedL30` | Leaflet_part-1/static/js/logic.js:104 | row 1 renders to exactly the paragraph string of the page script |
| `Legend.RenderedL50` | Leaflet_part-1/static/js/logic.js:105 | row 2 renders to exactly the paragraph string of the page script |
| `Legend.RenderedL70` | Leaflet_part-1/static/js/logic.js:106 | row 3 renders to exactly the paragraph string of the page script |
| `Legend.RenderedL90` | Leaflet_part-1/static/js/logic.js:107 | row 4 renders to exactly the paragraph string of the page script |
| `Legend.RenderedG90` | Leaflet_part-1/static/js/logic.js:108 | row 5 renders to exactly the paragraph string of the page script |
| `Legend.ItemsVerbatim` | Leaflet_part-1/static/js/logic.js:101-108 | the legend's pieces are exactly the page's seven strings: header plus six bucket entries |
| `Legend.ShowThresholds` | Leaflet_part-1/static/js/logic.js:103-108 | the five thresholds are written "10", "30", "50", "70", "90" in the labels |
| `Legend.RowFor` | Leaflet_part-1/static/js/logic.js:103-108 | every colour has a row of the legend |
| `Legend.RowDescribesBucket` | Leaflet_part-1/static/js/logic.js:103-108 | a colour's row carries the class and the label built from that bucket's thresholds |
| `Legend.LegendMatchesBuckets` | Leaflet_part-1/static/js/logic.js:101-109 | six rows, shallowest first, one to one with the six colour buckets, each naming its bucket's bounds |
| `Markers.Style` | Leaflet_part-1/static/js/logic.js:22-47 | a feature's marker sits at (latitude, longitude), is coloured by its depth's bucket and sized by the radius rule |
| `Markers.MarkersOf` | Leaflet_part-1/static/js/logic.js:20-22 | a feed gives one marker per feature, in feed order, each the feature's `Style` |
| `Markers.MarkersWellStyled` | Leaflet_part-1/static/js/logic.js:20-48 | every marker of a feed is in its depth's bucket and has radius at least 2 |
| `Markers.EmptyFeed` | Leaflet_part-1/static/js/logic.js:20-22 | a feed with no features yields no markers |
| `Markers.WorkedExamples` | Leaflet_part-1/static/js/logic.js:28-39 | depth 95 with magnitude 6.5 gives a red marker of radius 13; magnitude -1 gives radius 2 |

## Left out

- The feed request `d3.json(queryUrl)` and its callback (logic.js:2-8): network I/O with no error handling; the model starts from the list of features.
- The popup text `bindPopup` including `new Date(...)` formatting (logic.js:14-16): HTML and date rendering by host libraries.
- Leaflet construction: `L.geoJSON`, `L.circleMarker`, the tile layers, `L.map`, the layer control, the legend control, `L.DomUtil.create` and `addTo` (logic.js:20-21, 42-47, 55-100, 114): foreign library and DOM calls. The marker position uses Leaflet's default GeoJSON conversion, `[longitude, latitude]` to a latitude-first position.
- The constant marker options `opacity` and `fillOpacity`, the map centre, zoom and attribution strings: configuration, not behaviour.
- Malformed features (missing coordinates or magnitude giving `undefined`/NaN) and IEEE-754 infinities: depth and magnitude are exact `real` values, and a feature has the three coordinates and a magnitude.
- `Markers.Feature` is a single GeoJSON Point feature with its geometry present; MultiPoint and geometry-less features, which Leaflet's `L.geoJSON` treats differently, are not modelled, so "one marker per feature" holds for feeds of Point features.
- The third coordinate, which Leaflet's default conversion keeps as the position's altitude, is dropped from `Markers.LatLng`; it is used only as the depth for the colour.
- The legend swatch colours, which come from a stylesheet that is not part of this model.
