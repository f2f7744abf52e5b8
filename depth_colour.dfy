/**
 The depth-to-colour rule of the earthquake markers: an ordered,
 first-match-wins chain of strict `>` comparisons on a quake's depth (km)
 that sorts every depth into one of six colour buckets.
 */
module DepthColour {

  /** The six marker colours, named after the hue of their hex code. */
  datatype Colour = Red | Orange | Yellow | Green | Cyan | Blue

  /** The CSS colour string the marker is drawn with. */
  function Hex(c: Colour): (s: string)
    ensures |s| == 7 && s[0] == '#'
  {
    match c
    case Red => "#ff0000"
    case Orange => "#ffc000"
    case Yellow => "#faff00"
    case Green => "#00FF00"
    case Cyan => "#00d1ff"
    case Blue => "#008dff"
  }

  /** Distinct colours are drawn with distinct CSS strings. */
  lemma HexInjective(c1: Colour, c2: Colour)
    ensures Hex(c1) == Hex(c2) <==> c1 == c2
  {
  }

  /** The bucket boundaries, shallowest first. */
  const Thresholds: seq<nat> := [10, 30, 50, 70, 90]

  /** Position of a colour's bucket in ascending-depth order: 0 is the shallowest. */
  function Rank(c: Colour): (k: nat)
    ensures k <= |Thresholds|
  {
    match c
    case Blue => 0
    case Cyan => 1
    case Green => 2
    case Yellow => 3
    case Orange => 4
    case Red => 5
  }

  /** The colour of the bucket at position `k`; the inverse of `Rank`. */
  function ColourAt(k: nat): (c: Colour)
    requires k <= |Thresholds|
    ensures Rank(c) == k
  {
    if k == 0 then Blue
    else if k == 1 then Cyan
    else if k == 2 then Green
    else if k == 3 then Yellow
    else if k == 4 then Orange
    else Red
  }

  /**
   Reference definition of a bucket as a half-open interval: bucket `k`
   holds the depths above threshold `k - 1` (exclusive) and at most
   threshold `k` (inclusive); the first bucket has no lower end and the
   last no upper end.
   */
  predicate InBucket(depth: real, c: Colour) {
    var k := Rank(c);
    (k == 0 || depth > Thresholds[k - 1] as real) &&
    (k == |Thresholds| || depth <= Thresholds[k] as real)
  }

  /** The colour chain of `pointToLayer`, checked deepest threshold first. */
  function ColourOf(depth: real): (c: Colour)
    ensures InBucket(depth, c)
  {
    if depth > 90.0 then Red
    else if depth > 70.0 then Orange
    else if depth > 50.0 then Yellow
    else if depth > 30.0 then Green
    else if depth > 10.0 then Cyan
    else Blue
  }

  /** No depth lies in two buckets. */
  lemma BucketsDisjoint(depth: real, c1: Colour, c2: Colour)
    requires InBucket(depth, c1) && InBucket(depth, c2)
    ensures c1 == c2
  {
    assert ColourAt(Rank(c1)) == c1 && ColourAt(Rank(c2)) == c2;
  }

  /**
   The buckets partition the reals: every depth gets exactly the colour
   whose interval holds it.
   */
  lemma ColourIffBucket(depth: real, c: Colour)
    ensures ColourOf(depth) == c <==> InBucket(depth, c)
  {
    if InBucket(depth, c) {
      BucketsDisjoint(depth, ColourOf(depth), c);
    }
  }

  /** The deepest and the shallowest colour, both directions. */
  lemma ExtremeBuckets(depth: real)
    ensures ColourOf(depth) == Red <==> depth > 90.0
    ensures ColourOf(depth) == Blue <==> depth <= 10.0
  {
    ColourIffBucket(depth, Red);
    ColourIffBucket(depth, Blue);
  }

  /** Boundaries are strict: a depth equal to threshold `i` stays in bucket `i`. */
  lemma StrictBoundaries()
    ensures forall i :: 0 <= i < |Thresholds| ==> Rank(ColourOf(Thresholds[i] as real)) == i
    ensures ColourOf(90.0) == Orange && ColourOf(70.0) == Yellow && ColourOf(50.0) == Green
    ensures ColourOf(30.0) == Cyan && ColourOf(10.0) == Blue
  {
  }

  /** How many of the thresholds `ts` the depth strictly exceeds. */
  function Exceeded(depth: real, ts: seq<nat>): (n: nat)
    ensures n <= |ts|
  {
    if ts == [] then 0
    else (if depth > ts[0] as real then 1 else 0) + Exceeded(depth, ts[1..])
  }

  /** Exceeding thresholds is monotone in depth, for any threshold list. */
  lemma {:induction false} ExceededMonotone(d1: real, d2: real, ts: seq<nat>)
    requires d1 <= d2
    ensures Exceeded(d1, ts) <= Exceeded(d2, ts)
  {
    if ts != [] {
      ExceededMonotone(d1, d2, ts[1..]);
    }
  }

  /**
   Second reference definition: the bucket a depth falls in is the number
   of thresholds it strictly exceeds.
   */
  lemma RankIsExceededCount(depth: real)
    ensures Rank(ColourOf(depth)) == Exceeded(depth, Thresholds)
  {
    var t := Thresholds;
    assert Exceeded(depth, t[4..]) == (if depth > 90.0 then 1 else 0) by {
      assert t[4..][1..] == [];
    }
    assert Exceeded(depth, t[3..]) == (if depth > 70.0 then 1 else 0) + Exceeded(depth, t[4..]) by {
      assert t[3..][1..] == t[4..];
    }
    assert Exceeded(depth, t[2..]) == (if depth > 50.0 then 1 else 0) + Exceeded(depth, t[3..]) by {
      assert t[2..][1..] == t[3..];
    }
    assert Exceeded(depth, t[1..]) == (if depth > 30.0 then 1 else 0) + Exceeded(depth, t[2..]) by {
      assert t[1..][1..] == t[2..];
    }
    assert Exceeded(depth, t) == (if depth > 10.0 then 1 else 0) + Exceeded(depth, t[1..]);
  }

  /** A deeper quake never gets a shallower colour. */
  lemma {:induction false} ColourMonotone(d1: real, d2: real)
    requires d1 <= d2
    ensures Rank(ColourOf(d1)) <= Rank(ColourOf(d2))
  {
    RankIsExceededCount(d1);
    RankIsExceededCount(d2);
    ExceededMonotone(d1, d2, Thresholds);
  }
}
