/** Values shared by the services: optional values, results carrying an
    error, and the two records that travel between them (a grid sample and
    a track point). */
module Common {

  datatype Option<+T> = None | Some(value: T)

  datatype Result<+T, +E> = Ok(value: T) | Err(error: E)

  /** One entry of an elevation grid: a geographic position and an
      elevation that is missing (None) when the raster had no data. */
  datatype ElevationSample = ElevationSample(latitude: real, longitude: real, elevation: Option<real>)

  /** A geographic box, as calculate_bounds returns it and
      get_elevation_grid receives it. */
  datatype GeoBounds = GeoBounds(minLatitude: real, maxLatitude: real, minLongitude: real, maxLongitude: real)

  /** One point of a track, as extracted from a GPX document. */
  datatype TrackPoint = TrackPoint(latitude: real, longitude: real)

  function Latitudes(points: seq<TrackPoint>): (r: seq<real>)
    ensures |r| == |points|
    ensures forall i :: 0 <= i < |points| ==> r[i] == points[i].latitude
  {
    seq(|points|, i requires 0 <= i < |points| => points[i].latitude)
  }

  function Longitudes(points: seq<TrackPoint>): (r: seq<real>)
    ensures |r| == |points|
    ensures forall i :: 0 <= i < |points| ==> r[i] == points[i].longitude
  {
    seq(|points|, i requires 0 <= i < |points| => points[i].longitude)
  }

  lemma AppendIndexLeft<T>(a: seq<T>, b: seq<T>, i: int)
    requires 0 <= i < |a|
    ensures (a + b)[i] == a[i]
  {
  }

  lemma AppendIndexRight<T>(a: seq<T>, b: seq<T>, i: int)
    requires 0 <= i < |b|
    ensures (a + b)[|a| + i] == b[i]
  {
  }

  lemma AppendAssoc<T>(a: seq<T>, b: seq<T>, c: seq<T>)
    ensures a + b + c == a + (b + c)
  {
  }
}

/** Minimum and maximum of a non-empty sequence of reals, as Python's
    min/max and numpy's min/max compute them. */
module Extremes {

  function MinOf(s: seq<real>): (m: real)
    requires |s| > 0
    ensures m in s
    ensures forall k :: 0 <= k < |s| ==> m <= s[k]
  {
    if |s| == 1 then s[0]
    else
      var rest := MinOf(s[1..]);
      if s[0] <= rest then s[0] else rest
  }

  function MaxOf(s: seq<real>): (m: real)
    requires |s| > 0
    ensures m in s
    ensures forall k :: 0 <= k < |s| ==> s[k] <= m
  {
    if |s| == 1 then s[0]
    else
      var rest := MaxOf(s[1..]);
      if s[0] >= rest then s[0] else rest
  }
}
