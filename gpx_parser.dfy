/** Track extraction from a GPX document and the padded bounding box of a
    track. The XML text is not parsed here: a document is either malformed
    or an already parsed tree of tagged elements. */
module GpxParser {
  import opened Common
  import opened Extremes

  /** An XML element: its tag (in Clark notation "{uri}local" when it is
      namespaced), its "lat" and "lon" attributes read as numbers (None when
      the attribute is absent or is not a number) and its children in
      document order. */
  datatype Element = Element(tag: string, lat: Option<real>, lon: Option<real>, children: seq<Element>)

  datatype Document = Malformed | Parsed(root: Element)

  /** Why a document that parsed still yields no track. */
  datatype Cause = NoTrackPoints | BadCoordinate

  /** The two ValueError messages: "Invalid GPX data" for XML that does not
      parse, "Error parsing GPX data" for every other failure. */
  datatype GpxError = InvalidGpxData | ErrorParsingGpx(cause: Cause)

  // ---------------------------------------------------------------------
  // Namespace prefix

  /** The text before the first occurrence of `c` (all of `s` if none). */
  function BeforeFirst(s: string, c: char): (r: string)
    ensures c !in r
    ensures r <= s
    ensures c in s ==> |r| < |s| && s[|r|] == c
    ensures c !in s ==> r == s
  {
    if s == [] then []
    else if s[0] == c then []
    else [s[0]] + BeforeFirst(s[1..], c)
  }

  /** `s` without its leading occurrences of `c`. */
  function TrimStart(s: string, c: char): (r: string)
    ensures |r| <= |s| && r == s[|s| - |r|..]
    ensures forall k :: 0 <= k < |s| - |r| ==> s[k] == c
    ensures r != [] ==> r[0] != c
  {
    if s != [] && s[0] == c then TrimStart(s[1..], c) else s
  }

  /** `s` without its trailing occurrences of `c`. */
  function TrimEnd(s: string, c: char): (r: string)
    ensures |r| <= |s| && r == s[..|r|]
    ensures forall k :: |r| <= k < |s| ==> s[k] == c
    ensures r != [] ==> r[|r| - 1] != c
  {
    if s != [] && s[|s| - 1] == c then TrimEnd(s[..|s| - 1], c) else s
  }

  /** Python's str.strip with a one-character argument. */
  function Strip(s: string, c: char): string
  {
    TrimEnd(TrimStart(s, c), c)
  }

  /** The prefix put in front of every tag looked for: "{ns}" where ns is
      the root tag's text before its first "}" with the "{" characters at
      both of its ends removed, or "" when the root tag has no "}". */
  function NamespacePrefix(rootTag: string): (p: string)
    ensures '}' !in rootTag ==> p == ""
    ensures '}' in rootTag ==> |p| >= 2 && p[0] == '{' && p[|p| - 1] == '}'
  {
    if '}' in rootTag then "{" + Strip(BeforeFirst(rootTag, '}'), '{') + "}" else ""
  }

  /** A root tag written in Clark notation gives back exactly its
      namespace part as the prefix. */
  lemma {:induction false} NamespacePrefixOfClarkTag(uri: string, local: string)
    requires '{' !in uri && '}' !in uri
    ensures NamespacePrefix("{" + uri + "}" + local) == "{" + uri + "}"
  {
    var tag := "{" + uri + "}" + local;
    assert tag == "{" + (uri + "}" + local);
    assert '}' in tag by { assert tag[|uri| + 1] == '}'; }
    BeforeFirstAt(tag, '}', |uri| + 1);
    var before := BeforeFirst(tag, '}');
    assert before == "{" + uri;
    StripOneLeading(uri);
  }

  lemma {:induction false} BeforeFirstAt(s: string, c: char, n: nat)
    requires n < |s| && s[n] == c && c !in s[..n]
    ensures BeforeFirst(s, c) == s[..n]
  {
    if n > 0 {
      assert s[0] in s[..n];
      assert s[1..][..n - 1] == s[1..n];
      BeforeFirstAt(s[1..], c, n - 1);
      assert s[..n] == [s[0]] + s[1..n];
    }
  }

  lemma StripOneLeading(uri: string)
    requires '{' !in uri
    ensures Strip("{" + uri, '{') == uri
  {
    var s := "{" + uri;
    assert s[1..] == uri;
    if uri != [] {
      assert uri[0] != '{';
    }
    assert TrimStart(s, '{') == TrimStart(uri, '{') == uri;
    if uri != [] {
      assert uri[|uri| - 1] != '{';
    }
  }

  // ---------------------------------------------------------------------
  // Element search

  /** All elements of a forest, each followed by its own descendants, in
      document order. */
  function Preorder(forest: seq<Element>): seq<Element>
    decreases forest
  {
    if forest == [] then []
    else [forest[0]] + Preorder(forest[0].children) + Preorder(forest[1..])
  }

  /** The elements with tag `tag` among `tree`: this is what ElementTree's
      `findall(".//" + tag)` returns on an element, which searches its
      descendants (never the element itself). */
  function FindAll(e: Element, tag: string): seq<Element>
  {
    Filter(Preorder(e.children), tag)
  }

  function Filter(s: seq<Element>, tag: string): seq<Element>
  {
    if s == [] then []
    else (if s[0].tag == tag then [s[0]] else []) + Filter(s[1..], tag)
  }

  /** findall returns exactly the descendants that carry the tag. */
  lemma {:induction false} FindAllMember(e: Element, tag: string, x: Element)
    ensures x in FindAll(e, tag) <==> x in Preorder(e.children) && x.tag == tag
  {
    FilterMember(Preorder(e.children), tag, x);
  }

  lemma {:induction false} FilterMember(s: seq<Element>, tag: string, x: Element)
    ensures x in Filter(s, tag) <==> x in s && x.tag == tag
  {
    if s != [] {
      FilterMember(s[1..], tag, x);
      assert s == [s[0]] + s[1..];
    }
  }

  /** The concatenation of f(x) over the elements x of xs, in order. */
  function FlatMap(xs: seq<Element>, f: Element -> seq<Element>): seq<Element>
  {
    if xs == [] then [] else FlatMap(xs[..|xs| - 1], f) + f(xs[|xs| - 1])
  }

  lemma FlatMapAppend(xs: seq<Element>, x: Element, f: Element -> seq<Element>)
    ensures FlatMap(xs + [x], f) == FlatMap(xs, f) + f(x)
  {
    assert (xs + [x])[..|xs|] == xs;
  }

  lemma {:induction false} FlatMapMember(xs: seq<Element>, i: nat, f: Element -> seq<Element>, y: Element)
    requires i < |xs| && y in f(xs[i])
    ensures y in FlatMap(xs, f)
  {
    if i < |xs| - 1 {
      FlatMapMember(xs[..|xs| - 1], i, f, y);
    }
  }

  lemma {:induction false} FlatMapMemberInv(xs: seq<Element>, f: Element -> seq<Element>, y: Element)
    requires y in FlatMap(xs, f)
    ensures exists i :: 0 <= i < |xs| && y in f(xs[i])
  {
    var init := xs[..|xs| - 1];
    if y in FlatMap(init, f) {
      FlatMapMemberInv(init, f, y);
      var i :| 0 <= i < |init| && y in f(init[i]);
      assert xs[i] == init[i];
    } else {
      assert y in f(xs[|xs| - 1]);
    }
  }

  // ---------------------------------------------------------------------
  // Track point extraction

  /** findall(".//trkpt") on one track segment. */
  function SegmentPoints(prefix: string): Element -> seq<Element>
  {
    seg => FindAll(seg, prefix + "trkpt")
  }

  /** The trkpt elements of every trkseg of one track, in document order. */
  function TrackSegmentPoints(prefix: string): Element -> seq<Element>
  {
    trk => FlatMap(FindAll(trk, prefix + "trkseg"), SegmentPoints(prefix))
  }

  /** findall(".//rtept") on one route. */
  function RoutePoints(prefix: string): Element -> seq<Element>
  {
    rte => FindAll(rte, prefix + "rtept")
  }

  /** The trkpt elements of every trkseg of every trk, in document order. */
  function TrackPointElements(root: Element, prefix: string): seq<Element>
  {
    FlatMap(FindAll(root, prefix + "trk"), TrackSegmentPoints(prefix))
  }

  /** The rtept elements of every rte, in document order. */
  function RoutePointElements(root: Element, prefix: string): seq<Element>
  {
    FlatMap(FindAll(root, prefix + "rte"), RoutePoints(prefix))
  }

  /** The wpt elements, in document order. */
  function WaypointElements(root: Element, prefix: string): seq<Element>
  {
    FindAll(root, prefix + "wpt")
  }

  predicate HasCoordinates(e: Element)
  {
    e.lat.Some? && e.lon.Some?
  }

  function PointOf(e: Element): TrackPoint
    requires HasCoordinates(e)
  {
    TrackPoint(e.lat.value, e.lon.value)
  }

  /** The points of one tier, failing when any of its elements lacks a
      numeric "lat" or "lon". */
  function Coordinates(es: seq<Element>): (r: Result<seq<TrackPoint>, Cause>)
    ensures r.Ok? <==> AllHaveCoordinates(es)
    ensures r.Err? ==> r.error == BadCoordinate
    ensures r.Ok? ==> |r.value| == |es| && forall i :: 0 <= i < |es| ==> r.value[i] == PointOf(es[i])
  {
    if AllHaveCoordinates(es)
    then Ok(seq(|es|, i requires 0 <= i < |es| => PointOf(es[i])))
    else Err(BadCoordinate)
  }

  predicate AllHaveCoordinates(es: seq<Element>)
  {
    forall e :: e in es ==> HasCoordinates(e)
  }

  /** One bad element anywhere makes the whole concatenation fail. */
  lemma FlatMapBad(xs: seq<Element>, k: nat, f: Element -> seq<Element>)
    requires k < |xs| && Coordinates(f(xs[k])).Err?
    ensures Coordinates(FlatMap(xs, f)).Err?
  {
    var bad :| bad in f(xs[k]) && !HasCoordinates(bad);
    FlatMapMember(xs, k, f, bad);
  }

  /** The positions of a longer prefix extend those of the shorter one. */
  lemma FlatMapStep(xs: seq<Element>, k: nat, f: Element -> seq<Element>)
    requires k < |xs| && Coordinates(FlatMap(xs[..k], f)).Ok? && Coordinates(f(xs[k])).Ok?
    ensures Coordinates(FlatMap(xs[..k + 1], f)) ==
      Ok(Coordinates(FlatMap(xs[..k], f)).value + Coordinates(f(xs[k])).value)
  {
    FlatMapAppend(xs[..k], xs[k], f);
    assert xs[..k + 1] == xs[..k] + [xs[k]];
    CoordinatesAppend(FlatMap(xs[..k], f), f(xs[k]));
  }

  lemma CoordinatesAppend(a: seq<Element>, b: seq<Element>)
    requires Coordinates(a).Ok? && Coordinates(b).Ok?
    ensures Coordinates(a + b) == Ok(Coordinates(a).value + Coordinates(b).value)
  {
    var ab := a + b;
    forall e | e in ab ensures HasCoordinates(e) {
      assert e in a || e in b;
    }
    var ca, cb, c := Coordinates(a).value, Coordinates(b).value, Coordinates(ab).value;
    forall i | 0 <= i < |ab| ensures c[i] == (ca + cb)[i] {
      if i >= |a| {
        assert ab[i] == b[i - |a|];
      }
    }
    assert c == ca + cb;
  }

  /** What parse_gpx returns: track points if there are any, else route
      points, else waypoints, else an error. */
  function ParseGpxSpec(doc: Document): (r: Result<seq<TrackPoint>, GpxError>)
    ensures doc.Malformed? ==> r == Err(InvalidGpxData)
    ensures r.Ok? ==> |r.value| > 0
    // nothing is found exactly when all three tiers are empty
    ensures r == Err(ErrorParsingGpx(NoTrackPoints)) <==>
      doc.Parsed? &&
      var prefix := NamespacePrefix(doc.root.tag);
      TrackPointElements(doc.root, prefix) == [] &&
      RoutePointElements(doc.root, prefix) == [] &&
      WaypointElements(doc.root, prefix) == []
    // track points take priority; route points count only without any
    // trkpt element, waypoints only without any rtept element either
    ensures doc.Parsed? ==>
      var prefix := NamespacePrefix(doc.root.tag);
      var trk := TrackPointElements(doc.root, prefix);
      var rte := RoutePointElements(doc.root, prefix);
      var wpt := WaypointElements(doc.root, prefix);
      && (trk != [] ==> r == Reported(Coordinates(trk)))
      && (trk == [] && rte != [] ==> r == Reported(Coordinates(rte)))
      && (trk == [] && rte == [] && wpt != [] ==> r == Reported(Coordinates(wpt)))
  {
    match doc
    case Malformed => Err(InvalidGpxData)
    case Parsed(root) =>
      var prefix := NamespacePrefix(root.tag);
      var trk := TrackPointElements(root, prefix);
      var rte := RoutePointElements(root, prefix);
      var es := if trk != [] then trk else if rte != [] then rte else WaypointElements(root, prefix);
      if es == [] then Err(ErrorParsingGpx(NoTrackPoints)) else Reported(Coordinates(es))
  }

  /** A tier's outcome as parse_gpx reports it: its points, or the cause of
      its failure wrapped as "Error parsing GPX data". */
  function Reported(tier: Result<seq<TrackPoint>, Cause>): (r: Result<seq<TrackPoint>, GpxError>)
    ensures r.Ok? <==> tier.Ok?
    ensures r.Ok? ==> r.value == tier.value
    ensures r.Err? ==> r.error == ErrorParsingGpx(tier.error)
  {
    match tier
    case Ok(points) => Ok(points)
    case Err(cause) => Err(ErrorParsingGpx(cause))
  }

  predicate IsPointTag(tag: string, prefix: string)
  {
    tag == prefix + "trkpt" || tag == prefix + "rtept" || tag == prefix + "wpt"
  }

  /** Every point returned is the position of a trkpt, rtept or wpt element
      found below the root. */
  lemma ParsedPointsComeFromDocument(root: Element, i: nat)
    requires ParseGpxSpec(Parsed(root)).Ok?
    requires i < |ParseGpxSpec(Parsed(root)).value|
    ensures exists e :: (e in Preorder(root.children) && HasCoordinates(e) &&
      IsPointTag(e.tag, NamespacePrefix(root.tag)) && PointOf(e) == ParseGpxSpec(Parsed(root)).value[i])
  {
    var prefix := NamespacePrefix(root.tag);
    var trk := TrackPointElements(root, prefix);
    var rte := RoutePointElements(root, prefix);
    var es := if trk != [] then trk else if rte != [] then rte else WaypointElements(root, prefix);
    var e := es[i];
    assert e in es;
    if trk != [] {
      TrackPointElementBelowRoot(root, prefix, e);
    } else if rte != [] {
      RoutePointElementBelowRoot(root, prefix, e);
    } else {
      FindAllMember(root, prefix + "wpt", e);
    }
    assert e in Preorder(root.children) && IsPointTag(e.tag, prefix);
  }

  /** A descendant of a descendant is a descendant. */
  lemma {:induction false} PreorderTransitive(forest: seq<Element>, x: Element, y: Element)
    requires x in Preorder(forest) && y in Preorder(x.children)
    ensures y in Preorder(forest)
    decreases forest
  {
    var head := forest[0];
    if x == head {
    } else if x in Preorder(head.children) {
      PreorderTransitive(head.children, x, y);
    } else {
      PreorderTransitive(forest[1..], x, y);
    }
  }

  lemma TrackPointElementBelowRoot(root: Element, prefix: string, e: Element)
    requires e in TrackPointElements(root, prefix)
    ensures e in Preorder(root.children) && e.tag == prefix + "trkpt"
  {
    var trks := FindAll(root, prefix + "trk");
    FlatMapMemberInv(trks, TrackSegmentPoints(prefix), e);
    var i :| 0 <= i < |trks| && e in TrackSegmentPoints(prefix)(trks[i]);
    var segs := FindAll(trks[i], prefix + "trkseg");
    FlatMapMemberInv(segs, SegmentPoints(prefix), e);
    var j :| 0 <= j < |segs| && e in SegmentPoints(prefix)(segs[j]);
    assert segs[j] in segs && trks[i] in trks;
    FindAllMember(segs[j], prefix + "trkpt", e);
    FindAllMember(trks[i], prefix + "trkseg", segs[j]);
    FindAllMember(root, prefix + "trk", trks[i]);
    PreorderTransitive(trks[i].children, segs[j], e);
    PreorderTransitive(root.children, trks[i], e);
  }

  lemma RoutePointElementBelowRoot(root: Element, prefix: string, e: Element)
    requires e in RoutePointElements(root, prefix)
    ensures e in Preorder(root.children) && e.tag == prefix + "rtept"
  {
    var rtes := FindAll(root, prefix + "rte");
    FlatMapMemberInv(rtes, RoutePoints(prefix), e);
    var i :| 0 <= i < |rtes| && e in RoutePoints(prefix)(rtes[i]);
    assert rtes[i] in rtes;
    FindAllMember(rtes[i], prefix + "rtept", e);
    FindAllMember(root, prefix + "rte", rtes[i]);
    PreorderTransitive(root.children, rtes[i], e);
  }

  // ---------------------------------------------------------------------
  // The parser itself

  /** Appends the positions of `found` to `acc`, or stops at the first
      element without numeric coordinates (float() raising). */
  method AppendPoints(acc: seq<TrackPoint>, found: seq<Element>) returns (r: Result<seq<TrackPoint>, Cause>)
    ensures r.Ok? <==> Coordinates(found).Ok?
    ensures r.Ok? ==> r.value == acc + Coordinates(found).value
  {
    var out := acc;
    for k := 0 to |found|
      invariant Coordinates(found[..k]).Ok?
      invariant out == acc + Coordinates(found[..k]).value
    {
      var point := found[k];
      if point.lat.None? || point.lon.None? {
        assert point in found;
        return Err(BadCoordinate);
      }
      assert found[..k + 1] == found[..k] + [point];
      CoordinatesAppend(found[..k], [point]);
      out := out + [TrackPoint(point.lat.value, point.lon.value)];
    }
    assert found[..|found|] == found;
    return Ok(out);
  }

  /** For each x of xs in order, appends the positions of the elements
      f(x) finds, stopping at the first element without coordinates. */
  method AppendFlatMap(acc: seq<TrackPoint>, xs: seq<Element>, f: Element -> seq<Element>)
    returns (r: Result<seq<TrackPoint>, Cause>)
    ensures r.Ok? <==> Coordinates(FlatMap(xs, f)).Ok?
    ensures r.Ok? ==> r.value == acc + Coordinates(FlatMap(xs, f)).value
    ensures r.Err? ==> r.error == BadCoordinate
  {
    var points := acc;
    for k := 0 to |xs|
      invariant Coordinates(FlatMap(xs[..k], f)).Ok?
      invariant points == acc + Coordinates(FlatMap(xs[..k], f)).value
    {
      var step := AppendPoints(points, f(xs[k]));
      if step.Err? {
        FlatMapBad(xs, k, f);
        return Err(BadCoordinate);
      }
      FlatMapStep(xs, k, f);
      points := step.value;
    }
    assert xs[..|xs|] == xs;
    return Ok(points);
  }

  /** The loops over trk, then trkseg, then trkpt. */
  method CollectTrackPoints(root: Element, prefix: string) returns (r: Result<seq<TrackPoint>, Cause>)
    ensures r == Coordinates(TrackPointElements(root, prefix))
  {
    var points: seq<TrackPoint> := [];
    var tracks := FindAll(root, prefix + "trk");
    var perTrack := TrackSegmentPoints(prefix);
    for t := 0 to |tracks|
      invariant Coordinates(FlatMap(tracks[..t], perTrack)) == Ok(points)
    {
      var segments := FindAll(tracks[t], prefix + "trkseg");
      var step := AppendFlatMap(points, segments, SegmentPoints(prefix));
      assert FlatMap(segments, SegmentPoints(prefix)) == perTrack(tracks[t]);
      if step.Err? {
        FlatMapBad(tracks, t, perTrack);
        return Err(BadCoordinate);
      }
      FlatMapStep(tracks, t, perTrack);
      points := step.value;
    }
    assert tracks[..|tracks|] == tracks;
    return Ok(points);
  }

  /** The loops over rte, then rtept. */
  method CollectRoutePoints(root: Element, prefix: string) returns (r: Result<seq<TrackPoint>, Cause>)
    ensures r == Coordinates(RoutePointElements(root, prefix))
  {
    r := AppendFlatMap([], FindAll(root, prefix + "rte"), RoutePoints(prefix));
    assert r.Ok? ==> r.value == Coordinates(RoutePointElements(root, prefix)).value;
  }

  /** parse_gpx: track points, else route points, else waypoints, else an
      error; every failure is reported as a ValueError. */
  method ParseGpx(doc: Document) returns (r: Result<seq<TrackPoint>, GpxError>)
    ensures r == ParseGpxSpec(doc)
  {
    if doc.Malformed? {
      return Err(InvalidGpxData);
    }
    var root := doc.root;
    var prefix := NamespacePrefix(root.tag);
    var collected := CollectTrackPoints(root, prefix);
    if collected.Err? {
      return Err(ErrorParsingGpx(collected.error));
    }
    var trackPoints := collected.value;
    if trackPoints == [] {
      collected := CollectRoutePoints(root, prefix);
      if collected.Err? {
        return Err(ErrorParsingGpx(collected.error));
      }
      trackPoints := collected.value;
    }
    if trackPoints == [] {
      collected := AppendPoints(trackPoints, FindAll(root, prefix + "wpt"));
      if collected.Err? {
        return Err(ErrorParsingGpx(BadCoordinate));
      }
      trackPoints := collected.value;
    }
    if trackPoints == [] {
      return Err(ErrorParsingGpx(NoTrackPoints));
    }
    assert trackPoints == ParseGpxSpec(doc).value;
    return Ok(trackPoints);
  }

  // ---------------------------------------------------------------------
  // Bounding box

  /** The width of [lo, hi] once `padding` of it is added on each side. */
  function PaddedWidth(lo: real, hi: real, padding: real): real
  {
    (hi - lo) * (1.0 + 2.0 * padding)
  }

  /** The interval [lo, hi] grown about its centre by `padding` of its
      width on each side. */
  function Pad(lo: real, hi: real, padding: real): (r: (real, real))
    ensures (r.0 + r.1) / 2.0 == (lo + hi) / 2.0
    ensures r.1 - r.0 == PaddedWidth(lo, hi, padding)
    ensures padding == 0.0 ==> r == (lo, hi)
  {
    var center := (lo + hi) / 2.0;
    var padded := (hi - lo) * (1.0 + padding * 2.0);
    assert padded == PaddedWidth(lo, hi, padding);
    assert padding == 0.0 ==> padded == hi - lo;
    (center - padded / 2.0, center + padded / 2.0)
  }

  /** calculate_bounds: the track's min/max box, grown about its centre so
      that each extent is multiplied by 1 + 2 * paddingFactor; without
      padding it is the raw box itself. */
  function CalculateBounds(points: seq<TrackPoint>, paddingFactor: real): (r: Result<GeoBounds, string>)
    ensures r.Err? <==> points == []
    ensures r.Ok? ==>
      var b := r.value;
      var minLat, maxLat := MinOf(Latitudes(points)), MaxOf(Latitudes(points));
      var minLon, maxLon := MinOf(Longitudes(points)), MaxOf(Longitudes(points));
      && (b.minLatitude + b.maxLatitude) / 2.0 == (minLat + maxLat) / 2.0
      && (b.minLongitude + b.maxLongitude) / 2.0 == (minLon + maxLon) / 2.0
      && b.maxLatitude - b.minLatitude == PaddedWidth(minLat, maxLat, paddingFactor)
      && b.maxLongitude - b.minLongitude == PaddedWidth(minLon, maxLon, paddingFactor)
      && (paddingFactor == 0.0 ==> b == GeoBounds(minLat, maxLat, minLon, maxLon))
  {
    if points == [] then Err("No track points provided")
    else
      var lat := Pad(MinOf(Latitudes(points)), MaxOf(Latitudes(points)), paddingFactor);
      var lon := Pad(MinOf(Longitudes(points)), MaxOf(Longitudes(points)), paddingFactor);
      Ok(GeoBounds(lat.0, lat.1, lon.0, lon.1))
  }

  /** With non-negative padding every track point lies inside the box. */
  lemma BoundsContainTrack(points: seq<TrackPoint>, paddingFactor: real, i: nat)
    requires paddingFactor >= 0.0 && i < |points|
    ensures var b := CalculateBounds(points, paddingFactor).value;
      b.minLatitude <= points[i].latitude <= b.maxLatitude &&
      b.minLongitude <= points[i].longitude <= b.maxLongitude
  {
    var lats := Latitudes(points);
    var lons := Longitudes(points);
    PadContains(MinOf(lats), MaxOf(lats), paddingFactor);
    PadContains(MinOf(lons), MaxOf(lons), paddingFactor);
    assert MinOf(lats) <= lats[i] <= MaxOf(lats);
    assert MinOf(lons) <= lons[i] <= MaxOf(lons);
  }

  lemma PadContains(lo: real, hi: real, padding: real)
    requires lo <= hi && padding >= 0.0
    ensures Pad(lo, hi, padding).0 <= lo && hi <= Pad(lo, hi, padding).1
  {
    var w := hi - lo;
    assert PaddedWidth(lo, hi, padding) == w + 2.0 * (w * padding);
    assert w * padding >= 0.0;
  }
}
