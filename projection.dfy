/** The local flat projection from latitude/longitude to scene coordinates
    (latLonToVector3, script.js).  The factor Math.PI / 180 and the cosine of the
    centre latitude are parameters, so the map is linear in the inputs. */
module Projection {
  import opened Geometry

  /** The earth radius in metres used by the projection. */
  const EarthRadius: real := 6371000.0

  /** A Leaflet LatLng. */
  datatype LatLng = LatLng(lat: real, lng: real)

  /** A GeoJSON position: longitude first. */
  datatype Position = Position(lon: real, lat: real)

  /** The two transcendental values the projection needs: Math.PI / 180 and
      Math.cos(centerPhi) for the centre in use. */
  datatype Trig = Trig(degToRad: real, cosCenterPhi: real)

  /** latLonToVector3(lat, lon, center): east becomes x, north becomes -z, and the
      point lies on the ground plane y = 0. */
  function LatLonToVector3(lat: real, lon: real, center: LatLng, t: Trig): (v: Vec3)
    ensures v.y == 0.0
  {
    var phi := lat * t.degToRad;
    var centerPhi := center.lat * t.degToRad;
    var deltaLambda := (lon - center.lng) * t.degToRad;
    var x := EarthRadius * deltaLambda * t.cosCenterPhi;
    var z := EarthRadius * (phi - centerPhi);
    Vec3(x, 0.0, -z)
  }

  /** latLonToVector3(p[1], p[0], center) for a GeoJSON position p. */
  function ProjectPosition(p: Position, center: LatLng, t: Trig): Vec3 {
    LatLonToVector3(p.lat, p.lon, center, t)
  }

  /** The centre projects to the origin. */
  lemma CenterAtOrigin(center: LatLng, t: Trig)
    ensures LatLonToVector3(center.lat, center.lng, center, t) == Vec3(0.0, 0.0, 0.0)
  {
  }

  /** The projection is linear: the offset between two projected points depends only
      on the differences of their latitudes and longitudes. */
  lemma Offsets(lat1: real, lon1: real, lat2: real, lon2: real, center: LatLng, t: Trig)
    ensures var v1 := LatLonToVector3(lat1, lon1, center, t);
      var v2 := LatLonToVector3(lat2, lon2, center, t);
      && v1.x - v2.x == EarthRadius * ((lon1 - lon2) * t.degToRad) * t.cosCenterPhi
      && v1.z - v2.z == -(EarthRadius * ((lat1 - lat2) * t.degToRad))
  {
    var a := (lon1 - center.lng) * t.degToRad;
    var b := (lon2 - center.lng) * t.degToRad;
    assert a - b == (lon1 - lon2) * t.degToRad;
    assert EarthRadius * a * t.cosCenterPhi - EarthRadius * b * t.cosCenterPhi
      == EarthRadius * (a - b) * t.cosCenterPhi;
    assert lat1 * t.degToRad - lat2 * t.degToRad == (lat1 - lat2) * t.degToRad;
  }

  /** With a positive degree factor, a point further north has a smaller z. */
  lemma NorthSmallerZ(lat1: real, lon1: real, lat2: real, lon2: real, center: LatLng, t: Trig)
    requires t.degToRad > 0.0 && lat1 > lat2
    ensures LatLonToVector3(lat1, lon1, center, t).z < LatLonToVector3(lat2, lon2, center, t).z
  {
    Offsets(lat1, lon1, lat2, lon2, center, t);
    var d := (lat1 - lat2) * t.degToRad;
    MulPos(lat1 - lat2, t.degToRad);
    MulPos(EarthRadius, d);
    assert LatLonToVector3(lat1, lon1, center, t).z - LatLonToVector3(lat2, lon2, center, t).z == -(EarthRadius * d);
  }

  /** With a positive degree factor and a centre latitude whose cosine is positive,
      a point further east has a larger x. */
  lemma EastLargerX(lat1: real, lon1: real, lat2: real, lon2: real, center: LatLng, t: Trig)
    requires t.degToRad > 0.0 && t.cosCenterPhi > 0.0 && lon1 > lon2
    ensures LatLonToVector3(lat1, lon1, center, t).x > LatLonToVector3(lat2, lon2, center, t).x
  {
    Offsets(lat1, lon1, lat2, lon2, center, t);
    var d := (lon1 - lon2) * t.degToRad;
    var e := EarthRadius * d;
    MulPos(lon1 - lon2, t.degToRad);
    MulPos(EarthRadius, d);
    MulPos(e, t.cosCenterPhi);
    assert LatLonToVector3(lat1, lon1, center, t).x - LatLonToVector3(lat2, lon2, center, t).x == e * t.cosCenterPhi;
  }

  /** With a positive degree factor and a centre latitude whose cosine is positive,
      a point further north has a smaller z and a point further east a larger x. */
  lemma Orientation(lat1: real, lon1: real, lat2: real, lon2: real, center: LatLng, t: Trig)
    requires t.degToRad > 0.0 && t.cosCenterPhi > 0.0
    ensures var v1 := LatLonToVector3(lat1, lon1, center, t);
      var v2 := LatLonToVector3(lat2, lon2, center, t);
      && (lat1 > lat2 ==> v1.z < v2.z)
      && (lon1 > lon2 ==> v1.x > v2.x)
  {
    if lat1 > lat2 {
      NorthSmallerZ(lat1, lon1, lat2, lon2, center, t);
    }
    if lon1 > lon2 {
      EastLargerX(lat1, lon1, lat2, lon2, center, t);
    }
  }
}
