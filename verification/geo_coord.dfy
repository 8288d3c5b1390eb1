/** `GeoCoord`: a latitude/longitude pair that can only be built inside the valid ranges. */
module GeoCoords {
  import opened Wrappers

  datatype GeoCoord = GeoCoord(latitude: real, longitude: real)

  /** The IllegalArgumentException the compact constructor throws, with the rejected value. */
  datatype CoordError = LatitudeOutOfRange(latitude: real) | LongitudeOutOfRange(longitude: real)

  /** Both components lie in their closed ranges: latitude in [-90, 90], longitude in [-180, 180]. */
  predicate InRange(c: GeoCoord)
  {
    -90.0 <= c.latitude <= 90.0 && -180.0 <= c.longitude <= 180.0
  }

  /**
   * `new GeoCoord(latitude, longitude)`: succeeds exactly on in-range values, which it keeps;
   * the latitude is checked first, so a pair with both out of range reports the latitude.
   */
  function MakeGeoCoord(latitude: real, longitude: real): (r: Result<GeoCoord, CoordError>)
    ensures r.Success? <==> InRange(GeoCoord(latitude, longitude))
    ensures r.Success? ==> r.value.latitude == latitude && r.value.longitude == longitude
    ensures !(-90.0 <= latitude <= 90.0) ==> r == Failure(LatitudeOutOfRange(latitude))
    ensures -90.0 <= latitude <= 90.0 && !(-180.0 <= longitude <= 180.0) ==> r == Failure(LongitudeOutOfRange(longitude))
  {
    if latitude < -90.0 || latitude > 90.0 then Failure(LatitudeOutOfRange(latitude))
    else if longitude < -180.0 || longitude > 180.0 then Failure(LongitudeOutOfRange(longitude))
    else Success(GeoCoord(latitude, longitude))
  }
}
