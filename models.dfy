/** The two persisted record types. Instants are integer milliseconds on one time line,
    coordinates and measurements are reals. */
module Models {
  import opened Wrappers

  /** An instant, in milliseconds. */
  type Date = int

  /** A latitude/longitude pair in degrees. */
  datatype Coordinate2D = Coordinate2D(latitude: real, longitude: real)

  /** A point fix. Unknown altitude, accuracy, speed and course are stored as 0. */
  datatype LocationLog = LocationLog(
    timestamp: Date,
    latitude: real,
    longitude: real,
    altitude: real,
    horizontalAccuracy: real,
    speed: real,
    course: real,
    activityType: Option<string>)
  {
    /** The record's position. */
    function Coordinate(): (c: Coordinate2D)
      ensures c.latitude == latitude && c.longitude == longitude
    {
      Coordinate2D(latitude, longitude)
    }
  }

  /** A dwell interval at a place. */
  datatype VisitLog = VisitLog(
    arrivalDate: Date,
    departureDate: Date,
    latitude: real,
    longitude: real,
    horizontalAccuracy: real,
    placeName: Option<string>)
  {
    /** How long the visit lasted; negative when the departure precedes the arrival (no clamping). */
    function Duration(): (d: int)
      ensures arrivalDate + d == departureDate
      ensures d == 0 <==> departureDate == arrivalDate
      ensures d > 0 <==> departureDate > arrivalDate
    {
      departureDate - arrivalDate
    }

    /** The visit's position. */
    function Coordinate(): (c: Coordinate2D)
      ensures c.latitude == latitude && c.longitude == longitude
    {
      Coordinate2D(latitude, longitude)
    }
  }

  /** `LocationLog(timestamp:latitude:...:activityType:)`; the activity type defaults to nil. */
  function NewLocationLog(timestamp: Date, latitude: real, longitude: real, altitude: real,
                          horizontalAccuracy: real, speed: real, course: real,
                          activityType: Option<string> := None): (log: LocationLog)
    ensures log.timestamp == timestamp
    ensures log.latitude == latitude && log.longitude == longitude
    ensures log.altitude == altitude && log.horizontalAccuracy == horizontalAccuracy
    ensures log.speed == speed && log.course == course
    ensures log.activityType == activityType
  {
    LocationLog(timestamp, latitude, longitude, altitude, horizontalAccuracy, speed, course, activityType)
  }

  /** `VisitLog(arrivalDate:departureDate:...:placeName:)`; the place name defaults to nil. */
  function NewVisitLog(arrivalDate: Date, departureDate: Date, latitude: real, longitude: real,
                       horizontalAccuracy: real, placeName: Option<string> := None): (log: VisitLog)
    ensures log.arrivalDate == arrivalDate && log.departureDate == departureDate
    ensures log.latitude == latitude && log.longitude == longitude
    ensures log.horizontalAccuracy == horizontalAccuracy
    ensures log.placeName == placeName
  {
    VisitLog(arrivalDate, departureDate, latitude, longitude, horizontalAccuracy, placeName)
  }
}
