/** Import of an exported "semantic segments" timeline: each segment becomes at most one
    location or visit record, saved to the store in segment order. JSON decoding, ISO 8601
    date parsing and `Double(String)` are not modelled; their outcomes are inputs. */
module Timeline {
  import opened Wrappers
  import opened Text
  import opened Models
  import opened Store

  datatype SemanticSegment = SemanticSegment(
    startTime: Option<string>,
    endTime: Option<string>,
    activity: Option<SemanticActivity>,
    visit: Option<SemanticVisit>)

  datatype SemanticActivity = SemanticActivity(
    start: Option<string>,
    end: Option<string>,
    topCandidate: Option<SemanticCandidate>)

  datatype SemanticVisit = SemanticVisit(topCandidate: Option<SemanticPlaceCandidate>)

  /** The activity candidate; its JSON key is `type`. */
  datatype SemanticCandidate = SemanticCandidate(typeName: Option<string>)

  datatype SemanticPlaceCandidate = SemanticPlaceCandidate(
    placeLocation: Option<string>,
    placeID: Option<string>)

  /** A date parser (`ISO8601DateFormatter` with internet date-time and fractional seconds). */
  type DateParser = string -> Option<Date>

  /** A number parser (`Double(String)`). */
  type NumberParser = string -> Option<real>

  /** The text the geo parser deletes wherever it occurs. */
  const GeoScheme: string := "geo:"

  /** `parseGeo`: delete every "geo:", split on "," dropping empty pieces, and expect exactly
      two pieces that both parse as numbers: latitude then longitude. Where the two numbers stand
      in the text is stated by `GeoPiecesInOrder`. */
  function ParseGeo(geo: string, parseNumber: NumberParser): (r: Option<Coordinate2D>)
    ensures r.Some? ==> ',' in geo
    ensures r.Some? ==> exists lat, lon :: lat != "" && ',' !in lat && lon != "" && ',' !in lon
                          && parseNumber(lat) == Some(r.value.latitude)
                          && parseNumber(lon) == Some(r.value.longitude)
  {
    var components := Split(DeleteAll(geo, GeoScheme), ',');
    SplitNeedsSeparator(DeleteAll(geo, GeoScheme), ',');
    DeleteAllKeepsAbsent(geo, GeoScheme, ',');
    if |components| == 2 && parseNumber(components[0]).Some? && parseNumber(components[1]).Some?
    then Some(Coordinate2D(parseNumber(components[0]).value, parseNumber(components[1]).value))
    else None
  }

  /** A successful parse reads the two number texts of what is left once every "geo:" is
      deleted: that text is commas, the latitude text, at least one comma, the longitude text and
      commas, in that order. */
  lemma GeoPiecesInOrder(geo: string, parseNumber: NumberParser)
    ensures var r := ParseGeo(geo, parseNumber);
            r.Some? ==>
              exists lead, lat, mid, lon, trail ::
                DeleteAll(geo, GeoScheme) == lead + lat + mid + lon + trail
                && OnlySeparators(lead, ',') && OnlySeparators(mid, ',') && mid != []
                && OnlySeparators(trail, ',')
                && lat != "" && ',' !in lat && lon != "" && ',' !in lon
                && parseNumber(lat) == Some(r.value.latitude)
                && parseNumber(lon) == Some(r.value.longitude)
  {
    var components := Split(DeleteAll(geo, GeoScheme), ',');
    if ParseGeo(geo, parseNumber).Some? {
      var lead, mid, trail := SplitTwo(DeleteAll(geo, GeoScheme), ',');
      assert DeleteAll(geo, GeoScheme) == lead + components[0] + mid + components[1] + trail;
    }
  }

  /** A latitude and a longitude written "geo:<lat>,<lon>" parse back to their values; the
      "geo:" is deleted, not checked, so the same text without it gives the same answer. */
  lemma GeoRoundTrip(lat: string, lon: string, parseNumber: NumberParser)
    requires lat != "" && ',' !in lat && ':' !in lat
    requires lon != "" && ',' !in lon && ':' !in lon
    ensures ParseGeo(GeoScheme + lat + "," + lon, parseNumber)
            == ParseGeo(lat + "," + lon, parseNumber)
            == if parseNumber(lat).Some? && parseNumber(lon).Some?
               then Some(Coordinate2D(parseNumber(lat).value, parseNumber(lon).value))
               else None
  {
    assert GeoScheme + lat + "," + lon == GeoScheme + (lat + "," + lon);
    GeoPrefixDeleted(lat + "," + lon, parseNumber);
    DeleteAllAround(lat, ',', lon, GeoScheme);
    DeleteAllAbsent(lat, GeoScheme, ':');
    DeleteAllAbsent(lon, GeoScheme, ':');
    assert lat + "," + lon == lat + [','] + lon;
    SplitAround(lat, ',', lon);
    SplitWhole(lat, ',');
    SplitWhole(lon, ',');
  }

  /** A leading "geo:" makes no difference to the parse. */
  lemma GeoPrefixDeleted(geo: string, parseNumber: NumberParser)
    ensures ParseGeo(GeoScheme + geo, parseNumber) == ParseGeo(geo, parseNumber)
  {
    var s := GeoScheme + geo;
    assert s[..|GeoScheme|] == GeoScheme && s[|GeoScheme|..] == geo;
  }

  /** Three non-empty parts are rejected, whatever they hold. */
  lemma GeoRejectsThreeParts(a: string, b: string, c: string, parseNumber: NumberParser)
    requires a != "" && ',' !in a && ':' !in a
    requires b != "" && ',' !in b && ':' !in b
    requires c != "" && ',' !in c && ':' !in c
    ensures ParseGeo(a + "," + b + "," + c, parseNumber) == None
  {
    var ab := a + [','] + b;
    assert a + "," + b + "," + c == ab + [','] + c;
    DeleteAllAround(ab, ',', c, GeoScheme);
    DeleteAllAround(a, ',', b, GeoScheme);
    DeleteAllAbsent(a, GeoScheme, ':');
    DeleteAllAbsent(b, GeoScheme, ':');
    DeleteAllAbsent(c, GeoScheme, ':');
    SplitAround(ab, ',', c);
    SplitAround(a, ',', b);
    SplitWhole(a, ',');
    SplitWhole(b, ',');
    SplitWhole(c, ',');
  }

  /** Empty pieces are dropped before counting: a comma added at either end of any text
      leaves the parse unchanged. */
  lemma GeoIgnoresEmptyPieces(geo: string, parseNumber: NumberParser)
    ensures ParseGeo(geo + ",", parseNumber) == ParseGeo(geo, parseNumber)
    ensures ParseGeo("," + geo, parseNumber) == ParseGeo(geo, parseNumber)
  {
    assert geo + "," == geo + [','] + "";
    DeleteAllAround(geo, ',', "", GeoScheme);
    SplitAround(DeleteAll(geo, GeoScheme), ',', "");
    SplitWhole("", ',');
    assert DeleteAll(geo, GeoScheme) + [','] + "" == DeleteAll(geo, GeoScheme) + [','];
    assert Split(DeleteAll(geo, GeoScheme), ',') + [] == Split(DeleteAll(geo, GeoScheme), ',');

    assert "," + geo == "" + [','] + geo;
    DeleteAllAround("", ',', geo, GeoScheme);
    SplitAround("", ',', DeleteAll(geo, GeoScheme));
    assert "" + [','] + DeleteAll(geo, GeoScheme) == [','] + DeleteAll(geo, GeoScheme);
  }

  /** What one segment contributes to the store. */
  datatype ImportedRecord = LocationRecord(location: LocationLog) | VisitRecord(visit: VisitLog)

  /** The record a segment yields, if any (one iteration of the import loop). */
  function SegmentRecord(segment: SemanticSegment, parseDate: DateParser, parseNumber: NumberParser)
    : (r: Option<ImportedRecord>)
    ensures r.Some? ==> segment.startTime.Some? && parseDate(segment.startTime.value).Some?
    ensures r.Some? && r.value.LocationRecord? ==>
              segment.activity.Some? && segment.activity.value.start.Some?
              && r.value.location.timestamp == parseDate(segment.startTime.value).value
    ensures r.Some? && r.value.VisitRecord? ==>
              segment.activity.None? && segment.visit.Some?
              && r.value.visit.arrivalDate == parseDate(segment.startTime.value).value
  {
    if segment.startTime.None? || parseDate(segment.startTime.value).None? then None
    else
      var date := parseDate(segment.startTime.value).value;
      if segment.activity.Some? then
        var activity := segment.activity.value;
        if activity.start.Some? && ParseGeo(activity.start.value, parseNumber).Some? then
          var coord := ParseGeo(activity.start.value, parseNumber).value;
          var activityType := if activity.topCandidate.Some? then activity.topCandidate.value.typeName else None;
          Some(LocationRecord(NewLocationLog(date, coord.latitude, coord.longitude, 0.0, 0.0, 0.0, 0.0, activityType)))
        else None
      else if segment.visit.Some? then
        var candidate := segment.visit.value.topCandidate;
        if candidate.Some? && candidate.value.placeLocation.Some?
           && ParseGeo(candidate.value.placeLocation.value, parseNumber).Some?
        then
          var coord := ParseGeo(candidate.value.placeLocation.value, parseNumber).value;
          var departure := parseDate(segment.endTime.GetOr("")).GetOr(date);
          Some(VisitRecord(NewVisitLog(date, departure, coord.latitude, coord.longitude, 0.0, candidate.value.placeID)))
        else None
      else None
  }

  /** A segment without a start time, or whose start time does not parse, yields nothing. */
  lemma NoStartTimeNoRecord(segment: SemanticSegment, parseDate: DateParser, parseNumber: NumberParser)
    requires segment.startTime.None? || parseDate(segment.startTime.value).None?
    ensures SegmentRecord(segment, parseDate, parseNumber) == None
  {
  }

  /** An activity segment whose start time and start position parse yields one location log
      stamped with the start time, at the start position, with zero altitude, accuracy, speed
      and course, and the top candidate's type. */
  lemma ActivitySegmentRecord(segment: SemanticSegment, parseDate: DateParser, parseNumber: NumberParser)
    requires segment.startTime.Some? && parseDate(segment.startTime.value).Some?
    requires segment.activity.Some? && segment.activity.value.start.Some?
    requires ParseGeo(segment.activity.value.start.value, parseNumber).Some?
    ensures var r := SegmentRecord(segment, parseDate, parseNumber);
            var coord := ParseGeo(segment.activity.value.start.value, parseNumber).value;
            var candidate := segment.activity.value.topCandidate;
            r.Some? && r.value.LocationRecord?
            && r.value.location.timestamp == parseDate(segment.startTime.value).value
            && r.value.location.Coordinate() == coord
            && r.value.location.altitude == 0.0 && r.value.location.horizontalAccuracy == 0.0
            && r.value.location.speed == 0.0 && r.value.location.course == 0.0
            && r.value.location.activityType == (if candidate.Some? then candidate.value.typeName else None)
  {
  }

  /** A segment with an activity never yields a visit, even when the activity's position does
      not parse and a usable visit is present. */
  lemma ActivityShadowsVisit(segment: SemanticSegment, parseDate: DateParser, parseNumber: NumberParser)
    requires segment.activity.Some?
    ensures var r := SegmentRecord(segment, parseDate, parseNumber);
            r.None? || r.value.LocationRecord?
    ensures segment.activity.value.start.None?
            || ParseGeo(segment.activity.value.start.value, parseNumber).None?
            ==> SegmentRecord(segment, parseDate, parseNumber) == None
  {
  }

  /** A visit segment (no activity) whose start time and place location parse yields one visit
      log arriving at the start time, departing at the parsed end time or else at the arrival,
      at the place location, with zero accuracy and the place ID as its name. */
  lemma VisitSegmentRecord(segment: SemanticSegment, parseDate: DateParser, parseNumber: NumberParser)
    requires segment.startTime.Some? && parseDate(segment.startTime.value).Some?
    requires segment.activity.None? && segment.visit.Some?
    requires segment.visit.value.topCandidate.Some?
    requires segment.visit.value.topCandidate.value.placeLocation.Some?
    requires ParseGeo(segment.visit.value.topCandidate.value.placeLocation.value, parseNumber).Some?
    ensures var r := SegmentRecord(segment, parseDate, parseNumber);
            var arrival := parseDate(segment.startTime.value).value;
            var candidate := segment.visit.value.topCandidate.value;
            r.Some? && r.value.VisitRecord?
            && r.value.visit.arrivalDate == arrival
            && (segment.endTime.Some? && parseDate(segment.endTime.value).Some?
                ==> r.value.visit.departureDate == parseDate(segment.endTime.value).value)
            && (segment.endTime.Some? && parseDate(segment.endTime.value).None?
                ==> r.value.visit.departureDate == arrival)
            && r.value.visit.Coordinate() == ParseGeo(candidate.placeLocation.value, parseNumber).value
            && r.value.visit.horizontalAccuracy == 0.0
            && r.value.visit.placeName == candidate.placeID
  {
  }

  /** A visit without an end time departs when it arrives, so its duration is 0, provided the
      date parser rejects the empty string (which stands in for the missing end time). */
  lemma VisitWithoutEndTime(segment: SemanticSegment, parseDate: DateParser, parseNumber: NumberParser)
    requires parseDate("").None? && segment.endTime.None?
    requires SegmentRecord(segment, parseDate, parseNumber).Some?
    requires SegmentRecord(segment, parseDate, parseNumber).value.VisitRecord?
    ensures var v := SegmentRecord(segment, parseDate, parseNumber).value.visit;
            v.departureDate == v.arrivalDate && v.Duration() == 0
  {
  }

  /** The records yielded by a list of segments, in segment order. */
  function Records(segments: seq<SemanticSegment>, parseDate: DateParser, parseNumber: NumberParser)
    : (records: seq<ImportedRecord>)
    ensures |records| <= |segments|
  {
    if segments == [] then []
    else
      var last := SegmentRecord(segments[|segments| - 1], parseDate, parseNumber);
      Records(segments[..|segments| - 1], parseDate, parseNumber) + (if last.Some? then [last.value] else [])
  }

  /** Records follow segment order: the records of two lists back to back are the first
      list's records followed by the second's. */
  lemma {:induction false} RecordsAppend(a: seq<SemanticSegment>, b: seq<SemanticSegment>,
                                         parseDate: DateParser, parseNumber: NumberParser)
    ensures Records(a + b, parseDate, parseNumber)
            == Records(a, parseDate, parseNumber) + Records(b, parseDate, parseNumber)
    decreases |b|
  {
    if b != [] {
      var b' := b[..|b| - 1];
      assert (a + b)[..|a + b| - 1] == a + b';
      assert (a + b)[|a + b| - 1] == b[|b| - 1];
      RecordsAppend(a, b', parseDate, parseNumber);
    } else {
      assert a + b == a;
    }
  }

  /** The records of the first `i + 1` segments extend those of the first `i` by what segment `i`
      yields. */
  lemma RecordsSnoc(segments: seq<SemanticSegment>, i: nat, parseDate: DateParser, parseNumber: NumberParser)
    requires i < |segments|
    ensures var step := SegmentRecord(segments[i], parseDate, parseNumber);
            Records(segments[..i + 1], parseDate, parseNumber)
            == if step.Some? then Records(segments[..i], parseDate, parseNumber) + [step.value]
               else Records(segments[..i], parseDate, parseNumber)
  {
    assert segments[..i + 1][..i] == segments[..i];
    var before := Records(segments[..i], parseDate, parseNumber);
    assert before + [] == before;
  }

  /** The location logs among `records`, in order. */
  function LocationsOf(records: seq<ImportedRecord>): seq<LocationLog>
  {
    if records == [] then []
    else
      var last := records[|records| - 1];
      LocationsOf(records[..|records| - 1]) + (if last.LocationRecord? then [last.location] else [])
  }

  /** The visit logs among `records`, in order. */
  function VisitsOf(records: seq<ImportedRecord>): seq<VisitLog>
  {
    if records == [] then []
    else
      var last := records[|records| - 1];
      VisitsOf(records[..|records| - 1]) + (if last.VisitRecord? then [last.visit] else [])
  }

  /** Appending one record extends exactly one of the two projections. */
  lemma OfSnoc(records: seq<ImportedRecord>, r: ImportedRecord)
    ensures LocationsOf(records + [r]) == LocationsOf(records) + (if r.LocationRecord? then [r.location] else [])
    ensures VisitsOf(records + [r]) == VisitsOf(records) + (if r.VisitRecord? then [r.visit] else [])
  {
    assert (records + [r])[..|records|] == records;
  }

  /** Every record is either a location or a visit. */
  lemma {:induction false} RecordsSplit(records: seq<ImportedRecord>)
    ensures |LocationsOf(records)| + |VisitsOf(records)| == |records|
  {
    if records != [] {
      RecordsSplit(records[..|records| - 1]);
    }
  }

  /** One more segment adds its record, if any, to the count and to the matching projection. */
  lemma ImportStep(segments: seq<SemanticSegment>, i: nat, parseDate: DateParser, parseNumber: NumberParser)
    requires i < |segments|
    ensures var step := SegmentRecord(segments[i], parseDate, parseNumber);
            var before := Records(segments[..i], parseDate, parseNumber);
            var after := Records(segments[..i + 1], parseDate, parseNumber);
            |after| == |before| + (if step.Some? then 1 else 0)
            && LocationsOf(after) == LocationsOf(before)
                 + (if step.Some? && step.value.LocationRecord? then [step.value.location] else [])
            && VisitsOf(after) == VisitsOf(before)
                 + (if step.Some? && step.value.VisitRecord? then [step.value.visit] else [])
  {
    RecordsSnoc(segments, i, parseDate, parseNumber);
    var step := SegmentRecord(segments[i], parseDate, parseNumber);
    if step.Some? {
      OfSnoc(Records(segments[..i], parseDate, parseNumber), step.value);
    }
  }

  /** The raw file: either it cannot be read (`Data(contentsOf:)` throws), or it was read and
      decoding it as an array of segments succeeded (`Some`) or failed (`None`). */
  datatype ImportFile = Unreadable(reason: string) | Read(decoded: Option<seq<SemanticSegment>>)

  /** The importer, which writes into one store. */
  class TimelineImporter {
    const dataStore: DataStore

    constructor (dataStore: DataStore)
      ensures this.dataStore == dataStore
    {
      this.dataStore := dataStore;
    }

    /** `importJSON(url:)`: a read failure is thrown to the caller; a file that does not decode
        as an array of segments imports nothing and answers 0 (there is no second format). */
    method ImportJSON(file: ImportFile, parseDate: DateParser, parseNumber: NumberParser)
      returns (result: Result<nat, string>)
      modifies dataStore
      ensures file.Unreadable? ==> result == Failure(file.reason)
      ensures file.Read? && file.decoded.None? ==> result == Success(0)
      ensures file.Unreadable? || file.decoded.None? ==> unchanged(dataStore)
      ensures file.Read? && file.decoded.Some? ==>
                var records := Records(file.decoded.value, parseDate, parseNumber);
                result == Success(|records|)
                && dataStore.locations == old(dataStore.locations) + LocationsOf(records)
                && dataStore.visits == old(dataStore.visits) + VisitsOf(records)
    {
      if file.Unreadable? {
        return Failure(file.reason);
      }
      if file.decoded.Some? {
        var count := ImportSemanticSegments(file.decoded.value, parseDate, parseNumber);
        return Success(count);
      }
      return Success(0);
    }

    /** `importSemanticSegments`: saves each segment's record in order and counts them. */
    method ImportSemanticSegments(segments: seq<SemanticSegment>, parseDate: DateParser, parseNumber: NumberParser)
      returns (count: nat)
      modifies dataStore
      ensures count == |Records(segments, parseDate, parseNumber)|
      ensures dataStore.locations == old(dataStore.locations) + LocationsOf(Records(segments, parseDate, parseNumber))
      ensures dataStore.visits == old(dataStore.visits) + VisitsOf(Records(segments, parseDate, parseNumber))
    {
      count := 0;
      for i := 0 to |segments|
        invariant count == |Records(segments[..i], parseDate, parseNumber)|
        invariant dataStore.locations == old(dataStore.locations) + LocationsOf(Records(segments[..i], parseDate, parseNumber))
        invariant dataStore.visits == old(dataStore.visits) + VisitsOf(Records(segments[..i], parseDate, parseNumber))
      {
        ImportStep(segments, i, parseDate, parseNumber);
        var saved := ImportSegment(segments[i], parseDate, parseNumber);
        if saved {
          count := count + 1;
        }
      }
      assert segments[..|segments|] == segments;
    }

    /** The body of the import loop for one segment: saves the segment's record, if it has one,
        into the matching list of the store. */
    method ImportSegment(segment: SemanticSegment, parseDate: DateParser, parseNumber: NumberParser)
      returns (saved: bool)
      modifies dataStore
      ensures var step := SegmentRecord(segment, parseDate, parseNumber);
              saved == step.Some?
              && dataStore.locations == old(dataStore.locations)
                   + (if saved && step.value.LocationRecord? then [step.value.location] else [])
              && dataStore.visits == old(dataStore.visits)
                   + (if saved && step.value.VisitRecord? then [step.value.visit] else [])
    {
      if segment.startTime.None? || parseDate(segment.startTime.value).None? {
        return false;
      }
      var date := parseDate(segment.startTime.value).value;
      if segment.activity.Some? {
        var activity := segment.activity.value;
        if activity.start.Some? && ParseGeo(activity.start.value, parseNumber).Some? {
          var coord := ParseGeo(activity.start.value, parseNumber).value;
          var log := NewLocationLog(
            date, coord.latitude, coord.longitude, 0.0, 0.0, 0.0, 0.0,
            if activity.topCandidate.Some? then activity.topCandidate.value.typeName else None);
          dataStore.SaveLocation(log);
          return true;
        }
      } else if segment.visit.Some? {
        var candidate := segment.visit.value.topCandidate;
        if candidate.Some? && candidate.value.placeLocation.Some?
           && ParseGeo(candidate.value.placeLocation.value, parseNumber).Some?
        {
          var coord := ParseGeo(candidate.value.placeLocation.value, parseNumber).value;
          var log := NewVisitLog(
            date, parseDate(segment.endTime.GetOr("")).GetOr(date),
            coord.latitude, coord.longitude, 0.0, candidate.value.placeID);
          dataStore.SaveVisit(log);
          return true;
        }
      }
      return false;
    }
  }

  /** Importing a file that decodes to segments yields at most one record per segment, and
      splits them between the two record kinds. */
  lemma ImportCountBound(segments: seq<SemanticSegment>, parseDate: DateParser, parseNumber: NumberParser)
    ensures var records := Records(segments, parseDate, parseNumber);
            |records| <= |segments|
            && |LocationsOf(records)| + |VisitsOf(records)| == |records|
  {
    RecordsSplit(Records(segments, parseDate, parseNumber));
  }
}
