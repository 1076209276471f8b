# GPSlog core, modelled in Dafny

GPSlog is an iOS app. It records where the device is and how it is moving, and it can import an exported
"semantic segments" location timeline. This project models the app's core:

- **Timeline import** (`timeline_importer.dfy`, module `Timeline`). The segment records of the export, the
  `"geo:<lat>,<lon>"` parser, and the rule that turns one segment into at most one location or visit log. The
  importer class runs the same loop as the app: it saves each record to the store in segment order and counts
  them. `ImportJSON` makes exactly one decoding attempt. If that fails it answers 0.
- **Tracking controller** (`location_service.dfy`, module `Tracking`). The location service is a class with
  flags for tracking, significant-change monitoring, visit monitoring, continuous updating and desired accuracy.
  The motion classifier's monitoring flag belongs to the motion service. Each method's new state is given by a
  transition function on a `TrackerState` snapshot, and the lemmas about those functions state the duty cycle.
  The two delegate callbacks each append one record to the store.
- **Motion classification** (`motion_service.dfy`, module `Motion`). The motion service class keeps
  `currentActivity` and `isMoving`. `UpdateActivity` builds the label by successive appends, as the app does. The
  label is specified by `ActivityLabel`, and `ParseLabel` is its inverse.
- **Records and store** (`models.dfy`, `data_store.dfy`). Location and visit logs are immutable values. The store
  is a class with two append-only sequences and the "newest N" query.
- `text.dfy` models the Foundation string operations the core uses: deleting every occurrence of a string,
  `split` (which drops empty pieces) and `joined(separator:)`. `wrappers.dfy` holds `Option` and `Result`.

Representation choices:
- Dates are integer milliseconds, so `Duration` is in milliseconds, not seconds.
- Coordinates and measurements are `real`.
- ISO 8601 date parsing and `Double(String)` are not modelled. They are function parameters of type
  `string -> Option<...>`, so every property holds for any such parser.
- JSON decoding is not modelled. Its outcome is an input (`ImportFile`).
- The `Task { @MainActor }` hops and the Combine subscription are modelled as plain sequential calls. The
  `@Published` moving flag delivers its current value when the subscription is made. So the constructor applies one
  motion change, and every non-nil activity sample applies one more (`OnActivitySample`).

Behaviour of the code that the model keeps as written:
- There is one import format. A file that does not decode answers 0 rather than an error, and nothing is tried
  after it.
- The delegate callbacks do not check `isTracking`. They still save records after `stopTracking`.
- A motion change that arrives after a stop turns continuous updating back on (`Tracking.MotionAfterStop`).
- Continuous updating starts with every `startTracking`, even when motion activity is unavailable. Only a
  stationary motion sample or `stopTracking` turns it off. When motion activity is unavailable no sample arrives,
  so it stays on until `stopTracking` (`Tracking.DutyCycle` with no samples, `Tracking.StopTurnsAllOff`).
- `Duration` is not clamped. It is negative when the departure precedes the arrival.

## Model

| member | source | states |
|---|---|---|
| `Models.NewLocationLog` | GPSlog/Models/Models.swift:16-25 | the log holds all eight arguments unchanged; the activity type defaults to nil |
| `Models.NewVisitLog` | GPSlog/Models/Models.swift:41-48 | the log holds all six arguments unchanged; the place name defaults to nil |
| `Models.VisitLog.Duration` | GPSlog/Models/Models.swift:50-52 | arrival plus duration is the departure; the duration is 0 exactly when departure equals arrival, positive exactly when departure is later |
| `Models.LocationLog.Coordinate` | GPSlog/Models/Models.swift:27-29 | the coordinate is exactly (latitude, longitude) |
| `Models.VisitLog.Coordinate` | GPSlog/Models/Models.swift:54-56 | the coordinate is exactly (latitude, longitude) |
| `Store.DataStore.constructor` | GPSlog/Services/DataStore.swift:9-20 | opening the store gives back exactly the location and visit logs persisted by earlier runs |
| `Store.DataStore.SaveLocation` | GPSlog/Services/DataStore.swift:22-26 | appends exactly the given location log; visits unchanged |
| `Store.DataStore.SaveVisit` | GPSlog/Services/DataStore.swift:28-31 | appends exactly the given visit log; locations unchanged |
| `Store.SortNewestFirst` | GPSlog/Services/DataStore.swift:35 | the fetch order is a permutation of the stored logs with timestamps never increasing |
| `Store.DataStore.FetchRecentLogs` | GPSlog/Services/DataStore.swift:33-50 | a fetch error gives []; otherwise min(limit, count) logs, a prefix of the newest-first order, all logs when count <= limit, and every returned log at least as new as every log left out; the limit must be non-negative (a negative one traps) and defaults to 100 |
| `Store.NewestPrefix` | GPSlog/Services/DataStore.swift:43-45 | a prefix of a newest-first list is a sub-multiset of it and no left-out log is newer than a kept one |
| `Motion.ActivityTypes` | GPSlog/Services/MotionService.swift:23-28 | the collected list has at most five entries; its contents and order are stated by `Motion.SelectedExactly` and `Motion.TypesInNameOrder` |
| `Motion.TypesInNameOrder` | GPSlog/Services/MotionService.swift:24-28 | every collected type is one of Walking, Running, Automotive, Cycling, Stationary, and they appear in that fixed order, none twice |
| `Motion.SelectedExactly` | GPSlog/Services/MotionService.swift:24-28 | each of the five names is among the collected types exactly when its flag is set |
| `Motion.ActivityLabel` | GPSlog/Services/MotionService.swift:23-34 | the label is never empty, and when some flag is set, splitting it at ", " gives back exactly the collected types, in order |
| `Motion.LabelRoundTrip` | GPSlog/Services/MotionService.swift:23-34 | splitting the label at ", " and reading back the names gives the sample's five flags, for all 32 samples |
| `Motion.LabelUnknownIffNoFlags` | GPSlog/Services/MotionService.swift:30-34 | the label is "Unknown" exactly when no flag is set |
| `Motion.MotionService.constructor` | GPSlog/Services/MotionService.swift:5-8 | initially the activity is "Unknown", not moving, not monitoring |
| `Motion.MotionService.StartMonitoring` | GPSlog/Services/MotionService.swift:10-20 | monitoring starts only when activity is available; label and moving flag unchanged |
| `Motion.MotionService.StopMonitoring` | GPSlog/Services/MotionService.swift:41-43 | monitoring stops; label and moving flag unchanged |
| `Motion.MotionService.UpdateActivity` | GPSlog/Services/MotionService.swift:22-39 | both fields are overwritten from the sample alone: the label by `ActivityLabel`, and the moving flag becomes exactly "not stationary", whatever the other flags; monitoring unchanged |
| `Motion.MotionService.OnActivity` | GPSlog/Services/MotionService.swift:16-19 | a nil sample changes nothing; any other sample sets the label to `ActivityLabel` of it and the moving flag to "not stationary" |
| `Text.DeleteAll` | GPSlog/Services/TimelineImporter.swift:100 | deleting every "geo:" never makes the text longer |
| `Text.DeleteAllAbsent` | GPSlog/Services/TimelineImporter.swift:100 | text that lacks a character of the pattern is left unchanged |
| `Text.DeleteAllKeepsAbsent` | GPSlog/Services/TimelineImporter.swift:100 | deletion introduces no character, so it cannot create a comma |
| `Text.DeleteAllAround` | GPSlog/Services/TimelineImporter.swift:100 | a character not in the pattern splits the deletion into the deletions of its two sides |
| `Text.Split` | GPSlog/Services/TimelineImporter.swift:100 | every piece is non-empty and free of the separator |
| `Text.SplitAround` | GPSlog/Services/TimelineImporter.swift:100 | the pieces of x + sep + y are the pieces of x followed by the pieces of y |
| `Text.SplitWhole` | GPSlog/Services/TimelineImporter.swift:100 | text without the separator is one piece, or none when empty |
| `Text.SplitTwo` | GPSlog/Services/TimelineImporter.swift:100-101 | text that splits into exactly two pieces is those pieces in order, with only separators before, between (at least one) and after them |
| `Text.Join` | GPSlog/Services/MotionService.swift:33 | the joined text starts with the first part and its length is the parts' total plus one separator per gap; no parts give "" |
| `Text.JoinSplitRoundTrip` | GPSlog/Services/MotionService.swift:33 | splitting a ", "-joined non-empty list whose parts contain no comma gives the list back |
| `Tracking.StartTurnsAllOn` | GPSlog/Services/LocationService.swift:38-46 | after a start, tracking, significant-change monitoring, visit monitoring and continuous updating are on with best accuracy, and motion monitoring is on when available |
| `Tracking.StopTurnsAllOff` | GPSlog/Services/LocationService.swift:48-55 | after a stop, tracking and all four monitoring services are off; stopping twice equals stopping once |
| `Tracking.MotionChangeEffect` | GPSlog/Services/LocationService.swift:65-93 | a motion change sets continuous updating to the moving flag and leaves tracking, significant-change, visit and motion monitoring as they were; applying it twice equals once |
| `Tracking.DutyCycle` | GPSlog/Services/LocationService.swift:38-93 | after a start and any motion changes, continuous updating is on exactly when there was none yet or the latest was "moving"; tracking, significant-change and visit monitoring stay on with best accuracy |
| `Tracking.MotionAfterStop` | GPSlog/Services/LocationService.swift:65-78 | a "moving" change after a stop turns continuous updating on while tracking and significant-change monitoring stay off |
| `Tracking.LocationService.constructor` | GPSlog/Services/LocationService.swift:19-32 | nothing is monitored and there is no current location; best accuracy; the subscription applies the classifier's current moving flag once |
| `Tracking.LocationService.StartTracking` | GPSlog/Services/LocationService.swift:38-46 | the new flags are `AfterStart` of the old ones; current location and classifier label unchanged |
| `Tracking.LocationService.StopTracking` | GPSlog/Services/LocationService.swift:48-55 | the new flags are `AfterStop` of the old ones; current location and classifier label unchanged |
| `Tracking.LocationService.HandleMotionChange` | GPSlog/Services/LocationService.swift:65-73 | the new flags are `AfterMotionChange` of the old ones |
| `Tracking.LocationService.EnableHighAccuracy` | GPSlog/Services/LocationService.swift:75-88 | best accuracy and continuous updating on; nothing else changes |
| `Tracking.LocationService.DisableHighAccuracy` | GPSlog/Services/LocationService.swift:90-93 | continuous updating off; significant-change monitoring untouched |
| `Tracking.LocationService.OnActivitySample` | GPSlog/Services/LocationService.swift:57-62 | a non-nil sample sets the classifier's label to `ActivityLabel` of it and its moving flag to "not stationary", and applies one motion change with that flag; a nil one leaves the flags, the label and the moving flag unchanged |
| `Tracking.LocationService.DidUpdateLocations` | GPSlog/Services/LocationService.swift:97-119 | an empty batch changes nothing; otherwise the last fix becomes the current location and exactly one location log copied from it, labelled with the classifier's current activity, is appended; visits and flags unchanged |
| `Tracking.LocationService.DidVisit` | GPSlog/Services/LocationService.swift:121-136 | exactly one visit log copying arrival, departure, coordinates and accuracy, with no place name, is appended; locations unchanged |
| `Tracking.LocationService.DidFailWithError` | GPSlog/Services/LocationService.swift:138-140 | no state of the controller, the classifier or the store changes |
| `Timeline.ParseGeo` | GPSlog/Services/TimelineImporter.swift:98-105 | a successful parse needs a comma in the input, and both coordinates are values of non-empty, comma-free texts; which texts, and in which order, is stated by `Timeline.GeoPiecesInOrder` |
| `Timeline.GeoPiecesInOrder` | GPSlog/Services/TimelineImporter.swift:100-104 | after a successful parse, the text left once every "geo:" is deleted is commas, the latitude text, at least one comma, the longitude text and commas, in that order, and the result is the values of those two texts, latitude first (so "1geo:2,3" reads latitude text "12") |
| `Timeline.GeoRoundTrip` | GPSlog/Services/TimelineImporter.swift:98-105 | for non-empty lat and lon without ',' or ':', "geo:" + lat + "," + lon parses to (value(lat), value(lon)) when both parse and to nil otherwise, and gives the same answer without "geo:" |
| `Timeline.GeoPrefixDeleted` | GPSlog/Services/TimelineImporter.swift:100 | a leading "geo:" never changes the parse: it is deleted, not checked |
| `Timeline.GeoRejectsThreeParts` | GPSlog/Services/TimelineImporter.swift:100-103 | three non-empty parts without ',' or ':', joined by commas, are rejected whatever they hold |
| `Timeline.GeoIgnoresEmptyPieces` | GPSlog/Services/TimelineImporter.swift:100 | a comma added at either end never changes the parse, because empty pieces are dropped |
| `Timeline.NoStartTimeNoRecord` | GPSlog/Services/TimelineImporter.swift:59-60 | a segment whose start time is missing or does not parse yields no record |
| `Timeline.ActivitySegmentRecord` | GPSlog/Services/TimelineImporter.swift:62-77 | an activity segment with parseable start time and start position yields one location log at that time and position, with zero altitude, accuracy, speed and course, and the top candidate's type |
| `Timeline.ActivityShadowsVisit` | GPSlog/Services/TimelineImporter.swift:62-79 | a segment with an activity never yields a visit, and yields nothing when the activity's position is missing or does not parse |
| `Timeline.VisitSegmentRecord` | GPSlog/Services/TimelineImporter.swift:79-91 | a visit segment with parseable start time and place location yields one visit log: arrival at the start time, departure at the parsed end time or at the arrival when the end time does not parse, zero accuracy, place ID as name |
| `Timeline.VisitWithoutEndTime` | GPSlog/Services/TimelineImporter.swift:84 | a visit without an end time departs when it arrives and has duration 0 (the empty string standing in for it does not parse as a date) |
| `Timeline.SegmentRecord` | GPSlog/Services/TimelineImporter.swift:59-93 | a record needs a start time that parses; a location log comes only from a segment with an activity and a start position and is stamped with the start time; a visit log comes only from a segment without an activity but with a visit, and arrives at the start time |
| `Timeline.Records` | GPSlog/Services/TimelineImporter.swift:58-94 | each segment yields at most one record |
| `Timeline.RecordsAppend` | GPSlog/Services/TimelineImporter.swift:58-94 | records follow segment order: the records of two lists back to back are the first list's followed by the second's |
| `Timeline.RecordsSplit` | GPSlog/Services/TimelineImporter.swift:62-92 | every record is exactly one of a location log or a visit log |
| `Timeline.ImportStep` | GPSlog/Services/TimelineImporter.swift:58-93 | one more segment adds its record, if any, to the count and to the matching one of the location and visit lists, and nothing else |
| `Timeline.ImportCountBound` | GPSlog/Services/TimelineImporter.swift:52-96 | the count is at most the number of segments and equals the locations plus the visits appended |
| `Timeline.TimelineImporter.constructor` | GPSlog/Services/TimelineImporter.swift:7-9 | the importer writes into the given store |
| `Timeline.TimelineImporter.ImportSemanticSegments` | GPSlog/Services/TimelineImporter.swift:52-96 | the count is the number of records, and the store gains exactly the segments' location logs and visit logs, in segment order |
| `Timeline.TimelineImporter.ImportSegment` | GPSlog/Services/TimelineImporter.swift:59-93 | one pass of the loop saves exactly the segment's record, if it has one, into the matching list of the store and reports whether it did |
| `Timeline.TimelineImporter.ImportJSON` | GPSlog/Services/TimelineImporter.swift:38-50 | a read failure is thrown; an undecodable file answers 0 and changes nothing; otherwise the segments are imported and their count returned |

## Left out

- Reading the file, JSON decoding, ISO 8601 date parsing and `Double(String)`. These are foreign library calls. Their outcomes are inputs or function parameters.
- Floating-point behaviour: coordinates and measurements are reals, and no arithmetic is done on them.
- `Date` has sub-millisecond precision in the app; here instants are integer milliseconds and `Duration` is in milliseconds, not seconds.
- Concurrency: the Combine subscription, the `Task { @MainActor }` hops and the motion handler's main-queue delivery are modelled as immediate sequential calls.
- `requestPermissions` and the location manager's remaining configuration (distance filter, background updates, automatic pausing, indicator). These are OS plumbing with no effect on the modelled state.
- `highAccuracyTimer` and `highAccuracyInterval`: the timer is never scheduled, only invalidated.
- The `print` logging in every handler.
- Store.SortNewestFirst: SwiftData does not specify the order of logs with equal timestamps; the model fixes one (later-saved first). Of the `FetchRecentLogs` properties, only "a prefix of `SortNewestFirst`" depends on that choice.
- Text.Split and Text.DeleteAll compare single characters (Unicode code points), while Swift's `split(separator:)` compares `Character`s (grapheme clusters) and `replacingOccurrences` uses NSString matching; a comma followed by a combining mark, for example, is one `Character` in Swift and no separator there, but a separator here. Inputs whose text has combining marks next to ',' or inside "geo:" are not modelled faithfully.
- The SwiftData container set-up and its `fatalError`, persistence and durability.
- The user interface, the app entry point and the unused `Item` model.
