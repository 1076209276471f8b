/** The tracking controller: which location-manager services run, driven by start/stop and by
    the motion classifier, and the two delegate callbacks that write records to the store. */
module Tracking {
  import opened Wrappers
  import opened Models
  import opened Store
  import opened Motion

  /** `kCLLocationAccuracyBest`. */
  const AccuracyBest: real := -1.0

  /** A position fix (`CLLocation`). */
  datatype Location = Location(
    timestamp: Date,
    latitude: real,
    longitude: real,
    altitude: real,
    horizontalAccuracy: real,
    speed: real,
    course: real)

  /** A visit event (`CLVisit`). */
  datatype Visit = Visit(
    arrivalDate: Date,
    departureDate: Date,
    latitude: real,
    longitude: real,
    horizontalAccuracy: real)

  /** The controller's flags together with the services it commands: significant-change
      monitoring, visit monitoring, continuous location updates (with their desired accuracy)
      and motion-activity updates. */
  datatype TrackerState = TrackerState(
    isTracking: bool,
    significantChanges: bool,
    visitMonitoring: bool,
    updatingLocation: bool,
    desiredAccuracy: real,
    motionUpdates: bool)

  /** `enableHighAccuracy`: best accuracy, continuous updates on. */
  function AfterEnableHighAccuracy(s: TrackerState): TrackerState
  {
    s.(desiredAccuracy := AccuracyBest, updatingLocation := true)
  }

  /** `disableHighAccuracy`: continuous updates off; significant-change monitoring is untouched. */
  function AfterDisableHighAccuracy(s: TrackerState): TrackerState
  {
    s.(updatingLocation := false)
  }

  /** `handleMotionChange(isMoving:)`. */
  function AfterMotionChange(s: TrackerState, isMoving: bool): TrackerState
  {
    if isMoving then AfterEnableHighAccuracy(s) else AfterDisableHighAccuracy(s)
  }

  /** `startTracking`: motion updates start only when the device reports motion activity. */
  function AfterStart(s: TrackerState, activityAvailable: bool): TrackerState
  {
    var monitored := s.(isTracking := true, significantChanges := true, visitMonitoring := true);
    AfterEnableHighAccuracy(monitored.(motionUpdates := activityAvailable || s.motionUpdates))
  }

  /** `stopTracking`. */
  function AfterStop(s: TrackerState): TrackerState
  {
    s.(isTracking := false, significantChanges := false, visitMonitoring := false,
       updatingLocation := false, motionUpdates := false)
  }

  /** Motion changes delivered in order, oldest first. */
  function AfterMotionChanges(s: TrackerState, moves: seq<bool>): TrackerState
  {
    if moves == [] then s
    else AfterMotionChange(AfterMotionChanges(s, moves[..|moves| - 1]), moves[|moves| - 1])
  }

  /** Starting turns on tracking and every monitoring service, with best accuracy; motion
      updates run when the device can report motion activity. */
  lemma StartTurnsAllOn(s: TrackerState, activityAvailable: bool)
    ensures var t := AfterStart(s, activityAvailable);
            t.isTracking && t.significantChanges && t.visitMonitoring && t.updatingLocation
            && t.desiredAccuracy == AccuracyBest
            && (activityAvailable ==> t.motionUpdates)
  {
  }

  /** Stopping clears tracking and every monitoring service, and stopping again changes nothing. */
  lemma StopTurnsAllOff(s: TrackerState)
    ensures var t := AfterStop(s);
            !t.isTracking && !t.significantChanges && !t.visitMonitoring && !t.updatingLocation
            && !t.motionUpdates
    ensures AfterStop(AfterStop(s)) == AfterStop(s)
  {
  }

  /** A motion change sets continuous updating to the moving flag and leaves tracking,
      significant-change monitoring (the fallback), visit monitoring and motion updates alone;
      repeating it changes nothing. */
  lemma MotionChangeEffect(s: TrackerState, isMoving: bool)
    ensures var t := AfterMotionChange(s, isMoving);
            t.updatingLocation == isMoving
            && t.isTracking == s.isTracking && t.significantChanges == s.significantChanges
            && t.visitMonitoring == s.visitMonitoring && t.motionUpdates == s.motionUpdates
    ensures AfterMotionChange(AfterMotionChange(s, isMoving), isMoving) == AfterMotionChange(s, isMoving)
  {
  }

  /** Duty cycle: after a start and any motion changes, continuous updating is on exactly when
      there was no motion change yet (the initial burst) or the latest one was "moving", and
      tracking with significant-change and visit monitoring stays on throughout. */
  lemma {:induction false} DutyCycle(s: TrackerState, activityAvailable: bool, moves: seq<bool>)
    ensures var t := AfterMotionChanges(AfterStart(s, activityAvailable), moves);
            t.updatingLocation == (moves == [] || moves[|moves| - 1])
            && t.isTracking && t.significantChanges && t.visitMonitoring
            && t.desiredAccuracy == AccuracyBest
  {
    if moves != [] {
      DutyCycle(s, activityAvailable, moves[..|moves| - 1]);
    }
  }

  /** Motion changes do not consult `isTracking`: one that arrives after a stop turns
      continuous updating back on while tracking stays off. */
  lemma MotionAfterStop(s: TrackerState)
    ensures var t := AfterMotionChange(AfterStop(s), true);
            !t.isTracking && t.updatingLocation && !t.significantChanges
  {
  }

  /** The location service: the controller's flags, the location manager's services as flags,
      and the motion classifier and store it talks to. */
  class LocationService {
    const dataStore: DataStore
    const motionService: MotionService
    var currentLocation: Option<Location>
    var isTracking: bool
    var significantChanges: bool
    var visitMonitoring: bool
    var updatingLocation: bool
    var desiredAccuracy: real

    /** The controller's flags and the services' state. */
    function Snapshot(): TrackerState
      reads this, motionService
    {
      TrackerState(isTracking, significantChanges, visitMonitoring, updatingLocation,
                   desiredAccuracy, motionService.monitoring)
    }

    /** Configures the location manager for best accuracy and subscribes to the classifier's
        moving flag, whose current value is delivered at once. */
    constructor (dataStore: DataStore, motionService: MotionService)
      ensures this.dataStore == dataStore && this.motionService == motionService
      ensures currentLocation == None
      ensures Snapshot() == AfterMotionChange(
                TrackerState(false, false, false, false, AccuracyBest, motionService.monitoring),
                motionService.isMoving)
    {
      this.dataStore := dataStore;
      this.motionService := motionService;
      currentLocation := None;
      isTracking := false;
      significantChanges := false;
      visitMonitoring := false;
      updatingLocation := false;
      desiredAccuracy := AccuracyBest;
      new;
      HandleMotionChange(motionService.isMoving);
    }

    method StartTracking()
      modifies this, motionService
      ensures Snapshot() == AfterStart(old(Snapshot()), motionService.activityAvailable)
      ensures currentLocation == old(currentLocation)
      ensures motionService.currentActivity == old(motionService.currentActivity)
      ensures motionService.isMoving == old(motionService.isMoving)
    {
      isTracking := true;
      significantChanges := true;
      visitMonitoring := true;
      motionService.StartMonitoring();
      EnableHighAccuracy();
    }

    method StopTracking()
      modifies this, motionService
      ensures Snapshot() == AfterStop(old(Snapshot()))
      ensures currentLocation == old(currentLocation)
      ensures motionService.currentActivity == old(motionService.currentActivity)
      ensures motionService.isMoving == old(motionService.isMoving)
    {
      isTracking := false;
      significantChanges := false;
      visitMonitoring := false;
      updatingLocation := false;
      motionService.StopMonitoring();
    }

    method HandleMotionChange(isMoving: bool)
      modifies this
      ensures Snapshot() == AfterMotionChange(old(Snapshot()), isMoving)
      ensures currentLocation == old(currentLocation)
    {
      if isMoving {
        EnableHighAccuracy();
      } else {
        DisableHighAccuracy();
      }
    }

    method EnableHighAccuracy()
      modifies this
      ensures Snapshot() == AfterEnableHighAccuracy(old(Snapshot()))
      ensures currentLocation == old(currentLocation)
    {
      desiredAccuracy := AccuracyBest;
      updatingLocation := true;
    }

    method DisableHighAccuracy()
      modifies this
      ensures Snapshot() == AfterDisableHighAccuracy(old(Snapshot()))
      ensures currentLocation == old(currentLocation)
    {
      updatingLocation := false;
    }

    /** One activity sample from the classifier: it updates the classifier, and each non-nil
        sample republishes the moving flag, which the subscription turns into a motion change. */
    method OnActivitySample(activity: Option<MotionActivity>)
      modifies this, motionService
      ensures activity.None? ==> Snapshot() == old(Snapshot())
                                 && motionService.currentActivity == old(motionService.currentActivity)
                                 && motionService.isMoving == old(motionService.isMoving)
      ensures activity.Some? ==>
                Snapshot() == AfterMotionChange(old(Snapshot()), !activity.value.stationary)
                && motionService.currentActivity == ActivityLabel(activity.value)
                && motionService.isMoving == !activity.value.stationary
      ensures currentLocation == old(currentLocation)
    {
      motionService.OnActivity(activity);
      if activity.Some? {
        HandleMotionChange(motionService.isMoving);
      }
    }

    /** `locationManager(_:didUpdateLocations:)`: an empty batch changes nothing; otherwise the
        last fix becomes the current location and one location log, labelled with the current
        activity, is saved. */
    method DidUpdateLocations(locations: seq<Location>)
      modifies this, dataStore
      ensures locations == [] ==> currentLocation == old(currentLocation)
                                  && dataStore.locations == old(dataStore.locations)
      ensures locations != [] ==>
                var last := locations[|locations| - 1];
                currentLocation == Some(last)
                && dataStore.locations == old(dataStore.locations) + [NewLocationLog(
                     last.timestamp, last.latitude, last.longitude, last.altitude,
                     last.horizontalAccuracy, last.speed, last.course,
                     Some(motionService.currentActivity))]
      ensures dataStore.visits == old(dataStore.visits)
      ensures Snapshot() == old(Snapshot())
    {
      if locations == [] {
        return;
      }
      var location := locations[|locations| - 1];
      currentLocation := Some(location);
      var log := NewLocationLog(
        location.timestamp, location.latitude, location.longitude, location.altitude,
        location.horizontalAccuracy, location.speed, location.course,
        Some(motionService.currentActivity));
      dataStore.SaveLocation(log);
    }

    /** `locationManager(_:didVisit:)`: saves one visit log copied from the event, without a
        place name. */
    method DidVisit(visit: Visit)
      modifies dataStore
      ensures dataStore.visits == old(dataStore.visits) + [NewVisitLog(
                visit.arrivalDate, visit.departureDate, visit.latitude, visit.longitude,
                visit.horizontalAccuracy)]
      ensures dataStore.visits[|dataStore.visits| - 1].placeName == None
      ensures dataStore.locations == old(dataStore.locations)
    {
      var log := NewVisitLog(
        visit.arrivalDate, visit.departureDate, visit.latitude, visit.longitude,
        visit.horizontalAccuracy);
      dataStore.SaveVisit(log);
    }

    /** `locationManager(_:didFailWithError:)`: only logged. */
    method DidFailWithError(error: string)
      ensures unchanged(this, dataStore, motionService)
    {
    }
  }
}
