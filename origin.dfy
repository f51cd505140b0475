/**
 * `InitializeCesiumOrigin`: after `initializationDelay` seconds, poll the
 * receiver once per frame until latitude and longitude are both non-zero,
 * then place the georeference origin once at (longitude, latitude, 2250).
 */
module OriginInit {
  import opened Optional
  import opened Geometry
  import opened Telemetry

  const OriginHeight: real := 2250.0

  datatype OriginPhase =
    | NotStarted   // the globe anchor or the receiver was missing at Start
    | Delaying     // inside `WaitForSeconds(initializationDelay)`
    | Polling      // inside the retry loop
    | Placed

  /** Both coordinates pass the validity check of the polling loop. */
  predicate UsableFix(t: Snapshot) {
    t.latitude != 0.0 && t.longitude != 0.0
  }

  class InitializeCesiumOrigin {
    var initializationDelay: real
    var phase: OriginPhase
    /** Time since the coroutine started waiting. */
    var elapsed: real
    /** What this script wrote to the origin's `longitudeLatitudeHeight`, if anything. */
    var origin: Option<Vec3>
    ghost var placements: nat

    ghost predicate Valid()
      reads this
    {
      && placements <= 1
      && (placements == 1 <==> phase == Placed)
      && (origin.Some? <==> phase == Placed)
      && (origin.Some? ==> origin.value.z == OriginHeight && origin.value.x != 0.0 && origin.value.y != 0.0)
    }

    /** `Start`: the delayed initialisation runs only when both references are present. */
    constructor Start(hasGlobeAnchor: bool, hasUdpReceiver: bool, initializationDelay: real)
      ensures Valid() && origin == None && elapsed == 0.0
      ensures phase == if hasGlobeAnchor && hasUdpReceiver then Delaying else NotStarted
      ensures this.initializationDelay == initializationDelay
    {
      this.initializationDelay := initializationDelay;
      elapsed := 0.0;
      origin := None;
      placements := 0;
      phase := if hasGlobeAnchor && hasUdpReceiver then Delaying else NotStarted;
    }

    /** Place the origin at (longitude, latitude, 2250). */
    method InitializeOrigin(latitude: real, longitude: real)
      requires Valid() && phase != Placed
      requires latitude != 0.0 && longitude != 0.0
      modifies this`origin, this`phase, this`placements
      ensures Valid() && phase == Placed
      ensures origin == Some(Vec3(longitude, latitude, OriginHeight))
    {
      origin := Some(Vec3(longitude, latitude, OriginHeight));
      placements := placements + 1;
      phase := Placed;
    }

    /** One frame of InitializeOriginAfterDelay; `deltaTime` is the frame's duration. */
    method Tick(t: Snapshot, deltaTime: real)
      requires Valid()
      modifies this
      ensures Valid() && initializationDelay == old(initializationDelay)
      // nothing more happens before Start succeeded or after the origin is placed
      ensures old(phase) == NotStarted || old(phase) == Placed ==> unchanged(this)
      // before the delay has elapsed only the clock advances: no coordinate is read
      ensures old(phase) == Delaying && old(elapsed) + deltaTime < initializationDelay ==>
        phase == Delaying && elapsed == old(elapsed) + deltaTime && origin == old(origin)
      // once the delay is over (or while polling) the coordinates of this frame decide
      ensures old(phase) == Delaying && old(elapsed) + deltaTime >= initializationDelay ==>
        phase == (if UsableFix(t) then Placed else Polling)
      ensures old(phase) == Polling ==> phase == (if UsableFix(t) then Placed else Polling)
      ensures old(phase) == Polling && !UsableFix(t) ==> unchanged(this)
      // the origin is placed from the coordinates that passed the check, in (lon, lat, h) order
      ensures old(phase) != Placed && phase == Placed ==>
        UsableFix(t) && origin == Some(Vec3(t.longitude, t.latitude, OriginHeight))
      ensures phase != Placed ==> origin == None
    {
      match phase
      case Delaying =>
        elapsed := elapsed + deltaTime;
        if elapsed >= initializationDelay {
          var initialLatitude, initialLongitude := t.latitude, t.longitude;
          if initialLatitude == 0.0 || initialLongitude == 0.0 {
            phase := Polling;
          } else {
            InitializeOrigin(initialLatitude, initialLongitude);
          }
        }
      case Polling =>
        var initialLatitude, initialLongitude := t.latitude, t.longitude;
        if !(initialLatitude == 0.0 || initialLongitude == 0.0) {
          InitializeOrigin(initialLatitude, initialLongitude);
        }
      case NotStarted =>
      case Placed =>
    }
  }
}
