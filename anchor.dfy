/**
 * `UpdateCesiumAnchor`: the start-up coroutine chain
 * (WaitForOriginAndTileset, SampleInitialTerrainHeight, SetInitialPosition)
 * as a tick-driven state machine, and the per-frame position smoothing.
 * Each `Step` is one frame's resumption of the coroutine; each
 * `yield return null` ends a `Step`.
 */
module AnchorUpdate {
  import opened Optional
  import opened Geometry
  import opened Telemetry

  /** One entry of the height query result: `sampleSuccess[i]` with the `z` of `longitudeLatitudeHeightPositions[i]`. */
  datatype HeightSample = HeightSample(success: bool, height: real)

  /**
   * The `SampleHeightMostDetailed` task as seen on one frame. A task that ran
   * to completion may carry a null result; a faulted or cancelled task also
   * ends the wait, but reading its `Result` throws.
   */
  datatype HeightTask = Pending | Completed(result: Option<seq<HeightSample>>) | Faulted

  /** What the coroutine can observe on one frame. */
  datatype FrameInputs = FrameInputs(
    originInitialized: bool,        // initializeCesiumOrigin.IsInitialized
    telemetry: Snapshot,            // the receiver's accessors
    loadProgress: real,             // terrainTileset.ComputeLoadProgress()
    heightTask: HeightTask)

  datatype Phase =
    | NotStarted          // a reference was missing at Start: the coroutine never runs
    | WaitingForOrigin
    | WaitingForTileset
    | SamplingHeight
    | GaveUp              // the single read found latitude or longitude equal to 0
    | SamplingFailed      // the height task faulted: `Result` threw and the coroutine ended
    | Initialized

  const ReadyProgress: real := 99.0
  const QueryHeight: real := 3500.0

  predicate Terminal(p: Phase) {
    p == NotStarted || p == GaveUp || p == SamplingFailed || p == Initialized
  }

  /** The frame on which the origin flag is seen and the single read finds usable coordinates. */
  predicate OriginGate(f: FrameInputs) {
    f.originInitialized && f.telemetry.latitude != 0.0 && f.telemetry.longitude != 0.0
  }

  predicate TilesetGate(f: FrameInputs) {
    f.loadProgress >= ReadyProgress
  }

  /** Where the coroutine stands after one more frame. */
  function NextPhase(p: Phase, f: FrameInputs): Phase {
    match p
    case WaitingForOrigin =>
      if !f.originInitialized then WaitingForOrigin
      else if f.telemetry.latitude == 0.0 || f.telemetry.longitude == 0.0 then GaveUp
      else if f.loadProgress < ReadyProgress then WaitingForTileset
      else SamplingHeight
    case WaitingForTileset =>
      if f.loadProgress < ReadyProgress then WaitingForTileset else SamplingHeight
    case SamplingHeight =>
      match f.heightTask {
        case Pending => SamplingHeight
        case Completed(_) => Initialized
        case Faulted => SamplingFailed
      }
    case _ => p
  }

  /** Where the coroutine stands after the frames `fs`. */
  function Run(p: Phase, fs: seq<FrameInputs>): Phase {
    if fs == [] then p else NextPhase(Run(p, fs[..|fs| - 1]), fs[|fs| - 1])
  }

  /** The order of the phases; no frame moves backwards. */
  function Rank(p: Phase): nat {
    match p
    case NotStarted => 0
    case WaitingForOrigin => 1
    case WaitingForTileset => 2
    case SamplingHeight => 3
    case GaveUp => 4
    case SamplingFailed => 4
    case Initialized => 4
  }

  lemma {:induction false} RunMonotone(p: Phase, fs: seq<FrameInputs>)
    ensures Rank(p) <= Rank(Run(p, fs))
    ensures Terminal(p) ==> Run(p, fs) == p
  {
    if fs != [] {
      RunMonotone(p, fs[..|fs| - 1]);
    }
  }

  /**
   * Once given up, once the height task has faulted, or without its
   * references, the anchor is never initialised, whatever the later frames bring.
   */
  lemma NeverInitializedAfterGivingUp(fs: seq<FrameInputs>)
    ensures Run(GaveUp, fs) != Initialized
    ensures Run(SamplingFailed, fs) != Initialized
    ensures Run(NotStarted, fs) != Initialized
  {
    RunMonotone(GaveUp, fs);
    RunMonotone(SamplingFailed, fs);
    RunMonotone(NotStarted, fs);
  }

  /** Leaving WaitingForOrigin other than by giving up needs a frame that passed the origin gate. */
  lemma {:induction false} OriginGateObserved(fs: seq<FrameInputs>)
    requires Rank(Run(WaitingForOrigin, fs)) >= 2 && Run(WaitingForOrigin, fs) != GaveUp
    ensures exists i :: 0 <= i < |fs| && OriginGate(fs[i])
  {
    var pre, n := fs[..|fs| - 1], |fs| - 1;
    var p := Run(WaitingForOrigin, pre);
    RunMonotone(WaitingForOrigin, pre);
    if p == WaitingForOrigin {
      assert OriginGate(fs[n]);
    } else {
      OriginGateObserved(pre);
      var i :| 0 <= i < |pre| && OriginGate(pre[i]);
      assert fs[i] == pre[i];
    }
  }

  /** Sampling starts only after the origin gate and then the tileset gate (possibly on the same frame). */
  lemma {:induction false} TilesetGateObserved(fs: seq<FrameInputs>)
    requires Rank(Run(WaitingForOrigin, fs)) >= 3 && Run(WaitingForOrigin, fs) != GaveUp
    ensures exists i, j :: 0 <= i <= j < |fs| && OriginGate(fs[i]) && TilesetGate(fs[j])
  {
    var pre, n := fs[..|fs| - 1], |fs| - 1;
    var p := Run(WaitingForOrigin, pre);
    RunMonotone(WaitingForOrigin, pre);
    if p == WaitingForOrigin || p == WaitingForTileset {
      assert TilesetGate(fs[n]);
      OriginGateObserved(fs);
    } else {
      TilesetGateObserved(pre);
      var i, j :| 0 <= i <= j < |pre| && OriginGate(pre[i]) && TilesetGate(pre[j]);
      assert fs[i] == pre[i] && fs[j] == pre[j];
    }
  }

  /**
   * The gates are passed in order: initialisation needs a frame with the
   * origin flag and non-zero coordinates, then one (possibly the same) with
   * the tileset at 99 % or more, then a strictly later frame on which the
   * height task has completed.
   */
  lemma {:induction false} GatesObserved(fs: seq<FrameInputs>)
    requires Run(WaitingForOrigin, fs) == Initialized
    ensures exists i, j, k ::
              0 <= i <= j < k < |fs| && OriginGate(fs[i]) && TilesetGate(fs[j]) && fs[k].heightTask.Completed?
  {
    var pre, n := fs[..|fs| - 1], |fs| - 1;
    var p := Run(WaitingForOrigin, pre);
    RunMonotone(WaitingForOrigin, pre);
    if p == SamplingHeight {
      TilesetGateObserved(pre);
      var i, j :| 0 <= i <= j < |pre| && OriginGate(pre[i]) && TilesetGate(pre[j]);
      assert fs[i] == pre[i] && fs[j] == pre[j];
      assert fs[n].heightTask.Completed?;
    } else {
      GatesObserved(pre);
      var i, j, k :| 0 <= i <= j < k < |pre| && OriginGate(pre[i]) && TilesetGate(pre[j])
        && pre[k].heightTask.Completed?;
      assert fs[i] == pre[i] && fs[j] == pre[j] && fs[k] == pre[k];
    }
  }

  /**
   * The sequence ends without initialising on a faulted height task only
   * after both gates were passed and the task was issued on an earlier frame.
   */
  lemma {:induction false} FaultObserved(fs: seq<FrameInputs>)
    requires Run(WaitingForOrigin, fs) == SamplingFailed
    ensures exists i, j, k ::
              0 <= i <= j < k < |fs| && OriginGate(fs[i]) && TilesetGate(fs[j]) && fs[k].heightTask.Faulted?
  {
    var pre, n := fs[..|fs| - 1], |fs| - 1;
    var p := Run(WaitingForOrigin, pre);
    RunMonotone(WaitingForOrigin, pre);
    if p == SamplingHeight {
      TilesetGateObserved(pre);
      var i, j :| 0 <= i <= j < |pre| && OriginGate(pre[i]) && TilesetGate(pre[j]);
      assert fs[i] == pre[i] && fs[j] == pre[j];
      assert fs[n].heightTask.Faulted?;
    } else {
      FaultObserved(pre);
      var i, j, k :| 0 <= i <= j < k < |pre| && OriginGate(pre[i]) && TilesetGate(pre[j])
        && pre[k].heightTask.Faulted?;
      assert fs[i] == pre[i] && fs[j] == pre[j] && fs[k] == pre[k];
    }
  }

  /** Giving up needs a frame on which the origin flag was set and a coordinate read 0. */
  lemma {:induction false} GaveUpOnZeroFix(fs: seq<FrameInputs>)
    requires Run(WaitingForOrigin, fs) == GaveUp
    ensures exists i ::
              0 <= i < |fs| && fs[i].originInitialized && (fs[i].telemetry.latitude == 0.0 || fs[i].telemetry.longitude == 0.0)
  {
    var pre, n := fs[..|fs| - 1], |fs| - 1;
    var p := Run(WaitingForOrigin, pre);
    RunMonotone(WaitingForOrigin, pre);
    if p == WaitingForOrigin {
      assert fs[n].originInitialized;
    } else {
      GaveUpOnZeroFix(pre);
      var i :| 0 <= i < |pre| && pre[i].originInitialized
        && (pre[i].telemetry.latitude == 0.0 || pre[i].telemetry.longitude == 0.0);
      assert fs[i] == pre[i];
    }
  }

  /** `sampledHeight` after the `for` loop over the results: the height of the last successful entry. */
  function LastSuccessfulHeight(samples: seq<HeightSample>, prior: real): real {
    if samples == [] then prior
    else if samples[|samples| - 1].success then samples[|samples| - 1].height
    else LastSuccessfulHeight(samples[..|samples| - 1], prior)
  }

  /**
   * The sampled height is the last successful entry's height, and stays as it
   * was when no entry succeeded.
   */
  lemma {:induction false} LastSuccessfulHeightIs(samples: seq<HeightSample>, prior: real)
    ensures (forall i :: 0 <= i < |samples| ==> !samples[i].success) ==>
      LastSuccessfulHeight(samples, prior) == prior
    ensures forall i ::
      (0 <= i < |samples| && samples[i].success && forall j :: i < j < |samples| ==> !samples[j].success)
      ==> LastSuccessfulHeight(samples, prior) == samples[i].height
  {
    if samples != [] {
      var pre := samples[..|samples| - 1];
      LastSuccessfulHeightIs(pre, prior);
      if !samples[|samples| - 1].success {
        assert forall i :: 0 <= i < |pre| ==> pre[i] == samples[i];
      }
    }
  }

  /** `sampledHeight` after the task completes: a null result leaves it unchanged. */
  function HeightAfter(result: Option<seq<HeightSample>>, prior: real): real {
    if result.Some? then LastSuccessfulHeight(result.value, prior) else prior
  }

  class UpdateCesiumAnchor {
    var phase: Phase
    var isInitialized: bool
    var initialLatitude: real
    var initialLongitude: real
    var sampledHeight: real
    var modelOffset: real
    var positionSmoothingFactor: real
    /** The position handed to `SampleHeightMostDetailed`, once issued. */
    var heightQuery: Option<Vec3>
    var currentPosition: Vec3
    var targetPosition: Vec3

    ghost predicate Valid()
      reads this
    {
      && (isInitialized <==> phase == Initialized)
      && (Rank(phase) >= 2 && phase != GaveUp ==> initialLatitude != 0.0 && initialLongitude != 0.0)
      && (heightQuery.Some? <==> phase == SamplingHeight || phase == SamplingFailed || phase == Initialized)
      && (heightQuery.Some? ==> heightQuery.value == Vec3(initialLongitude, initialLatitude, QueryHeight))
    }

    /** `Start`: the coroutine begins only when all four references are present. */
    constructor Start(hasGlobeAnchor: bool, hasUdpReceiver: bool, hasTerrainTileset: bool,
                      hasOriginInitializer: bool, modelOffset: real, positionSmoothingFactor: real,
                      sampledHeight: real)
      ensures Valid() && !isInitialized
      ensures phase == if hasGlobeAnchor && hasUdpReceiver && hasTerrainTileset && hasOriginInitializer
                       then WaitingForOrigin else NotStarted
      ensures this.modelOffset == modelOffset && this.positionSmoothingFactor == positionSmoothingFactor
      ensures this.sampledHeight == sampledHeight
    {
      this.modelOffset := modelOffset;
      this.positionSmoothingFactor := positionSmoothingFactor;
      this.sampledHeight := sampledHeight;
      initialLatitude, initialLongitude := 0.0, 0.0;
      heightQuery := None;
      currentPosition, targetPosition := Vec3(0.0, 0.0, 0.0), Vec3(0.0, 0.0, 0.0);
      isInitialized := false;
      if hasGlobeAnchor && hasUdpReceiver && hasTerrainTileset && hasOriginInitializer {
        phase := WaitingForOrigin;
      } else {
        phase := NotStarted;
      }
    }

    /** The `for` loop of SampleInitialTerrainHeight. */
    method RecordHeightSamples(samples: seq<HeightSample>)
      modifies this`sampledHeight
      ensures sampledHeight == LastSuccessfulHeight(samples, old(sampledHeight))
    {
      for i := 0 to |samples|
        invariant sampledHeight == LastSuccessfulHeight(samples[..i], old(sampledHeight))
      {
        assert samples[..i + 1][..i] == samples[..i];
        if samples[i].success {
          sampledHeight := samples[i].height;
        }
      }
      assert samples[..|samples|] == samples;
    }

    /** Position part of SetInitialPosition. */
    method SetInitialPosition(t: Snapshot)
      modifies this`currentPosition, this`targetPosition, this`isInitialized
      ensures currentPosition == targetPosition
        == Vec3(initialLongitude, initialLatitude, t.altitude + sampledHeight + modelOffset)
      ensures isInitialized
    {
      var initialPosition := Vec3(initialLongitude, initialLatitude, t.altitude + sampledHeight + modelOffset);
      currentPosition := initialPosition;
      targetPosition := initialPosition;
      isInitialized := true;
    }

    /** One frame's resumption of WaitForOriginAndTileset and SampleInitialTerrainHeight. */
    method Step(f: FrameInputs)
      requires Valid()
      modifies this
      ensures Valid()
      ensures phase == NextPhase(old(phase), f)
      ensures modelOffset == old(modelOffset) && positionSmoothingFactor == old(positionSmoothingFactor)
      // a frame that passes no gate changes nothing, so no coordinate is read before the origin flag
      ensures phase == old(phase) && phase != SamplingHeight && !(phase == WaitingForOrigin && f.originInitialized)
        ==> unchanged(this)
      ensures old(phase) == WaitingForOrigin && f.originInitialized ==>
        initialLatitude == f.telemetry.latitude && initialLongitude == f.telemetry.longitude
      ensures !(old(phase) == WaitingForOrigin && f.originInitialized) ==>
        initialLatitude == old(initialLatitude) && initialLongitude == old(initialLongitude)
      ensures old(phase) == SamplingHeight && f.heightTask.Completed? ==>
        && sampledHeight == HeightAfter(f.heightTask.result, old(sampledHeight))
        && currentPosition == targetPosition
        && targetPosition == Vec3(initialLongitude, initialLatitude, f.telemetry.altitude + sampledHeight + modelOffset)
      ensures old(phase) == SamplingHeight && f.heightTask.Faulted? ==> phase == SamplingFailed && !isInitialized
      ensures !(old(phase) == SamplingHeight && f.heightTask.Completed?) ==>
        && sampledHeight == old(sampledHeight)
        && currentPosition == old(currentPosition) && targetPosition == old(targetPosition)
    {
      match phase
      case WaitingForOrigin =>
        if f.originInitialized {
          initialLatitude := f.telemetry.latitude;
          initialLongitude := f.telemetry.longitude;
          if initialLatitude == 0.0 || initialLongitude == 0.0 {
            phase := GaveUp;
          } else if f.loadProgress < ReadyProgress {
            phase := WaitingForTileset;
          } else {
            heightQuery := Some(Vec3(initialLongitude, initialLatitude, QueryHeight));
            phase := SamplingHeight;
          }
        }
      case WaitingForTileset =>
        if f.loadProgress >= ReadyProgress {
          heightQuery := Some(Vec3(initialLongitude, initialLatitude, QueryHeight));
          phase := SamplingHeight;
        }
      case SamplingHeight =>
        match f.heightTask {
          case Pending =>
          case Completed(result) =>
            if result.Some? {
              RecordHeightSamples(result.value);
            }
            SetInitialPosition(f.telemetry);
            phase := Initialized;
          case Faulted =>
            phase := SamplingFailed;
        }
      case NotStarted =>
      case GaveUp =>
      case SamplingFailed =>
      case Initialized =>
    }

    /** Position part of Update: retarget from the latest telemetry, then blend toward it. */
    method Update(t: Snapshot)
      modifies this`currentPosition, this`targetPosition
      ensures !isInitialized ==> currentPosition == old(currentPosition) && targetPosition == old(targetPosition)
      ensures isInitialized ==>
        && targetPosition == Vec3(t.longitude, t.latitude, t.altitude + sampledHeight + modelOffset)
        && currentPosition == Lerp(old(currentPosition), targetPosition, positionSmoothingFactor)
    {
      if !isInitialized {
        return;
      }
      targetPosition := Vec3(t.longitude, t.latitude, t.altitude + sampledHeight + modelOffset);
      currentPosition := Lerp(currentPosition, targetPosition, positionSmoothingFactor);
    }
  }
}
