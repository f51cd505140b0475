# Drone telemetry to Cesium globe: a Dafny model

This project models the sequential core of a Unity client that receives
MAVLink telemetry over UDP and places a drone model on a Cesium globe.
Sockets, threads, coroutine timing and engine objects are replaced by
explicit inputs: each component becomes a class whose methods are called
once per frame (or once per received datagram), with what the engine would
supply passed in as parameters.

- `Telemetry` (`telemetry.dfy`): the receiver's latest-value store. A
  decoded GLOBAL_POSITION_INT (#33) sets latitude and longitude (degE7 / 1e7)
  and altitude (mm / 1000); ATTITUDE (#30) copies roll, pitch and yaw;
  STATUSTEXT (#253) stores `"Status: "` + the ASCII text with trailing NULs
  removed; every other message, and every receive or parse failure, changes
  nothing. A pure specification (`ApplyReception`, `ApplyAll`) describes the
  store, and the lemmas show that each field group holds the most recent
  report of its own kind.
- `AnchorUpdate` (`anchor.dfy`): the start-up coroutine chain of the drone
  anchor as a state machine (`NotStarted`, `WaitingForOrigin`,
  `WaitingForTileset`, `SamplingHeight`, `GaveUp`, `SamplingFailed`,
  `Initialized`), one `Step`
  per frame, and the per-frame position smoothing `Update`. Lemmas over
  whole runs of frames show the gates are passed in order and that the
  terminal states are final.
- `OriginInit` (`origin.dfy`): the delayed origin initialiser. It waits for
  the delay, polls every frame until both coordinates are non-zero, then
  places the origin once at (longitude, latitude, 2250).
- `Blades` (`blades.dfy`): the rotor controller. The keywords "Arming" and
  "Disarming" (ordinal matching, "Arming" checked first) set two mutually
  exclusive flags, and the spin speed ramps within [0, maxSpinSpeed].
- `Cameras` (`cameras.dfy`): the camera manager over an array of camera
  objects whose slots may be empty. Activation walks the slots in order and
  stops at the first empty one; with every slot filled and distinct cameras it
  enables and tags exactly the chosen camera.
- `TileExcluder` (`excluder.dfy`): the box tile excluder's containment and
  intersection decisions over `real` vectors, and the bounds refresh.
- `Geometry` (`geometry.dfy`) holds the vectors and `math.lerp`, with the
  convergence lemmas for exponential smoothing. `Optional` (`optional.dfy`)
  holds `Option`.

Unity runs a behaviour's `Update` before it resumes coroutines waiting on
`yield return null`. A frame of the drone anchor is therefore
`Update(telemetry)` followed by `Step(inputs)`. The first `Step` after the
`Start` constructor stands for the coroutine's first run inside `Start`.

The status text loses only its trailing NULs (`TrimEnd('\0')`); interior
NULs stay (`InteriorNulKept`).

A coordinate equal to 0 counts as "no fix"; the telemetry carries no
freshness flags.

The anchor waits for the origin flag first and only then reads the
coordinates, once. A zero coordinate at that read ends the sequence for good
(`GaveUp`). A height task that faults or is cancelled ends it too
(`SamplingFailed`), because reading its `Result` throws.

A failed or null height sample leaves `sampledHeight` at its previous value,
which is not necessarily 0.

## Model

| member | source | states |
|---|---|---|
| `Telemetry.UdpReceiverDisplay.constructor` | Assets/Scripts/UDPReceiverDisplay.cs:31-37 | all telemetry values start at 0 and the status message is null |
| `Telemetry.UdpReceiverDisplay.Values` | Assets/Scripts/UDPReceiverDisplay.cs:47-53 | the accessors return exactly the stored fields |
| `Telemetry.UdpReceiverDisplay.UpdatePositionData` | Assets/Scripts/UDPReceiverDisplay.cs:147-153 | latitude/longitude = raw / 1e7, altitude = relative_alt / 1000; attitude and status unchanged |
| `Telemetry.UdpReceiverDisplay.UpdateAttitudeData` | Assets/Scripts/UDPReceiverDisplay.cs:161-166 | roll, pitch, yaw copied unchanged; position and status unchanged |
| `Telemetry.UdpReceiverDisplay.UpdateStatusText` | Assets/Scripts/UDPReceiverDisplay.cs:174-178 | status = "Status: " + ASCII text with trailing NULs trimmed; all numeric fields unchanged |
| `Telemetry.UdpReceiverDisplay.GetPacket` | Assets/Scripts/UDPReceiverDisplay.cs:102-144 | dispatch by message type; failures and other message types leave every field unchanged |
| `Telemetry.UdpReceiverDisplay.ReceiveLoop` | Assets/Scripts/UDPReceiverDisplay.cs:91-100 | after the loop handles a run of receptions, the store equals the specification fold over them |
| `Telemetry.AsciiDecode` | Assets/Scripts/UDPReceiverDisplay.cs:177 | one character per byte: ASCII below 0x80, '?' otherwise |
| `Telemetry.TrimTrailingNul` | Assets/Scripts/UDPReceiverDisplay.cs:177 | the result is a prefix of the input that does not end in NUL, and only NULs were cut after it |
| `Telemetry.PaddingRemoved` | Assets/Scripts/UDPReceiverDisplay.cs:177 | a text not ending in NUL, padded with any number of NULs, reads back as "Status: " + the text |
| `Telemetry.InteriorNulKept` | Assets/Scripts/UDPReceiverDisplay.cs:177 | a NUL followed later by a non-NUL byte stays in the status line at its position |
| `Telemetry.LatestPositionWins` | Assets/Scripts/UDPReceiverDisplay.cs:118-122 | after any run of receptions, lat/lon/alt come from the most recent position report, or are unchanged if none arrived |
| `Telemetry.LatestAttitudeWins` | Assets/Scripts/UDPReceiverDisplay.cs:124-128 | roll/pitch/yaw come from the most recent attitude report, or are unchanged if none arrived |
| `Telemetry.LatestStatusWins` | Assets/Scripts/UDPReceiverDisplay.cs:130-134 | the status line comes from the most recent STATUSTEXT, or is unchanged if none arrived |
| `AnchorUpdate.UpdateCesiumAnchor.Start` | Assets/Scripts/UpdateCesiumAnchor.cs:30-59 | the sequence starts only if all four references are present; otherwise it never runs; not initialised |
| `AnchorUpdate.UpdateCesiumAnchor.Step` | Assets/Scripts/UpdateCesiumAnchor.cs:61-98 | one frame of the coroutine: nothing changes while waiting; lat/lon are read only when the origin flag is seen; the height query goes to (lon, lat, 3500); on completion current = target = (lon, lat, alt + sampledHeight + modelOffset); a faulted or cancelled height task ends the coroutine in SamplingFailed with isInitialized still false |
| `AnchorUpdate.UpdateCesiumAnchor.RecordHeightSamples` | Assets/Scripts/UpdateCesiumAnchor.cs:100-114 | sampledHeight becomes the height of the last successful entry, unchanged if none succeeded |
| `AnchorUpdate.UpdateCesiumAnchor.SetInitialPosition` | Assets/Scripts/UpdateCesiumAnchor.cs:122-148 | current = target = (initial lon, initial lat, altitude + sampledHeight + modelOffset), and isInitialized becomes true |
| `AnchorUpdate.UpdateCesiumAnchor.Update` | Assets/Scripts/UpdateCesiumAnchor.cs:151-172 | no change before initialisation; afterwards target from the latest telemetry with the same height sum, and current = lerp(current, target, factor) |
| `AnchorUpdate.LastSuccessfulHeightIs` | Assets/Scripts/UpdateCesiumAnchor.cs:100-114 | the sampled height is the last successful entry's height, and the previous value when no entry succeeded |
| `AnchorUpdate.RunMonotone` | Assets/Scripts/UpdateCesiumAnchor.cs:61-87 | phases never move backwards; NotStarted, GaveUp, SamplingFailed and Initialized are final |
| `AnchorUpdate.NeverInitializedAfterGivingUp` | Assets/Scripts/UpdateCesiumAnchor.cs:72-98 | after giving up on a zero fix, after a faulted height task, or without the references, isInitialized never becomes true |
| `AnchorUpdate.OriginGateObserved` | Assets/Scripts/UpdateCesiumAnchor.cs:63-76 | passing the origin stage needs a frame with the origin flag set and non-zero lat/lon |
| `AnchorUpdate.TilesetGateObserved` | Assets/Scripts/UpdateCesiumAnchor.cs:78-84 | sampling starts only after the origin gate and then a frame with load progress of at least 99 |
| `AnchorUpdate.GatesObserved` | Assets/Scripts/UpdateCesiumAnchor.cs:61-95 | initialisation needs the origin gate, then the tileset gate, then a strictly later frame where the height task completed |
| `AnchorUpdate.GaveUpOnZeroFix` | Assets/Scripts/UpdateCesiumAnchor.cs:69-76 | giving up needs a frame with the origin flag set where latitude or longitude read 0 |
| `AnchorUpdate.FaultObserved` | Assets/Scripts/UpdateCesiumAnchor.cs:61-98 | ending in SamplingFailed needs the origin gate, then the tileset gate, then a strictly later frame where the height task faulted |
| `Geometry.LerpStaysBetween` | Assets/Scripts/UpdateCesiumAnchor.cs:172 | with a factor in [0,1], one blend step stays between the current value and the target |
| `Geometry.LerpNoOvershoot` | Assets/Scripts/UpdateCesiumAnchor.cs:172 | the vector blend never overshoots on any axis |
| `Geometry.LerpFull` | Assets/Scripts/UpdateCesiumAnchor.cs:172 | a factor of 1 reaches the target in one step |
| `Geometry.LerpGap` | Assets/Scripts/UpdateCesiumAnchor.cs:172 | the gap to the target is scaled by exactly 1 - factor |
| `Geometry.SmoothGap` | Assets/Scripts/UpdateCesiumAnchor.cs:172 | after n steps toward a fixed target, the gap is (1 - factor)^n times the initial gap |
| `Geometry.SmoothMonotone` | Assets/Scripts/UpdateCesiumAnchor.cs:172 | toward a fixed target the gap never grows and never changes sign |
| `OriginInit.InitializeCesiumOrigin.Start` | Assets/InitializeCesiumOrigin.cs:13-32 | initialisation runs only if the globe anchor and the receiver are present; nothing is placed |
| `OriginInit.InitializeCesiumOrigin.InitializeOrigin` | Assets/InitializeCesiumOrigin.cs:56-60 | the origin is placed at (longitude, latitude, 2250), in that order |
| `OriginInit.InitializeCesiumOrigin.Tick` | Assets/InitializeCesiumOrigin.cs:34-54 | nothing is read before the delay; the loop keeps polling while a coordinate is 0; the placed coordinates are those of the frame that passed the check; at most one placement |
| `Blades.DroneBladeController.constructor` | Assets/Scripts/DroneBladeController.cs:5-11 | speed 0, both flags false |
| `Blades.DroneBladeController.StartSpinning` | Assets/Scripts/DroneBladeController.cs:62-66 | spinning up, not spinning down |
| `Blades.DroneBladeController.StopSpinning` | Assets/Scripts/DroneBladeController.cs:71-75 | spinning down, not spinning up |
| `Blades.DroneBladeController.Update` | Assets/Scripts/DroneBladeController.cs:23-53 | keyword dispatch sets the flags ("Arming" first); no keyword, a null or an empty status leaves them; the flags are never both set; speed ramps and stays in [0, max] for non-negative rates and dt; unchanged with neither flag |
| `Blades.ContainsIff` | Assets/Scripts/DroneBladeController.cs:34 | ordinal Contains holds exactly when the key occurs at some position |
| `Blades.FirstCharAbsent` | Assets/Scripts/DroneBladeController.cs:34 | a key whose first character is absent from the text is not contained |
| `Blades.DisarmReportStopsSpinning` | Assets/Scripts/DroneBladeController.cs:34-41 | a status containing "Disarming" and no capital 'A' is read as disarm, not arming |
| `Blades.ArmingReportStartsSpinning` | Assets/Scripts/DroneBladeController.cs:34-37 | "Status: Arming motors" starts the blades |
| `Blades.DisarmingReportStopsSpinning` | Assets/Scripts/DroneBladeController.cs:38-41 | "Status: Disarming motors" stops them |
| `Blades.RampsStayInRange` | Assets/Scripts/DroneBladeController.cs:46-53 | spinning up never passes maxSpinSpeed; spinning down never drops below 0 |
| `Cameras.CameraManager.constructor` | Assets/Scripts/CameraManager.cs:5-6 | the current camera index starts at 0 |
| `Cameras.CameraManager.Start` | Assets/Scripts/CameraManager.cs:8-18 | a null or empty array activates nothing; otherwise the current index (0) is activated up to the first empty slot, and cameras held only in later slots are untouched |
| `Cameras.CameraManager.SwitchToNextCamera` | Assets/Scripts/CameraManager.cs:32-39 | index := (index + 1) % Length, kept in [0, Length), then activated up to the first empty slot, leaving cameras held only in later slots untouched; succeeds exactly when there are cameras and no slot is empty; without cameras the `% 0` failure changes nothing |
| `Cameras.CameraManager.SetActiveCamera` | Assets/Scripts/CameraManager.cs:45-63 | walks the slots in order and fails (ok false) at the first empty slot; every earlier slot's camera is enabled and tagged "MainCamera" exactly when it is the chosen one, else disabled and "Untagged" (for a repeated camera object the last write wins); cameras only in later slots are untouched; with every slot filled and distinct cameras, the enabled slots are exactly {index} |
| `Cameras.CameraManager.ActivatePrefix` | Assets/Scripts/CameraManager.cs:47-62 | the loop over the first n filled slots: each camera ends enabled and tagged exactly when the last slot holding it is the chosen index |
| `Cameras.FirstNull` | Assets/Scripts/CameraManager.cs:47-52 | the slot where the loop first dereferences an empty slot, or Length when none is empty |
| `Cameras.FirstNullPrefix` | Assets/Scripts/CameraManager.cs:47-52 | every slot before the first empty one holds a camera |
| `Cameras.LastSlotOfDistinct` | Assets/Scripts/CameraManager.cs:47-62 | without repeated camera objects, each slot's last write is its own |
| `Cameras.ExactlyOneEnabled` | Assets/Scripts/CameraManager.cs:47-62 | with distinct cameras all activated for index, each slot is enabled exactly when it is index, and the enabled slots are exactly {index} |
| `Cameras.NextIndexWraps` | Assets/Scripts/CameraManager.cs:35 | the next index is one further, wrapping from the last slot to 0 |
| `Cameras.AdvanceInRange` | Assets/Scripts/CameraManager.cs:35 | repeated switching from a valid index stays in [0, Length) |
| `Cameras.AdvanceNoWrap` | Assets/Scripts/CameraManager.cs:35 | before reaching the end, k switches move k slots on |
| `Cameras.FullCycle` | Assets/Scripts/CameraManager.cs:35 | Length consecutive switches return to the starting camera |
| `TileExcluder.CesiumBoxExcluder.OnEnable` | Assets/Scripts/CesiumBoxExcluder.cs:13-25 | the bounds take the collider's center and size |
| `TileExcluder.CesiumBoxExcluder.Update` | Assets/Scripts/CesiumBoxExcluder.cs:27-38 | with a camera the collider center follows it; the bounds get the collider's center and size |
| `TileExcluder.BoundsOf` | Assets/Scripts/CesiumBoxExcluder.cs:36-37 | bounds built from a center and size report that center and size |
| `TileExcluder.CompletelyContainsIff` | Assets/Scripts/CesiumBoxExcluder.cs:40-44 | CompletelyContains holds exactly when box.min <= tile.min and tile.max <= box.max on every axis |
| `TileExcluder.IntersectsIff` | Assets/Scripts/CesiumBoxExcluder.cs:58 | for boxes of non-negative size, Intersects is per-axis closed-interval overlap |
| `TileExcluder.EnclosedOverlaps` | Assets/Scripts/CesiumBoxExcluder.cs:40-58 | an enclosed tile of non-negative size overlaps the box |
| `TileExcluder.CesiumBoxExcluder.ShouldExclude` | Assets/Scripts/CesiumBoxExcluder.cs:46-59 | disabled: never excludes; invert: excludes exactly the tiles the box encloses; normal: excludes exactly the tiles it does not overlap |
| `TileExcluder.EnclosedTileKept` | Assets/Scripts/CesiumBoxExcluder.cs:46-59 | in normal mode a tile the box encloses is never excluded |

## Left out

- UDP socket setup, the listener thread, the `running` flag, `StopThread`/`Join`, `OnDisable`, `Thread.Sleep` and the receive timeout: I/O and concurrency. The loop is modelled as `ReceiveLoop` over the receptions it obtains. The unsynchronised sharing of fields between the two threads is not captured.
- MAVLink framing, CRC and parsing are a library that is not part of this model. A decoded message is a datatype, and any failure to obtain one is `ReceiveFailed` or `ParseFailed`. The `receivedBytes != null` and `mavMessage != null` checks cannot fail in .NET; their failures are covered by the same two cases.
- Raw MAVLink fields are unbounded `int`s; the int32 width is not enforced. Doubles and floats are `real`, so there is no rounding, and division by 1e7 is exact.
- The display strings (`F7`, `F2`, `F3` formatting), the TMP_Text binding and the `Debug.Log` calls are left out: they are UI and logging.
- Orientation is left out: the quaternion construction from roll/pitch/yaw, `slerp`, `rotationSmoothingFactor` and the `rotationEastUpNorth` writes. These are float trigonometry.
- Globe-anchor writes are left out as engine calls. The anchor's `currentPosition` and the origin's `origin` field hold the values that would be written.
- `initializeCesiumOrigin.IsInitialized` is not defined in Assets/InitializeCesiumOrigin.cs. It is an external boolean input of each frame.
- `ComputeLoadProgress`, the `SampleHeightMostDetailed` task and `WaitForTask` are per-frame inputs. A completed task is seen no earlier than the frame after it was issued. The result's `sampleSuccess` and `longitudeLatitudeHeightPositions` arrays are zipped into one sequence, so a length mismatch between them is not modelled.
- The `terrainTileset != null` test inside `SampleInitialTerrainHeight` always holds after the `Start` guards. A tileset destroyed later is not modelled.
- `WaitForSeconds(initializationDelay)` is modelled as the sum of the frames' `deltaTime` reaching the delay.
- The camera-to-local transform (`InverseTransformPoint`) in the excluder is an input, and `transform.Rotate` in the blade controller is left out. Both are engine transforms.
- Unity's approximate `Vector3 ==` in `CompletelyContains` is exact comparison here.
- The space-key polling in `CameraManager.Update` is left out: it is input handling. `SwitchToNextCamera` is its effect.
- TileExcluder.CesiumBoxExcluder.ShouldExclude: the normal-mode equivalence with interval overlap is stated only when both boxes have non-negative size. With a negative size, Unity's `Intersects` is not an overlap test.
- Blades.DisarmReportStopsSpinning: stated for status texts without a capital 'A'. A text holding both keywords is read as arming, since "Arming" is checked first.
- Assets/UDPReceiverDisplay.cs, Assets/UpdateCesiumAnchor.cs, Assets/Scripts/BottomDroneCamera.cs and Assets/Scripts/FollowDroneCamera.cs are older duplicates or camera free-look code. They are not part of this model.
