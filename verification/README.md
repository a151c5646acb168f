# Fall detection per camera: a verified model

This project models the decision logic of a browser page that watches four cameras and raises an alert when a person seems to have fallen and stays still. The detector, the browser and the network are left out. What is modelled, module by module:

- **Geometry**: the ray-casting point-in-polygon test used by the zone filter. `PointInPolygon` is the loop; `Inside` is its specification, the parity of the number of edges that cross the ray going right from the point.
- **Posture**: the two box-ratio heuristics (lying down, sitting), the bed-zone stub, the centroid zone test, the class/score/zone filter and the per-frame verdict (`Decide`). Division by a zero box side follows JavaScript: it gives +Infinity, -Infinity or NaN, and only +Infinity passes a ratio test.
- **Motion**: the frame difference. It sums |dR| + |dG| + |dB| over an RGBA byte array, skipping alpha. `FrameDifference` is the loop. `MotionScore` divides the sum by the 640 x 480 pixel count.
- **Countdown**: a camera's countdown slot is either idle or armed with `remaining` and the `immobile` flag captured when it was armed. `Start` arms an idle slot. `Tick` is one firing of the one-second interval. `Run` is k firings in a row.
- **Pipeline**: the class `Monitor` holds the per-camera arrays: stored frames, countdown slots, recorder states, state and countdown labels, plus the alert log and the still-image requests. Its methods are the page's atomic events: one frame through the decision block, one interval firing, the alert, and the stop button.
- **Scenarios**: client methods that drive camera 0 through whole sequences of events using only the class contracts.

Coordinates, ratios, the final motion division and the countdown length (a JavaScript number, possibly fractional) use exact `real`. The difference accumulator is an `int`, which is exact here: at most 765 x 307200 fits well inside the 2^53 that JavaScript numbers represent exactly. Pixel bytes are ints in 0..255.

The comment at app.js:220 says that movement cancels the countdown. The model follows the code as written:

- The interval callback tests the `immobile` flag captured when the countdown was armed (app.js:219-221). A frame arriving while a countdown is armed does not change that flag (app.js:212-215). So movement seen after arming does not cancel the countdown, and the alert still fires (`Scenarios.MovementAfterArmingStillAlerts`). A countdown armed on a moving frame is cancelled at its first firing instead.
- With a credential missing, `triggerAlert` returns right after logging (app.js:245). No still image is requested and the recorder is not started by the alert (`Pipeline.Monitor.TriggerAlert`, `Scenarios.MissingCredentialsOnlyLogs`).
- There is no alert cooldown, no retry and no per-camera last-alert timestamp in the code. Nothing models them.
- Zones have no include/exclude kind. A camera has at most one polygon, and only the centroid is tested against it. An empty polygon array is truthy in JavaScript, so it rejects every detection (`Some([])`). An unset zone lets every detection pass (`None`). Nothing in the code ever assigns a zone, so the `Monitor` constructor takes the zones as configuration.

## Model

| member | source | states |
|---|---|---|
| Geometry.PointInPolygon | app.js:183-193 | the result is true iff an odd number of the edges (vertex i paired with its cyclic predecessor) pass the crossing test; no vertices gives false |
| Geometry.CrossingX | app.js:189 | the abscissa the crossing test compares against is where the edge's line meets the ray's height |
| Geometry.ExactCrossing | app.js:188-189 | the 1e-6 fallback denominator is never used: the division only runs for an edge straddling the ray's height, so the test is the exact comparison with the crossing abscissa |
| Geometry.CrossingWithinEdge | app.js:188-189 | for a straddling edge the crossing abscissa lies between the edge's end points |
| Geometry.InsideRotationInvariant | app.js:183-193 | the result does not depend on which vertex the list starts with (any cyclic rotation) |
| Geometry.OutsideVerticalSpan | app.js:188 | a point at or above every vertex, or below every vertex, is outside |
| Geometry.OutsideRightOfVertices | app.js:188-190 | a point at or right of every vertex is outside |
| Geometry.EmptyPolygonContainsNothing | app.js:184-192 | an empty vertex list contains no point |
| Posture.Persons | app.js:115 | keeps exactly the detections of class "person" with score at least scoreMin |
| Posture.InZoneOnly | app.js:118-121 | keeps exactly the detections passing the camera's zone test |
| Posture.Decide | app.js:115-134 | the fall branch is taken iff some person/score/zone candidate lies down and none sits (the bed-zone term never matters); otherwise the label is "Assis(e)" iff some candidate sits, else "OK" |
| Posture.LyingDownWithoutDivision | app.js:162-166 | for positive height: lying iff width > 1.4 x height or the bottom edge is below 360 |
| Posture.SittingWithoutDivision | app.js:168-171 | for positive width: sitting iff height > 1.2 x width |
| Posture.BothPosturesOnlyNearFloor | app.js:162-171 | a positive box that is both lying and sitting has its bottom edge below 360 (the two ratio tests exclude each other) |
| Posture.TallBoxNearFloorReadsSeated | app.js:126-142 | a tall box reaching below 360 is both lying and sitting, and as a candidate it yields the OK branch labelled "Assis(e)" |
| Posture.NoZoneKeepsEveryPerson | app.js:118-121 | with no zone set, the candidates are exactly the persons |
| Posture.ZoneTestUsesCentroid | app.js:178-182 | two boxes with the same centroid pass or fail the zone test together |
| Posture.CentroidRightOfZoneIsExcluded | app.js:178-193 | a box whose centroid is right of every zone vertex is filtered out |
| Posture.NoDetectionsIsClear | app.js:126-142 | an empty detection list yields the OK branch labelled "OK" |
| Motion.FrameDifference | app.js:202-206 | the accumulated difference is the sum over pixels of the three colour-channel absolute differences, alpha skipped |
| Motion.IdenticalFramesNoMotion | app.js:202-208 | identical frames give a score of 0 |
| Motion.MotionSymmetric | app.js:202-208 | swapping the new and the stored frame does not change the score |
| Motion.MotionBounded | app.js:202-208 | the score lies between 0 and 765 |
| Motion.MotionIgnoresAlpha | app.js:204-205 | changing only alpha bytes does not change the score |
| Motion.UniformChangeLowerBound | app.js:202-208 | if every pixel's colour difference is at least c, the score is at least c |
| Countdown.Tick | app.js:219-234 | a slot armed while moving is cleared without alert; an immobile slot with more than one second left stays armed with exactly one second less; an immobile slot with at most one second left is cleared and the alert fires |
| Countdown.AlertTick | app.js:227-230 | the firing that raises the alert is the first k >= 1 with countdownSec - k <= 0 (the ceiling of a fractional length) |
| Countdown.Run | app.js:219-240 | any number of firings raises at most one alert, and after it the slot is idle |
| Countdown.ImmobileCountdownAlertsOnce | app.js:217-234 | an immobile countdown of n seconds shows n - k after k firings and raises its single alert on firing AlertTick(n), with nothing after |
| Countdown.FractionalCountdownRoundsUp | app.js:217-230 | a 2.5-second countdown shows 0.5 after two firings and alerts on the third |
| Countdown.MovingCountdownNeverAlerts | app.js:219-226 | a countdown armed while moving is cancelled by its first firing and never alerts |
| Countdown.StartKeepsArmedSlot | app.js:211-216 | starting an armed countdown keeps its remaining seconds and its captured immobility |
| Countdown.RestartUsesFullCountdown | app.js:217-219 | starting an idle slot arms it with the full configured countdown |
| Countdown.RemainingNeverGrows | app.js:227-228 | while armed, remaining after k firings is the initial value minus k |
| Pipeline.Monitor.constructor | app.js:64-67 | every camera starts with an inactive recorder, no stored frame and no countdown |
| Pipeline.Monitor.MeasureMotion | app.js:195-209 | returns 0 when no frame is stored, otherwise the motion score against the stored frame; the new frame is stored; nothing else changes |
| Pipeline.Monitor.StartCountdown | app.js:211-219 | only slot idx changes: kept if armed, armed with the configured countdown otherwise; the countdown line shows the slot's remaining seconds |
| Pipeline.Monitor.ClearCountdown | app.js:237-240 | slot idx becomes idle (so a second call changes nothing); the other slots are untouched |
| Pipeline.Monitor.TriggerAlert | app.js:242-266 | with a credential missing only a "missing credentials" log line is added; otherwise the SMS reply is logged, a still image is requested and the camera's recorder is recording |
| Pipeline.Monitor.CountdownTick | app.js:219-234 | slot idx moves as Tick says; a cancel writes "Mouvement détecté" and a dash, a count shows the new remaining, an expiry adds exactly one alert for camera idx |
| Pipeline.Monitor.InferAndDetect | app.js:114-146 | the label is the verdict; the fall branch starts the countdown with this frame's immobility and leaves the recorder recording; the OK branch clears the countdown, shows a dash and leaves the recorder inactive; the frame is stored |
| Pipeline.Monitor.StopAll | app.js:84-89 | afterwards every camera's countdown slot is idle and every recorder inactive |
| Scenarios.ImmobileFallAlertsOnce | app.js:130-234 | threshold 12, 3 s countdown, a still prone person: the countdown line shows 3, 2, 1, 0 and exactly one alert is sent |
| Scenarios.MovementAfterArmingStillAlerts | app.js:211-234 | a frame showing full movement after arming does not cancel the countdown; the alert is still sent |
| Scenarios.MovingFallRestartsFullCountdown | app.js:130-136 | a countdown armed on a moving frame is cancelled with "Mouvement détecté" and no alert; the next still frame re-arms it from the full 3 s |
| Scenarios.SittingVetoesFall | app.js:126-145 | a box both lying and sitting keeps the camera labelled "Assis(e)", with no countdown and no recording |
| Scenarios.MissingCredentialsOnlyLogs | app.js:242-245 | with a credential missing the alert is logged as such and no still image is requested |
| Scenarios.StopCancelsCountdown | app.js:81-89 | after stop, the armed countdown is gone and the recorder is inactive |

## Left out

- Configuration loading, the UI bindings that edit the configuration, and the zone editor. The configuration and zones are constructor arguments of `Monitor` and never change.
- Camera start-up (`getUserMedia`, creating the MediaRecorder). The `Monitor` constructor is the state once every camera has started. So `stopAll`'s "no recorder yet" guard is always passed in the model, and stopping the video tracks is not modelled.
- The TF.js model, tensor preparation and `parseDetections`, which is a stub returning no detections. Detections are an argument of `InferAndDetect`.
- Drawing, saving clips and captures, focusing a camera. The state and countdown lines become the `Label` and `CountText` enums.
- `triggerAlert`'s message text, the clock, the SMS request itself (its reply is an argument), the screenshot encoding, and the 30-second delayed recorder stop.
- The animation-frame loop and the overlapping un-awaited `inferAndDetect` calls. Each frame and each interval firing is one atomic event. The asynchronous tail of `triggerAlert` runs at once.
- Pipeline.Monitor.CountdownTick: it requires the slot to be armed. A cleared interval never fires, so this is the only way it can be called.
- Floating point. Ratios, coordinates, the motion division and the countdown length are exact reals, so rounding, NaN and infinite values are not modelled. The one exception is the JavaScript division by a zero box side, which is modelled.
- Config.countdownSec: a non-numeric countdown field makes the length NaN, and since NaN <= 0 is false such a countdown never alerts. A real has no NaN, so the model does not capture this. Fractional and negative lengths are modelled.
