/** The per-camera state of the page and the events that change it: a frame handled by
    `inferAndDetect`, a firing of a countdown's interval, and the stop button. */
module Pipeline {
  import opened Wrappers
  import opened Settings
  import opened Geometry
  import opened Posture
  import opened Motion
  import opened Countdown

  /** A MediaRecorder's `state`; nothing here pauses a recorder. */
  datatype Recorder = Inactive | Recording

  /** The text of a camera's countdown line: empty before the first frame, "—" or "<n>s". */
  datatype CountText = Empty | Dash | Seconds(n: real)

  /** How the SMS request ended: an ok response, a non-ok status, or a thrown error. */
  datatype SmsReply = Accepted | Rejected(status: int) | TransportError

  datatype AlertOutcome = MissingCredentials | Sent(reply: SmsReply)

  /** The log line one `triggerAlert` call writes. */
  datatype AlertEvent = AlertEvent(camera: nat, outcome: AlertOutcome)

  class Monitor {
    const config: Config
    /** `zones[idx]`, unset (None) unless a polygon is configured for the camera. */
    const zones: seq<Option<Polygon>>
    /** `motionBuffers`: the previous frame of each camera, if any. */
    var motionBuffers: seq<Option<seq<int>>>
    /** `immobileTimers`. */
    var timers: seq<Slot>
    /** `recorders[idx].state`. */
    var recorders: seq<Recorder>
    /** `stateEl` and `countEl` of each camera. */
    var labels: seq<Label>
    var counts: seq<CountText>
    /** Alert log lines, oldest first, and the cameras whose still image was requested. */
    var alerts: seq<AlertEvent>
    var snapshots: seq<nat>

    ghost predicate Valid()
      reads this
    {
      && |zones| == CAM_COUNT && |motionBuffers| == CAM_COUNT && |timers| == CAM_COUNT
      && |recorders| == CAM_COUNT && |labels| == CAM_COUNT && |counts| == CAM_COUNT
      && forall i :: 0 <= i < CAM_COUNT && motionBuffers[i].Some? ==> ValidFrame(motionBuffers[i].value)
    }

    /** The state once `startCam` has run for every camera: a fresh inactive recorder, no
        stored frame and no countdown. */
    constructor (config: Config, zones: seq<Option<Polygon>>)
      requires |zones| == CAM_COUNT
      ensures Valid()
      ensures this.config == config && this.zones == zones
      ensures motionBuffers == seq(CAM_COUNT, _ => None) && timers == seq(CAM_COUNT, _ => Idle)
      ensures recorders == seq(CAM_COUNT, _ => Inactive)
      ensures labels == seq(CAM_COUNT, _ => Blank) && counts == seq(CAM_COUNT, _ => Empty)
      ensures alerts == [] && snapshots == []
    {
      this.config := config;
      this.zones := zones;
      motionBuffers := seq(CAM_COUNT, _ => None);
      timers := seq(CAM_COUNT, _ => Idle);
      recorders := seq(CAM_COUNT, _ => Inactive);
      labels := seq(CAM_COUNT, _ => Blank);
      counts := seq(CAM_COUNT, _ => Empty);
      alerts := [];
      snapshots := [];
    }

    /** The score `measureMotion(idx, frame)` returns in the current state. */
    ghost function MotionFor(idx: nat, frame: seq<int>): real
      reads this
      requires Valid() && idx < CAM_COUNT && ValidFrame(frame)
    {
      match motionBuffers[idx]
      case None => 0.0
      case Some(prev) => MotionScore(frame, prev)
    }

    /** `measureMotion`: 0 when no frame is stored yet, the mean RGB difference to the stored
        frame otherwise; the new frame replaces the stored one. */
    method MeasureMotion(idx: nat, frame: seq<int>) returns (motion: real)
      requires Valid() && idx < CAM_COUNT && ValidFrame(frame)
      modifies this`motionBuffers
      ensures Valid()
      ensures motion == old(MotionFor(idx, frame))
      ensures motionBuffers == old(motionBuffers)[idx := Some(frame)]
    {
      if motionBuffers[idx].None? {
        motionBuffers := motionBuffers[idx := Some(frame)];
        return 0.0;
      }
      var prev := motionBuffers[idx].value;
      var diff := FrameDifference(frame, prev);
      motionBuffers := motionBuffers[idx := Some(frame)];
      motion := diff as real / (FRAME_WIDTH * FRAME_HEIGHT) as real;
    }

    /** `startCountdown`: an armed slot only has its remaining seconds shown again; an idle one
        is armed with `countdownSec` and the given immobility. */
    method StartCountdown(idx: nat, immobile: bool)
      requires Valid() && idx < CAM_COUNT
      modifies this`timers, this`counts
      ensures Valid()
      ensures timers == old(timers)[idx := Start(old(timers[idx]), config.countdownSec, immobile)]
      ensures counts == old(counts)[idx := Seconds(timers[idx].remaining)]
    {
      if timers[idx].Armed? {
        counts := counts[idx := Seconds(timers[idx].remaining)];
        return;
      }
      var remaining := config.countdownSec;
      counts := counts[idx := Seconds(remaining)];
      timers := timers[idx := Armed(remaining, immobile)];
    }

    /** `clearCountdown`: the slot becomes idle (its interval is cleared). */
    method ClearCountdown(idx: nat)
      requires Valid() && idx < CAM_COUNT
      modifies this`timers
      ensures Valid()
      ensures timers == old(timers)[idx := Idle]
    {
      if timers[idx].Armed? {
        timers := timers[idx := Idle];
      }
    }

    /** `triggerAlert` without its network, clock and rendering: with a credential missing it
        only logs; otherwise it logs the SMS reply, requests a still image and makes sure the
        camera records. */
    method TriggerAlert(idx: nat, reply: SmsReply)
      requires Valid() && idx < CAM_COUNT
      modifies this`alerts, this`snapshots, this`recorders
      ensures Valid()
      ensures !HasCredentials(config) ==>
        alerts == old(alerts) + [AlertEvent(idx, MissingCredentials)] &&
        snapshots == old(snapshots) && recorders == old(recorders)
      ensures HasCredentials(config) ==>
        alerts == old(alerts) + [AlertEvent(idx, Sent(reply))] &&
        snapshots == old(snapshots) + [idx] && recorders == old(recorders)[idx := Recording]
    {
      if !HasCredentials(config) {
        alerts := alerts + [AlertEvent(idx, MissingCredentials)];
        return;
      }
      alerts := alerts + [AlertEvent(idx, Sent(reply))];
      snapshots := snapshots + [idx];
      if recorders[idx] == Inactive {
        recorders := recorders[idx := Recording];
      }
    }

    /** One firing of the countdown's interval callback; it fires only while the slot is armed.
        `reply` is what the SMS request would answer if this firing raises the alert. */
    method CountdownTick(idx: nat, reply: SmsReply)
      requires Valid() && idx < CAM_COUNT && timers[idx].Armed?
      modifies this`timers, this`labels, this`counts, this`alerts, this`snapshots, this`recorders
      ensures Valid()
      ensures timers == old(timers)[idx := Tick(old(timers[idx])).slot]
      ensures Tick(old(timers[idx])).event == MovementCancelled ==>
        labels == old(labels)[idx := Movement] && counts == old(counts)[idx := Dash] &&
        alerts == old(alerts) && snapshots == old(snapshots) && recorders == old(recorders)
      ensures Tick(old(timers[idx])).event != MovementCancelled ==>
        labels == old(labels) && counts == old(counts)[idx := Seconds(old(timers[idx]).remaining - 1.0)]
      ensures Tick(old(timers[idx])).event == Counted ==>
        alerts == old(alerts) && snapshots == old(snapshots) && recorders == old(recorders)
      ensures Tick(old(timers[idx])).event == AlertFired ==>
        |alerts| == |old(alerts)| + 1 && alerts[..|old(alerts)|] == old(alerts) && alerts[|old(alerts)|].camera == idx
      ensures Tick(old(timers[idx])).event == AlertFired && !HasCredentials(config) ==>
        alerts == old(alerts) + [AlertEvent(idx, MissingCredentials)] &&
        snapshots == old(snapshots) && recorders == old(recorders)
      ensures Tick(old(timers[idx])).event == AlertFired && HasCredentials(config) ==>
        alerts == old(alerts) + [AlertEvent(idx, Sent(reply))] &&
        snapshots == old(snapshots) + [idx] && recorders == old(recorders)[idx := Recording]
    {
      var t := timers[idx];
      if !t.immobile {
        ClearCountdown(idx);
        labels := labels[idx := Movement];
        counts := counts[idx := Dash];
        return;
      }
      var remaining := t.remaining - 1.0;
      timers := timers[idx := Armed(remaining, t.immobile)];
      counts := counts[idx := Seconds(remaining)];
      if remaining <= 0.0 {
        ClearCountdown(idx);
        TriggerAlert(idx, reply);
      }
    }

    /** The decision block of `inferAndDetect` for one frame of camera `idx`, given the
        detector's output: the fall branch arms the countdown with this frame's immobility and
        starts the recorder; the OK branch clears the countdown and stops the recorder. */
    method InferAndDetect(idx: nat, dets: seq<Detection>, frame: seq<int>)
      requires Valid() && idx < CAM_COUNT && ValidFrame(frame)
      modifies this`motionBuffers, this`timers, this`labels, this`counts, this`recorders
      ensures Valid()
      ensures motionBuffers == old(motionBuffers)[idx := Some(frame)]
      ensures labels == old(labels)[idx := Decide(idx, dets, zones[idx], config.scoreMin)]
      ensures Decide(idx, dets, zones[idx], config.scoreMin) == OnFloor ==>
        timers == old(timers)[idx := Start(old(timers[idx]), config.countdownSec,
                                           old(MotionFor(idx, frame)) < config.motionThresh)] &&
        counts == old(counts)[idx := Seconds(timers[idx].remaining)] &&
        recorders == old(recorders)[idx := Recording]
      ensures Decide(idx, dets, zones[idx], config.scoreMin) != OnFloor ==>
        timers == old(timers)[idx := Idle] && counts == old(counts)[idx := Dash] &&
        recorders == old(recorders)[idx := Inactive]
    {
      var verdict := Decide(idx, dets, zones[idx], config.scoreMin);
      var motion := MeasureMotion(idx, frame);
      var immobile := motion < config.motionThresh;
      if verdict == OnFloor {
        labels := labels[idx := OnFloor];
        StartCountdown(idx, immobile);
        if recorders[idx] == Inactive {
          recorders := recorders[idx := Recording];
        }
      } else {
        labels := labels[idx := verdict];
        ClearCountdown(idx);
        if recorders[idx] != Inactive {
          recorders := recorders[idx := Inactive];
        }
        counts := counts[idx := Dash];
      }
    }

    /** The per-camera loop of `stopAll`: every recorder stopped, every countdown cleared. */
    method StopAll()
      requires Valid()
      modifies this`recorders, this`timers
      ensures Valid()
      ensures forall i :: 0 <= i < CAM_COUNT ==> recorders[i] == Inactive && timers[i] == Idle
    {
      var i := 0;
      while i < CAM_COUNT
        invariant 0 <= i <= CAM_COUNT
        invariant Valid()
        invariant forall k :: 0 <= k < i ==> recorders[k] == Inactive && timers[k] == Idle
      {
        if recorders[i] != Inactive {
          recorders := recorders[i := Inactive];
        }
        ClearCountdown(i);
        i := i + 1;
      }
    }
  }
}
