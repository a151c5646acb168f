/** Camera 0 driven through whole sequences of frames and interval firings, with what the
    class contracts alone let a caller conclude. */
module Scenarios {
  import opened Wrappers
  import opened Settings
  import opened Geometry
  import opened Posture
  import opened Motion
  import opened Countdown
  import opened Pipeline

  /** An all-black frame and an all-white frame (alpha included). */
  function Black(): (f: seq<int>)
    ensures ValidFrame(f)
  {
    seq(4 * PIXELS, _ => 0)
  }

  function White(): (f: seq<int>)
    ensures ValidFrame(f)
  {
    seq(4 * PIXELS, _ => 255)
  }

  /** Going from black to white moves every colour byte by 255. */
  lemma BlackToWhiteIsMovement()
    ensures MotionScore(White(), Black()) >= 765.0
  {
    var w, b := White(), Black();
    forall p | 0 <= p < PIXELS
      ensures PixelDiff(w, b, p) >= 765
    {
      assert w[4 * p] == 255 && w[4 * p + 1] == 255 && w[4 * p + 2] == 255;
      assert b[4 * p] == 0 && b[4 * p + 1] == 0 && b[4 * p + 2] == 0;
    }
    UniformChangeLowerBound(w, b, 765);
  }

  /** A wide, confident person box, high in the frame: lying down, not sitting. */
  const PRONE: Detection := Detection(100.0, 200.0, 200.0, 100.0, 0.9, "person")
  /** A tall person box reaching below the 360-pixel line: both lying and sitting. */
  const SEATED: Detection := Detection(100.0, 200.0, 100.0, 200.0, 0.9, "person")

  const NO_ZONES: seq<Option<Polygon>> := seq(CAM_COUNT, _ => None)

  lemma ProneIsFall(zone: Option<Polygon>, scoreMin: real)
    requires zone.None? && scoreMin <= 0.9
    ensures Decide(0, [PRONE], zone, scoreMin) == OnFloor
  {
    LyingDownWithoutDivision(PRONE);
    SittingWithoutDivision(PRONE);
    assert PRONE in [PRONE] && IsCandidate(PRONE, zone, scoreMin) && IsLyingDown(PRONE);
    assert forall d :: d in [PRONE] ==> d == PRONE;
  }

  /** The default threshold of 12, a 3-second countdown, a person lying still: the countdown line shows
      3, 2, 1, 0 and exactly one alert goes out, on the third firing. */
  method ImmobileFallAlertsOnce() returns (shown: seq<CountText>, log: seq<AlertEvent>, slot: Slot)
    ensures shown == [Seconds(3.0), Seconds(2.0), Seconds(1.0), Seconds(0.0)]
    ensures log == [AlertEvent(0, Sent(Accepted))] && slot == Idle
  {
    var m := new Monitor(DEFAULT_CONFIG.(countdownSec := 3.0, user := "user", pass := "pass"), NO_ZONES);
    ProneIsFall(NO_ZONES[0], DEFAULT_CONFIG.scoreMin);
    m.InferAndDetect(0, [PRONE], Black());
    shown := [m.counts[0]];
    m.CountdownTick(0, Accepted);
    shown := shown + [m.counts[0]];
    m.InferAndDetect(0, [PRONE], Black());
    m.CountdownTick(0, Accepted);
    shown := shown + [m.counts[0]];
    m.InferAndDetect(0, [PRONE], Black());
    assert m.timers[0] == Armed(1.0, true);
    m.CountdownTick(0, Accepted);
    shown := shown + [m.counts[0]];
    log, slot := m.alerts, m.timers[0];
  }

  /** The interval tests the immobility captured when the countdown was armed: frames showing
      full movement while the person is still lying down do not cancel it, and the alert still
      goes out. */
  method MovementAfterArmingStillAlerts() returns (log: seq<AlertEvent>, ghost laterMotion: real)
    ensures laterMotion >= 12.0
    ensures log == [AlertEvent(0, Sent(Accepted))]
  {
    var m := new Monitor(DEFAULT_CONFIG.(countdownSec := 2.0, user := "user", pass := "pass"), NO_ZONES);
    ProneIsFall(NO_ZONES[0], DEFAULT_CONFIG.scoreMin);
    m.InferAndDetect(0, [PRONE], Black());
    m.CountdownTick(0, Accepted);
    laterMotion := m.MotionFor(0, White());
    BlackToWhiteIsMovement();
    m.InferAndDetect(0, [PRONE], White());
    m.CountdownTick(0, Accepted);
    log := m.alerts;
  }

  /** A countdown armed on a moving frame is cancelled by its first firing with "Mouvement
      détecté" and no alert; the next still frame arms it again from the full 3 seconds. */
  method MovingFallRestartsFullCountdown() returns (status: Label, log: seq<AlertEvent>, slot: Slot)
    ensures status == Movement && log == [] && slot == Armed(3.0, true)
  {
    var m := new Monitor(DEFAULT_CONFIG.(countdownSec := 3.0, user := "user", pass := "pass"), NO_ZONES);
    NoDetectionsIsClear(0, NO_ZONES[0], DEFAULT_CONFIG.scoreMin);
    m.InferAndDetect(0, [], Black());
    ProneIsFall(NO_ZONES[0], DEFAULT_CONFIG.scoreMin);
    BlackToWhiteIsMovement();
    m.InferAndDetect(0, [PRONE], White());
    assert m.timers[0] == Armed(3.0, false);
    m.CountdownTick(0, Accepted);
    status := m.labels[0];
    IdenticalFramesNoMotion(White());
    m.InferAndDetect(0, [PRONE], White());
    log, slot := m.alerts, m.timers[0];
  }

  /** A box that is both lying and sitting: the sitting veto keeps the camera in the OK branch,
      labelled "Assis(e)", with no countdown and no recording. */
  method SittingVetoesFall() returns (status: Label, slot: Slot, recorder: Recorder)
    ensures status == Seated && slot == Idle && recorder == Inactive
  {
    var m := new Monitor(DEFAULT_CONFIG.(countdownSec := 3.0, user := "user", pass := "pass"), NO_ZONES);
    TallBoxNearFloorReadsSeated(0, [SEATED], NO_ZONES[0], DEFAULT_CONFIG.scoreMin, SEATED);
    m.InferAndDetect(0, [SEATED], Black());
    status, slot, recorder := m.labels[0], m.timers[0], m.recorders[0];
  }

  /** With a credential missing the alert is only logged: no still image is requested. */
  method MissingCredentialsOnlyLogs() returns (log: seq<AlertEvent>, stills: seq<nat>)
    ensures log == [AlertEvent(0, MissingCredentials)] && stills == []
  {
    var m := new Monitor(DEFAULT_CONFIG.(countdownSec := 1.0, user := "user"), NO_ZONES);
    ProneIsFall(NO_ZONES[0], DEFAULT_CONFIG.scoreMin);
    m.InferAndDetect(0, [PRONE], Black());
    m.CountdownTick(0, Accepted);
    log, stills := m.alerts, m.snapshots;
  }

  /** After the stop button every recorder is inactive and no countdown is left to fire. */
  method StopCancelsCountdown() returns (slot: Slot, recorder: Recorder)
    ensures slot == Idle && recorder == Inactive
  {
    var m := new Monitor(DEFAULT_CONFIG.(countdownSec := 3.0, user := "user", pass := "pass"), NO_ZONES);
    ProneIsFall(NO_ZONES[0], DEFAULT_CONFIG.scoreMin);
    m.InferAndDetect(0, [PRONE], Black());
    m.StopAll();
    slot, recorder := m.timers[0], m.recorders[0];
  }
}
