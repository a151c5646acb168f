/** The optional value used for the "null or something" slots of the per-camera arrays. */
module Wrappers {
  datatype Option<+T> = None | Some(value: T)
}

/** Fixed constants and the configuration record shared by every camera. */
module Settings {
  /** Number of camera pipelines. */
  const CAM_COUNT: nat := 4
  /** The overlay canvas every frame is read from is 640 x 480 pixels. */
  const FRAME_WIDTH: nat := 640
  const FRAME_HEIGHT: nat := 480

  /** `config`: confidence floor, motion threshold, countdown length and SMS credentials. The
      countdown length is a JavaScript number, not necessarily a whole one. */
  datatype Config = Config(scoreMin: real, motionThresh: real, countdownSec: real, user: string, pass: string)

  /** The values used when no configuration file overrides them. */
  const DEFAULT_CONFIG: Config := Config(0.35, 12.0, 30.0, "", "")

  /** Both SMS credentials are non-empty strings (an empty string is falsy in JavaScript). */
  predicate HasCredentials(c: Config) {
    c.user != "" && c.pass != ""
  }
}
