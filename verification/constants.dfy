/**
  The gesture constants shared by the touchscreen-gesture dispatcher: the ids of
  the actions a gesture can be bound to, and the scan codes the touch panel
  reports for the gestures it recognises.
 */
module Constants {

  // Screen-off gesture action ids.
  const ACTION_BACK: int := 2
  const ACTION_HOME: int := 3
  const ACTION_RECENTS: int := 4
  const ACTION_UP: int := 5
  const ACTION_DOWN: int := 6
  const ACTION_LEFT: int := 7
  const ACTION_RIGHT: int := 8
  const ACTION_ASSISTANT: int := 9
  const ACTION_WAKE_UP: int := 10
  const ACTION_SCREENSHOT: int := 11
  const ACTION_SCREEN_OFF: int := 12
  const ACTION_FLASHLIGHT: int := 13
  const ACTION_CAMERA: int := 14
  const ACTION_BROWSER: int := 15
  const ACTION_DIALER: int := 16
  const ACTION_EMAIL: int := 17
  const ACTION_MESSAGES: int := 18
  const ACTION_PLAY_PAUSE_MUSIC: int := 19
  const ACTION_PREVIOUS_TRACK: int := 20
  const ACTION_NEXT_TRACK: int := 21
  const ACTION_VOLUME_DOWN: int := 22
  const ACTION_VOLUME_UP: int := 23
  const ACTION_CAMERA_MOTOR: int := 24
  const ACTION_FM_RADIO: int := 25

  // Scan codes of the gestures the touch panel reports.
  const GESTURE_DOUBLE_CLICK: int := 116
  const GESTURE_SWIPE_UP: int := 103
  const GESTURE_W: int := 17
  const GESTURE_S: int := 31
  const GESTURE_E: int := 18
  const GESTURE_C: int := 46
  const GESTURE_Z: int := 44
  const GESTURE_V: int := 47

  /** The supported scan-code table, in declaration order. */
  const SupportedKeycodes: seq<int> := [
    GESTURE_DOUBLE_CLICK,
    GESTURE_SWIPE_UP,
    GESTURE_W,
    GESTURE_S,
    GESTURE_E,
    GESTURE_C,
    GESTURE_Z,
    GESTURE_V
  ]

  /** Every action id, in declaration order (the source declares them one by one). */
  const ActionIds: seq<int> := [
    ACTION_BACK, ACTION_HOME, ACTION_RECENTS, ACTION_UP, ACTION_DOWN, ACTION_LEFT,
    ACTION_RIGHT, ACTION_ASSISTANT, ACTION_WAKE_UP, ACTION_SCREENSHOT, ACTION_SCREEN_OFF,
    ACTION_FLASHLIGHT, ACTION_CAMERA, ACTION_BROWSER, ACTION_DIALER, ACTION_EMAIL,
    ACTION_MESSAGES, ACTION_PLAY_PAUSE_MUSIC, ACTION_PREVIOUS_TRACK, ACTION_NEXT_TRACK,
    ACTION_VOLUME_DOWN, ACTION_VOLUME_UP, ACTION_CAMERA_MOTOR, ACTION_FM_RADIO
  ]

  /** No value occurs twice in `s`. */
  predicate Distinct(s: seq<int>) {
    forall i, j :: 0 <= i < j < |s| ==> s[i] != s[j]
  }

  /** The 24 action ids are pairwise distinct and are exactly the integers 2..25. */
  lemma ActionIdsAreTwoToTwentyFive()
    ensures |ActionIds| == 24
    ensures Distinct(ActionIds)
    ensures forall n :: n in ActionIds <==> 2 <= n <= 25
  {
    assert forall i :: 0 <= i < |ActionIds| ==> ActionIds[i] == i + 2;
  }

  /** Every action id is positive, so it passes both the `action < 0` and the
      `action != 0` gates of the dispatcher. */
  lemma ActionIdsArePositive()
    ensures forall i :: 0 <= i < |ActionIds| ==> ActionIds[i] > 0
  {
    ActionIdsAreTwoToTwentyFive();
  }

  /** The supported table holds exactly the eight gesture scan codes, each once. */
  lemma SupportedKeycodesAreTheGestures()
    ensures |SupportedKeycodes| == 8
    ensures Distinct(SupportedKeycodes)
    ensures forall c :: c in SupportedKeycodes <==>
      c in {GESTURE_DOUBLE_CLICK, GESTURE_SWIPE_UP, GESTURE_W, GESTURE_S,
            GESTURE_E, GESTURE_C, GESTURE_Z, GESTURE_V}
  {
  }

  /** The wake gesture and the camera gesture are both supported scan codes. */
  lemma WakeAndCameraCodesSupported()
    ensures GESTURE_DOUBLE_CLICK in SupportedKeycodes
    ensures GESTURE_C in SupportedKeycodes
  {
  }
}
