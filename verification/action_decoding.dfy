/**
  The message handler's switch: the integer carried by a gesture message
  selects one of 24 actions, and any other integer selects none. What each
  action does (key injection, camera, audio, activity launch) is outside the
  model; only which action is selected is modelled.
 */
module ActionDecoding {
  import opened Options
  import C = Constants

  datatype GestureAction =
    | Back | Home | Recents | Up | Down | Left | Right | Assistant
    | WakeUp | Screenshot | ScreenOff | Flashlight | Camera | Browser
    | Dialer | Email | Messages | PlayPauseMusic | PreviousTrack | NextTrack
    | VolumeDown | VolumeUp | CameraMotor | FmRadio

  /** The action id a handler is registered under in the switch. */
  function Id(a: GestureAction): (n: int)
    ensures 2 <= n <= 25
  {
    match a
    case Back => C.ACTION_BACK
    case Home => C.ACTION_HOME
    case Recents => C.ACTION_RECENTS
    case Up => C.ACTION_UP
    case Down => C.ACTION_DOWN
    case Left => C.ACTION_LEFT
    case Right => C.ACTION_RIGHT
    case Assistant => C.ACTION_ASSISTANT
    case WakeUp => C.ACTION_WAKE_UP
    case Screenshot => C.ACTION_SCREENSHOT
    case ScreenOff => C.ACTION_SCREEN_OFF
    case Flashlight => C.ACTION_FLASHLIGHT
    case Camera => C.ACTION_CAMERA
    case Browser => C.ACTION_BROWSER
    case Dialer => C.ACTION_DIALER
    case Email => C.ACTION_EMAIL
    case Messages => C.ACTION_MESSAGES
    case PlayPauseMusic => C.ACTION_PLAY_PAUSE_MUSIC
    case PreviousTrack => C.ACTION_PREVIOUS_TRACK
    case NextTrack => C.ACTION_NEXT_TRACK
    case VolumeDown => C.ACTION_VOLUME_DOWN
    case VolumeUp => C.ACTION_VOLUME_UP
    case CameraMotor => C.ACTION_CAMERA_MOTOR
    case FmRadio => C.ACTION_FM_RADIO
  }

  /** The switch of the message handler: the message argument selects at most
      one action; ids outside 2..25 fall through every case. */
  function Decode(arg1: int): (r: Option<GestureAction>)
    ensures r.Some? <==> 2 <= arg1 <= 25
  {
    if arg1 == C.ACTION_BACK then Some(Back)
    else if arg1 == C.ACTION_HOME then Some(Home)
    else if arg1 == C.ACTION_RECENTS then Some(Recents)
    else if arg1 == C.ACTION_UP then Some(Up)
    else if arg1 == C.ACTION_DOWN then Some(Down)
    else if arg1 == C.ACTION_LEFT then Some(Left)
    else if arg1 == C.ACTION_RIGHT then Some(Right)
    else if arg1 == C.ACTION_ASSISTANT then Some(Assistant)
    else if arg1 == C.ACTION_WAKE_UP then Some(WakeUp)
    else if arg1 == C.ACTION_SCREENSHOT then Some(Screenshot)
    else if arg1 == C.ACTION_SCREEN_OFF then Some(ScreenOff)
    else if arg1 == C.ACTION_CAMERA then Some(Camera)
    else if arg1 == C.ACTION_FLASHLIGHT then Some(Flashlight)
    else if arg1 == C.ACTION_BROWSER then Some(Browser)
    else if arg1 == C.ACTION_DIALER then Some(Dialer)
    else if arg1 == C.ACTION_EMAIL then Some(Email)
    else if arg1 == C.ACTION_MESSAGES then Some(Messages)
    else if arg1 == C.ACTION_PLAY_PAUSE_MUSIC then Some(PlayPauseMusic)
    else if arg1 == C.ACTION_PREVIOUS_TRACK then Some(PreviousTrack)
    else if arg1 == C.ACTION_NEXT_TRACK then Some(NextTrack)
    else if arg1 == C.ACTION_VOLUME_DOWN then Some(VolumeDown)
    else if arg1 == C.ACTION_VOLUME_UP then Some(VolumeUp)
    else if arg1 == C.ACTION_CAMERA_MOTOR then Some(CameraMotor)
    else if arg1 == C.ACTION_FM_RADIO then Some(FmRadio)
    else None
  }

  /** Decoding an action's own id selects that action: each handler is reached
      by exactly one id. */
  lemma DecodeId(a: GestureAction)
    ensures Decode(Id(a)) == Some(a)
  {
  }

  /** Every label of the switch is one of the declared action ids. */
  lemma IdIsAnActionId(a: GestureAction)
    ensures Id(a) in C.ActionIds
  {
    C.ActionIdsAreTwoToTwentyFive();
  }

  /** Whatever the switch selects is the action registered under that id. */
  lemma DecodeSelectsById(arg1: int)
    ensures Decode(arg1).Some? ==> Id(Decode(arg1).value) == arg1
  {
  }

  /** Distinct actions have distinct ids. */
  lemma IdInjective(a: GestureAction, b: GestureAction)
    ensures Id(a) == Id(b) ==> a == b
  {
    DecodeId(a);
    DecodeId(b);
  }
}
