/**
 * The controls shared by the audio and video players: the play-mode
 * button's cycle, the volume icon, keyboard seeking, the progress bar and
 * which buttons show. Modes are the strings the players store; times and
 * volumes are real numbers.
 */
module MediaControls {
  import opened Common

  /** `MODE_CYCLE`. */
  const ModeCycle: seq<string> := ["order", "random", "loop"]

  /** `MODE_CYCLE.indexOf(mode)`, -1 for a mode outside the cycle. */
  function ModeIndex(mode: string): (r: int)
    ensures -1 <= r < |ModeCycle|
    ensures r >= 0 ==> ModeCycle[r] == mode
    ensures r == -1 <==> mode !in ModeCycle
  {
    if mode == "order" then 0 else if mode == "random" then 1 else if mode == "loop" then 2 else -1
  }

  /** `cycleMode`: the mode after this one in the cycle, wrapping round; an unknown mode goes to the first. */
  function CycleMode(mode: string): (r: string)
    ensures r in ModeCycle
  {
    ModeCycle[(ModeIndex(mode) + 1) % |ModeCycle|]
  }

  /** order, random and loop follow one another, and an unknown mode restarts at order. */
  lemma CycleOrder(mode: string)
    ensures CycleMode("order") == "random" && CycleMode("random") == "loop" && CycleMode("loop") == "order"
    ensures mode !in ModeCycle ==> CycleMode(mode) == "order"
  {
  }

  /** Three presses bring a mode of the cycle back. */
  lemma CycleThrice(mode: string)
    requires mode in ModeCycle
    ensures CycleMode(CycleMode(CycleMode(mode))) == mode
  {
  }

  datatype VolumeIcon = Mute | Down | Up

  /** `getVolumeIcon`. */
  function GetVolumeIcon(volume: real, muted: bool): (r: VolumeIcon)
    ensures r == Mute <==> muted || volume == 0.0
    ensures r == Down <==> !muted && volume != 0.0 && volume < 0.5
    ensures r == Up <==> !muted && volume >= 0.5
  {
    if muted || volume == 0.0 then Mute else if volume < 0.5 then Down else Up
  }

  /** A louder volume never shows a quieter icon. */
  lemma VolumeIconMonotone(v1: real, v2: real, muted: bool)
    requires 0.0 <= v1 <= v2
    ensures GetVolumeIcon(v1, muted) == Up ==> GetVolumeIcon(v2, muted) == Up
    ensures GetVolumeIcon(v2, muted) == Mute ==> GetVolumeIcon(v1, muted) == Mute
  {
  }

  /** The volume slider's position: 0 while muted. */
  function SliderValue(volume: real, muted: bool): (r: real)
    ensures muted ==> r == 0.0
    ensures !muted ==> r == volume
  {
    if muted then 0.0 else volume
  }

  /** The slider sits at 0 exactly when the mute icon shows. */
  lemma SliderAtZeroIffMuteIcon(volume: real, muted: bool)
    ensures SliderValue(volume, muted) == 0.0 <==> GetVolumeIcon(volume, muted) == Mute
  {
  }

  datatype Key = ArrowRight | ArrowLeft | OtherKey

  function Min(a: real, b: real): real { if a <= b then a else b }
  function Max(a: real, b: real): real { if a >= b then a else b }

  /** The seek a key on the progress bar asks for: five seconds on or back, not past either end. */
  function KeySeek(key: Key, currentTime: real, duration: real): (r: Option<real>)
    ensures r.Some? <==> key != OtherKey
    ensures key == ArrowRight ==> r == Some(Min(duration, currentTime + 5.0))
    ensures key == ArrowLeft ==> r == Some(Max(0.0, currentTime - 5.0))
  {
    match key
    case ArrowRight => Some(Min(duration, currentTime + 5.0))
    case ArrowLeft => Some(Max(0.0, currentTime - 5.0))
    case OtherKey => None
  }

  /** From a time inside the track, a key seek stays inside it and moves at most five seconds. */
  lemma KeySeekWithinTrack(key: Key, currentTime: real, duration: real)
    requires 0.0 <= currentTime <= duration && key != OtherKey
    ensures var t := KeySeek(key, currentTime, duration).value;
      0.0 <= t <= duration && currentTime - 5.0 <= t <= currentTime + 5.0
    ensures key == ArrowRight ==> KeySeek(key, currentTime, duration).value >= currentTime
    ensures key == ArrowLeft ==> KeySeek(key, currentTime, duration).value <= currentTime
  {
  }

  /** The progress bar's width in percent; 0 while the duration is not known. */
  function Progress(currentTime: real, duration: real): (r: real)
    ensures duration <= 0.0 ==> r == 0.0
  {
    if duration > 0.0 then (currentTime / duration) * 100.0 else 0.0
  }

  /** Within the track the bar stays between empty and full. */
  lemma ProgressBounded(currentTime: real, duration: real)
    requires 0.0 < duration && 0.0 <= currentTime <= duration
    ensures 0.0 <= Progress(currentTime, duration) <= 100.0
  {
    var q := currentTime / duration;
    assert q * duration == currentTime;
  }

  /** The seek a click on the bar asks for, at `ratio` of its width. */
  function ClickSeek(ratio: real, duration: real): (r: real) {
    Max(0.0, Min(1.0, ratio)) * duration
  }

  lemma ClickSeekWithinTrack(ratio: real, duration: real)
    requires 0.0 <= duration
    ensures 0.0 <= ClickSeek(ratio, duration) <= duration
  {
    var c := Max(0.0, Min(1.0, ratio));
    assert c * duration <= 1.0 * duration;
  }

  /** Which buttons show; both groups show unless switched off. */
  datatype Buttons = Buttons(mode: bool, prev: bool, next: bool)

  function ShownButtons(showModeButton: Option<bool>, showTrackButtons: Option<bool>): (r: Buttons)
    ensures showModeButton.None? ==> r.mode
    ensures showTrackButtons.None? ==> r.prev && r.next
    ensures showModeButton.Some? ==> r.mode == showModeButton.value
    ensures showTrackButtons.Some? ==> r.prev == showTrackButtons.value
    ensures r.prev == r.next
  {
    var mode := if showModeButton.Some? then showModeButton.value else true;
    var track := if showTrackButtons.Some? then showTrackButtons.value else true;
    Buttons(mode, track, track)
  }
}
