/**
 * The video player's controls. The mode cycle, the volume icon and
 * slider, the progress bar and keyboard seeking are the shared controls'
 * (module MediaControls); what differs is which buttons show and the
 * fullscreen button.
 */
module VideoControls {
  import opened Common
  import opened MediaControls

  /** Which buttons show: the mode button and both track buttons all hang on `showTrackButtons`. */
  function VideoButtons(showTrackButtons: bool): (r: Buttons)
    ensures r.mode == showTrackButtons && r.prev == showTrackButtons && r.next == showTrackButtons
  {
    Buttons(showTrackButtons, showTrackButtons, showTrackButtons)
  }

  /** The video buttons are the shared controls' buttons with both switches set to `showTrackButtons`. */
  lemma SharedWithOneSwitch(showTrackButtons: bool)
    ensures VideoButtons(showTrackButtons) == ShownButtons(Some(showTrackButtons), Some(showTrackButtons))
  {
  }

  datatype FullscreenAction = NoAction | ExitFullscreen | RequestFullscreen

  /** `handleFullscreen`: nothing without the element; leave fullscreen when something is fullscreen, else enter it. */
  function Fullscreen(hasVideo: bool, somethingFullscreen: bool): (r: FullscreenAction)
    ensures r == NoAction <==> !hasVideo
    ensures r == ExitFullscreen <==> hasVideo && somethingFullscreen
    ensures r == RequestFullscreen <==> hasVideo && !somethingFullscreen
  {
    if !hasVideo then NoAction else if somethingFullscreen then ExitFullscreen else RequestFullscreen
  }
}
