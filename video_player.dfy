/**
 * The video player hook: the same track-index machine as the audio
 * player, driving a video element the page renders, and with no error
 * message in its state. One video element per player, the player's state
 * record, and the store that lets one player play at a time. Each
 * operation is a function from the world before it (the state record, the
 * element, the store's fields) to the world after it; the `Hook` class
 * holds that world in fields and its methods update them in place.
 */
module VideoPlayer {
  import opened Common
  import opened PlayerState

  /** A track; only its address matters here. */
  datatype Track = Track(url: string)

  /** The hook's state record. */
  datatype VideoPlayerState = VideoPlayerState(
    playing: bool, currentIndex: nat, duration: real, currentTime: real,
    loading: bool, mode: string, volume: real, muted: bool)

  /** What an operation can change: the state, the element (none before mounting), and the store. */
  datatype World = World(
    state: VideoPlayerState, video: Option<Element>,
    activeId: Option<string>, storedMode: string, storedVolume: real)

  /** The first state: first track, stopped, nothing known, unmuted; mode and volume from the store. */
  function Initial(storedMode: string, storedVolume: real): (s: VideoPlayerState) {
    VideoPlayerState(false, 0, 0.0, 0.0, false, storedMode, storedVolume, false)
  }

  /** The rendered element becomes the player's, set to the stored volume; unmounting drops it. */
  function MountStep(w: World, element: Element): World {
    w.(video := Some(element.(volume := w.storedVolume)))
  }

  function UnmountStep(w: World): World {
    w.(video := None)
  }

  /** `loadAndPlay`: without an element or a track at the index, nothing; else the track starts loading from its beginning. */
  function LoadAndPlayStep(w: World, tracks: seq<Track>, playerId: string, index: int): World {
    if w.video.None? || !(0 <= index < |tracks|) then w
    else w.(
      video := Some(w.video.value.(src := tracks[index].url, told := true)),
      activeId := Some(playerId),
      state := w.state.(currentIndex := index, currentTime := 0.0, duration := 0.0, loading := true))
  }

  /** The element's events. */
  function TimeUpdate(w: World, time: real): World {
    w.(state := w.state.(currentTime := time))
  }

  /** `video.duration || 0`: an unknown (NaN) duration, given as None, reads as 0. */
  function DurationChange(w: World, duration: Option<real>): World {
    w.(state := w.state.(duration := if duration.Some? then duration.value else 0.0))
  }

  function Playing(w: World): World {
    w.(state := w.state.(playing := true, loading := false))
  }

  function Paused(w: World): World {
    w.(state := w.state.(playing := false))
  }

  function Waiting(w: World): World {
    w.(state := w.state.(loading := true))
  }

  function Failed(w: World): World {
    w.(state := w.state.(playing := false, loading := false))
  }

  /** `onEnded`: with no tracks playback stops; else the track the mode picks is loaded. */
  function Ended(w: World, tracks: seq<Track>, playerId: string, random: real): World
    requires 0.0 <= random < 1.0
  {
    if |tracks| == 0 then w.(state := w.state.(playing := false))
    else LoadAndPlayStep(w, tracks, playerId, EndIndex(w.state.mode, w.state.currentIndex, |tracks|, random))
  }

  /** `pause`: tells the element to pause, when there is one. */
  function PauseStep(w: World): World {
    if w.video.None? then w else w.(video := Some(w.video.value.(told := false)))
  }

  /** The effect that pauses this player when another one starts. */
  function PauseForOthersStep(w: World, playerId: string): World {
    if ShouldPause(w.activeId, playerId, w.state.playing) then PauseStep(w) else w
  }

  /**
   * `play(index?)`: a given index, or an element with no source yet, loads
   * a track (the current one when none is given); else the element resumes
   * and this player becomes the active one.
   */
  function PlayStep(w: World, tracks: seq<Track>, playerId: string, index: Option<int>): World {
    if w.video.None? || |tracks| == 0 then w
    else if index.Some? || w.video.value.src == "" then
      LoadAndPlayStep(w, tracks, playerId, if index.Some? then index.value else w.state.currentIndex)
    else w.(video := Some(w.video.value.(told := true)), activeId := Some(playerId))
  }

  function TogglePlayStep(w: World, tracks: seq<Track>, playerId: string): World {
    if w.state.playing then PauseStep(w) else PlayStep(w, tracks, playerId, None)
  }

  function NextTrackStep(w: World, tracks: seq<Track>, playerId: string, random: real): World
    requires 0.0 <= random < 1.0
  {
    if |tracks| == 0 then w
    else LoadAndPlayStep(w, tracks, playerId, NextIndex(w.state.mode, w.state.currentIndex, |tracks|, random))
  }

  function PrevTrackStep(w: World, tracks: seq<Track>, playerId: string, random: real): World
    requires 0.0 <= random < 1.0
  {
    if |tracks| == 0 then w
    else LoadAndPlayStep(w, tracks, playerId, PrevIndex(w.state.mode, w.state.currentIndex, |tracks|, random))
  }

  function SeekStep(w: World, time: real): World {
    if w.video.None? then w
    else w.(video := Some(w.video.value.(currentTime := time)), state := w.state.(currentTime := time))
  }

  function SetVolumeStep(w: World, vol: real): World {
    var clamped := ClampVolume(vol);
    w.(
      video := if w.video.Some? then Some(w.video.value.(volume := clamped)) else None,
      storedVolume := clamped,
      state := w.state.(volume := clamped, muted := clamped == 0.0))
  }

  function ToggleMuteStep(w: World): World {
    if w.video.None? then w
    else
      var newMuted := !w.state.muted;
      w.(video := Some(w.video.value.(muted := newMuted)), state := w.state.(muted := newMuted))
  }

  function SetModeStep(w: World, mode: string): World {
    w.(storedMode := mode, state := w.state.(mode := mode))
  }

  /**
   * Loading a track starts it from the beginning and
   * makes this player the active one, and keeps the mode, the volume, the
   * mute flag and what the store remembers.
   */
  lemma LoadStartsTrack(w: World, tracks: seq<Track>, playerId: string, index: int)
    requires w.video.Some? && 0 <= index < |tracks|
    ensures var r := LoadAndPlayStep(w, tracks, playerId, index);
      r.state.currentIndex == index && r.video.Some? && r.video.value.src == tracks[index].url && r.video.value.told &&
      r.state.currentTime == 0.0 && r.state.duration == 0.0 && r.state.loading &&
      r.activeId == Some(playerId)
    ensures var r := LoadAndPlayStep(w, tracks, playerId, index);
      r.state.mode == w.state.mode && r.state.volume == w.state.volume && r.state.muted == w.state.muted &&
      r.state.playing == w.state.playing && r.storedMode == w.storedMode && r.storedVolume == w.storedVolume
  {
  }

  /** Loading a missing track, or loading before the element exists, changes nothing. */
  lemma LoadMissingTrack(w: World, tracks: seq<Track>, playerId: string, index: int)
    requires w.video.None? || index < 0 || index >= |tracks|
    ensures LoadAndPlayStep(w, tracks, playerId, index) == w
  {
  }

  /**
   * At the end of a track: with no tracks playback stops and nothing else
   * changes; else the track the mode picks is loaded, and from a track of
   * the list it is one of the list (the same one in loop mode).
   */
  lemma EndedPicksTrack(w: World, tracks: seq<Track>, playerId: string, random: real)
    requires w.video.Some? && 0.0 <= random < 1.0
    ensures |tracks| == 0 ==> Ended(w, tracks, playerId, random) == w.(state := w.state.(playing := false))
    ensures |tracks| > 0 && w.state.currentIndex < |tracks| ==>
      var r := Ended(w, tracks, playerId, random);
      r.state.currentIndex == EndIndex(w.state.mode, w.state.currentIndex, |tracks|, random) &&
      r.state.currentIndex < |tracks| && r.state.loading &&
      (w.state.mode == "loop" ==> r.state.currentIndex == w.state.currentIndex)
  {
    if |tracks| > 0 && w.state.currentIndex < |tracks| {
      StepsStayInList(w.state.mode, w.state.currentIndex, |tracks|, random);
    }
  }

  /** Outside random mode, the previous-track button undoes the next-track button. */
  lemma NextThenPrev(w: World, tracks: seq<Track>, playerId: string, random: real)
    requires w.video.Some? && w.state.currentIndex < |tracks| && w.state.mode != "random" && 0.0 <= random < 1.0
    ensures PrevTrackStep(NextTrackStep(w, tracks, playerId, random), tracks, playerId, random).state.currentIndex == w.state.currentIndex
  {
    PrevUndoesNext(w.state.mode, w.state.currentIndex, |tracks|, random);
  }

  /** With no tracks neither button does anything. */
  lemma NoTracksNoSteps(w: World, playerId: string, random: real)
    requires 0.0 <= random < 1.0
    ensures NextTrackStep(w, [], playerId, random) == w && PrevTrackStep(w, [], playerId, random) == w
    ensures PlayStep(w, [], playerId, None) == w
  {
  }

  /** Resuming an element that has a source only tells it to play and marks this player active. */
  lemma PlayResumes(w: World, tracks: seq<Track>, playerId: string)
    requires w.video.Some? && w.video.value.src != "" && |tracks| > 0
    ensures var r := PlayStep(w, tracks, playerId, None);
      r.state == w.state && r.video == Some(w.video.value.(told := true)) && r.activeId == Some(playerId)
  {
  }

  /** Toggling pauses a playing player and starts a stopped one. */
  lemma TogglePlayFlips(w: World, tracks: seq<Track>, playerId: string)
    requires w.video.Some? && |tracks| > 0
    ensures w.state.playing ==> !TogglePlayStep(w, tracks, playerId).video.value.told
    ensures !w.state.playing && w.state.currentIndex < |tracks| ==> TogglePlayStep(w, tracks, playerId).video.value.told
  {
  }

  /** The volume is clamped into [0, 1], stored, and muted exactly when it is 0. */
  lemma VolumeClampedAndStored(w: World, vol: real)
    ensures var r := SetVolumeStep(w, vol);
      0.0 <= r.state.volume <= 1.0 && r.storedVolume == r.state.volume &&
      (r.state.muted <==> vol <= 0.0) && (0.0 <= vol <= 1.0 ==> r.state.volume == vol)
    ensures w.video.Some? ==> SetVolumeStep(w, vol).video.value.volume == SetVolumeStep(w, vol).state.volume
  {
  }

  /** Muting flips the flag on the state and the element, and twice is no change; without an element it does nothing. */
  lemma ToggleMuteTwice(w: World)
    ensures w.video.None? ==> ToggleMuteStep(w) == w
    ensures w.video.Some? ==> ToggleMuteStep(w).state.muted == !w.state.muted && ToggleMuteStep(w).video.value.muted == !w.state.muted
    ensures w.video.Some? && w.video.value.muted == w.state.muted ==> ToggleMuteStep(ToggleMuteStep(w)) == w
  {
  }

  /** A failed load only stops playing and loading; the track, its position and the element stay. */
  lemma ErrorOnlyStops(w: World)
    ensures var f := Failed(w);
      !f.state.playing && !f.state.loading && f.video == w.video &&
      f.state.currentIndex == w.state.currentIndex && f.state.currentTime == w.state.currentTime
    ensures Playing(Failed(w)).state.playing
  {
  }

  /** Only another player's start pauses this one, and only while it plays. */
  lemma OnlyOthersPause(w: World, playerId: string)
    requires w.video.Some?
    ensures w.activeId == Some(playerId) ==> PauseForOthersStep(w, playerId) == w
    ensures !w.state.playing ==> PauseForOthersStep(w, playerId) == w
    ensures w.activeId.Some? && w.activeId != Some(playerId) && w.state.playing ==> !PauseForOthersStep(w, playerId).video.value.told
  {
  }

  /** The hook: its state, its element and the shared store, updated in place. */
  class Hook {
    const playerId: string
    const store: PlayerStore
    var tracks: seq<Track>
    var state: VideoPlayerState
    var video: Option<Element>

    function Now(): World
      reads this, store
    {
      World(state, video, store.activePlayerId, store.storedMode, store.storedVolume)
    }

    constructor(playerId: string, tracks: seq<Track>, store: PlayerStore)
      ensures this.playerId == playerId && this.store == store && this.tracks == tracks
      ensures state == Initial(store.storedMode, store.storedVolume) && video == None
    {
      this.playerId := playerId;
      this.store := store;
      this.tracks := tracks;
      state := Initial(store.storedMode, store.storedVolume);
      video := None;
    }

    /** A re-render with new tracks. */
    method SetTracks(tracks: seq<Track>)
      modifies this
      ensures this.tracks == tracks && state == old(state) && video == old(video)
    {
      this.tracks := tracks;
    }

    method Mount(element: Element)
      modifies this
      ensures Now() == MountStep(old(Now()), element) && tracks == old(tracks)
    {
      video := Some(element.(volume := store.storedVolume));
    }

    method Unmount()
      modifies this
      ensures Now() == UnmountStep(old(Now())) && tracks == old(tracks)
    {
      video := None;
    }

    method LoadAndPlay(index: int)
      modifies this, store
      ensures Now() == LoadAndPlayStep(old(Now()), tracks, playerId, index) && tracks == old(tracks)
    {
      if video.None? || !(0 <= index < |tracks|) {
        return;
      }
      video := Some(video.value.(src := tracks[index].url, told := true));
      store.activePlayerId := Some(playerId);
      state := state.(currentIndex := index, currentTime := 0.0, duration := 0.0, loading := true);
    }

    method OnTimeUpdate(time: real)
      modifies this
      ensures Now() == TimeUpdate(old(Now()), time) && tracks == old(tracks)
    {
      state := state.(currentTime := time);
    }

    method OnDurationChange(duration: Option<real>)
      modifies this
      ensures Now() == DurationChange(old(Now()), duration) && tracks == old(tracks)
    {
      state := state.(duration := if duration.Some? then duration.value else 0.0);
    }

    method OnPlaying()
      modifies this
      ensures Now() == Playing(old(Now())) && tracks == old(tracks)
    {
      state := state.(playing := true, loading := false);
    }

    method OnPause()
      modifies this
      ensures Now() == Paused(old(Now())) && tracks == old(tracks)
    {
      state := state.(playing := false);
    }

    method OnWaiting()
      modifies this
      ensures Now() == Waiting(old(Now())) && tracks == old(tracks)
    {
      state := state.(loading := true);
    }

    method OnError()
      modifies this
      ensures Now() == Failed(old(Now())) && tracks == old(tracks)
    {
      state := state.(playing := false, loading := false);
    }

    /** The end handler, with the deferred load run straight after it. */
    method OnEnded(random: real)
      requires 0.0 <= random < 1.0
      modifies this, store
      ensures Now() == Ended(old(Now()), tracks, playerId, random) && tracks == old(tracks)
    {
      if |tracks| == 0 {
        state := state.(playing := false);
        return;
      }
      var nextIndex: int;
      if state.mode == "loop" {
        nextIndex := state.currentIndex;
      } else if state.mode == "random" {
        nextIndex := RandomIndex(|tracks|, random);
      } else {
        nextIndex := if state.currentIndex + 1 >= |tracks| then 0 else state.currentIndex + 1;
      }
      LoadAndPlay(nextIndex);
    }

    method Pause()
      modifies this
      ensures Now() == PauseStep(old(Now())) && tracks == old(tracks)
    {
      if video.Some? {
        video := Some(video.value.(told := false));
      }
    }

    method PauseForOthers()
      modifies this
      ensures Now() == PauseForOthersStep(old(Now()), playerId) && tracks == old(tracks)
    {
      if store.activePlayerId.Some? && store.activePlayerId.value != playerId && state.playing {
        Pause();
      }
    }

    method Play(index: Option<int>)
      modifies this, store
      ensures Now() == PlayStep(old(Now()), tracks, playerId, index) && tracks == old(tracks)
    {
      if video.None? || |tracks| == 0 {
        return;
      }
      var targetIndex := if index.Some? then index.value else state.currentIndex;
      if index.Some? || video.value.src == "" {
        LoadAndPlay(targetIndex);
      } else {
        video := Some(video.value.(told := true));
        store.activePlayerId := Some(playerId);
      }
    }

    method TogglePlay()
      modifies this, store
      ensures Now() == TogglePlayStep(old(Now()), tracks, playerId) && tracks == old(tracks)
    {
      if state.playing {
        Pause();
      } else {
        Play(None);
      }
    }

    method NextTrack(random: real)
      requires 0.0 <= random < 1.0
      modifies this, store
      ensures Now() == NextTrackStep(old(Now()), tracks, playerId, random) && tracks == old(tracks)
    {
      if |tracks| == 0 {
        return;
      }
      var next: int;
      if state.mode == "random" {
        next := RandomIndex(|tracks|, random);
      } else {
        next := (state.currentIndex + 1) % |tracks|;
      }
      LoadAndPlay(next);
    }

    method PrevTrack(random: real)
      requires 0.0 <= random < 1.0
      modifies this, store
      ensures Now() == PrevTrackStep(old(Now()), tracks, playerId, random) && tracks == old(tracks)
    {
      if |tracks| == 0 {
        return;
      }
      var prev: int;
      if state.mode == "random" {
        prev := RandomIndex(|tracks|, random);
      } else {
        prev := if state.currentIndex - 1 < 0 then |tracks| - 1 else state.currentIndex - 1;
      }
      LoadAndPlay(prev);
    }

    method Seek(time: real)
      modifies this
      ensures Now() == SeekStep(old(Now()), time) && tracks == old(tracks)
    {
      if video.Some? {
        video := Some(video.value.(currentTime := time));
        state := state.(currentTime := time);
      }
    }

    method SetVolume(vol: real)
      modifies this, store
      ensures Now() == SetVolumeStep(old(Now()), vol) && tracks == old(tracks)
    {
      var clamped := if vol < 0.0 then 0.0 else if vol > 1.0 then 1.0 else vol;
      if video.Some? {
        video := Some(video.value.(volume := clamped));
      }
      store.storedVolume := clamped;
      state := state.(volume := clamped, muted := clamped == 0.0);
    }

    method ToggleMute()
      modifies this
      ensures Now() == ToggleMuteStep(old(Now())) && tracks == old(tracks)
    {
      if video.None? {
        return;
      }
      var newMuted := !state.muted;
      video := Some(video.value.(muted := newMuted));
      state := state.(muted := newMuted);
    }

    method SetMode(mode: string)
      modifies this, store
      ensures Now() == SetModeStep(old(Now()), mode) && tracks == old(tracks)
    {
      store.storedMode := mode;
      state := state.(mode := mode);
    }
  }
}
