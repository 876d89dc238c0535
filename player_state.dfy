/**
 * What the audio and video player hooks share: the track-index steps of
 * the three play modes, the volume clamp, the media element a player
 * drives, and the player store (the active player and the remembered mode
 * and volume). Play modes are the strings the store holds: `order`,
 * `random` and `loop`; any other string behaves as `order`.
 * `Math.random()` is a parameter in [0, 1).
 */
module PlayerState {
  import opened Common

  /** `Math.floor(Math.random() * n)` when there is more than one track, else 0. */
  function RandomIndex(n: nat, random: real): (r: int)
    requires 0.0 <= random < 1.0
    ensures n > 1 ==> 0 <= r < n
    ensures n <= 1 ==> r == 0
  {
    if n > 1 then
      ScaledBelow(random, n);
      (random * n as real).Floor
    else 0
  }

  lemma ScaledBelow(random: real, n: nat)
    requires 0.0 <= random < 1.0 && n > 0
    ensures 0.0 <= random * n as real < n as real
  {
    assert random * (n as real) < 1.0 * (n as real);
  }

  /** The track `nextTrack` asks for: a random one, else the next, wrapping round. */
  function NextIndex(mode: string, i: nat, n: nat, random: real): (r: int)
    requires n > 0 && 0.0 <= random < 1.0
    ensures 0 <= r < n
    ensures mode != "random" ==> r == (i + 1) % n
  {
    if mode == "random" then RandomIndex(n, random) else (i + 1) % n
  }

  /** The track `prevTrack` asks for: a random one, else the one before, the last before the first. */
  function PrevIndex(mode: string, i: nat, n: nat, random: real): (r: int)
    requires n > 0 && 0.0 <= random < 1.0
    ensures mode != "random" && i == 0 ==> r == n - 1
    ensures mode != "random" && i > 0 ==> r == i - 1
  {
    if mode == "random" then RandomIndex(n, random) else if i - 1 < 0 then n - 1 else i - 1
  }

  /** The track played when one ends: the same in loop mode, a random one, else the next, the first after the last. */
  function EndIndex(mode: string, i: nat, n: nat, random: real): (r: int)
    requires n > 0 && 0.0 <= random < 1.0
    ensures mode == "loop" ==> r == i
    ensures mode != "loop" && mode != "random" && i + 1 >= n ==> r == 0
    ensures mode != "loop" && mode != "random" && i + 1 < n ==> r == i + 1
  {
    if mode == "loop" then i
    else if mode == "random" then RandomIndex(n, random)
    else if i + 1 >= n then 0
    else i + 1
  }

  /** From a track of the list, every step lands on a track of the list. */
  lemma StepsStayInList(mode: string, i: nat, n: nat, random: real)
    requires i < n && 0.0 <= random < 1.0
    ensures 0 <= NextIndex(mode, i, n, random) < n
    ensures 0 <= PrevIndex(mode, i, n, random) < n
    ensures 0 <= EndIndex(mode, i, n, random) < n
  {
  }

  /** Outside random mode, previous undoes next and next undoes previous. */
  lemma PrevUndoesNext(mode: string, i: nat, n: nat, random: real)
    requires mode != "random" && i < n && 0.0 <= random < 1.0
    ensures PrevIndex(mode, NextIndex(mode, i, n, random), n, random) == i
    ensures var p := PrevIndex(mode, i, n, random); p >= 0 && NextIndex(mode, p, n, random) == i
  {
  }

  /** Loop mode repeats a track only when it ends; the buttons still move on when there is more than one. */
  lemma LoopRepeatsOnlyAtEnd(i: nat, n: nat, random: real)
    requires i < n && 0.0 <= random < 1.0
    ensures EndIndex("loop", i, n, random) == i
    ensures n > 1 ==> NextIndex("loop", i, n, random) != i && PrevIndex("loop", i, n, random) != i
  {
  }

  /** In order mode the end of a track and the next button go to the same track. */
  lemma OrderEndIsNext(mode: string, i: nat, n: nat, random: real)
    requires mode != "loop" && mode != "random" && i < n && 0.0 <= random < 1.0
    ensures EndIndex(mode, i, n, random) == NextIndex(mode, i, n, random)
  {
  }

  /** `Math.max(0, Math.min(1, vol))`. */
  function ClampVolume(vol: real): (r: real)
    ensures 0.0 <= r <= 1.0
    ensures 0.0 <= vol <= 1.0 ==> r == vol
    ensures r == 0.0 <==> vol <= 0.0
    ensures r == 1.0 <==> vol >= 1.0
  {
    if vol < 0.0 then 0.0 else if vol > 1.0 then 1.0 else vol
  }

  /** Clamping twice is clamping once. */
  lemma ClampIdempotent(vol: real)
    ensures ClampVolume(ClampVolume(vol)) == ClampVolume(vol)
  {
  }

  /**
   * The media element a player drives: its source (empty when none), its
   * volume, mute flag and position, and whether it was last told to play
   * rather than to pause.
   */
  datatype Element = Element(src: string, volume: real, muted: bool, currentTime: real, told: bool)

  /**
   * The player store: the id of the player that last started, and the
   * mode and volume remembered between pages. Its reads and writes are
   * plain field accesses here.
   */
  class PlayerStore {
    var activePlayerId: Option<string>
    var storedMode: string
    var storedVolume: real

    constructor(storedMode: string, storedVolume: real)
      ensures activePlayerId == None && this.storedMode == storedMode && this.storedVolume == storedVolume
    {
      activePlayerId := None;
      this.storedMode := storedMode;
      this.storedVolume := storedVolume;
    }
  }

  /** Another player started while this one plays: this one must pause. */
  predicate ShouldPause(activeId: Option<string>, playerId: string, playing: bool) {
    activeId.Some? && activeId.value != playerId && playing
  }

  /** A player is never told to pause on its own account, nor while it is not playing. */
  lemma PauseOnlyForOthers(playerId: string, playing: bool)
    ensures !ShouldPause(Some(playerId), playerId, playing)
    ensures !ShouldPause(None, playerId, playing)
    ensures forall other :: other != playerId ==> (ShouldPause(Some(other), playerId, playing) <==> playing)
  {
  }
}
