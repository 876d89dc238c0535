/**
 * The audio player's playlist: tabs over groups of tracks, the slice of
 * tracks the active group shows, and what a click on a row does.
 */
module PlayerPlaylist {
  import opened Common

  /** A group of consecutive tracks; an empty title stands for a missing one (both are falsy). */
  datatype PlaylistGroup = PlaylistGroup(title: string, startIndex: int, count: int)

  /** `showTabs`: several groups, or a single titled one. */
  predicate ShowTabs(groups: seq<PlaylistGroup>) {
    |groups| > 1 || (|groups| == 1 && groups[0].title != "")
  }

  /** `groups[activeTab] || groups[0]`; none without groups. */
  function ActiveGroup(groups: seq<PlaylistGroup>, activeTab: int): (r: Option<PlaylistGroup>)
    ensures r.None? <==> groups == []
    ensures 0 <= activeTab < |groups| ==> r == Some(groups[activeTab])
    ensures !(0 <= activeTab < |groups|) && groups != [] ==> r == Some(groups[0])
  {
    if 0 <= activeTab < |groups| then Some(groups[activeTab])
    else if groups != [] then Some(groups[0])
    else None
  }

  /** How `slice` reads an index: negative ones count from the end; both are clamped to the length. */
  function SliceIndex(k: int, len: nat): (r: nat)
    ensures r <= len
    ensures 0 <= k <= len ==> r == k
  {
    if k < 0 then (if len + k < 0 then 0 else len + k) else if k > len then len else k
  }

  /** `xs.slice(start, end)`. */
  function Slice<T>(xs: seq<T>, start: int, end: int): (r: seq<T>)
    ensures 0 <= start <= end <= |xs| ==> r == xs[start..end]
  {
    var from := SliceIndex(start, |xs|);
    var to := SliceIndex(end, |xs|);
    if to <= from then [] else xs[from..to]
  }

  /** `visibleTracks`: the active group's slice, or every track without groups. */
  function VisibleTracks<T>(tracks: seq<T>, groups: seq<PlaylistGroup>, activeTab: int): seq<T> {
    match ActiveGroup(groups, activeTab)
    case None => tracks
    case Some(g) => Slice(tracks, g.startIndex, g.startIndex + g.count)
  }

  /** `globalIdx` of row `localIdx`. */
  function GlobalIndex(groups: seq<PlaylistGroup>, activeTab: int, localIdx: int): int {
    match ActiveGroup(groups, activeTab)
    case None => localIdx
    case Some(g) => g.startIndex + localIdx
  }

  /**
   * Row k of a group that starts inside the track list shows the track at
   * the row's global index, and the rows run to the group's end or the
   * list's, whichever comes first.
   */
  lemma RowsShowGlobalTracks<T>(tracks: seq<T>, groups: seq<PlaylistGroup>, activeTab: int)
    requires ActiveGroup(groups, activeTab).Some?
    requires var g := ActiveGroup(groups, activeTab).value; 0 <= g.startIndex <= |tracks| && 0 <= g.count
    ensures var g := ActiveGroup(groups, activeTab).value;
      var visible := VisibleTracks(tracks, groups, activeTab);
      |visible| == (if g.startIndex + g.count <= |tracks| then g.count else |tracks| - g.startIndex) &&
      forall k :: 0 <= k < |visible| ==>
        0 <= GlobalIndex(groups, activeTab, k) < |tracks| && visible[k] == tracks[GlobalIndex(groups, activeTab, k)]
  {
  }

  /** Without groups every track shows, each row under its own index. */
  lemma NoGroupsShowAll<T>(tracks: seq<T>, activeTab: int)
    ensures VisibleTracks(tracks, [], activeTab) == tracks
    ensures forall k :: GlobalIndex([], activeTab, k) == k
  {
  }

  /** What a click on a row asks of the player. */
  datatype ClickAction = SeekTo(time: real) | SelectTrack(index: int)

  function ClampUnit(x: real): (r: real)
    ensures 0.0 <= r <= 1.0
    ensures 0.0 <= x <= 1.0 ==> r == x
  {
    if x < 0.0 then 0.0 else if x > 1.0 then 1.0 else x
  }

  /**
   * `handleClick`: on the current row, a seek to the clicked fraction of
   * the track (`ratio` is where the pointer is across the row); on any
   * other row, that track.
   */
  function HandleClick(globalIdx: int, currentIndex: int, ratio: real, duration: real): (r: ClickAction)
    ensures r.SeekTo? <==> globalIdx == currentIndex
    ensures r.SelectTrack? ==> r.index == globalIdx
  {
    if globalIdx == currentIndex then SeekTo(ClampUnit(ratio) * duration) else SelectTrack(globalIdx)
  }

  /** A seek from a click never leaves the track. */
  lemma ClickSeekWithinTrack(globalIdx: int, currentIndex: int, ratio: real, duration: real)
    requires duration >= 0.0 && globalIdx == currentIndex
    ensures 0.0 <= HandleClick(globalIdx, currentIndex, ratio, duration).time <= duration
  {
    var c := ClampUnit(ratio);
    assert c * duration <= 1.0 * duration;
  }

  /** The tab label: the title, else `列表 ` and the tab's number from 1. */
  function TabLabel(g: PlaylistGroup, i: nat): (r: string)
    ensures g.title != "" ==> r == g.title
  {
    if g.title != "" then g.title else "列表 " + NatToString(i + 1)
  }

  /** An untitled tab's label reads back as its position counted from 1. */
  lemma UntitledTabNumber(g: PlaylistGroup, i: nat)
    requires g.title == ""
    ensures |TabLabel(g, i)| > 3 && TabLabel(g, i)[..3] == "列表 "
    ensures ParseInt(TabLabel(g, i)[3..]) == Some(i + 1)
  {
    var text := TabLabel(g, i);
    assert text[3..] == NatToString(i + 1);
    ParseIntNatToString(i + 1);
  }
}
