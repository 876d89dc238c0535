/**
 * The lyrics pane of the audio player: which lyric line is current at a
 * playback time (a binary search over the lines in time order), which
 * line is highlighted, and how far the lyrics are shifted to centre it.
 * Times are real numbers of seconds.
 */
module PlayerPreview {

  datatype LrcLine = LrcLine(time: real, text: string)

  predicate Sorted(lines: seq<LrcLine>) {
    forall i, j :: 0 <= i < j < |lines| ==> lines[i].time <= lines[j].time
  }

  /** The last line whose time is at or before `t`, or -1 when there is none. */
  function LastAtOrBefore(lines: seq<LrcLine>, t: real): (r: int)
    ensures -1 <= r < |lines|
    ensures r >= 0 ==> lines[r].time <= t
    ensures forall j :: r < j < |lines| ==> lines[j].time > t
  {
    if lines == [] then -1
    else if lines[|lines| - 1].time <= t then |lines| - 1
    else LastAtOrBefore(lines[..|lines| - 1], t)
  }

  /** On sorted lines, an index splitting the lines into those at or before `t` and those after is the one. */
  lemma SplitIsLast(lines: seq<LrcLine>, t: real, r: int)
    requires -1 <= r < |lines|
    requires forall j :: 0 <= j <= r ==> lines[j].time <= t
    requires forall j :: r < j < |lines| ==> lines[j].time > t
    ensures r == LastAtOrBefore(lines, t)
  {
  }

  /**
   * `findCurrentLrcIndex`: the binary search keeps `result` one below
   * `lo`; everything below `lo` is at or before `t` and everything above
   * `hi` after it. `(lo + hi) >>> 1` is the halved sum for indices this
   * small.
   */
  method FindCurrentLrcIndex(lines: seq<LrcLine>, time: real) returns (result: int)
    ensures -1 <= result < |lines|
    ensures Sorted(lines) ==> result == LastAtOrBefore(lines, time)
  {
    var lo := 0;
    var hi := |lines| - 1;
    result := -1;
    while lo <= hi
      invariant 0 <= lo <= hi + 1 <= |lines|
      invariant result == lo - 1
      invariant Sorted(lines) ==> forall j :: 0 <= j < lo ==> lines[j].time <= time
      invariant Sorted(lines) ==> forall j :: hi < j < |lines| ==> lines[j].time > time
      decreases hi - lo
    {
      var mid := (lo + hi) / 2;
      if lines[mid].time <= time {
        result := mid;
        lo := mid + 1;
      } else {
        hi := mid - 1;
      }
    }
    if Sorted(lines) {
      SplitIsLast(lines, time, result);
    }
  }

  /** A later time never moves the current line back. */
  lemma {:induction false} CurrentLineMonotone(lines: seq<LrcLine>, t1: real, t2: real)
    requires t1 <= t2
    ensures LastAtOrBefore(lines, t1) <= LastAtOrBefore(lines, t2)
  {
    if lines != [] && lines[|lines| - 1].time > t2 {
      CurrentLineMonotone(lines[..|lines| - 1], t1, t2);
    }
  }

  /** No line is current exactly when the first line comes after `t` (or there are none). */
  lemma NoCurrentLine(lines: seq<LrcLine>, t: real)
    requires Sorted(lines)
    ensures LastAtOrBefore(lines, t) == -1 <==> lines == [] || lines[0].time > t
  {
    var r := LastAtOrBefore(lines, t);
    if r >= 0 {
      assert lines[0].time <= lines[r].time;
    }
  }

  /** Which lines carry the class `current`: exactly the one at the index. */
  function CurrentMarks(count: nat, index: int): (r: seq<bool>)
    ensures |r| == count
    ensures forall i :: 0 <= i < count ==> (r[i] <==> i == index)
  {
    seq(count, i => i == index)
  }

  /** At most one line is highlighted, and none when the index is -1. */
  lemma OneLineHighlighted(count: nat, index: int, i: nat, j: nat)
    requires i < count && j < count
    requires CurrentMarks(count, index)[i] && CurrentMarks(count, index)[j]
    ensures i == j && index == i
  {
  }

  const LineHeight: int := 32
  const ContainerHeight: int := 128
  /** `LRC_CENTER_OFFSET`. */
  const CenterOffset: int := (ContainerHeight - LineHeight) / 2

  /** `translateY` of the lyrics, in pixels. */
  function ScrollOffset(index: int): (r: int)
    ensures index <= 0 ==> r == 48
    ensures index >= 0 ==> r == 48 - index * 32
  {
    CenterOffset - (if index > 0 then index else 0) * LineHeight
  }

  /** The current line, once shifted, sits in the middle of the pane: as much room above it as below. */
  lemma CurrentLineCentred(index: nat)
    ensures var top := ScrollOffset(index) + index * LineHeight;
      top == ContainerHeight - (top + LineHeight)
  {
  }
}
