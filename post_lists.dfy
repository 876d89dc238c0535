/**
 * The random and related post lists in the post sidebar: a Fisher–Yates
 * shuffle of a copy of the posts, the slice that is displayed, and the
 * skeleton shown while nothing is selected. `Math.random` is a
 * nondeterministic choice of the swap partner within range.
 */
module PostLists {

  datatype PostItem = PostItem(slug: string, link: string, title: string, categoryName: string)

  /** The rendered list: a heading, then rows numbered from `firstNumber`. */
  datatype View =
    | Nothing
    | Skeleton(title: string, rows: nat, firstNumber: nat)
    | List(title: string, posts: seq<PostItem>, firstNumber: nat)

  const RandomTitle := "随机文章"
  const RelatedTitle := "相关文章"

  /** `s` with the elements at `i` and `j` exchanged. */
  function Swapped<T>(s: seq<T>, i: nat, j: nat): (r: seq<T>)
    requires i < |s| && j < |s|
    ensures |r| == |s| && r[i] == s[j] && r[j] == s[i]
    ensures forall k :: 0 <= k < |s| && k != i && k != j ==> r[k] == s[k]
  {
    s[i := s[j]][j := s[i]]
  }

  lemma SwappedMultiset<T>(s: seq<T>, i: nat, j: nat)
    requires i < |s| && j < |s|
    ensures multiset(Swapped(s, i, j)) == multiset(s)
  {
    var t := s[i := s[j]];
    assert multiset(t) == multiset(s) - multiset{s[i]} + multiset{s[j]};
    assert multiset(t[j := s[i]]) == multiset(t) - multiset{t[j]} + multiset{s[i]};
  }

  /** The swaps in the order they are made: the `k`-th exchanges `n - 1 - k` with a position at or below it. */
  predicate FisherYatesSchedule(swaps: seq<(nat, nat)>, n: nat) {
    |swaps| == (if n > 0 then n - 1 else 0) &&
    forall k :: 0 <= k < |swaps| ==> swaps[k].0 == n - 1 - k && swaps[k].1 <= swaps[k].0
  }

  /** The sequence left after making the swaps in order. */
  function ApplySwaps<T>(s: seq<T>, swaps: seq<(nat, nat)>): (r: seq<T>)
    requires forall k :: 0 <= k < |swaps| ==> swaps[k].0 < |s| && swaps[k].1 < |s|
    ensures |r| == |s|
    decreases |swaps|
  {
    if swaps == [] then s
    else
      var last := swaps[|swaps| - 1];
      Swapped(ApplySwaps(s, swaps[..|swaps| - 1]), last.0, last.1)
  }

  /** Whatever positions are exchanged, the result holds the same elements. */
  lemma {:induction false} ApplySwapsPermutes<T>(s: seq<T>, swaps: seq<(nat, nat)>)
    requires forall k :: 0 <= k < |swaps| ==> swaps[k].0 < |s| && swaps[k].1 < |s|
    ensures multiset(ApplySwaps(s, swaps)) == multiset(s)
    decreases |swaps|
  {
    if swaps != [] {
      var last := swaps[|swaps| - 1];
      ApplySwapsPermutes(s, swaps[..|swaps| - 1]);
      SwappedMultiset(ApplySwaps(s, swaps[..|swaps| - 1]), last.0, last.1);
    }
  }

  lemma ApplySwapsSnoc<T>(s: seq<T>, swaps: seq<(nat, nat)>, i: nat, j: nat)
    requires forall k :: 0 <= k < |swaps| ==> swaps[k].0 < |s| && swaps[k].1 < |s|
    requires i < |s| && j < |s|
    ensures ApplySwaps(s, swaps + [(i, j)]) == Swapped(ApplySwaps(s, swaps), i, j)
  {
    assert (swaps + [(i, j)])[..|swaps|] == swaps;
  }

  /**
   * `shuffleArray`: copies the input, then for `i` from the last index
   * down to 1 swaps position `i` with a position `j` in `[0, i]`. The
   * input is only read. `swaps` records the exchanges made.
   */
  method ShuffleArray<T>(input: array<T>) returns (result: seq<T>, ghost swaps: seq<(nat, nat)>)
    ensures |result| == input.Length && multiset(result) == multiset(input[..])
    ensures FisherYatesSchedule(swaps, input.Length) && result == ApplySwaps(input[..], swaps)
  {
    var a := CopyOf(input);
    swaps := [];
    var i := a.Length - 1;
    while i > 0
      invariant -1 <= i < a.Length && (a.Length > 0 ==> i >= 0)
      invariant |swaps| == a.Length - 1 - i
      invariant forall k :: 0 <= k < |swaps| ==> swaps[k].0 == a.Length - 1 - k && swaps[k].1 <= swaps[k].0
      invariant a[..] == ApplySwaps(input[..], swaps)
    {
      var j :| 0 <= j <= i;
      ApplySwapsSnoc(input[..], swaps, i, j);
      Exchange(a, i, j);
      swaps := swaps + [(i, j)];
      i := i - 1;
    }
    ApplySwapsPermutes(input[..], swaps);
    result := a[..];
  }

  /** `[...array]`: a fresh array with the same elements. */
  method CopyOf<T>(input: array<T>) returns (a: array<T>)
    ensures fresh(a) && a[..] == input[..]
  {
    a := new T[input.Length](k requires 0 <= k < input.Length reads input => input[k]);
  }

  /** One step of the shuffle: the destructuring swap of `a[i]` and `a[j]`. */
  method Exchange<T>(a: array<T>, i: nat, j: nat)
    requires i < a.Length && j < a.Length
    modifies a
    ensures a[..] == Swapped(old(a[..]), i, j)
  {
    a[i], a[j] := a[j], a[i];
  }

  /** `d` is the first `count` elements of what some run of the shuffle leaves of `s`. */
  ghost predicate ShuffledSelection<T>(d: seq<T>, s: seq<T>, count: int) {
    exists swaps :: FisherYatesSchedule(swaps, |s|) && d == SliceTo(ApplySwaps(s, swaps), count)
  }

  /** A selection holds posts of the list, each at most as often as the list has it, and `count` of them when the list has that many. */
  lemma SelectionBounds<T>(d: seq<T>, s: seq<T>, count: int)
    requires ShuffledSelection(d, s, count)
    ensures multiset(d) <= multiset(s) && |d| <= |s|
    ensures 0 <= count ==> |d| == if count < |s| then count else |s|
  {
    var swaps :| FisherYatesSchedule(swaps, |s|) && d == SliceTo(ApplySwaps(s, swaps), count);
    var t := ApplySwaps(s, swaps);
    ApplySwapsPermutes(s, swaps);
    assert t == d + t[|d|..];
    assert multiset(t) == multiset(d) + multiset(t[|d|..]);
  }

  /** `arr.slice(0, end)`; a negative end counts back from the length. */
  function SliceTo<T>(s: seq<T>, end: int): (r: seq<T>)
    ensures r <= s
    ensures 0 <= end ==> |r| == if end < |s| then end else |s|
    ensures end < 0 ==> |r| == if |s| + end > 0 then |s| + end else 0
  {
    if end >= 0 then s[..if end < |s| then end else |s|]
    else s[..if |s| + end > 0 then |s| + end else 0]
  }

  /** `Array.from({ length: n })` has `max(n, 0)` entries. */
  function Rows(n: int): nat {
    if n > 0 then n else 0
  }

  /** The random list of the sidebar; `displayPosts` starts empty and is filled by the mount effect. */
  class RandomPostList {
    const posts: seq<PostItem>
    const count: int
    var displayPosts: seq<PostItem>

    constructor(posts: seq<PostItem>, count: int)
      ensures this.posts == posts && this.count == count && displayPosts == []
    {
      this.posts := posts;
      this.count := count;
      displayPosts := [];
    }

    /** The effect: a shuffle of the posts cut to `count`. */
    method Select()
      modifies this
      ensures ShuffledSelection(displayPosts, posts, count)
    {
      var copy := new PostItem[|posts|](k requires 0 <= k < |posts| => posts[k]);
      assert copy[..] == posts;
      var shuffled, swaps := ShuffleArray(copy);
      displayPosts := SliceTo(shuffled, count);
    }

    /** A skeleton of `count` rows while nothing is selected; otherwise the posts numbered from 1. */
    function Render(): (v: View)
      reads this
      ensures displayPosts == [] ==> v == Skeleton(RandomTitle, Rows(count), 1)
      ensures displayPosts != [] ==> v == List(RandomTitle, displayPosts, 1)
    {
      if |displayPosts| == 0 then Skeleton(RandomTitle, Rows(count), 1) else List(RandomTitle, displayPosts, 1)
    }

    /** With no posts, the list never appears: only the skeleton does. */
    method SelectWithoutPosts()
      requires posts == []
      modifies this
      ensures Render().Skeleton?
    {
      Select();
      SelectionBounds(displayPosts, posts, count);
    }
  }

  /** The related list below a post, falling back to random posts when there are no related ones. */
  class RelatedPostList {
    const posts: seq<PostItem>
    const fallbackPosts: seq<PostItem>
    const fallbackCount: int
    var displayPosts: seq<PostItem>

    /** Related posts are shown from the start; the fallback waits for the effect. */
    constructor(posts: seq<PostItem>, fallbackPosts: seq<PostItem>, fallbackCount: int)
      ensures this.posts == posts && this.fallbackPosts == fallbackPosts && this.fallbackCount == fallbackCount
      ensures displayPosts == posts
    {
      this.posts := posts;
      this.fallbackPosts := fallbackPosts;
      this.fallbackCount := fallbackCount;
      displayPosts := if |posts| > 0 then posts else [];
    }

    function HasRelatedPosts(): bool
      reads this
    {
      |posts| > 0
    }

    /** The effect: only without related posts and with some fallback posts, a shuffle of them cut to `fallbackCount`. */
    method Select()
      modifies this
      ensures HasRelatedPosts() || fallbackPosts == [] ==> displayPosts == old(displayPosts)
      ensures !HasRelatedPosts() && fallbackPosts != [] ==> ShuffledSelection(displayPosts, fallbackPosts, fallbackCount)
    {
      if |posts| == 0 && |fallbackPosts| > 0 {
        var copy := new PostItem[|fallbackPosts|](k requires 0 <= k < |fallbackPosts| => fallbackPosts[k]);
        assert copy[..] == fallbackPosts;
        var shuffled, swaps := ShuffleArray(copy);
          displayPosts := SliceTo(shuffled, fallbackCount);
      }
    }

    /**
     * A skeleton numbered from 6 while the fallback has not been chosen;
     * nothing for an empty selection otherwise; else the posts, numbered
     * from 1 and titled when they are related ones, from 6 untitled when
     * they are fallback ones.
     */
    function Render(): (v: View)
      reads this
      ensures !HasRelatedPosts() && displayPosts == [] ==> v == Skeleton("", Rows(fallbackCount), 6)
      ensures HasRelatedPosts() && displayPosts == [] ==> v == Nothing
      ensures displayPosts != [] ==>
        v == List(if HasRelatedPosts() then RelatedTitle else "", displayPosts, if HasRelatedPosts() then 1 else 6)
    {
      var title := if |posts| > 0 then RelatedTitle else "";
      if |posts| == 0 && |displayPosts| == 0 then Skeleton("", Rows(fallbackCount), 6)
      else if |displayPosts| == 0 then Nothing
      else List(title, displayPosts, if |posts| > 0 then 1 else 6)
    }

    /** With related posts they are shown in their order, titled, and the fallback is never used. */
    method RenderRelated() returns (v: View)
      requires HasRelatedPosts() && displayPosts == posts
      modifies this
      ensures v == List(RelatedTitle, posts, 1)
    {
      Select();
      v := Render();
    }
  }
}
