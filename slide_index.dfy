/** Index arithmetic of the apartment slider: the cyclic successor and predecessor of a
    slide index, and the choice of which neighbouring images to preload. */
module SlideIndex {

  /** `(c + 1) % n`: the slide after `c`, wrapping from the last slide to the first. */
  function NextIndex(c: nat, n: nat): (r: nat)
    requires c < n
    ensures r < n
    ensures r == if c == n - 1 then 0 else c + 1
  {
    (c + 1) % n
  }

  /** `(c - 1 + n) % n`: the slide before `c`, wrapping from the first slide to the last. */
  function PrevIndex(c: nat, n: nat): (r: nat)
    requires c < n
    ensures r < n
    ensures r == if c == 0 then n - 1 else c - 1
  {
    (c - 1 + n) % n
  }

  /** Going forward and then back (or back and then forward) returns to the same slide. */
  lemma NextPrevInverse(c: nat, n: nat)
    requires c < n
    ensures PrevIndex(NextIndex(c, n), n) == c
    ensures NextIndex(PrevIndex(c, n), n) == c
  {
  }

  /** With a single slide both neighbours are the slide itself. */
  lemma SingleSlideNeighbours(n: nat)
    requires n == 1
    ensures NextIndex(0, n) == 0 && PrevIndex(0, n) == 0
  {
  }

  /** The index reached from `c` after `k` steps forward. */
  function Advance(c: nat, n: nat, k: nat): (r: nat)
    requires c < n
    ensures r < n
  {
    if k == 0 then c else NextIndex(Advance(c, n, k - 1), n)
  }

  /** Within the first two laps, `k` steps forward from `c` land on `c + k`, less `n`
      once the last slide has been passed. */
  lemma {:induction false} AdvanceWraps(c: nat, n: nat, k: nat)
    requires c < n && c + k < 2 * n
    ensures Advance(c, n, k) == if c + k < n then c + k else c + k - n
  {
    if k > 0 {
      AdvanceWraps(c, n, k - 1);
    }
  }

  /** A full lap of `n` steps forward returns to the start. */
  lemma FullLap(c: nat, n: nat)
    requires c < n
    ensures Advance(c, n, n) == c
  {
    AdvanceWraps(c, n, n);
  }

  /** The indices of `ks` whose slide has an image and has not been loaded yet, each as
      often as it occurs in `ks`: the loaders `preloadNextImages` and `preloadImages` start. */
  function Unloaded(loaded: set<nat>, hasImage: seq<bool>, ks: seq<nat>): (r: seq<nat>)
    requires forall i :: 0 <= i < |ks| ==> ks[i] < |hasImage|
    ensures |r| <= |ks|
    ensures forall k :: k in r <==> k in ks && k !in loaded && hasImage[k]
  {
    if ks == [] then []
    else
      var last := ks[|ks| - 1];
      var front := Unloaded(loaded, hasImage, ks[..|ks| - 1]);
      assert forall k :: k in ks <==> k in ks[..|ks| - 1] || k == last;
      if last !in loaded && hasImage[last] then front + [last] else front
  }

  /** Each index still to be loaded is requested exactly as often as it occurs in `ks`;
      every other index not at all. */
  lemma {:induction false} UnloadedCounts(loaded: set<nat>, hasImage: seq<bool>, ks: seq<nat>)
    requires forall i :: 0 <= i < |ks| ==> ks[i] < |hasImage|
    ensures forall k :: multiset(Unloaded(loaded, hasImage, ks))[k] ==
              if k in ks && k !in loaded && hasImage[k] then multiset(ks)[k] else 0
  {
    if ks != [] {
      var last := ks[|ks| - 1];
      var init := ks[..|ks| - 1];
      UnloadedCounts(loaded, hasImage, init);
      assert ks == init + [last];
      assert multiset(ks) == multiset(init) + multiset{last};
      var front := Unloaded(loaded, hasImage, init);
      if last !in loaded && hasImage[last] {
        assert multiset(front + [last]) == multiset(front) + multiset{last};
      }
    }
  }

  /** Scanning one more index appends it exactly when it is still to be loaded. */
  lemma UnloadedSnoc(loaded: set<nat>, hasImage: seq<bool>, ks: seq<nat>, k: nat)
    requires forall i :: 0 <= i < |ks| ==> ks[i] < |hasImage|
    requires k < |hasImage|
    ensures Unloaded(loaded, hasImage, ks + [k]) ==
              if k !in loaded && hasImage[k] then Unloaded(loaded, hasImage, ks) + [k]
              else Unloaded(loaded, hasImage, ks)
  {
    assert (ks + [k])[..|ks|] == ks;
  }

  /** The neighbours `preloadNextImages(i)` considers, in the order it visits them. */
  function Neighbours(i: nat, n: nat): (r: seq<nat>)
    requires i < n
    ensures |r| == 2 && r[0] < n && r[1] < n
  {
    [NextIndex(i, n), PrevIndex(i, n)]
  }

  /** The image requests of `preloadNextImages(i)`. */
  function PreloadRequests(loaded: set<nat>, hasImage: seq<bool>, i: nat): (r: seq<nat>)
    requires i < |hasImage|
    ensures |r| <= 2
    ensures forall k :: k in r ==> (k == NextIndex(i, |hasImage|) || k == PrevIndex(i, |hasImage|))
                                   && k !in loaded && hasImage[k]
    ensures forall k :: k in Neighbours(i, |hasImage|) && k !in loaded && hasImage[k] ==> k in r
  {
    Unloaded(loaded, hasImage, Neighbours(i, |hasImage|))
  }

  /** With two slides both neighbours are the same slide, and it is requested twice. */
  lemma TwoSlidesRequestTwice(loaded: set<nat>, hasImage: seq<bool>, i: nat)
    requires |hasImage| == 2 && i < 2
    requires 1 - i !in loaded && hasImage[1 - i]
    ensures PreloadRequests(loaded, hasImage, i) == [1 - i, 1 - i]
  {
  }

  /** The slide indices `0, 1, …, n - 1`, in document order. */
  function Indices(n: nat): (r: seq<nat>)
    ensures |r| == n
    ensures forall i :: 0 <= i < n ==> r[i] == i
  {
    seq(n, k => k)
  }

  /** The requests of `preloadImages` at start-up: every slide that has an image. */
  function InitialRequests(hasImage: seq<bool>): (r: seq<nat>)
    ensures forall k: nat :: k in r <==> k < |hasImage| && hasImage[k]
  {
    var all := Indices(|hasImage|);
    assert forall k: nat :: k in all <==> k < |hasImage| by {
      forall k: nat | k < |hasImage| ensures k in all { assert all[k] == k; }
    }
    Unloaded({}, hasImage, all)
  }
}
