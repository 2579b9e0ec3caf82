/**
 * The watch page's load effect (pages/WatchPage.tsx): the video is looked
 * up by its slug, its view is counted, and an "Up Next" list is chosen,
 * same-category videos first. The page's React state is a class whose
 * fields the effect sets; the view counter is the one of `lib/analytics.ts`.
 */
module WatchPage {
  import opened Wrappers
  import opened Text
  import opened Seqs
  import opened Videos
  import opened Analytics

  /** `v.category === current.category && v.slug !== slug`. */
  function SameCategory(current: Video, slug: String): Video -> bool {
    (v: Video) => v.category == current.category && v.slug != slug
  }

  /** `v.category !== current.category && v.slug !== slug`. */
  function OtherCategory(current: Video, slug: String): Video -> bool {
    (v: Video) => v.category != current.category && v.slug != slug
  }

  function NotSlug(slug: String): Video -> bool {
    (v: Video) => v.slug != slug
  }

  /** `[...sameCategory, ...otherVideos].slice(0, 5)`. */
  function Related(all: seq<Video>, current: Video, slug: String): seq<Video> {
    Take(Filter(all, SameCategory(current, slug)) + Filter(all, OtherCategory(current, slug)), 5)
  }

  /** The two lists split the catalog videos other than `slug` between them. */
  lemma {:induction false} SplitCount(all: seq<Video>, current: Video, slug: String)
    ensures |Filter(all, SameCategory(current, slug))| + |Filter(all, OtherCategory(current, slug))|
         == |Filter(all, NotSlug(slug))|
  {
    if all != [] {
      SplitCount(all[1..], current, slug);
    }
  }

  /** Up to five videos, as many as the catalog has besides `slug`. */
  lemma RelatedLength(all: seq<Video>, current: Video, slug: String)
    ensures var others := |Filter(all, NotSlug(slug))|;
      |Related(all, current, slug)| == if others < 5 then others else 5
  {
    SplitCount(all, current, slug);
  }

  /** Every related video is a catalog video other than `slug`. */
  lemma RelatedMembers(all: seq<Video>, current: Video, slug: String)
    ensures var r := Related(all, current, slug);
      forall i :: 0 <= i < |r| ==> r[i] in all && r[i].slug != slug
  {
    var s := Filter(all, SameCategory(current, slug));
    var o := Filter(all, OtherCategory(current, slug));
    var r := Related(all, current, slug);
    assert r == (s + o)[..|r|];
    forall i | 0 <= i < |r| ensures r[i] in all && r[i].slug != slug {
      if i < |s| {
        assert r[i] == s[i];
        FilterMember(all, SameCategory(current, slug), r[i]);
      } else {
        assert r[i] == o[i - |s|];
        FilterMember(all, OtherCategory(current, slug), r[i]);
      }
    }
  }

  /**
   * The first `k` related videos share the current video's category and the
   * rest do not, `k` being as large as the same-category videos allow.
   */
  lemma RelatedSameCategoryFirst(all: seq<Video>, current: Video, slug: String)
    ensures var r := Related(all, current, slug);
      var k := SameCount(all, current, slug, |r|);
      && (forall i :: 0 <= i < k ==> r[i].category == current.category)
      && (forall i :: k <= i < |r| ==> r[i].category != current.category)
  {
    var s := Filter(all, SameCategory(current, slug));
    var o := Filter(all, OtherCategory(current, slug));
    var r := Related(all, current, slug);
    var k := SameCount(all, current, slug, |r|);
    TakeAppend(s, o, 5);
    forall i | 0 <= i < |r| ensures i < k ==> r[i].category == current.category
                                ensures i >= k ==> r[i].category != current.category {
      if i < k {
        assert r[i] == r[..k][i] == s[i];
      } else {
        assert r[i] == r[k..][i - k] == o[i - k];
      }
    }
  }

  /** How many of the first `n` related videos come from the same category. */
  function SameCount(all: seq<Video>, current: Video, slug: String, n: nat): nat {
    var same := |Filter(all, SameCategory(current, slug))|;
    if same < n then same else n
  }

  /** Both parts of the list keep the catalog order. */
  lemma RelatedKeepsOrder(all: seq<Video>, current: Video, slug: String)
    ensures var r := Related(all, current, slug);
      var k := SameCount(all, current, slug, |r|);
      IsSubsequence(r[..k], all) && IsSubsequence(r[k..], all)
  {
    var s := Filter(all, SameCategory(current, slug));
    var o := Filter(all, OtherCategory(current, slug));
    var r := Related(all, current, slug);
    var k := SameCount(all, current, slug, |r|);
    TakeAppend(s, o, 5);
    FilterIsSubsequence(all, SameCategory(current, slug));
    FilterIsSubsequence(all, OtherCategory(current, slug));
    PrefixSubsequence(s, all, k);
    PrefixSubsequence(o, all, |r| - k);
  }

  /** The page's state: the video, the "Up Next" list and the displayed view count. */
  class WatchState {
    var video: Option<Video>
    var relatedVideos: seq<Video>
    var viewCount: Option<int>

    /** `useState(null)`, `useState([])`, `useState(null)`. */
    constructor ()
      ensures video == None && relatedVideos == [] && viewCount == None
    {
      video := None;
      relatedVideos := [];
      viewCount := None;
    }

    /**
     * The effect for `slug` once its timer fires, `all` being `getAllVideos()`:
     * the video is reset, and only a video that is found is shown, counted and
     * given related videos; otherwise the count and the list keep their values.
     */
    method Load(counter: ViewCounter, all: seq<Video>, slug: Option<String>)
      modifies this, counter
      ensures video == if slug.Some? && slug.value != [] then FindBySlug(all, slug.value) else None
      ensures video.Some? ==>
        && counter.counts == Tracked(old(counter.counts), slug.value)
        && viewCount == Some(Views(old(counter.counts), slug.value) + 1)
        && relatedVideos == Related(all, video.value, slug.value)
      ensures video.None? ==>
        && counter.counts == old(counter.counts)
        && viewCount == old(viewCount)
        && relatedVideos == old(relatedVideos)
    {
      video := None;
      if slug.Some? && slug.value != [] {
        var currentVideo := FindBySlug(all, slug.value);
        if currentVideo.Some? {
          video := currentVideo;
          counter.TrackView(slug.value);
          TrackedAddsOne(old(counter.counts), slug.value);
          viewCount := Some(counter.GetViews(slug.value));
          var sameCategory := Filter(all, SameCategory(currentVideo.value, slug.value));
          var otherVideos := Filter(all, OtherCategory(currentVideo.value, slug.value));
          relatedVideos := Take(sameCategory + otherVideos, 5);
        }
      }
    }
  }
}
