/**
 * The view counter (lib/analytics.ts): a module-level table from slug to
 * view count, filled once from the catalog with a deterministic baseline
 * and bumped on every view.
 */
module Analytics {
  import opened Text
  import opened Videos

  /**
   * The UTF-16 code units `split('')` yields for one character, summed as
   * `charCodeAt(0)` reads them: characters beyond the Basic Multilingual
   * Plane are a surrogate pair.
   */
  function CodeUnitSum(c: char): nat {
    var n := c as int;
    if n < 0x1_0000 then n
    else (0xD800 + (n - 0x1_0000) / 0x400) + (0xDC00 + (n - 0x1_0000) % 0x400)
  }

  /** The `reduce` over the slug's code units, from 0. */
  function Hash(slug: String): nat {
    if slug == [] then 0 else Hash(slug[..|slug| - 1]) + CodeUnitSum(slug[|slug| - 1])
  }

  /** `(hash % 5000) * tags.length + (hash % 1000) + 100`. */
  function InitialCount(v: Video): int {
    var h := Hash(v.slug);
    (h % 5000) * |v.tags| + h % 1000 + 100
  }

  /** Every baseline lies between 100 and 4999 per tag plus 1099. */
  lemma InitialCountBounds(v: Video)
    ensures 100 <= InitialCount(v) <= 4999 * |v.tags| + 1099
  {
    var h := Hash(v.slug);
    assert 0 <= h % 5000 <= 4999;
    MulBounds(h % 5000, |v.tags|);
  }

  lemma MulBounds(a: nat, b: nat)
    requires a <= 4999
    ensures 0 <= a * b <= 4999 * b
  {
  }

  /** A character of the Basic Multilingual Plane contributes its own code. */
  lemma HashOfBmp(s: String, c: char)
    requires (c as int) < 0x1_0000
    ensures Hash(s + [c]) == Hash(s) + c as int
  {
    assert (s + [c])[..|s|] == s;
  }

  /** The table `initializeViewCounts(videos)` leaves: a later video with the same slug overwrites. */
  function InitialCounts(videos: seq<Video>): map<String, int> {
    if videos == [] then map[]
    else InitialCounts(videos[..|videos| - 1])[videos[|videos| - 1].slug := InitialCount(videos[|videos| - 1])]
  }

  /** No later video has the slug of the video at `i`. */
  predicate LastWithSlug(videos: seq<Video>, i: nat)
    requires i < |videos|
  {
    forall j :: i < j < |videos| ==> videos[j].slug != videos[i].slug
  }

  /** The keys are exactly the catalog's slugs. */
  lemma {:induction false} InitialCountsKeys(videos: seq<Video>, slug: String)
    ensures slug in InitialCounts(videos) <==> exists i :: 0 <= i < |videos| && videos[i].slug == slug
  {
    if videos != [] {
      var init := videos[..|videos| - 1];
      InitialCountsKeys(init, slug);
      if slug in InitialCounts(init) {
        var i :| 0 <= i < |init| && init[i].slug == slug;
        assert videos[i] == init[i];
      }
      if exists i :: 0 <= i < |videos| && videos[i].slug == slug {
        var i :| 0 <= i < |videos| && videos[i].slug == slug;
        if i < |init| {
          assert init[i] == videos[i];
        }
      }
    }
  }

  /** Each slug's count is the baseline of the last video with that slug. */
  lemma {:induction false} InitialCountsLast(videos: seq<Video>, i: nat)
    requires i < |videos| && LastWithSlug(videos, i)
    ensures videos[i].slug in InitialCounts(videos)
    ensures InitialCounts(videos)[videos[i].slug] == InitialCount(videos[i])
  {
    var init := videos[..|videos| - 1];
    if i < |init| {
      assert init[i] == videos[i];
      assert LastWithSlug(init, i) by {
        forall j | i < j < |init| ensures init[j].slug != init[i].slug {
          assert init[j] == videos[j];
        }
      }
      InitialCountsLast(init, i);
      assert videos[|videos| - 1].slug != videos[i].slug;
    }
  }

  /** The table after `trackView(slug)`: a counted slug goes up by one, any other starts at 1. */
  function Tracked(counts: map<String, int>, slug: String): map<String, int> {
    counts[slug := if slug in counts then counts[slug] + 1 else 1]
  }

  /** `_viewCounts[slug] || 0`. */
  function Views(counts: map<String, int>, slug: String): int {
    if slug in counts then counts[slug] else 0
  }

  /**
   * A view adds exactly one to what `getViews` reports, for a counted slug
   * and for a new one (whose count reads 0 before) alike.
   */
  lemma TrackedAddsOne(counts: map<String, int>, slug: String)
    ensures Views(Tracked(counts, slug), slug) == Views(counts, slug) + 1
  {
  }

  /** A view of one slug leaves every other slug's count, or its absence, unchanged. */
  lemma TrackedKeepsOthers(counts: map<String, int>, slug: String, other: String)
    requires other != slug
    ensures other in Tracked(counts, slug) <==> other in counts
    ensures Views(Tracked(counts, slug), other) == Views(counts, other)
  {
  }

  /** Every count in the table is at least 1 once the baselines are in, and views keep it so. */
  predicate AllPositive(counts: map<String, int>) {
    forall s :: s in counts ==> counts[s] >= 1
  }

  lemma InitialCountsPositive(videos: seq<Video>)
    ensures AllPositive(InitialCounts(videos))
  {
    if videos != [] {
      InitialCountsPositive(videos[..|videos| - 1]);
      InitialCountBounds(videos[|videos| - 1]);
    }
  }

  lemma TrackedPositive(counts: map<String, int>, slug: String)
    requires AllPositive(counts)
    ensures AllPositive(Tracked(counts, slug))
  {
  }

  class ViewCounter {
    var counts: map<String, int>

    /** `initializeViewCounts(videos)` run on an empty table: one `forEach` over the catalog. */
    constructor (videos: seq<Video>)
      ensures counts == InitialCounts(videos)
    {
      counts := map[];
      new;
      var i := 0;
      while i < |videos|
        invariant 0 <= i <= |videos|
        invariant counts == InitialCounts(videos[..i])
      {
        var video := videos[i];
        var hash := Hash(video.slug);
        counts := counts[video.slug := (hash % 5000) * |video.tags| + hash % 1000 + 100];
        assert videos[..i + 1][..i] == videos[..i];
        i := i + 1;
      }
      assert videos[..i] == videos;
    }

    /** `trackView(slug)`: every stored count is a number, so `typeof … === 'number'` is membership. */
    method TrackView(slug: String)
      modifies this
      ensures counts == Tracked(old(counts), slug)
    {
      if slug in counts {
        counts := counts[slug := counts[slug] + 1];
      } else {
        counts := counts[slug := 1];
      }
    }

    function GetViews(slug: String): int
      reads this
    {
      Views(counts, slug)
    }
  }
}
