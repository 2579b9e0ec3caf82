/**
 * The analytics dashboard's statistics (pages/AnalyticsPage.tsx, the mount
 * effect): totals over the catalog and the stored watch progress, the
 * number of videos per category, the ten most used tags and the ten most
 * recent progress entries.
 */
module AnalyticsPage {
  import opened Wrappers
  import opened Text
  import opened Seqs
  import opened Videos
  import opened Progress
  import HomePage

  /** One row of `popularTags`. */
  datatype TagCount = TagCount(tag: String, count: int)

  /** The record the effect stores; `favorites.length` is read off a `Set`, which has no such property. */
  datatype Stats = Stats(
    totalVideos: nat,
    totalViews: nat,
    totalWatchTime: int,
    favoriteCount: Option<int>,
    categoryStats: map<String, int>,
    popularTags: seq<TagCount>,
    recentActivity: seq<VideoProgress>)

  // ----- watch time -----

  /** `Object.values(progress).reduce((sum, p) => sum + p.currentTime, 0)`. */
  function WatchSeconds(entries: seq<VideoProgress>): int {
    if entries == [] then 0 else WatchSeconds(entries[..|entries| - 1]) + entries[|entries| - 1].currentTime
  }

  /** `Math.round(totalWatchTime / 60)` on whole seconds. */
  function WatchMinutes(entries: seq<VideoProgress>): int {
    (WatchSeconds(entries) + 30) / 60
  }

  /** The minutes shown are the seconds over 60, rounded to the nearest whole number, halves up. */
  lemma WatchMinutesRounds(entries: seq<VideoProgress>)
    ensures 60 * WatchMinutes(entries) - 30 <= WatchSeconds(entries) < 60 * WatchMinutes(entries) + 30
  {
  }

  // ----- category stats -----

  /** `categoryStats` after the `forEach` over the groups' categories. */
  function CategoryStats(groups: seq<Group>): map<String, int> {
    if groups == [] then map[]
    else
      var g := groups[|groups| - 1];
      CategoryStats(groups[..|groups| - 1])[g.category := |g.videos|]
  }

  /** The keys are the groups' categories. */
  lemma {:induction false} CategoryStatsKeys(groups: seq<Group>, c: String)
    ensures c in CategoryStats(groups) <==> c in Categories(groups)
  {
    if groups != [] {
      var n := |groups| - 1;
      var init := groups[..n];
      CategoryStatsKeys(init, c);
      assert groups == init + [groups[n]];
      assert Categories(groups) == Categories(init) + {groups[n].category};
    }
  }

  /** With distinct categories, each group's category maps to the group's size. */
  lemma {:induction false} CategoryStatsValues(groups: seq<Group>, k: nat)
    requires DistinctCategories(groups) && k < |groups|
    ensures groups[k].category in CategoryStats(groups)
    ensures CategoryStats(groups)[groups[k].category] == |groups[k].videos|
  {
    var n := |groups| - 1;
    if k < n {
      var init := groups[..n];
      assert init[k] == groups[k];
      assert DistinctCategories(init) by {
        forall i, j | 0 <= i < j < |init| ensures init[i].category != init[j].category {
          assert init[i] == groups[i] && init[j] == groups[j];
        }
      }
      CategoryStatsValues(init, k);
      assert groups[n].category != groups[k].category;
    }
  }

  /** The stats listed in the groups' order: `categoryStats[c]` for each category `c`. */
  function StatSum(groups: seq<Group>, stats: map<String, int>): int {
    if groups == [] then 0
    else (if groups[0].category in stats then stats[groups[0].category] else 0) + StatSum(groups[1..], stats)
  }

  lemma {:induction false} StatSumOfSizes(groups: seq<Group>, stats: map<String, int>)
    requires forall k :: 0 <= k < |groups| ==> groups[k].category in stats && stats[groups[k].category] == |groups[k].videos|
    ensures StatSum(groups, stats) == TotalSize(groups)
  {
    if groups != [] {
      StatSumOfSizes(groups[1..], stats);
    }
  }

  /**
   * For the catalog's grouping: the keys are exactly the categories of the
   * catalog, each counts the videos of that category, and the counts add up
   * to the size of the catalog.
   */
  lemma CategoryStatsCorrect(videos: seq<Video>)
    ensures var stats := CategoryStats(GroupByCategory(videos));
      && (forall c :: c in stats <==> exists v :: v in videos && v.category == c)
      && (forall c :: c in stats ==> stats[c] == |WithKey(videos, CategoryOf, c)|)
      && StatSum(GroupByCategory(videos), stats) == |videos|
  {
    var groups := GroupByCategory(videos);
    GroupByCategoryCorrect(videos);
    var stats := CategoryStats(groups);
    forall c ensures c in stats <==> c in Categories(groups) {
      CategoryStatsKeys(groups, c);
    }
    forall k | 0 <= k < |groups| ensures groups[k].category in stats && stats[groups[k].category] == |groups[k].videos| {
      CategoryStatsValues(groups, k);
    }
    forall c | c in stats ensures stats[c] == |WithKey(videos, CategoryOf, c)| {
      var g :| g in groups && g.category == c;
      var k :| 0 <= k < |groups| && groups[k] == g;
    }
    StatSumOfSizes(groups, stats);
  }

  /** The loop over `Object.keys(categorized)`, in the groups' order. */
  method CountCategories(groups: seq<Group>) returns (categoryStats: map<String, int>)
    ensures categoryStats == CategoryStats(groups)
  {
    categoryStats := map[];
    var k := 0;
    while k < |groups|
      invariant 0 <= k <= |groups|
      invariant categoryStats == CategoryStats(groups[..k])
    {
      categoryStats := categoryStats[groups[k].category := |groups[k].videos|];
      assert groups[..k + 1][..k] == groups[..k];
      k := k + 1;
    }
    assert groups[..k] == groups;
  }

  // ----- tag counts -----

  /** How many entries equal `t`. */
  function Occurrences(entries: seq<String>, t: String): nat {
    if entries == [] then 0
    else Occurrences(entries[..|entries| - 1], t) + (if entries[|entries| - 1] == t then 1 else 0)
  }

  /** `tagCounts[tag] = (tagCounts[tag] || 0) + 1` for each entry in turn. */
  function CountMap(entries: seq<String>): map<String, int> {
    if entries == [] then map[]
    else
      var m := CountMap(entries[..|entries| - 1]);
      var t := entries[|entries| - 1];
      m[t := (if t in m then m[t] else 0) + 1]
  }

  lemma {:induction false} CountMapCorrect(entries: seq<String>, t: String)
    ensures t in CountMap(entries) <==> t in entries
    ensures t in CountMap(entries) ==> CountMap(entries)[t] == Occurrences(entries, t)
  {
    if entries != [] {
      var init := entries[..|entries| - 1];
      CountMapCorrect(init, t);
      assert entries == init + [entries[|entries| - 1]];
      if t !in init {
        OccurrencesAbsent(init, t);
      }
    }
  }

  lemma {:induction false} OccurrencesAbsent(entries: seq<String>, t: String)
    requires t !in entries
    ensures Occurrences(entries, t) == 0
  {
    if entries != [] {
      var init := entries[..|entries| - 1];
      assert entries == init + [entries[|entries| - 1]];
      OccurrencesAbsent(init, t);
    }
  }

  /** `tagCounts`. */
  function TagCounts(videos: seq<Video>): map<String, int> {
    CountMap(HomePage.TagEntries(videos))
  }

  /** The tags are exactly the ones some video carries, each counted once per video entry naming it. */
  lemma TagCountsCorrect(videos: seq<Video>, t: String)
    ensures t in TagCounts(videos) <==> exists i :: 0 <= i < |videos| && t in videos[i].tags
    ensures t in TagCounts(videos) ==> TagCounts(videos)[t] == Occurrences(HomePage.TagEntries(videos), t)
  {
    CountMapCorrect(HomePage.TagEntries(videos), t);
    HomePage.TagEntriesMember(videos, t);
  }

  /** The counts of the tags in `keys`, summed. */
  function SumOccurrences(keys: seq<String>, entries: seq<String>): nat {
    if keys == [] then 0 else Occurrences(entries, keys[0]) + SumOccurrences(keys[1..], entries)
  }

  lemma {:induction false} SumOccurrencesSnoc(keys: seq<String>, entries: seq<String>, t: String)
    requires Distinct(keys)
    ensures SumOccurrences(keys, entries + [t]) == SumOccurrences(keys, entries) + (if t in keys then 1 else 0)
  {
    if keys != [] {
      assert (entries + [t])[..|entries|] == entries;
      assert Distinct(keys[1..]) by {
        forall i, j | 0 <= i < j < |keys[1..]| ensures keys[1..][i] != keys[1..][j] {
          assert keys[1..][i] == keys[i + 1] && keys[1..][j] == keys[j + 1];
        }
      }
      SumOccurrencesSnoc(keys[1..], entries, t);
      assert t in keys <==> t == keys[0] || t in keys[1..];
      assert t == keys[0] ==> t !in keys[1..];
    }
  }

  lemma {:induction false} SumOccurrencesAppend(a: seq<String>, b: seq<String>, entries: seq<String>)
    ensures SumOccurrences(a + b, entries) == SumOccurrences(a, entries) + SumOccurrences(b, entries)
  {
    if a != [] {
      assert (a + b)[1..] == a[1..] + b;
      SumOccurrencesAppend(a[1..], b, entries);
    } else {
      assert a + b == b;
    }
  }

  /** Summed over the distinct tags, the counts give the number of tag entries. */
  lemma {:induction false} SumOverUnique(entries: seq<String>)
    ensures SumOccurrences(HomePage.Unique(entries), entries) == |entries|
  {
    if entries != [] {
      var init := entries[..|entries| - 1];
      var t := entries[|entries| - 1];
      assert entries == init + [t];
      SumOverUnique(init);
      var u := HomePage.Unique(init);
      HomePage.UniqueCorrect(init);
      SumOccurrencesSnoc(u, init, t);
      if t !in u {
        SumOccurrencesAppend(u, [t], entries);
        CountMapCorrect(entries, t);
        OccurrencesAbsent(init, t);
      }
    }
  }

  /** The tag counts add up to the number of tag entries over all videos. */
  lemma TagCountsSum(videos: seq<Video>)
    ensures var entries := HomePage.TagEntries(videos);
      SumOccurrences(HomePage.Unique(entries), entries) == |entries|
  {
    SumOverUnique(HomePage.TagEntries(videos));
  }

  function CountIn(counts: map<String, int>, t: String): int {
    if t in counts then counts[t] else 0
  }

  /** `Object.entries(tagCounts).map(...)`: keys in the order they were first set. */
  function TagRows(keys: seq<String>, counts: map<String, int>): (r: seq<TagCount>)
    ensures |r| == |keys|
    ensures forall i :: 0 <= i < |r| ==> r[i].tag == keys[i] && r[i].count == CountIn(counts, keys[i])
  {
    if keys == [] then [] else [TagCount(keys[0], CountIn(counts, keys[0]))] + TagRows(keys[1..], counts)
  }

  function CountKey(row: TagCount): int { row.count }

  /** `popularTags`. */
  function PopularTags(videos: seq<Video>): seq<TagCount> {
    var entries := HomePage.TagEntries(videos);
    Take(SortDesc(TagRows(HomePage.Unique(entries), CountMap(entries)), CountKey), 10)
  }

  /**
   * At most ten rows, as many as there are distinct tags, by non-increasing
   * count; each row is a tag some video carries with its true count, no
   * tag appears twice, and no tag left out is more frequent than a tag kept.
   */
  lemma PopularTagsCorrect(videos: seq<Video>)
    ensures var r := PopularTags(videos);
      var entries := HomePage.TagEntries(videos);
      var distinct := |HomePage.Unique(entries)|;
      && |r| == (if distinct < 10 then distinct else 10)
      && SortedDesc(r, CountKey)
      && (forall i :: 0 <= i < |r| ==> r[i].tag in entries && r[i].count == Occurrences(entries, r[i].tag))
      && multiset(r) <= multiset(TagRows(HomePage.Unique(entries), CountMap(entries)))
      && (forall t, i :: t in entries && 0 <= i < |r| && (forall j :: 0 <= j < |r| ==> r[j].tag != t) ==>
            Occurrences(entries, t) <= r[i].count)
  {
    PopularTagsTop(videos);
    var entries := HomePage.TagEntries(videos);
    var keys := HomePage.Unique(entries);
    var rows := TagRows(keys, CountMap(entries));
    var sorted := SortDesc(rows, CountKey);
    SortDescPermutes(rows, CountKey);
    assert |multiset(sorted)| == |multiset(rows)|;
    TakeSortedDesc(sorted, CountKey, 10);
    TakeSubMultiset(sorted, 10);
    var r := PopularTags(videos);
    HomePage.UniqueCorrect(entries);
    forall i | 0 <= i < |r| ensures r[i].tag in entries && r[i].count == Occurrences(entries, r[i].tag) {
      assert r[i] in multiset(rows);
      var j :| 0 <= j < |rows| && rows[j] == r[i];
      CountMapCorrect(entries, keys[j]);
    }
  }

  /** A row left out of a top cut counts at most as much as each row kept. */
  lemma LeftOutRow(rows: seq<TagCount>, r: seq<TagCount>, k: nat, i: nat)
    requires forall x, y :: x in multiset(rows) - multiset(r) && y in r ==> CountKey(x) <= CountKey(y)
    requires k < |rows| && i < |r|
    requires forall j :: 0 <= j < |r| ==> r[j].tag != rows[k].tag
    ensures rows[k].count <= r[i].count
  {
    assert rows[k] in multiset(rows);
    assert rows[k] !in multiset(r);
    assert rows[k] in multiset(rows) - multiset(r);
    assert r[i] in r;
  }

  /** A tag that did not make the cut occurs at most as often as every tag that did. */
  lemma PopularTagsTop(videos: seq<Video>)
    ensures var r := PopularTags(videos);
      var entries := HomePage.TagEntries(videos);
      forall t, i :: t in entries && 0 <= i < |r| && (forall j :: 0 <= j < |r| ==> r[j].tag != t) ==>
        Occurrences(entries, t) <= r[i].count
  {
    var entries := HomePage.TagEntries(videos);
    var keys := HomePage.Unique(entries);
    var rows := TagRows(keys, CountMap(entries));
    var r := Take(SortDesc(rows, CountKey), 10);
    assert r == PopularTags(videos);
    SortDescTop(rows, CountKey, 10);
    HomePage.UniqueCorrect(entries);
    forall t, i | t in entries && 0 <= i < |r| && (forall j :: 0 <= j < |r| ==> r[j].tag != t)
      ensures Occurrences(entries, t) <= r[i].count
    {
      var k :| 0 <= k < |keys| && keys[k] == t;
      CountMapCorrect(entries, t);
      LeftOutRow(rows, r, k, i);
    }
  }

  /**
   * The nested `forEach` over every video's tags. `order` is the key order
   * of the `tagCounts` object: a tag joins it when first counted.
   */
  method CountTags(videos: seq<Video>) returns (tagCounts: map<String, int>, order: seq<String>)
    ensures tagCounts == TagCounts(videos)
    ensures order == HomePage.Unique(HomePage.TagEntries(videos))
  {
    tagCounts := map[];
    order := [];
    var i := 0;
    while i < |videos|
      invariant 0 <= i <= |videos|
      invariant tagCounts == CountMap(HomePage.TagEntries(videos[..i]))
      invariant order == HomePage.Unique(HomePage.TagEntries(videos[..i]))
    {
      tagCounts, order := CountVideoTags(tagCounts, order, HomePage.TagEntries(videos[..i]), videos[i].tags);
      assert videos[..i + 1][..i] == videos[..i];
      i := i + 1;
    }
    assert videos[..i] == videos;
  }

  /** The inner `forEach`: one video's tags counted after the entries `before`. */
  method CountVideoTags(counts: map<String, int>, keys: seq<String>, ghost before: seq<String>, tags: seq<String>)
    returns (tagCounts: map<String, int>, order: seq<String>)
    requires counts == CountMap(before) && keys == HomePage.Unique(before)
    ensures tagCounts == CountMap(before + tags) && order == HomePage.Unique(before + tags)
  {
    tagCounts, order := counts, keys;
    var k := 0;
    assert before + tags[..0] == before;
    while k < |tags|
      invariant 0 <= k <= |tags|
      invariant tagCounts == CountMap(before + tags[..k])
      invariant order == HomePage.Unique(before + tags[..k])
    {
      tagCounts, order := CountTag(tagCounts, order, before + tags[..k], tags[k]);
      assert before + tags[..k] + [tags[k]] == before + tags[..k + 1];
      k := k + 1;
    }
    assert tags[..k] == tags;
  }

  /** One `tagCounts[tag] = (tagCounts[tag] || 0) + 1`. */
  method CountTag(counts: map<String, int>, keys: seq<String>, ghost before: seq<String>, tag: String)
    returns (tagCounts: map<String, int>, order: seq<String>)
    requires counts == CountMap(before) && keys == HomePage.Unique(before)
    ensures tagCounts == CountMap(before + [tag]) && order == HomePage.Unique(before + [tag])
  {
    var entries := before + [tag];
    assert entries[..|entries| - 1] == before;
    CountMapCorrect(before, tag);
    HomePage.UniqueCorrect(before);
    order := keys;
    if tag !in counts {
      order := order + [tag];
    }
    tagCounts := counts[tag := (if tag in counts then counts[tag] else 0) + 1];
  }

  // ----- recent activity -----

  function TimestampKey(p: VideoProgress): int { p.timestamp }

  /** `recentActivity`: the progress entries, newest first, cut to ten. */
  function RecentActivity(entries: seq<VideoProgress>): seq<VideoProgress> {
    Take(SortDesc(entries, TimestampKey), 10)
  }

  /**
   * At most ten entries, as many as there are, newest first, each a stored
   * entry, and no entry left out is newer than an entry kept.
   */
  lemma RecentActivityCorrect(entries: seq<VideoProgress>)
    ensures var r := RecentActivity(entries);
      && |r| == (if |entries| < 10 then |entries| else 10)
      && SortedDesc(r, TimestampKey)
      && multiset(r) <= multiset(entries)
      && (forall x, y :: x in multiset(entries) - multiset(r) && y in r ==> x.timestamp <= y.timestamp)
  {
    SortDescTop(entries, TimestampKey, 10);
    var sorted := SortDesc(entries, TimestampKey);
    SortDescPermutes(entries, TimestampKey);
    assert |multiset(sorted)| == |multiset(entries)|;
    TakeSortedDesc(sorted, TimestampKey, 10);
    TakeSubMultiset(sorted, 10);
  }

  // ----- the effect -----

  /**
   * The mount effect: `videos` is `getAllVideos()`, `groups` is
   * `getVideosByCategory()` and `entries` is `Object.values(getStoredProgress())`.
   */
  method ComputeStats(videos: seq<Video>, groups: seq<Group>, entries: seq<VideoProgress>) returns (stats: Stats)
    ensures stats.totalVideos == |videos| && stats.totalViews == |entries|
    ensures stats.totalWatchTime == WatchMinutes(entries)
    ensures stats.favoriteCount == None
    ensures stats.categoryStats == CategoryStats(groups)
    ensures stats.popularTags == PopularTags(videos)
    ensures stats.recentActivity == RecentActivity(entries)
  {
    var totalViews := |entries|;
    var totalWatchTime := WatchSeconds(entries);
    var categoryStats := CountCategories(groups);
    var tagCounts, order := CountTags(videos);
    var popularTags := Take(SortDesc(TagRows(order, tagCounts), CountKey), 10);
    stats := Stats(|videos|, totalViews, (totalWatchTime + 30) / 60, None, categoryStats, popularTags,
                   Take(SortDesc(entries, TimestampKey), 10));
  }
}
