/**
 * The home page's derived lists (pages/HomePage.tsx): the category order,
 * the five most recent uploads, the tag cloud, the tag and query filters,
 * the heading, and where ads go among the filtered cards. The catalog and
 * its grouping are inputs; the `tag` URL parameter is an optional string.
 */
module HomePage {
  import opened Wrappers
  import opened Text
  import opened Seqs
  import opened Videos

  const UserUploads: String := "User Uploads"

  /**
   * The comparator order: `last`, when given, sorts after every other name;
   * any two other names go by `Less`, the stand-in for `localeCompare` and
   * for the default string sort.
   */
  predicate Precedes(a: String, b: String, last: Option<String>) {
    if last == Some(a) then false
    else if last == Some(b) then true
    else Less(a, b)
  }

  lemma PrecedesIrreflexive(a: String, last: Option<String>)
    ensures !Precedes(a, a, last)
  {
    LessIrreflexive(a);
  }

  lemma PrecedesTotal(a: String, b: String, last: Option<String>)
    requires a != b
    ensures Precedes(a, b, last) || Precedes(b, a, last)
  {
    if last != Some(a) && last != Some(b) {
      LessTotal(a, b);
    }
  }

  lemma PrecedesTransitive(a: String, b: String, c: String, last: Option<String>)
    requires Precedes(a, b, last) && Precedes(b, c, last)
    ensures Precedes(a, c, last)
  {
    if last != Some(c) {
      LessTransitive(a, b, c);
    }
  }

  /** Every name before every later one. */
  predicate Ordered(s: seq<String>, last: Option<String>) {
    forall i, j :: 0 <= i < j < |s| ==> Precedes(s[i], s[j], last)
  }

  /** Puts `x` after every name that precedes it. */
  function Insert(x: String, s: seq<String>, last: Option<String>): seq<String> {
    if s == [] then [x]
    else if Precedes(s[0], x, last) then [s[0]] + Insert(x, s[1..], last)
    else [x] + s
  }

  /**
   * `sort` with the comparator: on names without repeats the order is a
   * strict total one, so every sorting algorithm yields this same list.
   */
  function SortBy(s: seq<String>, last: Option<String>): seq<String> {
    if s == [] then [] else Insert(s[0], SortBy(s[1..], last), last)
  }

  lemma {:induction false} InsertMembers(x: String, s: seq<String>, last: Option<String>)
    ensures multiset(Insert(x, s, last)) == multiset(s) + multiset{x}
  {
    if s != [] && Precedes(s[0], x, last) {
      InsertMembers(x, s[1..], last);
      assert s == [s[0]] + s[1..];
    }
  }

  lemma {:induction false} InsertOrdered(x: String, s: seq<String>, last: Option<String>)
    requires Ordered(s, last) && x !in s
    ensures Ordered(Insert(x, s, last), last)
    decreases |s|, 1
  {
    if s != [] {
      if Precedes(s[0], x, last) {
        InsertAfterHead(x, s, last);
      } else {
        InsertAtHead(x, s, last);
      }
    }
  }

  /** `x` goes in front of a first name it does not follow, and so of every name. */
  lemma InsertAtHead(x: String, s: seq<String>, last: Option<String>)
    requires Ordered(s, last) && x !in s && s != [] && !Precedes(s[0], x, last)
    ensures Ordered([x] + s, last)
  {
    PrecedesTotal(s[0], x, last);
    var r := [x] + s;
    forall i, j | 0 <= i < j < |r| ensures Precedes(r[i], r[j], last) {
      if i == 0 && j > 1 {
        PrecedesTransitive(x, s[0], s[j - 1], last);
      }
    }
  }

  /** The first name stays first when `x` follows it: it precedes the rest and `x`. */
  lemma {:induction false} InsertAfterHead(x: String, s: seq<String>, last: Option<String>)
    requires Ordered(s, last) && x !in s && s != [] && Precedes(s[0], x, last)
    ensures Ordered(Insert(x, s, last), last)
    decreases |s|, 0
  {
    var tail := s[1..];
    OrderedTail(s, last);
    InsertOrdered(x, tail, last);
    InsertMembers(x, tail, last);
    var t := Insert(x, tail, last);
    forall y | y in t ensures Precedes(s[0], y, last) {
      assert y in multiset(t);
      if y != x {
        assert y in multiset(tail);
      }
    }
    OrderedCons(s[0], t, last);
  }

  /** The rest of an ordered list is ordered and follows its first name. */
  lemma OrderedTail(s: seq<String>, last: Option<String>)
    requires Ordered(s, last) && s != []
    ensures Ordered(s[1..], last)
    ensures forall y :: y in s[1..] ==> Precedes(s[0], y, last)
  {
    var tail := s[1..];
    forall i, j | 0 <= i < j < |tail| ensures Precedes(tail[i], tail[j], last) {
      assert tail[i] == s[i + 1] && tail[j] == s[j + 1];
    }
    forall y | y in tail ensures Precedes(s[0], y, last) {
      var k :| 0 <= k < |tail| && tail[k] == y;
      assert s[k + 1] == y;
    }
  }

  /** A name that precedes every name of an ordered list can go in front of it. */
  lemma OrderedCons(h: String, t: seq<String>, last: Option<String>)
    requires Ordered(t, last) && forall y :: y in t ==> Precedes(h, y, last)
    ensures Ordered([h] + t, last)
  {
    var r := [h] + t;
    forall i, j | 0 <= i < j < |r| ensures Precedes(r[i], r[j], last) {
      assert r[j] == t[j - 1];
      if i > 0 {
        assert r[i] == t[i - 1];
      }
    }
  }

  /** Sorting names without repeats orders them and keeps each name. */
  lemma {:induction false} SortByCorrect(s: seq<String>, last: Option<String>)
    requires Distinct(s)
    ensures Ordered(SortBy(s, last), last)
    ensures multiset(SortBy(s, last)) == multiset(s)
  {
    if s != [] {
      var tail := s[1..];
      assert Distinct(tail) by {
        forall i, j | 0 <= i < j < |tail| ensures tail[i] != tail[j] {
          assert tail[i] == s[i + 1] && tail[j] == s[j + 1];
        }
      }
      SortByCorrect(tail, last);
      assert s[0] !in multiset(tail) by {
        forall k | 0 <= k < |tail| ensures tail[k] != s[0] {
          assert tail[k] == s[k + 1];
        }
      }
      InsertOrdered(s[0], SortBy(tail, last), last);
      InsertMembers(s[0], SortBy(tail, last), last);
      assert s == [s[0]] + tail;
    }
  }

  /** An ordered list has no repeats. */
  lemma OrderedDistinct(s: seq<String>, last: Option<String>)
    requires Ordered(s, last)
    ensures Distinct(s)
  {
    forall i, j | 0 <= i < j < |s| ensures s[i] != s[j] {
      PrecedesIrreflexive(s[i], last);
    }
  }

  /** The names of the groups, in the order `Object.keys` lists them. */
  function CategoryNames(groups: seq<Group>): seq<String> {
    seq(|groups|, k requires 0 <= k < |groups| => groups[k].category)
  }

  /** `categories`: the category names with "User Uploads" last and the rest by name. */
  function SortedCategories(groups: seq<Group>): seq<String> {
    SortBy(CategoryNames(groups), Some(UserUploads))
  }

  /** The grouping names every category of the catalog once. */
  lemma CategoryNamesOf(videos: seq<Video>, c: String)
    ensures Distinct(CategoryNames(GroupByCategory(videos)))
    ensures c in CategoryNames(GroupByCategory(videos)) <==> exists v :: v in videos && v.category == c
  {
    var groups := GroupByCategory(videos);
    GroupByCategoryCorrect(videos);
    var names := CategoryNames(groups);
    if c in names {
      var k :| 0 <= k < |names| && names[k] == c;
      assert groups[k] in groups;
      assert c in Categories(groups);
    }
    if c in Categories(groups) {
      var g :| g in groups && g.category == c;
      var k :| 0 <= k < |groups| && groups[k] == g;
      assert names[k] == c;
    }
  }

  /** Sorting distinct names with `last` kept for the end. */
  lemma SortWithLast(names: seq<String>, last: String)
    requires Distinct(names)
    ensures var r := SortBy(names, Some(last));
      && Distinct(r)
      && (forall c :: c in r <==> c in names)
      && (forall i, j :: 0 <= i < j < |r| && r[i] != last && r[j] != last ==> Less(r[i], r[j]))
      && (forall i :: 0 <= i < |r| - 1 ==> r[i] != last)
  {
    SortByCorrect(names, Some(last));
    var r := SortBy(names, Some(last));
    OrderedDistinct(r, Some(last));
    forall c ensures c in r <==> c in names {
      assert c in r <==> c in multiset(names);
    }
    forall i | 0 <= i < |r| - 1 ensures r[i] != last {
      assert Precedes(r[i], r[|r| - 1], Some(last));
    }
  }

  /**
   * The catalog's categories, each once, in comparator order; no category
   * follows "User Uploads", so when present it is the last one.
   */
  lemma CategoriesOrder(videos: seq<Video>)
    ensures var r := SortedCategories(GroupByCategory(videos));
      && Distinct(r)
      && (forall c :: c in r <==> exists v :: v in videos && v.category == c)
      && (forall i, j :: 0 <= i < j < |r| && r[i] != UserUploads && r[j] != UserUploads ==> Less(r[i], r[j]))
      && (forall i :: 0 <= i < |r| - 1 ==> r[i] != UserUploads)
      && (UserUploads in r ==> r[|r| - 1] == UserUploads)
  {
    var names := CategoryNames(GroupByCategory(videos));
    CategoryNamesOf(videos, UserUploads);
    SortWithLast(names, UserUploads);
    forall c ensures c in names <==> exists v :: v in videos && v.category == c {
      CategoryNamesOf(videos, c);
    }
  }

  /** `recentVideos`: the catalog newest first, cut to five. */
  function RecentVideos(all: seq<Video>): seq<Video> {
    Take(SortDesc(all, UploadKey), 5)
  }

  /**
   * At most five videos, newest first, each taken from the catalog, and no
   * video left out was uploaded later than a video kept.
   */
  lemma RecentVideosCorrect(all: seq<Video>)
    ensures var r := RecentVideos(all);
      && |r| == (if |all| < 5 then |all| else 5)
      && SortedDesc(r, UploadKey)
      && multiset(r) <= multiset(all)
      && (forall x, y :: x in multiset(all) - multiset(r) && y in r ==> UploadKey(x) <= UploadKey(y))
  {
    SortDescTop(all, UploadKey, 5);
    var sorted := SortDesc(all, UploadKey);
    SortDescPermutes(all, UploadKey);
    TakeSortedDesc(sorted, UploadKey, 5);
    TakeSubMultiset(sorted, 5);
    assert |multiset(sorted)| == |multiset(all)|;
  }

  /** Every tag entry of the catalog, video by video. */
  function TagEntries(videos: seq<Video>): seq<String> {
    if videos == [] then [] else TagEntries(videos[..|videos| - 1]) + videos[|videos| - 1].tags
  }

  /** The order `Array.from` gives a `Set` filled with `entries`: first occurrences, in order. */
  function Unique(entries: seq<String>): seq<String> {
    if entries == [] then []
    else
      var seen := Unique(entries[..|entries| - 1]);
      var t := entries[|entries| - 1];
      if t in seen then seen else seen + [t]
  }

  lemma {:induction false} UniqueCorrect(entries: seq<String>)
    ensures Distinct(Unique(entries))
    ensures forall t :: t in Unique(entries) <==> t in entries
  {
    if entries != [] {
      var init := entries[..|entries| - 1];
      UniqueCorrect(init);
      assert entries == init + [entries[|entries| - 1]];
    }
  }

  lemma {:induction false} TagEntriesMember(videos: seq<Video>, t: String)
    ensures t in TagEntries(videos) <==> exists i :: 0 <= i < |videos| && t in videos[i].tags
  {
    if videos != [] {
      var init := videos[..|videos| - 1];
      TagEntriesMember(init, t);
      if t in TagEntries(init) {
        var i :| 0 <= i < |init| && t in init[i].tags;
        assert videos[i] == init[i];
      }
      if exists i :: 0 <= i < |videos| && t in videos[i].tags {
        var i :| 0 <= i < |videos| && t in videos[i].tags;
        if i < |init| {
          assert init[i] == videos[i];
        }
      }
    }
  }

  /** `allTags`. */
  function AllTags(videos: seq<Video>): seq<String> {
    SortBy(Unique(TagEntries(videos)), None)
  }

  /** The tag cloud lists every tag some video carries, once each, in ascending order. */
  lemma AllTagsCorrect(videos: seq<Video>)
    ensures var r := AllTags(videos);
      && Distinct(r)
      && (forall i, j :: 0 <= i < j < |r| ==> Less(r[i], r[j]))
      && (forall t :: t in r <==> exists i :: 0 <= i < |videos| && t in videos[i].tags)
  {
    var u := Unique(TagEntries(videos));
    UniqueCorrect(TagEntries(videos));
    SortByCorrect(u, None);
    var r := AllTags(videos);
    OrderedDistinct(r, None);
    forall t ensures t in r <==> exists i :: 0 <= i < |videos| && t in videos[i].tags {
      assert t in r <==> t in multiset(u);
      TagEntriesMember(videos, t);
    }
  }

  /** The `useMemo` behind `allTags`: the `forEach` loops fill the set, which is then sorted. */
  method ListAllTags(videos: seq<Video>) returns (r: seq<String>)
    ensures r == AllTags(videos)
  {
    var tags: seq<String> := [];
    var i := 0;
    while i < |videos|
      invariant 0 <= i <= |videos|
      invariant tags == Unique(TagEntries(videos[..i]))
    {
      var videoTags := videos[i].tags;
      var k := 0;
      assert TagEntries(videos[..i]) + videoTags[..0] == TagEntries(videos[..i]);
      while k < |videoTags|
        invariant 0 <= k <= |videoTags|
        invariant tags == Unique(TagEntries(videos[..i]) + videoTags[..k])
      {
        var tag := videoTags[k];
        var entries := TagEntries(videos[..i]) + videoTags[..k + 1];
        assert entries[..|entries| - 1] == TagEntries(videos[..i]) + videoTags[..k];
        if tag !in tags {
          tags := tags + [tag];
        }
        k := k + 1;
      }
      assert videoTags[..k] == videoTags;
      assert videos[..i + 1][..i] == videos[..i];
      i := i + 1;
    }
    assert videos[..i] == videos;
    r := SortBy(tags, None);
  }

  /** `if (x)` on an optional string: present and not empty. */
  predicate Truthy(x: Option<String>) {
    x.Some? && x.value != []
  }

  predicate HasTag(v: Video, tag: String) {
    tag in v.tags
  }

  /** `searchQuery.toLowerCase().trim()`. */
  function Query(searchQuery: String): String {
    Trim(ToLower(searchQuery))
  }

  /** The lower-cased title, description or some lower-cased tag contains `q`. */
  predicate MatchesQuery(v: Video, q: String) {
    || Includes(ToLower(v.title), q)
    || Includes(ToLower(v.description), q)
    || exists k :: 0 <= k < |v.tags| && Includes(ToLower(v.tags[k]), q)
  }

  function TagTest(tag: String): Video -> bool {
    v => HasTag(v, tag)
  }

  function QueryTest(q: String): Video -> bool {
    v => MatchesQuery(v, q)
  }

  /** `filteredVideos`: the tag filter, then the query filter when the query is not blank. */
  function FilteredVideos(all: seq<Video>, selectedTag: Option<String>, searchQuery: String): seq<Video> {
    var byTag := if Truthy(selectedTag) then Filter(all, TagTest(selectedTag.value)) else all;
    var q := Query(searchQuery);
    if q != [] then Filter(byTag, QueryTest(q)) else byTag
  }

  /**
   * A catalog video is shown exactly when it carries the selected tag (if
   * one is selected) and matches the query (if it is not blank); the shown
   * videos keep the catalog order.
   */
  lemma FilteredVideosCorrect(all: seq<Video>, selectedTag: Option<String>, searchQuery: String)
    ensures var q := Query(searchQuery);
      forall v :: v in FilteredVideos(all, selectedTag, searchQuery) <==>
        v in all && (Truthy(selectedTag) ==> HasTag(v, selectedTag.value)) && (q != [] ==> MatchesQuery(v, q))
    ensures IsSubsequence(FilteredVideos(all, selectedTag, searchQuery), all)
  {
    var q := Query(searchQuery);
    var byTag := if Truthy(selectedTag) then Filter(all, TagTest(selectedTag.value)) else all;
    var r := FilteredVideos(all, selectedTag, searchQuery);
    forall v ensures v in r <==> v in all && (Truthy(selectedTag) ==> HasTag(v, selectedTag.value)) && (q != [] ==> MatchesQuery(v, q)) {
      if Truthy(selectedTag) {
        FilterMemberIff(all, TagTest(selectedTag.value), v);
      }
      if q != [] {
        FilterMemberIff(byTag, QueryTest(q), v);
      }
    }
    if Truthy(selectedTag) {
      FilterIsSubsequence(all, TagTest(selectedTag.value));
    } else {
      SubsequenceRefl(all);
    }
    if q != [] {
      FilterIsSubsequence(byTag, QueryTest(q));
      SubsequenceTrans(r, byTag, all);
    }
  }

  /** With no tag selected and a blank query, the whole catalog is shown as is. */
  lemma UnfilteredShowsAll(all: seq<Video>, searchQuery: String)
    requires Query(searchQuery) == []
    ensures FilteredVideos(all, None, searchQuery) == all
  {
  }

  /** `isFiltered`. */
  predicate IsFiltered(searchQuery: String, selectedTag: Option<String>) {
    searchQuery != [] || Truthy(selectedTag)
  }

  /** `getHeading()`. */
  function Heading(searchQuery: String, selectedTag: Option<String>): String {
    if searchQuery != [] then "Results for \"" + searchQuery + "\""
    else if Truthy(selectedTag) then "Videos tagged #" + selectedTag.value
    else "All Videos"
  }

  /**
   * The query wins over the tag, the tag over the default, and the page
   * reads "All Videos" exactly when it is not filtered.
   */
  lemma HeadingPrecedence(searchQuery: String, selectedTag: Option<String>)
    ensures searchQuery != [] ==> Heading(searchQuery, selectedTag) == "Results for \"" + searchQuery + "\""
    ensures searchQuery == [] && Truthy(selectedTag) ==> Heading(searchQuery, selectedTag) == "Videos tagged #" + selectedTag.value
    ensures Heading(searchQuery, selectedTag) == "All Videos" <==> !IsFiltered(searchQuery, selectedTag)
  {
    var h := Heading(searchQuery, selectedTag);
    if IsFiltered(searchQuery, selectedTag) {
      assert h[0] != 'A';
    }
  }

  /** One entry of the filtered grid. */
  datatype Item = Card(video: Video) | AdSlot(index: nat)

  predicate IsAd(item: Item) {
    item.AdSlot?
  }

  /** `index === 3 || (index > 3 && (index - 3) % 8 === 0)`. */
  predicate AdAfter(index: nat) {
    index == 3 || (index > 3 && (index - 3) % 8 == 0)
  }

  /** An ad follows the fourth card and then every eighth card. */
  lemma AdAfterRule(index: nat)
    ensures AdAfter(index) <==> index >= 3 && (index - 3) % 8 == 0
  {
  }

  /** The grid for `videos`: each card, followed by an ad where `AdAfter` says so. */
  function Items(videos: seq<Video>): seq<Item> {
    if videos == [] then []
    else
      var n := |videos| - 1;
      Items(videos[..n]) + [Card(videos[n])] + (if AdAfter(n) then [AdSlot(n)] else [])
  }

  /** How many of the first `n` cards are followed by an ad. */
  function AdCount(n: nat): nat {
    if n == 0 then 0 else AdCount(n - 1) + (if AdAfter(n - 1) then 1 else 0)
  }

  /** No ad among three cards or fewer, then one more for every eight cards after the fourth. */
  lemma {:induction false} AdCountClosed(n: nat)
    ensures AdCount(n) == if n <= 3 then 0 else (n - 4) / 8 + 1
  {
    if n > 0 {
      AdCountClosed(n - 1);
      if n > 4 {
        var m := n - 5;
        assert (m + 1) / 8 == m / 8 + (if (m + 1) % 8 == 0 then 1 else 0);
      }
    }
  }

  /** The grid of `videos` followed by one more video. */
  lemma ItemsSnoc(videos: seq<Video>)
    requires videos != []
    ensures var n := |videos| - 1;
      Items(videos) == Items(videos[..n]) + [Card(videos[n])] + (if AdAfter(n) then [AdSlot(n)] else [])
  {
  }

  /** The grid holds every card and `AdCount` ads. */
  lemma {:induction false} ItemsCount(videos: seq<Video>)
    ensures |Items(videos)| == |videos| + AdCount(|videos|)
    ensures |Filter(Items(videos), IsAd)| == AdCount(|videos|)
  {
    if videos != [] {
      var n := |videos| - 1;
      ItemsCount(videos[..n]);
      var before := Items(videos[..n]);
      var ad: seq<Item> := if AdAfter(n) then [AdSlot(n)] else [];
      FilterAppend(before, [Card(videos[n])], IsAd);
      FilterAppend(before + [Card(videos[n])], ad, IsAd);
      assert Filter(ad, IsAd) == ad;
      assert Filter([Card(videos[n])], IsAd) == [];
    }
  }

  /** The ad numbered `i` is in the grid exactly when there is a card `i` with `AdAfter(i)`. */
  lemma {:induction false} ItemsAds(videos: seq<Video>, i: nat)
    ensures AdSlot(i) in Items(videos) <==> i < |videos| && AdAfter(i)
  {
    if videos != [] {
      var n := |videos| - 1;
      ItemsAds(videos[..n], i);
      var ad: seq<Item> := if AdAfter(n) then [AdSlot(n)] else [];
      assert AdSlot(i) in Items(videos) <==> AdSlot(i) in Items(videos[..n]) || AdSlot(i) in ad;
    }
  }

  /** Every ad comes straight after the card with its number. */
  lemma {:induction false} ItemsAdFollowsCard(videos: seq<Video>, p: nat)
    requires p < |Items(videos)| && Items(videos)[p].AdSlot?
    ensures p > 0 && Items(videos)[p].index < |videos|
    ensures Items(videos)[p - 1] == Card(videos[Items(videos)[p].index])
  {
    var n := |videos| - 1;
    var init := videos[..n];
    var before := Items(init);
    var r := Items(videos);
    ItemsSnoc(videos);
    if p < |before| {
      assert r[p] == before[p];
      ItemsAdFollowsCard(init, p);
      assert r[p - 1] == before[p - 1];
      assert init[r[p].index] == videos[r[p].index];
    } else {
      assert p == |before| + 1;
    }
  }

  /** `renderedFilteredItems`: nothing unless filtered, else one `forEach` pushing cards and ads. */
  method RenderFilteredItems(videos: seq<Video>, isFiltered: bool) returns (items: seq<Item>)
    ensures items == if isFiltered then Items(videos) else []
  {
    if !isFiltered {
      return [];
    }
    items := [];
    var index := 0;
    while index < |videos|
      invariant 0 <= index <= |videos|
      invariant items == Items(videos[..index])
    {
      items := items + [Card(videos[index])];
      if index == 3 || (index > 3 && (index - 3) % 8 == 0) {
        items := items + [AdSlot(index)];
      }
      assert videos[..index + 1][..index] == videos[..index];
      index := index + 1;
    }
    assert videos[..index] == videos;
  }
}
