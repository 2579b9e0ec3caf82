/**
 * The video management page (pages/ManageVideosPage.tsx): the tag select,
 * the search box and the total-duration statistic, computed from the
 * catalog held in the page's state.
 */
module ManageVideosPage {
  import opened Wrappers
  import opened Text
  import opened Seqs
  import opened Videos
  import opened Recommendations

  /** The select's value that keeps every video. */
  const AllTagsOption: String := "all"

  /** `video.tags.includes(tag)`. */
  function CarriesTag(tag: String): Video -> bool {
    (v: Video) => tag in v.tags
  }

  /** The lower-cased title, or some lower-cased tag, contains `term`. */
  predicate MatchesTerm(v: Video, term: String) {
    Includes(ToLower(v.title), term) || exists k :: 0 <= k < |v.tags| && Includes(ToLower(v.tags[k]), term)
  }

  function SearchTest(term: String): Video -> bool {
    (v: Video) => MatchesTerm(v, term)
  }

  /** `filteredVideos`. */
  function TagFiltered(videos: seq<Video>, selectedTag: String): seq<Video> {
    if selectedTag == AllTagsOption then videos else Filter(videos, CarriesTag(selectedTag))
  }

  /** `searchedVideos`: the term is lower-cased but not trimmed. */
  function Searched(filtered: seq<Video>, searchTerm: String): seq<Video> {
    Filter(filtered, SearchTest(ToLower(searchTerm)))
  }

  /**
   * "all" keeps every video; any other tag keeps exactly the videos carrying
   * it; either way the catalog order is kept.
   */
  lemma TagFilteredCorrect(videos: seq<Video>, selectedTag: String)
    ensures selectedTag == AllTagsOption ==> TagFiltered(videos, selectedTag) == videos
    ensures forall v :: v in TagFiltered(videos, selectedTag) <==>
              v in videos && (selectedTag != AllTagsOption ==> selectedTag in v.tags)
    ensures IsSubsequence(TagFiltered(videos, selectedTag), videos)
  {
    if selectedTag == AllTagsOption {
      SubsequenceRefl(videos);
    } else {
      FilterIsSubsequence(videos, CarriesTag(selectedTag));
      forall v ensures v in TagFiltered(videos, selectedTag) <==> v in videos && selectedTag in v.tags {
        FilterMemberIff(videos, CarriesTag(selectedTag), v);
      }
    }
  }

  /** Every string contains the empty string. */
  lemma {:induction false} IncludesEmpty(s: String)
    ensures Includes(s, "")
  {
  }

  /**
   * The search keeps exactly the videos whose lower-cased title or some
   * lower-cased tag contains the lower-cased term, in order; an empty term
   * keeps every video.
   */
  lemma SearchedCorrect(filtered: seq<Video>, searchTerm: String)
    ensures forall v :: v in Searched(filtered, searchTerm) <==> v in filtered && MatchesTerm(v, ToLower(searchTerm))
    ensures IsSubsequence(Searched(filtered, searchTerm), filtered)
    ensures searchTerm == [] ==> Searched(filtered, searchTerm) == filtered
  {
    var test := SearchTest(ToLower(searchTerm));
    forall v ensures v in Searched(filtered, searchTerm) <==> v in filtered && MatchesTerm(v, ToLower(searchTerm)) {
      FilterMemberIff(filtered, test, v);
    }
    FilterIsSubsequence(filtered, test);
    if searchTerm == [] {
      assert ToLower(searchTerm) == [];
      forall v | v in filtered ensures test(v) {
        IncludesEmpty(ToLower(v.title));
      }
      FilterKeepsAll(filtered, test);
    }
  }

  /** What is shown is a subsequence of what the tag keeps, which is a subsequence of the catalog. */
  lemma SearchedWithinFiltered(videos: seq<Video>, selectedTag: String, searchTerm: String)
    ensures var filtered := TagFiltered(videos, selectedTag);
      && IsSubsequence(Searched(filtered, searchTerm), filtered)
      && IsSubsequence(filtered, videos)
      && IsSubsequence(Searched(filtered, searchTerm), videos)
  {
    var filtered := TagFiltered(videos, selectedTag);
    TagFilteredCorrect(videos, selectedTag);
    SearchedCorrect(filtered, searchTerm);
    SubsequenceTrans(Searched(filtered, searchTerm), filtered, videos);
  }

  /** `secs || 0`: NaN, like a missing second part, counts as 0. */
  function OrZero(n: Num): Num {
    if n.NaN? then Finite(0) else n
  }

  /**
   * One video's term of the reduce: `const [mins, secs] = duration.split(':').map(Number)`,
   * then `mins * 60 + (secs || 0)`; parts after the second are ignored.
   */
  function VideoSeconds(duration: String): Num {
    var parts := Split(duration, ':');
    var mins := ToNumber(parts[0]);
    var secs := if |parts| >= 2 then ToNumber(parts[1]) else NaN;
    Add(Scale(60, mins), OrZero(secs))
  }

  /** The reduce from 0, left to right. */
  function TotalSeconds(videos: seq<Video>): Num {
    if videos == [] then Finite(0)
    else Add(TotalSeconds(videos[..|videos| - 1]), VideoSeconds(videos[|videos| - 1].duration))
  }

  /** `Math.round(total / 60)`: halves round up. */
  function TotalMinutes(videos: seq<Video>): Num {
    var total := TotalSeconds(videos);
    if total.NaN? then NaN else Finite((total.value + 30) / 60)
  }

  /** `"MM:SS"` with digit fields counts `60·MM + SS` seconds, as `parseDuration` does. */
  lemma MinutesSeconds(m: String, s: String)
    requires AllDigits(m) && AllDigits(s)
    ensures VideoSeconds(m + ":" + s) == Finite(60 * DigitsOrZero(m) + DigitsOrZero(s))
    ensures VideoSeconds(m + ":" + s) == ParseDuration(m + ":" + s)
  {
    DigitsHaveNoColon(m);
    DigitsHaveNoColon(s);
    SplitWithoutSeparator(s, ':');
    SplitAtSeparator(m, ':', s);
    assert m + ":" + s == m + [':'] + s;
    ParseMinutesSeconds(m, s);
  }

  /**
   * `"HH:MM:SS"` counts as `60·HH + MM` seconds here, unlike `parseDuration`,
   * which reads `3600·HH + 60·MM + SS`: the third part is ignored.
   */
  lemma ThirdPartIgnored(h: String, m: String, s: String)
    requires AllDigits(h) && AllDigits(m) && AllDigits(s)
    ensures VideoSeconds(h + ":" + m + ":" + s) == Finite(60 * DigitsOrZero(h) + DigitsOrZero(m))
    ensures ParseDuration(h + ":" + m + ":" + s)
         == Finite(3600 * DigitsOrZero(h) + 60 * DigitsOrZero(m) + DigitsOrZero(s))
  {
    DigitsHaveNoColon(h);
    DigitsHaveNoColon(m);
    DigitsHaveNoColon(s);
    SplitWithoutSeparator(s, ':');
    SplitAtSeparator(m, ':', s);
    SplitAtSeparator(h, ':', m + [':'] + s);
    assert h + ":" + m + ":" + s == h + [':'] + (m + [':'] + s);
    ParseHoursMinutesSeconds(h, m, s);
  }

  /** A duration without a colon counts its whole value as minutes. */
  lemma MinutesOnly(m: String)
    requires AllDigits(m)
    ensures VideoSeconds(m) == Finite(60 * DigitsOrZero(m))
  {
    DigitsHaveNoColon(m);
    SplitWithoutSeparator(m, ':');
  }

  /** The total is NaN exactly when some video's minutes are not a number; otherwise it is not negative. */
  lemma {:induction false} TotalSecondsNaN(videos: seq<Video>)
    ensures TotalSeconds(videos).NaN? <==> exists i :: 0 <= i < |videos| && VideoSeconds(videos[i].duration).NaN?
    ensures TotalSeconds(videos).Finite? ==> TotalSeconds(videos).value >= 0
  {
    if videos != [] {
      var init := videos[..|videos| - 1];
      TotalSecondsNaN(init);
      if exists i :: 0 <= i < |init| && VideoSeconds(init[i].duration).NaN? {
        var i :| 0 <= i < |init| && VideoSeconds(init[i].duration).NaN?;
        assert videos[i] == init[i];
      }
      if exists i :: 0 <= i < |videos| && VideoSeconds(videos[i].duration).NaN? {
        var i :| 0 <= i < |videos| && VideoSeconds(videos[i].duration).NaN?;
        if i < |init| {
          assert init[i] == videos[i];
        }
      }
    }
  }

  /** The minutes shown are the total seconds over 60, rounded to the nearest whole number, halves up. */
  lemma TotalMinutesRounds(videos: seq<Video>)
    requires TotalSeconds(videos).Finite?
    ensures var s := TotalSeconds(videos).value;
      var m := TotalMinutes(videos).value;
      60 * m - 30 <= s < 60 * m + 30
  {
  }
}
