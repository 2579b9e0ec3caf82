/**
 * The recommendation ranking (lib/recommendations.ts): every catalog video
 * other than the current one is scored by additive rules, the scored list is
 * sorted by descending score (stably, as `Array.prototype.sort` is) and cut
 * to `limit` entries.
 *
 * What the source reads from storage is passed in: the watched slugs (the
 * keys of the stored progress record) and the favourite slugs.
 */
module Recommendations {
  import opened Wrappers
  import opened Text
  import opened Seqs
  import opened Videos

  /** `RecommendationScore`. */
  datatype Recommendation = Recommendation(video: Video, score: int, reasons: seq<String>)

  /** The stored state the ranking depends on. */
  datatype History = History(watched: seq<String>, favorites: set<String>)

  // ----- parseDuration -----

  /** `duration.split(':').map(Number)`, then minutes and seconds, or hours, minutes and seconds, or 0. */
  function ParseDuration(duration: String): (r: Num)
    ensures r.Finite? ==> r.value >= 0
  {
    var parts := Split(duration, ':');
    if |parts| == 2 then Add(Scale(60, ToNumber(parts[0])), ToNumber(parts[1]))
    else if |parts| == 3 then
      Add(Add(Scale(3600, ToNumber(parts[0])), Scale(60, ToNumber(parts[1]))), ToNumber(parts[2]))
    else Finite(0)
  }

  /** The value `Number` gives a string of digits: the empty string counts as 0. */
  function DigitsOrZero(s: String): nat
    requires AllDigits(s)
  {
    if s == [] then 0 else DigitsValue(s)
  }

  /** `"MM:SS"` with digit fields is `60·MM + SS` seconds. */
  lemma ParseMinutesSeconds(m: String, s: String)
    requires AllDigits(m) && AllDigits(s)
    ensures ParseDuration(m + ":" + s) == Finite(60 * DigitsOrZero(m) + DigitsOrZero(s))
  {
    SplitTwoFields(m, s);
  }

  lemma SplitTwoFields(m: String, s: String)
    requires AllDigits(m) && AllDigits(s)
    ensures Split(m + ":" + s, ':') == [m, s]
  {
    DigitsHaveNoColon(m);
    DigitsHaveNoColon(s);
    SplitWithoutSeparator(s, ':');
    SplitAtSeparator(m, ':', s);
    assert m + ":" + s == m + [':'] + s;
  }

  /** `"HH:MM:SS"` with digit fields is `3600·HH + 60·MM + SS` seconds. */
  lemma ParseHoursMinutesSeconds(h: String, m: String, s: String)
    requires AllDigits(h) && AllDigits(m) && AllDigits(s)
    ensures ParseDuration(h + ":" + m + ":" + s)
         == Finite(3600 * DigitsOrZero(h) + 60 * DigitsOrZero(m) + DigitsOrZero(s))
  {
    SplitThreeFields(h, m, s);
    ThreeParts(h + ":" + m + ":" + s, h, m, s);
    NumberOfDigits(h);
    NumberOfDigits(m);
    NumberOfDigits(s);
  }

  /** A duration of three fields is weighted as hours, minutes and seconds. */
  lemma ThreeParts(duration: String, h: String, m: String, s: String)
    requires Split(duration, ':') == [h, m, s]
    ensures ParseDuration(duration) == Add(Add(Scale(3600, ToNumber(h)), Scale(60, ToNumber(m))), ToNumber(s))
  {
    var parts := Split(duration, ':');
    assert |parts| == 3 && parts[0] == h && parts[1] == m && parts[2] == s;
  }

  lemma NumberOfDigits(s: String)
    requires AllDigits(s)
    ensures ToNumber(s) == Finite(DigitsOrZero(s))
  {
  }

  lemma SplitThreeFields(h: String, m: String, s: String)
    requires AllDigits(h) && AllDigits(m) && AllDigits(s)
    ensures Split(h + ":" + m + ":" + s, ':') == [h, m, s]
  {
    DigitsHaveNoColon(h);
    SplitTwoFields(m, s);
    SplitAtSeparator(h, ':', m + [':'] + s);
    assert m + ":" + s == m + [':'] + s;
    assert h + ":" + m + ":" + s == h + [':'] + (m + [':'] + s);
  }

  /** A duration without a colon is a single part, which counts as 0 seconds. */
  lemma ParseWithoutColon(duration: String)
    requires ':' !in duration
    ensures ParseDuration(duration) == Finite(0)
  {
    SplitWithoutSeparator(duration, ':');
  }

  lemma DigitsHaveNoColon(s: String)
    requires AllDigits(s)
    ensures ':' !in s
  {
    assert forall i :: 0 <= i < |s| ==> s[i] != ':' by {
      forall i | 0 <= i < |s| ensures s[i] != ':' {
        assert IsDigit(s[i]);
      }
    }
  }

  // ----- The scoring rules -----

  /** The rules of the score, in the order the source tests them. */
  datatype Rule = SameCategory | SharedTags(count: nat) | SimilarToFavorites | Unwatched | PreferredDuration

  function Points(r: Rule): int {
    match r
    case SameCategory => 30
    case SharedTags(n) => 10 * n
    case SimilarToFavorites => 20
    case Unwatched => 15
    case PreferredDuration => 10
  }

  function Reason(r: Rule): String {
    match r
    case SameCategory => "Same category"
    case SharedTags(n) => NatToString(n) + " shared tags"
    case SimilarToFavorites => "Similar to favorites"
    case Unwatched => "Unwatched"
    case PreferredDuration => "Preferred duration"
  }

  predicate IsSameCategory(current: Option<Video>, video: Video) {
    current.Some? && video.category == current.value.category
  }

  /** `video.tags.filter(tag => currentVideo.tags.includes(tag)).length`, or 0 without a current video. */
  function SharedTagCount(current: Option<Video>, video: Video): (n: nat)
    ensures n <= |video.tags|
    ensures current.None? ==> n == 0
  {
    if current.None? then 0 else |Filter(video.tags, t => t in current.value.tags)|
  }

  /** The favourite found in the catalog shares the category or a tag with the video. */
  predicate LooksLike(favorite: Option<Video>, video: Video) {
    favorite.Some? && (favorite.value.category == video.category
                       || exists t :: t in favorite.value.tags && t in video.tags)
  }

  predicate IsSimilarToFavorites(all: seq<Video>, favorites: set<String>, video: Video) {
    exists s :: s in favorites && LooksLike(FindBySlug(all, s), video)
  }

  predicate IsUnwatched(watched: seq<String>, video: Video) {
    video.slug !in watched
  }

  /** The duration of a watched slug: that of its first catalog match, 0 when it has none. */
  function WatchedDuration(all: seq<Video>, slug: String): Num {
    match FindBySlug(all, slug)
    case Some(v) => ParseDuration(v.duration)
    case None => Finite(0)
  }

  /** The `reduce` over the watched slugs: the sum of their durations (NaN once any is NaN). */
  function WatchedTotal(all: seq<Video>, watched: seq<String>): Num {
    if watched == [] then Finite(0)
    else Add(WatchedTotal(all, watched[..|watched| - 1]), WatchedDuration(all, watched[|watched| - 1]))
  }

  function Abs(x: int): nat { if x < 0 then -x else x }

  /**
   * `|duration − average| < 60`, with the average `total / n` of `n > 0`
   * watched slugs multiplied out to `|duration·n − total| < 60·n`, and 300
   * seconds standing in for the average when nothing is watched. A NaN on
   * either side fails the test, as `NaN < 60` does.
   */
  predicate NearAverage(duration: Num, total: Num, n: nat) {
    if n == 0 then duration.Finite? && Abs(duration.value - 300) < 60
    else duration.Finite? && total.Finite? && Abs(duration.value * n - total.value) < 60 * n
  }

  predicate HasPreferredDuration(all: seq<Video>, watched: seq<String>, video: Video) {
    NearAverage(ParseDuration(video.duration), WatchedTotal(all, watched), |watched|)
  }

  /** Dividing by a positive number keeps a strict bound once the bound is multiplied by it. */
  lemma DivBelow(a: real, m: real, c: real)
    requires m > 0.0
    ensures a / m < c <==> a < c * m
  {
    var q := a / m;
    assert q * m == a;
    assert (c - q) * m == c * m - a;
    if q < c {
      assert (c - q) * m > 0.0;
    }
    if a < c * m {
      assert (c - q) * m > 0.0;
    }
  }

  lemma DivAbove(a: real, m: real, c: real)
    requires m > 0.0
    ensures c < a / m <==> c * m < a
  {
    var q := a / m;
    assert q * m == a;
    assert (q - c) * m == a - c * m;
    if c < q {
      assert (q - c) * m > 0.0;
    }
    if c * m < a {
      assert (q - c) * m > 0.0;
    }
  }

  /** The multiplied-out test is the source's test on the exact average. */
  lemma NearAverageExact(d: int, total: int, n: nat)
    requires n > 0
    ensures NearAverage(Finite(d), Finite(total), n)
        <==> -60.0 < (d as real) - (total as real) / (n as real) < 60.0
  {
    var m := n as real;
    var x := d * n - total;
    assert (d as real) - (total as real) / m == (x as real) / m by {
      assert (d as real) == (d as real) * m / m;
      assert (d * n) as real == (d as real) * m;
    }
    DivBelow(x as real, m, 60.0);
    DivAbove(x as real, m, -60.0);
    assert (60 * n) as real == 60.0 * m;
  }

  /** With nothing watched, the bonus goes to durations strictly between 4 and 6 minutes. */
  lemma DefaultAverage(all: seq<Video>, video: Video)
    ensures HasPreferredDuration(all, [], video)
        <==> ParseDuration(video.duration).Finite? && 240 < ParseDuration(video.duration).value < 360
  {
  }

  /** The outcome of each test for one candidate. */
  datatype Checks = Checks(
    sameCategory: bool,
    sharedTags: nat,
    similarToFavorites: bool,
    unwatched: bool,
    preferredDuration: bool)

  function Evaluate(all: seq<Video>, current: Option<Video>, history: History, video: Video): Checks {
    Checks(IsSameCategory(current, video), SharedTagCount(current, video),
           IsSimilarToFavorites(all, history.favorites, video), IsUnwatched(history.watched, video),
           HasPreferredDuration(all, history.watched, video))
  }

  /** The rules that hold, in the order the source tests them. */
  function Fired(c: Checks): (r: seq<Rule>)
    ensures SameCategory in r <==> c.sameCategory
    ensures SharedTags(c.sharedTags) in r <==> c.sharedTags > 0
    ensures SimilarToFavorites in r <==> c.similarToFavorites
    ensures Unwatched in r <==> c.unwatched
    ensures PreferredDuration in r <==> c.preferredDuration
    ensures |r| <= 5
  {
    When(c.sameCategory, SameCategory) + When(c.sharedTags > 0, SharedTags(c.sharedTags))
    + When(c.similarToFavorites, SimilarToFavorites) + When(c.unwatched, Unwatched)
    + When(c.preferredDuration, PreferredDuration)
  }

  /** `rule` alone when its test holds, nothing otherwise. */
  function When(holds: bool, rule: Rule): seq<Rule> {
    if holds then [rule] else []
  }

  function TotalPoints(rules: seq<Rule>): int {
    if rules == [] then 0 else TotalPoints(rules[..|rules| - 1]) + Points(rules[|rules| - 1])
  }

  function Reasons(rules: seq<Rule>): seq<String> {
    if rules == [] then [] else Reasons(rules[..|rules| - 1]) + [Reason(rules[|rules| - 1])]
  }

  /** The entry the `map` callback returns for `video`. */
  function Scored(all: seq<Video>, current: Option<Video>, history: History, video: Video): Recommendation {
    var rules := Fired(Evaluate(all, current, history, video));
    Recommendation(video, TotalPoints(rules), Reasons(rules))
  }

  lemma TotalPointsSnoc(rules: seq<Rule>, r: Rule)
    ensures TotalPoints(rules + [r]) == TotalPoints(rules) + Points(r)
  {
    assert (rules + [r])[..|rules|] == rules;
  }

  lemma {:induction false} TotalPointsAppend(a: seq<Rule>, b: seq<Rule>)
    ensures TotalPoints(a + b) == TotalPoints(a) + TotalPoints(b)
    decreases |b|
  {
    if b == [] {
      assert a + b == a;
    } else {
      var init := b[..|b| - 1];
      TotalPointsAppend(a, init);
      assert a + b == (a + init) + [b[|b| - 1]];
      TotalPointsSnoc(a + init, b[|b| - 1]);
      assert b == init + [b[|b| - 1]];
      TotalPointsSnoc(init, b[|b| - 1]);
    }
  }

  lemma PointsWhen(holds: bool, rule: Rule)
    ensures TotalPoints(When(holds, rule)) == if holds then Points(rule) else 0
  {
    if holds {
      TotalPointsSnoc([], rule);
    }
  }

  /** The points of the rules that hold: 30, 10 per shared tag, 20, 15 and 10. */
  lemma PointsFormula(c: Checks)
    ensures TotalPoints(Fired(c))
         == (if c.sameCategory then 30 else 0) + 10 * c.sharedTags + (if c.similarToFavorites then 20 else 0)
          + (if c.unwatched then 15 else 0) + (if c.preferredDuration then 10 else 0)
  {
    var a := When(c.sameCategory, SameCategory);
    var b := When(c.sharedTags > 0, SharedTags(c.sharedTags));
    var d := When(c.similarToFavorites, SimilarToFavorites);
    var e := When(c.unwatched, Unwatched);
    var f := When(c.preferredDuration, PreferredDuration);
    TotalPointsAppend(a + b + d + e, f);
    TotalPointsAppend(a + b + d, e);
    TotalPointsAppend(a + b, d);
    TotalPointsAppend(a, b);
    PointsWhen(c.sameCategory, SameCategory);
    PointsWhen(c.sharedTags > 0, SharedTags(c.sharedTags));
    PointsWhen(c.similarToFavorites, SimilarToFavorites);
    PointsWhen(c.unwatched, Unwatched);
    PointsWhen(c.preferredDuration, PreferredDuration);
  }

  /** The score as a sum: 30, 10 per shared tag, 20, 15 and 10 for the rules that hold. */
  lemma ScoreFormula(all: seq<Video>, current: Option<Video>, history: History, video: Video)
    ensures Scored(all, current, history, video).score
         == (if IsSameCategory(current, video) then 30 else 0)
          + 10 * SharedTagCount(current, video)
          + (if IsSimilarToFavorites(all, history.favorites, video) then 20 else 0)
          + (if IsUnwatched(history.watched, video) then 15 else 0)
          + (if HasPreferredDuration(all, history.watched, video) then 10 else 0)
  {
    PointsFormula(Evaluate(all, current, history, video));
  }

  /** Every score lies between 0 and 75 plus 10 per tag of the candidate. */
  lemma ScoreBounds(all: seq<Video>, current: Option<Video>, history: History, video: Video)
    ensures 0 <= Scored(all, current, history, video).score <= 75 + 10 * |video.tags|
  {
    PointsFormula(Evaluate(all, current, history, video));
  }

  /**
   * The `map` callback of `getRecommendations`: the tests are evaluated (the
   * shared-tag count is 0 without a current video, as the source's
   * `if (currentVideo)` guard gives) and the rules that hold are scored.
   */
  method ScoreCandidate(all: seq<Video>, current: Option<Video>, history: History, video: Video)
    returns (rec: Recommendation)
    ensures rec == Scored(all, current, history, video)
  {
    var c := Evaluate(all, current, history, video);
    var score, reasons := Accumulate(c);
    rec := Recommendation(video, score, reasons);
  }

  /**
   * The body of the `map` callback once its tests are evaluated: `score` and
   * `reasons` start empty and each rule that holds adds its points and
   * pushes its reason. The shared-tag rule always adds its 10 points per
   * shared tag, which is nothing when no tag is shared.
   */
  method Accumulate(c: Checks) returns (score: int, reasons: seq<String>)
    ensures score == TotalPoints(Fired(c)) && reasons == Reasons(Fired(c))
  {
    score, reasons := Award(0, [], [], c.sameCategory, SameCategory);
    ghost var fired := When(c.sameCategory, SameCategory);
    score, reasons := Award(score, reasons, fired, c.sharedTags > 0, SharedTags(c.sharedTags));
    fired := fired + When(c.sharedTags > 0, SharedTags(c.sharedTags));
    score, reasons := Award(score, reasons, fired, c.similarToFavorites, SimilarToFavorites);
    fired := fired + When(c.similarToFavorites, SimilarToFavorites);
    score, reasons := Award(score, reasons, fired, c.unwatched, Unwatched);
    fired := fired + When(c.unwatched, Unwatched);
    score, reasons := Award(score, reasons, fired, c.preferredDuration, PreferredDuration);
  }

  /** One `if (…) { score += …; reasons.push(…) }` step of the callback. */
  method Award(score: int, reasons: seq<String>, ghost fired: seq<Rule>, holds: bool, rule: Rule)
    returns (score': int, reasons': seq<String>)
    requires score == TotalPoints(fired) && reasons == Reasons(fired)
    ensures score' == TotalPoints(fired + When(holds, rule))
    ensures reasons' == Reasons(fired + When(holds, rule))
  {
    score', reasons' := score, reasons;
    if holds {
      Added(fired, rule);
      score', reasons' := score + Points(rule), reasons + [Reason(rule)];
    } else {
      assert fired + When(holds, rule) == fired;
    }
  }

  /** Adding a rule adds its points and its reason. */
  lemma Added(rules: seq<Rule>, r: Rule)
    ensures TotalPoints(rules + [r]) == TotalPoints(rules) + Points(r)
    ensures Reasons(rules + [r]) == Reasons(rules) + [Reason(r)]
  {
    assert (rules + [r])[..|rules|] == rules;
  }

  // ----- getRecommendations -----

  /** `video.slug !== currentVideo?.slug`: without a current video every slug passes. */
  function NotCurrent(current: Option<Video>): Video -> bool {
    (v: Video) => current.None? || v.slug != current.value.slug
  }

  function Candidates(all: seq<Video>, current: Option<Video>): seq<Video> {
    Filter(all, NotCurrent(current))
  }

  function ScoreAll(all: seq<Video>, current: Option<Video>, history: History, videos: seq<Video>): (r: seq<Recommendation>)
    ensures |r| == |videos|
    ensures forall i :: 0 <= i < |videos| ==> r[i] == Scored(all, current, history, videos[i])
  {
    seq(|videos|, i requires 0 <= i < |videos| => Scored(all, current, history, videos[i]))
  }

  function ScoreOf(r: Recommendation): int { r.score }

  /** The candidates, scored in catalog order. */
  function ScoredCandidates(all: seq<Video>, current: Option<Video>, history: History): seq<Recommendation> {
    ScoreAll(all, current, history, Candidates(all, current))
  }

  /** `getRecommendations(allVideos, currentVideo, limit)`. */
  function GetRecommendations(all: seq<Video>, current: Option<Video>, limit: int, history: History): seq<Recommendation> {
    Take(SortDesc(ScoredCandidates(all, current, history), ScoreOf), limit)
  }

  /** `getPersonalizedHomeFeed(allVideos, limit)`: the videos of the recommendations made without a current video. */
  function PersonalizedHomeFeed(all: seq<Video>, limit: int, history: History): (r: seq<Video>)
    ensures |r| == |GetRecommendations(all, None, limit, history)|
    ensures forall i :: 0 <= i < |r| ==> r[i] == GetRecommendations(all, None, limit, history)[i].video
  {
    var recs := GetRecommendations(all, None, limit, history);
    seq(|recs|, i requires 0 <= i < |recs| => recs[i].video)
  }

  /** Each scored entry is the score of one of the videos it was computed from. */
  lemma ScoreAllMember(all: seq<Video>, current: Option<Video>, history: History, videos: seq<Video>, r: Recommendation)
    requires r in ScoreAll(all, current, history, videos)
    ensures r.video in videos && r == Scored(all, current, history, r.video)
  {
    var scored := ScoreAll(all, current, history, videos);
    var i :| 0 <= i < |scored| && scored[i] == r;
    assert r == Scored(all, current, history, videos[i]);
  }

  /** The result is a prefix of a permutation of the scored candidates: nothing is invented or repeated. */
  lemma RecommendationsFromCatalog(all: seq<Video>, current: Option<Video>, limit: int, history: History)
    ensures multiset(GetRecommendations(all, current, limit, history))
         <= multiset(ScoredCandidates(all, current, history))
    ensures forall r :: r in GetRecommendations(all, current, limit, history) ==>
              r.video in all && r == Scored(all, current, history, r.video)
  {
    var scored := ScoredCandidates(all, current, history);
    var sorted := SortDesc(scored, ScoreOf);
    SortDescPermutes(scored, ScoreOf);
    TakeSubMultiset(sorted, limit);
    var result := Take(sorted, limit);
    assert multiset(result) <= multiset(scored);
    forall r | r in result ensures r.video in all && r == Scored(all, current, history, r.video) {
      assert r in multiset(result);
      assert r in scored;
      var cands := Candidates(all, current);
      ScoreAllMember(all, current, history, cands, r);
      FilterMember(all, NotCurrent(current), r.video);
    }
  }

  /** The current video is never recommended. */
  lemma CurrentExcluded(all: seq<Video>, current: Video, limit: int, history: History)
    ensures forall r :: r in GetRecommendations(all, Some(current), limit, history) ==> r.video.slug != current.slug
  {
    var result := GetRecommendations(all, Some(current), limit, history);
    var cands := Candidates(all, Some(current));
    var scored := ScoredCandidates(all, Some(current), history);
    RecommendationsFromCatalog(all, Some(current), limit, history);
    forall r | r in result ensures r.video.slug != current.slug {
      assert r in multiset(result);
      assert r in scored;
      ScoreAllMember(all, Some(current), history, cands, r);
      FilterMemberIff(all, NotCurrent(Some(current)), r.video);
    }
  }

  /** At most `limit` entries, and at most one per candidate; exactly that many when both allow. */
  lemma RecommendationsLength(all: seq<Video>, current: Option<Video>, limit: int, history: History)
    ensures var n := |GetRecommendations(all, current, limit, history)|;
      && n <= |Candidates(all, current)| <= |all|
      && (limit >= 0 ==> n == if limit <= |Candidates(all, current)| then limit else |Candidates(all, current)|)
  {
    var scored := ScoredCandidates(all, current, history);
    SortDescPermutes(scored, ScoreOf);
    assert |SortDesc(scored, ScoreOf)| == |multiset(SortDesc(scored, ScoreOf))| == |multiset(scored)| == |scored|;
  }

  /** Scores along the result never increase. */
  lemma RecommendationsSorted(all: seq<Video>, current: Option<Video>, limit: int, history: History)
    ensures SortedDesc(GetRecommendations(all, current, limit, history), ScoreOf)
  {
    var sorted := SortDesc(ScoredCandidates(all, current, history), ScoreOf);
    var result := GetRecommendations(all, current, limit, history);
    assert forall i :: 0 <= i < |result| ==> result[i] == sorted[i];
  }

  /** The cut at `limit` keeps the best: no scored candidate left out scores higher than a recommendation kept. */
  lemma RecommendationsTop(all: seq<Video>, current: Option<Video>, limit: int, history: History)
    ensures var result := GetRecommendations(all, current, limit, history);
      forall x, y :: x in multiset(ScoredCandidates(all, current, history)) - multiset(result) && y in result ==>
        ScoreOf(x) <= ScoreOf(y)
  {
    SortDescTop(ScoredCandidates(all, current, history), ScoreOf, limit);
  }

  lemma {:induction false} WithKeyPrefix<T, K>(s: seq<T>, n: nat, key: T -> K, k: K)
    requires n <= |s|
    ensures WithKey(s[..n], key, k) <= WithKey(s, key, k)
  {
    if n > 0 {
      WithKeyPrefix(s[1..], n - 1, key, k);
      assert s[..n][1..] == s[1..][..n - 1];
    }
  }

  /**
   * Ties keep catalog order: the entries with any one score appear in the
   * result as a prefix of the candidates with that score, in catalog order.
   */
  lemma RecommendationsStable(all: seq<Video>, current: Option<Video>, limit: int, history: History, score: int)
    ensures WithKey(GetRecommendations(all, current, limit, history), ScoreOf, score)
         <= WithKey(ScoredCandidates(all, current, history), ScoreOf, score)
  {
    var scored := ScoredCandidates(all, current, history);
    var sorted := SortDesc(scored, ScoreOf);
    var result := GetRecommendations(all, current, limit, history);
    SortDescStable(scored, ScoreOf, score);
    WithKeyPrefix(sorted, |result|, ScoreOf, score);
  }

  /**
   * Without a current video nothing is filtered out and no category or tag
   * points are given: the feed draws from the whole catalog, at most 45
   * points each.
   */
  lemma HomeFeedCoversCatalog(all: seq<Video>, limit: int, history: History)
    ensures Candidates(all, None) == all
    ensures limit >= 0 ==> |PersonalizedHomeFeed(all, limit, history)| == if limit <= |all| then limit else |all|
    ensures forall r :: r in GetRecommendations(all, None, limit, history) ==> r.score <= 45
  {
    FilterKeepsAll(all, NotCurrent(None));
    RecommendationsLength(all, None, limit, history);
    RecommendationsFromCatalog(all, None, limit, history);
    forall r | r in GetRecommendations(all, None, limit, history) ensures r.score <= 45 {
      ScoreFormula(all, None, history, r.video);
    }
  }
}
