/**
 * The watch-progress store (lib/progress.ts): a record of progress entries
 * keyed by slug, kept under the `video_progress` key. The field `entries`
 * stands for the parsed record; nothing stored is the empty record. The
 * clock reading `Date.now()` is a parameter, and times are whole numbers.
 */
module Progress {
  import opened Wrappers
  import opened Text

  /** `VideoProgress`. */
  datatype VideoProgress = VideoProgress(slug: String, currentTime: int, duration: int, timestamp: int)

  /** `allProgress[slug] || null`: a stored entry is an object, so it is returned whenever present. */
  function Lookup(entries: map<String, VideoProgress>, slug: String): (r: Option<VideoProgress>)
    ensures r.Some? <==> slug in entries
    ensures r.Some? ==> r.value == entries[slug]
  {
    if slug in entries then Some(entries[slug]) else None
  }

  /** The record after `saveProgress(slug, currentTime, duration)` at time `now`. */
  function Saved(entries: map<String, VideoProgress>, slug: String, currentTime: int, duration: int, now: int)
    : map<String, VideoProgress>
  {
    entries[slug := VideoProgress(slug, currentTime, duration, now)]
  }

  /** The record after `clearProgress(slug)`. */
  function Cleared(entries: map<String, VideoProgress>, slug: String): map<String, VideoProgress> {
    entries - {slug}
  }

  /** Reading back a saved slug gives the saved time and duration, whatever was stored before. */
  lemma SaveThenGet(entries: map<String, VideoProgress>, slug: String, currentTime: int, duration: int, now: int)
    ensures Lookup(Saved(entries, slug, currentTime, duration, now), slug)
         == Some(VideoProgress(slug, currentTime, duration, now))
  {
  }

  /** Saving one slug leaves every other slug's entry, or its absence, as it was. */
  lemma SaveKeepsOthers(entries: map<String, VideoProgress>, slug: String, currentTime: int, duration: int,
                        now: int, other: String)
    requires other != slug
    ensures Lookup(Saved(entries, slug, currentTime, duration, now), other) == Lookup(entries, other)
  {
  }

  /** After a clear the slug has no entry, and other slugs keep theirs. */
  lemma ClearThenGet(entries: map<String, VideoProgress>, slug: String, other: String)
    ensures Lookup(Cleared(entries, slug), slug) == None
    ensures other != slug ==> Lookup(Cleared(entries, slug), other) == Lookup(entries, other)
  {
  }

  /** Clearing a slug that has no entry changes nothing. */
  lemma ClearAbsent(entries: map<String, VideoProgress>, slug: String)
    requires slug !in entries
    ensures Cleared(entries, slug) == entries
  {
  }

  class ProgressStore {
    var entries: map<String, VideoProgress>

    /** Nothing stored yet: `getStoredProgress` gives the empty record. */
    constructor ()
      ensures entries == map[]
    {
      entries := map[];
    }

    function GetStoredProgress(): map<String, VideoProgress>
      reads this
    {
      entries
    }

    function GetProgress(slug: String): Option<VideoProgress>
      reads this
    {
      Lookup(GetStoredProgress(), slug)
    }

    /** `saveProgress(slug, currentTime, duration)` with `Date.now()` = `now`, the save assumed to succeed. */
    method SaveProgress(slug: String, currentTime: int, duration: int, now: int)
      modifies this
      ensures entries == Saved(old(entries), slug, currentTime, duration, now)
      ensures GetProgress(slug) == Some(VideoProgress(slug, currentTime, duration, now))
    {
      var progress := VideoProgress(slug, currentTime, duration, now);
      var allProgress := GetStoredProgress();
      allProgress := allProgress[slug := progress];
      entries := allProgress;
    }

    /** `clearProgress(slug)`. */
    method ClearProgress(slug: String)
      modifies this
      ensures entries == Cleared(old(entries), slug)
      ensures GetProgress(slug) == None
    {
      var allProgress := GetStoredProgress();
      allProgress := allProgress - {slug};
      entries := allProgress;
    }
  }
}
