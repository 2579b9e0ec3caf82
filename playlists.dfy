/**
 * The playlist store (lib/playlists.ts): a list of playlists kept under the
 * `user_playlists` key. The field `playlists` stands for the parsed list;
 * nothing stored is the empty list. Ids and timestamps, which the source
 * takes from the clock, are parameters.
 */
module Playlists {
  import opened Wrappers
  import opened Text

  /** `Playlist`. */
  datatype Playlist = Playlist(
    id: String,
    name: String,
    description: String,
    videoSlugs: seq<String>,
    createdAt: String,
    updatedAt: String)

  /** `playlists.findIndex(p => p.id === id)`, as an optional index. */
  function FindIndex(playlists: seq<Playlist>, id: String): (r: Option<nat>)
    ensures r.Some? ==> r.value < |playlists| && playlists[r.value].id == id
    ensures r.Some? ==> forall j :: 0 <= j < r.value ==> playlists[j].id != id
    ensures r.None? <==> forall j :: 0 <= j < |playlists| ==> playlists[j].id != id
  {
    if playlists == [] then None
    else if playlists[0].id == id then Some(0)
    else match FindIndex(playlists[1..], id)
      case Some(i) => Some(i + 1)
      case None => None
  }

  /** `slugs.indexOf(slug)`, as an optional index. */
  function IndexOf(slugs: seq<String>, slug: String): (r: Option<nat>)
    ensures r.Some? ==> r.value < |slugs| && slugs[r.value] == slug
    ensures r.Some? ==> forall j :: 0 <= j < r.value ==> slugs[j] != slug
    ensures r.None? <==> slug !in slugs
  {
    if slugs == [] then None
    else if slugs[0] == slug then Some(0)
    else match IndexOf(slugs[1..], slug)
      case Some(i) => Some(i + 1)
      case None => None
  }

  /** `splice(i, 1)`: the sequence without its element at `i`. */
  function RemoveAt<T>(s: seq<T>, i: nat): (r: seq<T>)
    requires i < |s|
    ensures |r| == |s| - 1
    ensures forall j :: 0 <= j < i ==> r[j] == s[j]
    ensures forall j :: i <= j < |r| ==> r[j] == s[j + 1]
  {
    s[..i] + s[i + 1..]
  }

  /** The stored list after `addVideoToPlaylist(id, slug)` at time `now`. */
  function Added(playlists: seq<Playlist>, id: String, slug: String, now: String): seq<Playlist> {
    match FindIndex(playlists, id)
    case Some(i) =>
      if slug in playlists[i].videoSlugs
      then playlists
      else playlists[i := playlists[i].(videoSlugs := playlists[i].videoSlugs + [slug], updatedAt := now)]
    case None => playlists
  }

  /** The stored list after `removeVideoFromPlaylist(id, slug)` at time `now`. */
  function Removed(playlists: seq<Playlist>, id: String, slug: String, now: String): seq<Playlist> {
    match FindIndex(playlists, id)
    case Some(i) =>
      (match IndexOf(playlists[i].videoSlugs, slug)
       case Some(k) => playlists[i := playlists[i].(videoSlugs := RemoveAt(playlists[i].videoSlugs, k), updatedAt := now)]
       case None => playlists)
    case None => playlists
  }

  /** The stored list after `deletePlaylist(id)`. */
  function Deleted(playlists: seq<Playlist>, id: String): seq<Playlist> {
    match FindIndex(playlists, id)
    case Some(i) => RemoveAt(playlists, i)
    case None => playlists
  }

  predicate NoDuplicates(slugs: seq<String>) {
    forall i, j :: 0 <= i < j < |slugs| ==> slugs[i] != slugs[j]
  }

  predicate AllWithoutDuplicates(playlists: seq<Playlist>) {
    forall i :: 0 <= i < |playlists| ==> NoDuplicates(playlists[i].videoSlugs)
  }

  /** Adding never creates a duplicate: slug lists without duplicates stay without. */
  lemma AddedKeepsNoDuplicates(playlists: seq<Playlist>, id: String, slug: String, now: String)
    requires AllWithoutDuplicates(playlists)
    ensures AllWithoutDuplicates(Added(playlists, id, slug, now))
  {
    var r := Added(playlists, id, slug, now);
    match FindIndex(playlists, id)
    case Some(i) =>
      if slug !in playlists[i].videoSlugs {
        var s := playlists[i].videoSlugs;
        assert r[i].videoSlugs == s + [slug];
        assert NoDuplicates(s + [slug]) by {
          forall a, b | 0 <= a < b < |s| + 1 ensures (s + [slug])[a] != (s + [slug])[b] {
            if b == |s| {
              assert (s + [slug])[a] == s[a];
            }
          }
        }
      }
    case None =>
  }

  /** Only the first playlist with the id changes, and only by the slug at the end of its list. */
  lemma AddedShape(playlists: seq<Playlist>, id: String, slug: String, now: String)
    ensures |Added(playlists, id, slug, now)| == |playlists|
    ensures forall j :: 0 <= j < |playlists| && Some(j) != FindIndex(playlists, id) ==>
              Added(playlists, id, slug, now)[j] == playlists[j]
    ensures FindIndex(playlists, id).Some? && slug !in playlists[FindIndex(playlists, id).value].videoSlugs ==>
              Added(playlists, id, slug, now)[FindIndex(playlists, id).value].videoSlugs
              == playlists[FindIndex(playlists, id).value].videoSlugs + [slug]
  {
  }

  /** Removing a slug that was just added gives the playlist back its slug list; nothing else changes. */
  lemma AddThenRemove(playlists: seq<Playlist>, id: String, slug: String, t1: String, t2: String)
    requires FindIndex(playlists, id).Some?
    requires slug !in playlists[FindIndex(playlists, id).value].videoSlugs
    ensures var r := Removed(Added(playlists, id, slug, t1), id, slug, t2);
            |r| == |playlists|
            && r[FindIndex(playlists, id).value].videoSlugs == playlists[FindIndex(playlists, id).value].videoSlugs
            && forall j :: 0 <= j < |playlists| && j != FindIndex(playlists, id).value ==> r[j] == playlists[j]
  {
    var i := FindIndex(playlists, id).value;
    var s := playlists[i].videoSlugs;
    var added := Added(playlists, id, slug, t1);
    assert added[i].videoSlugs == s + [slug];
    FindIndexSameIds(playlists, added, id);
    assert IndexOf(s + [slug], slug) == Some(|s|) by {
      IndexOfAppended(s, slug);
    }
    assert RemoveAt(s + [slug], |s|) == s;
  }

  /** Playlists with the same ids in the same places are searched alike. */
  lemma {:induction false} FindIndexSameIds(a: seq<Playlist>, b: seq<Playlist>, id: String)
    requires |a| == |b| && forall j :: 0 <= j < |a| ==> a[j].id == b[j].id
    ensures FindIndex(a, id) == FindIndex(b, id)
  {
    if a != [] && a[0].id != id {
      FindIndexSameIds(a[1..], b[1..], id);
    }
  }

  /** A slug absent from a list is found at the end once appended. */
  lemma IndexOfAppended(s: seq<String>, slug: String)
    requires slug !in s
    ensures IndexOf(s + [slug], slug) == Some(|s|)
  {
    var r := IndexOf(s + [slug], slug);
    assert (s + [slug])[|s|] == slug;
    assert forall j :: 0 <= j < |s| ==> (s + [slug])[j] == s[j];
  }

  class PlaylistStore {
    var playlists: seq<Playlist>

    /** Nothing stored yet: `getPlaylists` gives the empty list. */
    constructor ()
      ensures playlists == []
    {
      playlists := [];
    }

    function GetPlaylists(): seq<Playlist>
      reads this
    {
      playlists
    }

    /** The loop behind `playlists.find` and `findIndex`: the first playlist with the id. */
    method Find(id: String) returns (index: Option<nat>)
      ensures index == FindIndex(playlists, id)
    {
      var i := 0;
      while i < |playlists|
        invariant 0 <= i <= |playlists|
        invariant forall j :: 0 <= j < i ==> playlists[j].id != id
      {
        if playlists[i].id == id {
          FirstMatch(playlists, id, i);
          return Some(i);
        }
        i := i + 1;
      }
      return None;
    }

    /** `createPlaylist(name, description)` with the id and both timestamps given. */
    method CreatePlaylist(name: String, description: String, id: String, now: String) returns (playlist: Playlist)
      modifies this
      ensures playlist == Playlist(id, name, description, [], now, now)
      ensures playlists == old(playlists) + [playlist]
    {
      playlist := Playlist(id, name, description, [], now, now);
      playlists := playlists + [playlist];
    }

    /** `addVideoToPlaylist(id, slug)` at time `now`. */
    method AddVideoToPlaylist(id: String, slug: String, now: String) returns (added: bool)
      modifies this
      ensures added <==> FindIndex(old(playlists), id).Some?
                         && slug !in old(playlists)[FindIndex(old(playlists), id).value].videoSlugs
      ensures playlists == Added(old(playlists), id, slug, now)
      ensures !added ==> playlists == old(playlists)
    {
      var index := Find(id);
      if index.Some? && slug !in playlists[index.value].videoSlugs {
        var p := playlists[index.value];
        playlists := playlists[index.value := p.(videoSlugs := p.videoSlugs + [slug], updatedAt := now)];
        return true;
      }
      return false;
    }

    /** `removeVideoFromPlaylist(id, slug)` at time `now`. */
    method RemoveVideoFromPlaylist(id: String, slug: String, now: String) returns (removed: bool)
      modifies this
      ensures removed <==> FindIndex(old(playlists), id).Some?
                           && slug in old(playlists)[FindIndex(old(playlists), id).value].videoSlugs
      ensures playlists == Removed(old(playlists), id, slug, now)
      ensures !removed ==> playlists == old(playlists)
    {
      var index := Find(id);
      if index.Some? {
        var p := playlists[index.value];
        var k := IndexOf(p.videoSlugs, slug);
        if k.Some? {
          playlists := playlists[index.value := p.(videoSlugs := RemoveAt(p.videoSlugs, k.value), updatedAt := now)];
          return true;
        }
      }
      return false;
    }

    /** `deletePlaylist(id)`. */
    method DeletePlaylist(id: String) returns (deleted: bool)
      modifies this
      ensures deleted <==> FindIndex(old(playlists), id).Some?
      ensures playlists == Deleted(old(playlists), id)
    {
      var index := Find(id);
      if index.Some? {
        playlists := RemoveAt(playlists, index.value);
        return true;
      }
      return false;
    }
  }

  /** An index with the id and none before it is the one `FindIndex` gives. */
  lemma FirstMatch(playlists: seq<Playlist>, id: String, i: nat)
    requires i < |playlists| && playlists[i].id == id
    requires forall j :: 0 <= j < i ==> playlists[j].id != id
    ensures FindIndex(playlists, id) == Some(i)
  {
  }
}
