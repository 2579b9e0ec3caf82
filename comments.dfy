/**
 * The comment store (lib/comments.ts): for each video slug, a forest of
 * comments whose replies are comments in turn, kept under the
 * `video_comments` key, and the user name kept under `user_name`. The
 * fields stand for the parsed stored values; nothing stored is the empty
 * record and no name. Ids and timestamps come from the clock and are
 * parameters.
 */
module Comments {
  import opened Wrappers
  import opened Text

  /** `Comment`. */
  datatype Comment = Comment(
    id: String,
    videoSlug: String,
    username: String,
    content: String,
    timestamp: String,
    likes: int,
    replies: seq<Comment>)

  /** Every comment of the forest, each before its replies and the replies before the next sibling. */
  function Preorder(forest: seq<Comment>): seq<Comment>
    decreases forest
  {
    if forest == [] then []
    else [forest[0]] + Preorder(forest[0].replies) + Preorder(forest[1..])
  }

  /** The first comment with the id in a flat list. */
  function FirstWithId(comments: seq<Comment>, id: String): (r: Option<Comment>)
    ensures r.Some? ==> r.value in comments && r.value.id == id
    ensures r.None? <==> forall j :: 0 <= j < |comments| ==> comments[j].id != id
  {
    if comments == [] then None
    else if comments[0].id == id then Some(comments[0])
    else FirstWithId(comments[1..], id)
  }

  /**
   * `findComment(comments, id)`: each comment in turn is checked, then its
   * replies searched, before the next sibling.
   */
  function FindComment(forest: seq<Comment>, id: String): (r: Option<Comment>)
    ensures r.Some? ==> r.value.id == id
    decreases forest
  {
    if forest == [] then None
    else if forest[0].id == id then Some(forest[0])
    else match FindComment(forest[0].replies, id)
      case Some(c) => Some(c)
      case None => FindComment(forest[1..], id)
  }

  lemma {:induction false} FirstWithIdAppend(a: seq<Comment>, b: seq<Comment>, id: String)
    ensures FirstWithId(a + b, id) == if FirstWithId(a, id).Some? then FirstWithId(a, id) else FirstWithId(b, id)
  {
    if a == [] {
      assert a + b == b;
    } else {
      assert (a + b)[1..] == a[1..] + b;
      if a[0].id != id {
        FirstWithIdAppend(a[1..], b, id);
      }
    }
  }

  /** The search finds the first comment with the id in preorder, and nothing when no comment has it. */
  lemma {:induction false} FindCommentIsFirstInPreorder(forest: seq<Comment>, id: String)
    ensures FindComment(forest, id) == FirstWithId(Preorder(forest), id)
    decreases forest
  {
    if forest != [] {
      var head := forest[0];
      var tail := Preorder(head.replies) + Preorder(forest[1..]);
      assert Preorder(forest) == [head] + tail;
      assert ([head] + tail)[1..] == tail;
      if head.id != id {
        FindCommentIsFirstInPreorder(head.replies, id);
        FindCommentIsFirstInPreorder(forest[1..], id);
        FirstWithIdAppend(Preorder(head.replies), Preorder(forest[1..]), id);
      }
    }
  }

  /**
   * The forest after `parent.replies.push(comment)` for the first comment
   * in preorder whose id is `parentId`; unchanged when there is none.
   */
  function AddReply(forest: seq<Comment>, parentId: String, comment: Comment): seq<Comment>
    decreases forest
  {
    if forest == [] then []
    else if forest[0].id == parentId then [forest[0].(replies := forest[0].replies + [comment])] + forest[1..]
    else if FindComment(forest[0].replies, parentId).Some?
    then [forest[0].(replies := AddReply(forest[0].replies, parentId, comment))] + forest[1..]
    else [forest[0]] + AddReply(forest[1..], parentId, comment)
  }

  /** Without a comment to reply to, the forest is unchanged. */
  lemma {:induction false} AddReplyMissing(forest: seq<Comment>, parentId: String, comment: Comment)
    requires FindComment(forest, parentId).None?
    ensures AddReply(forest, parentId, comment) == forest
    decreases forest
  {
    if forest != [] {
      AddReplyMissing(forest[1..], parentId, comment);
    }
  }

  /**
   * With a comment to reply to, the first match in preorder is still found
   * first, now with the new comment as its last reply.
   */
  lemma {:induction false} AddReplyFound(forest: seq<Comment>, parentId: String, comment: Comment)
    requires FindComment(forest, parentId).Some?
    ensures var parent := FindComment(forest, parentId).value;
            FindComment(AddReply(forest, parentId, comment), parentId)
            == Some(parent.(replies := parent.replies + [comment]))
    decreases forest
  {
    var head := forest[0];
    if head.id != parentId {
      var r := AddReply(forest, parentId, comment);
      if FindComment(head.replies, parentId).Some? {
        AddReplyFound(head.replies, parentId, comment);
        assert r[0].replies == AddReply(head.replies, parentId, comment);
      } else {
        AddReplyFound(forest[1..], parentId, comment);
        assert r[1..] == AddReply(forest[1..], parentId, comment);
      }
    }
  }

  /** Replying adds exactly one comment to the forest when the parent exists, none otherwise. */
  lemma {:induction false} AddReplySize(forest: seq<Comment>, parentId: String, comment: Comment)
    ensures |Preorder(AddReply(forest, parentId, comment))|
         == |Preorder(forest)| + (if FindComment(forest, parentId).Some? then |Preorder([comment])| else 0)
    decreases forest
  {
    if forest == [] {
    } else {
      var head := forest[0];
      var r := AddReply(forest, parentId, comment);
      if head.id == parentId {
        PreorderAppend(head.replies, [comment]);
        assert r[1..] == forest[1..];
      } else if FindComment(head.replies, parentId).Some? {
        AddReplySize(head.replies, parentId, comment);
        assert r[1..] == forest[1..];
      } else {
        AddReplySize(forest[1..], parentId, comment);
        assert r[1..] == AddReply(forest[1..], parentId, comment);
      }
    }
  }

  lemma {:induction false} PreorderAppend(a: seq<Comment>, b: seq<Comment>)
    ensures Preorder(a + b) == Preorder(a) + Preorder(b)
    decreases a
  {
    if a == [] {
      assert a + b == b;
    } else {
      assert (a + b)[0] == a[0];
      assert (a + b)[1..] == a[1..] + b;
      PreorderAppend(a[1..], b);
    }
  }

  /** `localStorage.getItem(USERNAME_KEY) || 'Anonymous'`. */
  function NameOf(stored: Option<String>): String {
    if stored.None? || stored.value == [] then "Anonymous" else stored.value
  }

  /** Without a name, or with the empty name, comments are signed "Anonymous"; any other name is used as is. */
  lemma DefaultName(name: String)
    ensures NameOf(None) == "Anonymous" && NameOf(Some("")) == "Anonymous"
    ensures name != [] ==> NameOf(Some(name)) == name
  {
  }

  /** `if (parentId)`: a missing or empty parent id posts at the top level. */
  predicate IsReply(parentId: Option<String>) {
    parentId.Some? && parentId.value != []
  }

  /** A video's list after posting `comment`: appended at the top level, or as a reply. */
  function Posted(comments: seq<Comment>, parentId: Option<String>, comment: Comment): seq<Comment> {
    if IsReply(parentId) then AddReply(comments, parentId.value, comment) else comments + [comment]
  }

  /** A reply to a missing comment leaves the video's list as it was. */
  lemma PostToMissingParent(comments: seq<Comment>, parentId: String, comment: Comment)
    requires parentId != [] && FindComment(comments, parentId).None?
    ensures Posted(comments, Some(parentId), comment) == comments
  {
    AddReplyMissing(comments, parentId, comment);
  }

  class CommentStore {
    var all: map<String, seq<Comment>>
    var storedName: Option<String>

    /** Nothing stored yet. */
    constructor ()
      ensures all == map[] && storedName == None
      ensures forall videoSlug :: GetComments(videoSlug) == []
      ensures GetUsername() == "Anonymous"
    {
      all := map[];
      storedName := None;
    }

    /** `getComments(videoSlug)`: the video's list, empty when it has none. */
    function GetComments(videoSlug: String): seq<Comment>
      reads this
    {
      if videoSlug in all then all[videoSlug] else []
    }

    function GetUsername(): String
      reads this
    {
      NameOf(storedName)
    }

    method SetUsername(name: String)
      modifies this`storedName
      ensures storedName == Some(name)
    {
      storedName := Some(name);
    }

    /**
     * `addComment(videoSlug, content, parentId)` with the id and timestamp
     * given: the new comment is returned whether or not its parent exists.
     */
    method AddComment(videoSlug: String, content: String, parentId: Option<String>, id: String, now: String)
      returns (comment: Comment)
      modifies this`all
      ensures comment == Comment(id, videoSlug, GetUsername(), content, now, 0, [])
      ensures all == old(all)[videoSlug := Posted(old(GetComments(videoSlug)), parentId, comment)]
      ensures forall slug :: slug != videoSlug ==> GetComments(slug) == old(GetComments(slug))
    {
      var username := GetUsername();
      comment := Comment(id, videoSlug, username, content, now, 0, []);
      var allComments := all;
      if videoSlug !in allComments {
        allComments := allComments[videoSlug := []];
      }
      if IsReply(parentId) {
        if FindComment(allComments[videoSlug], parentId.value).Some? {
          allComments := allComments[videoSlug := AddReply(allComments[videoSlug], parentId.value, comment)];
        } else {
          AddReplyMissing(allComments[videoSlug], parentId.value, comment);
        }
      } else {
        allComments := allComments[videoSlug := allComments[videoSlug] + [comment]];
      }
      all := allComments;
    }
  }
}
