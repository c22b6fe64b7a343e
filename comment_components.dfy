/** The comment dialog of a post (load, delete, post), the rule for who may
    delete a comment, and the like button's two-state toggle. Every remote
    call is replaced by its outcome, passed in by the caller. */
module CommentComponents {
  import opened Wrappers
  import opened Numbers
  import opened Text

  /** A stored comment. */
  datatype Comment = Comment(
    id: string,
    postId: string,
    userId: string,
    userName: string,
    content: string)

  // ---------------------------------------------------------------------
  // Comment list rules
  // ---------------------------------------------------------------------

  /** The list after deleting comment `id`: every comment with another id, in order. */
  function RemoveComment(cs: seq<Comment>, id: string): (r: seq<Comment>)
    ensures |r| <= |cs|
    ensures forall i :: 0 <= i < |r| ==> r[i].id != id
  {
    if cs == [] then []
    else if cs[0].id == id then RemoveComment(cs[1..], id)
    else [cs[0]] + RemoveComment(cs[1..], id)
  }

  /** Deleting keeps exactly the comments with another id. */
  lemma {:induction false} RemoveCommentMembers(cs: seq<Comment>, id: string, c: Comment)
    ensures c in RemoveComment(cs, id) <==> c in cs && c.id != id
  {
    if cs != [] {
      RemoveCommentMembers(cs[1..], id, c);
      assert c in cs <==> c == cs[0] || c in cs[1..];
    }
  }

  /** Deleting distributes over concatenation, so the survivors keep their order. */
  lemma {:induction false} RemoveCommentAppend(a: seq<Comment>, b: seq<Comment>, id: string)
    ensures RemoveComment(a + b, id) == RemoveComment(a, id) + RemoveComment(b, id)
  {
    if a == [] {
      assert a + b == b;
    } else {
      assert (a + b)[0] == a[0];
      assert (a + b)[1..] == a[1..] + b;
      RemoveCommentAppend(a[1..], b, id);
    }
  }

  /** Deleting an id no comment has leaves the list as it was, and deleting
      twice is deleting once. */
  lemma {:induction false} RemoveCommentIdempotent(cs: seq<Comment>, id: string)
    ensures (forall i :: 0 <= i < |cs| ==> cs[i].id != id) ==> RemoveComment(cs, id) == cs
    ensures RemoveComment(RemoveComment(cs, id), id) == RemoveComment(cs, id)
  {
    if cs != [] {
      RemoveCommentIdempotent(cs[1..], id);
      if forall i :: 0 <= i < |cs| ==> cs[i].id != id {
        assert forall i :: 0 <= i < |cs[1..]| ==> cs[1..][i].id == cs[i + 1].id;
      }
      var rest := RemoveComment(cs[1..], id);
      if cs[0].id != id {
        assert ([cs[0]] + rest)[0] == cs[0];
        assert ([cs[0]] + rest)[1..] == rest;
      }
    }
  }

  /** `CommentItem`'s delete control: shown exactly when the signed-in user's
      email, up to its '@', equals the comment's author name; never without
      an email. */
  predicate CanDelete(email: Option<string>, c: Comment) {
    email.Some? && SubstringBefore(email.value, '@') == c.userName
  }

  /** A comment stored under the email prefix of its author, as the app names
      new comments, can be deleted by that author. */
  lemma AuthorCanDelete(email: string, c: Comment)
    requires c.userName == SubstringBefore(email, '@')
    ensures CanDelete(Some(email), c)
  {
  }

  /** An author name holding '@' matches nobody, and with no email nothing is
      deletable. */
  lemma CanDeleteNeeds(email: Option<string>, c: Comment)
    ensures '@' in c.userName ==> !CanDelete(email, c)
    ensures email.None? ==> !CanDelete(email, c)
  {
  }

  /** Two emails with the same local part delete the same comments. */
  lemma CanDeleteByLocalPart(local: string, domain1: string, domain2: string, c: Comment)
    requires '@' !in local
    ensures CanDelete(Some(local + "@" + domain1), c) <==> CanDelete(Some(local + "@" + domain2), c)
    ensures CanDelete(Some(local + "@" + domain1), c) <==> c.userName == local
  {
    SubstringBeforeAt(local, domain1);
    SubstringBeforeAt(local, domain2);
  }

  // ---------------------------------------------------------------------
  // The comment dialog
  // ---------------------------------------------------------------------

  /** What became of pressing "Post Comment": the add succeeded (then the list
      was reloaded, with that outcome), the add reported failure, or it threw. */
  datatype PostOutcome =
    | Posted(reload: Result<seq<Comment>>)
    | NotPosted
    | PostThrew(message: Option<string>)

  class CommentDialog {
    var comments: seq<Comment>
    var isLoading: bool
    var newCommentText: string
    var isPosting: bool
    /** Once set, an error stays shown: no path clears it. */
    var errorMessage: Option<string>

    constructor ()
      ensures comments == [] && isLoading && newCommentText == ""
      ensures !isPosting && errorMessage == None
    {
      comments := [];
      isLoading := true;
      newCommentText := "";
      isPosting := false;
      errorMessage := None;
    }

    /** The initial load: the fetched list replaces the shown one, or a failure
        is reported; loading ends either way. */
    method LoadComments(fetched: Result<seq<Comment>>)
      modifies this`comments, this`isLoading, this`errorMessage
      ensures !isLoading
      ensures fetched.Success? ==> comments == fetched.value && errorMessage == old(errorMessage)
      ensures fetched.Failure? ==> comments == old(comments)
                                   && errorMessage == Some("Failed to load comments: " + Template(fetched.message))
    {
      isLoading := true;
      match fetched {
        case Success(loaded) =>
          comments := loaded;
        case Failure(m) =>
          errorMessage := Some("Failed to load comments: " + Template(m));
      }
      isLoading := false;
    }

    /** The delete control of comment `id`: on remote success exactly the
        comments with that id go, the rest keep their order; on failure
        nothing changes. */
    method DeleteComment(id: string, remoteOk: bool)
      modifies this`comments
      ensures comments == if remoteOk then RemoveComment(old(comments), id) else old(comments)
    {
      if remoteOk {
        comments := RemoveComment(comments, id);
      }
    }

    /** The text field accepts edits only while no post is in flight. */
    method EditText(text: string)
      modifies this`newCommentText
      ensures newCommentText == if old(isPosting) then old(newCommentText) else text
    {
      if !isPosting {
        newCommentText := text;
      }
    }

    /** The "Post Comment" button is enabled exactly when no post is in flight
        and the text is not blank. */
    predicate CanPost()
      reads this
    {
      !isPosting && IsNotBlank(newCommentText)
    }

    /** Pressing "Post Comment": when enabled, a post starts. */
    method PressPost() returns (started: bool)
      modifies this`isPosting
      ensures started == old(CanPost())
      ensures isPosting == (old(isPosting) || started)
      ensures started ==> !old(isPosting) && IsNotBlank(newCommentText)
    {
      started := CanPost();
      if started {
        isPosting := true;
      }
    }

    /** The end of a post: success clears the text and shows the reloaded
        list; each failure sets its message; in every case posting ends. */
    method CompletePost(outcome: PostOutcome)
      modifies this`comments, this`newCommentText, this`isPosting, this`errorMessage
      ensures !isPosting
      ensures newCommentText == if outcome.Posted? then "" else old(newCommentText)
      ensures comments == if outcome.Posted? && outcome.reload.Success? then outcome.reload.value else old(comments)
      ensures errorMessage == match outcome
                              case Posted(Success(_)) => old(errorMessage)
                              case Posted(Failure(m)) => Some("Error: " + Template(m))
                              case NotPosted => Some("Failed to post comment")
                              case PostThrew(m) => Some("Error: " + Template(m))
    {
      match outcome {
        case Posted(reload) =>
          newCommentText := "";
          match reload {
            case Success(loaded) => comments := loaded;
            case Failure(m) => errorMessage := Some("Error: " + Template(m));
          }
        case NotPosted =>
          errorMessage := Some("Failed to post comment");
        case PostThrew(m) =>
          errorMessage := Some("Error: " + Template(m));
      }
      isPosting := false;
    }
  }

  // ---------------------------------------------------------------------
  // The like button
  // ---------------------------------------------------------------------

  /** The like button's state that clicks change. */
  datatype LikeState = LikeState(isLiked: bool, likeCount: Int32)

  /** One completed click: on remote success the like flips and the count
      moves by one (up when liking, down when unliking, in 32-bit arithmetic);
      on failure nothing changes. */
  function Toggle(s: LikeState, remoteOk: bool): (r: LikeState)
    ensures !remoteOk ==> r == s
    ensures remoteOk ==> r.isLiked == !s.isLiked
    ensures remoteOk ==> (r.likeCount - s.likeCount - (if s.isLiked then -1 else 1)) % TwoTo32 == 0
    ensures remoteOk && !s.isLiked && s.likeCount < TwoTo31 - 1 ==> r.likeCount == s.likeCount + 1
    ensures remoteOk && s.isLiked && s.likeCount > -TwoTo31 ==> r.likeCount == s.likeCount - 1
  {
    if !remoteOk then s
    else if s.isLiked then
      LikeState(false, Wrap32(s.likeCount as int - 1))
    else
      LikeState(true, Wrap32(s.likeCount as int + 1))
  }

  /** Two successful clicks restore the original state, whatever the count. */
  lemma ToggleTwice(s: LikeState)
    ensures Toggle(Toggle(s, true), true) == s
  {
    var c: int := s.likeCount;
    if s.isLiked {
      WrapAddLeft(c - 1, 1);
    } else {
      WrapAddLeft(c + 1, -1);
    }
  }

  class LikeButton {
    var isLiked: bool
    var likeCount: Int32
    /** The initial liked-status query is pending; the button is disabled. */
    var isLoading: bool
    var showWhoLiked: bool

    function State(): LikeState
      reads this
    {
      LikeState(isLiked, likeCount)
    }

    constructor (initialLikeCount: Int32)
      ensures State() == LikeState(false, initialLikeCount)
      ensures isLoading && !showWhoLiked
    {
      isLiked := false;
      likeCount := initialLikeCount;
      isLoading := true;
      showWhoLiked := false;
    }

    /** The liked-status query answers; the button becomes enabled. */
    method FinishLoading(liked: bool)
      modifies this`isLiked, this`isLoading
      ensures isLiked == liked && !isLoading
    {
      isLiked := liked;
      isLoading := false;
    }

    /** A click on the heart. Disabled while loading; otherwise the toggle
        completes with the remote outcome, and a successful one reports the new
        count to `onLikeChange`. */
    method Click(remoteOk: bool) returns (reported: Option<Int32>)
      modifies this`isLiked, this`likeCount
      ensures State() == if old(isLoading) then old(State()) else Toggle(old(State()), remoteOk)
      ensures reported == if !old(isLoading) && remoteOk then Some(likeCount) else None
    {
      reported := None;
      if isLoading {
        return;
      }
      if isLiked {
        if remoteOk {
          isLiked := false;
          likeCount := Wrap32(likeCount as int - 1);
          reported := Some(likeCount);
        }
      } else {
        if remoteOk {
          isLiked := true;
          likeCount := Wrap32(likeCount as int + 1);
          reported := Some(likeCount);
        }
      }
    }

    /** A click on the count opens the "Liked by" list only when there is a like. */
    method ClickCount()
      modifies this`showWhoLiked
      ensures showWhoLiked == (old(showWhoLiked) || likeCount > 0)
    {
      if likeCount > 0 {
        showWhoLiked := true;
      }
    }

    method DismissWhoLiked()
      modifies this`showWhoLiked
      ensures !showWhoLiked
    {
      showWhoLiked := false;
    }
  }
}
