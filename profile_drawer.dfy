/** The profile drawer's statistics: which posts belong to the signed-in user,
    how many there are and how many likes they received, and the name shown.
    The posts query is an outcome passed in by the caller. */
module ProfileDrawer {
  import opened Wrappers
  import opened Numbers
  import opened Text

  /** The fields of a stored post the drawer reads; each may be missing. */
  datatype PostDoc = PostDoc(userName: Option<string>, userEmail: Option<string>, likes: Option<int>)

  /** The signed-in account. */
  datatype User = User(uid: string, email: Option<string>)

  /** A post is the user's when its author name equals, ignoring case, the
      email's part before '@' or the whole email, or its stored email equals
      the email ignoring case; a missing name or email reads as "". */
  predicate IsUsersPost(d: PostDoc, email: string) {
    var postUserName := d.userName.GetOr("");
    var postEmail := d.userEmail.GetOr("");
    EqualsIgnoreCase(postUserName, SubstringBefore(email, '@'))
    || EqualsIgnoreCase(postUserName, email)
    || EqualsIgnoreCase(postEmail, email)
  }

  /** Ownership does not depend on the case of the signed-in email. */
  lemma IsUsersPostIgnoresEmailCase(d: PostDoc, email: string)
    ensures IsUsersPost(d, email) <==> IsUsersPost(d, Lower(email))
  {
    var n := d.userName.GetOr("");
    var e := d.userEmail.GetOr("");
    LowerSubstringBefore(email, '@');
    LowerIdempotent(email);
    LowerIdempotent(SubstringBefore(email, '@'));
    EqualsIgnoreCaseIsLowerEquality(n, SubstringBefore(email, '@'));
    EqualsIgnoreCaseIsLowerEquality(n, SubstringBefore(Lower(email), '@'));
    EqualsIgnoreCaseIsLowerEquality(n, email);
    EqualsIgnoreCaseIsLowerEquality(n, Lower(email));
    EqualsIgnoreCaseIsLowerEquality(e, email);
    EqualsIgnoreCaseIsLowerEquality(e, Lower(email));
  }

  /** A post whose author name is the email's local part, as the dialogs'
      authors would be named by their account, counts as the user's; so does a
      post carrying no name and the user's email. */
  lemma OwnPostsRecognised(local: string, domain: string, likes: Option<int>)
    requires '@' !in local
    ensures IsUsersPost(PostDoc(Some(local), None, likes), local + "@" + domain)
    ensures IsUsersPost(PostDoc(None, Some(local + "@" + domain), likes), local + "@" + domain)
  {
    SubstringBeforeAt(local, domain);
  }

  /** The user's posts among the fetched ones, in query order. */
  function UserPosts(docs: seq<PostDoc>, email: string): (r: seq<PostDoc>)
    ensures |r| <= |docs|
    ensures forall i :: 0 <= i < |r| ==> IsUsersPost(r[i], email)
  {
    if docs == [] then []
    else
      var rest := UserPosts(docs[1..], email);
      if IsUsersPost(docs[0], email) then [docs[0]] + rest else rest
  }

  /** The user's posts are exactly the fetched posts that are the user's. */
  lemma {:induction false} UserPostsMembers(docs: seq<PostDoc>, email: string, d: PostDoc)
    ensures d in UserPosts(docs, email) <==> d in docs && IsUsersPost(d, email)
  {
    if docs != [] {
      UserPostsMembers(docs[1..], email, d);
      assert d in docs <==> d == docs[0] || d in docs[1..];
    }
  }

  /** Filtering distributes over concatenation. */
  lemma {:induction false} UserPostsAppend(a: seq<PostDoc>, b: seq<PostDoc>, email: string)
    ensures UserPosts(a + b, email) == UserPosts(a, email) + UserPosts(b, email)
  {
    if a == [] {
      assert a + b == b;
    } else {
      assert (a + b)[0] == a[0];
      assert (a + b)[1..] == a[1..] + b;
      UserPostsAppend(a[1..], b, email);
    }
  }

  /** `(getLong("likes") ?: 0).toInt()`: a missing count is 0, a stored count
      is truncated to 32 bits. */
  function LikesOf(d: PostDoc): Int32 {
    Wrap32(d.likes.GetOr(0))
  }

  /** `sumOf` over the posts in `Int`: each partial sum wraps to 32 bits. */
  function LikesSum(ps: seq<PostDoc>): Int32
    decreases |ps|
  {
    if ps == [] then 0 else Wrap32(LikesSum(ps[..|ps| - 1]) + LikesOf(ps[|ps| - 1]))
  }

  /** The exact total of the stored like counts, missing ones as 0. */
  function TotalLikes(ps: seq<PostDoc>): int
    decreases |ps|
  {
    if ps == [] then 0 else TotalLikes(ps[..|ps| - 1]) + ps[|ps| - 1].likes.GetOr(0)
  }

  /** The displayed sum is the exact total wrapped once to 32 bits: the
      per-post truncation and the per-step wrap lose nothing else. */
  lemma {:induction false} LikesSumIsWrappedTotal(ps: seq<PostDoc>)
    ensures LikesSum(ps) == Wrap32(TotalLikes(ps))
    decreases |ps|
  {
    if ps != [] {
      var init := ps[..|ps| - 1];
      var last := ps[|ps| - 1].likes.GetOr(0);
      LikesSumIsWrappedTotal(init);
      WrapAddLeft(TotalLikes(init), LikesOf(ps[|ps| - 1]));
      WrapCongruent(TotalLikes(init) + LikesOf(ps[|ps| - 1]), TotalLikes(init) + last);
    }
  }

  /** When the exact total fits in `Int`, the displayed sum is the true total,
      whatever the intermediate sums did. */
  lemma LikesSumExact(ps: seq<PostDoc>)
    requires -TwoTo31 <= TotalLikes(ps) < TwoTo31
    ensures LikesSum(ps) == TotalLikes(ps)
  {
    LikesSumIsWrappedTotal(ps);
  }

  /** The name in the drawer's header: the email's part before '@', or "User"
      with no email. */
  function DisplayName(email: Option<string>): (r: string)
    ensures email.None? ==> r == "User"
    ensures email.Some? ==> '@' !in r && r <= email.value
    ensures email.Some? && '@' !in email.value ==> r == email.value
  {
    if email.Some? then SubstringBefore(email.value, '@') else "User"
  }

  /** For an address local@domain the drawer shows the local part. */
  lemma DisplayNameOfAddress(local: string, domain: string)
    requires '@' !in local
    ensures DisplayName(Some(local + "@" + domain)) == local
  {
    SubstringBeforeAt(local, domain);
  }

  class ProfileStats {
    var userPostCount: nat
    var userLikesReceived: Int32

    constructor ()
      ensures userPostCount == 0 && userLikesReceived == 0
    {
      userPostCount := 0;
      userLikesReceived := 0;
    }

    /** The stats fetch for the signed-in user: with no user, or a user
        without an email, nothing changes; a successful query sets the count
        and the likes of the user's posts; any failure resets both to 0. */
    method FetchStats(user: Option<User>, fetched: Result<seq<PostDoc>>)
      modifies this
      ensures user.None? || user.value.email.None? ==>
                userPostCount == old(userPostCount) && userLikesReceived == old(userLikesReceived)
      ensures user.Some? && user.value.email.Some? && fetched.Success? ==>
                userPostCount == |UserPosts(fetched.value, user.value.email.value)|
                && userLikesReceived == LikesSum(UserPosts(fetched.value, user.value.email.value))
      ensures user.Some? && user.value.email.Some? && fetched.Failure? ==>
                userPostCount == 0 && userLikesReceived == 0
    {
      if user.None? || user.value.email.None? {
        return;
      }
      var userEmail := user.value.email.value;
      match fetched {
        case Success(docs) =>
          var userPosts := UserPosts(docs, userEmail);
          userPostCount := |userPosts|;
          userLikesReceived := LikesSum(userPosts);
        case Failure(_) =>
          userPostCount := 0;
          userLikesReceived := 0;
      }
    }
  }
}
