/** The feed post the three post dialogs build, the attachment rule they share
    and the outcome of a submission. */
module Posts {
  import opened Wrappers
  import opened Numbers

  /** A feed post as the dialogs hand it to the feed. */
  datatype Post = Post(
    id: string,
    userName: string,
    timeAgo: string,
    category: string,
    content: string,
    likes: Int32,
    comments: Int32,
    imageUrl: Option<string>)

  /** The image link of a new post: present exactly when an image was chosen
      and its bytes could be read, and then the uploaded file's public URL. */
  function AttachmentUrl(chosen: bool, bytesRead: bool, publicUrl: string): (r: Option<string>)
    ensures r.Some? <==> chosen && bytesRead
    ensures r.Some? ==> r.value == publicUrl
  {
    if chosen && bytesRead then Some(publicUrl) else None
  }

  /** What became of a submission once started: everything was stored (with
      whether the chosen image's bytes could be read and the public URL of the
      upload), or some step threw. */
  datatype SubmitOutcome =
    | Stored(bytesRead: bool, publicUrl: string)
    | SubmitThrew(message: Option<string>)

  /** A post created at clock time `now`: its id is the decimal rendering of
      the clock, it is "Just now" and it has no likes and no comments yet. */
  function NewPost(now: nat, userName: string, category: string, content: string,
                   imageUrl: Option<string>): (p: Post)
    ensures AllDigits(p.id) && DecimalValue(p.id) == now
    ensures |p.id| >= 1 && (p.id[0] == '0' ==> p.id == "0")
    ensures p.userName == userName && p.category == category && p.content == content
    ensures p.timeAgo == "Just now" && p.likes == 0 && p.comments == 0
    ensures p.imageUrl == imageUrl
  {
    DecimalRoundTrip(now);
    Post(NatToString(now), userName, "Just now", category, content, 0, 0, imageUrl)
  }

  /** Posts created at different clock times have different ids. */
  lemma NewPostIdsDiffer(now1: nat, now2: nat, u1: string, c1: string, t1: string, i1: Option<string>,
                         u2: string, c2: string, t2: string, i2: Option<string>)
    requires now1 != now2
    ensures NewPost(now1, u1, c1, t1, i1).id != NewPost(now2, u2, c2, t2, i2).id
  {
  }
}
