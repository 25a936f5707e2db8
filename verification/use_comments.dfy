/** src/hooks/useComments.tsx: the approved reviews of every site, used for
    the totals on the landing page. */
module UseComments {
  import opened Records
  import opened Backend

  const FetchReviewsFailed := Toast("Error", "Failed to fetch reviews", true)

  class ReviewsHook {
    var comments: seq<Comment>
    var loading: bool

    constructor ()
      ensures comments == [] && loading
    {
      comments := [];
      loading := true;
    }

    /** `fetchComments`: on success the approved reviews of all sites,
        newest first; on failure the previous list and an error toast;
        `loading` is false afterwards either way. */
    method FetchComments(db: Database, failure: Option<string>) returns (toasts: seq<Toast>)
      modifies this
      ensures !loading
      ensures failure.None? ==> comments == ApprovedComments(db.comments) && toasts == []
      ensures failure.Some? ==> comments == old(comments) && toasts == [FetchReviewsFailed]
    {
      if failure.None? {
        comments := ApprovedComments(db.comments);
        toasts := [];
      } else {
        toasts := [FetchReviewsFailed];
      }
      loading := false;
    }
  }
}
