/** src/hooks/useSites.tsx: the public list of sites, proposing a site, and
    the approved reviews of one site together with adding a review. */
module UseSites {
  import opened Records
  import opened Backend

  const FetchSitesFailed := Toast("Error", "Failed to fetch sites", true)
  const FetchCommentsFailed := Toast("Error", "Failed to fetch comments", true)
  const CommentAddedToast := Toast("Comment Added", "Your comment has been submitted and is awaiting approval.", false)
  const NotAuthenticated := "Not authenticated"

  /** The toast for a failed `addComment`: the error's message, or a fixed
      text when the message is empty (`error.message || "Failed to add comment"`). */
  function AddCommentFailed(message: string): (t: Toast)
    ensures t.title == "Error" && t.destructive
    ensures message != "" ==> t.description == message
    ensures message == "" ==> t.description == "Failed to add comment"
  {
    Toast("Error", if message != "" then message else "Failed to add comment", true)
  }

  /** State of the `useSites` hook. */
  class SitesHook {
    var sites: seq<Site>
    var loading: bool

    constructor ()
      ensures sites == [] && loading
    {
      sites := [];
      loading := true;
    }

    /** `fetchSites`: on success `sites` becomes the active rows, newest
        first; on failure it keeps its value and an error toast is shown;
        `loading` is false afterwards either way. */
    method FetchSites(db: Database, failure: Option<string>) returns (toasts: seq<Toast>)
      modifies this
      ensures !loading
      ensures failure.None? ==> sites == ActiveSites(db.sites) && toasts == []
      ensures failure.Some? ==> sites == old(sites) && toasts == [FetchSitesFailed]
    {
      if failure.None? {
        sites := ActiveSites(db.sites);
        toasts := [];
      } else {
        toasts := [FetchSitesFailed];
      }
      loading := false;
    }
  }

  /** The row `addSite` inserts: the given fields, status forced to
      `pending`, and the optional author name and e-mail. */
  function ProposedSite(site: SiteFields, authorName: Option<string>, authorEmail: Option<string>): (p: SiteInsert)
    ensures p.status == SiteStatus.Pending
    ensures p.fields == site && p.authorName == authorName && p.authorEmail == authorEmail
    ensures p.createdBy.None?
  {
    SiteInsert(site, SiteStatus.Pending, None, authorName, authorEmail)
  }

  /** `addSite`'s resolved value: `{success: true}` or `{success: false, error}`. */
  datatype AddSiteResult = AddSiteResult(success: bool, error: Option<string>)

  /** `addSite`: inserts the proposed row; reports success exactly when the
      insert succeeded, and otherwise the backend's message. */
  method AddSite(db: Database, site: SiteFields, authorName: Option<string>, authorEmail: Option<string>,
                 id: string, now: int, failure: Option<string>)
    returns (r: AddSiteResult)
    requires db.Valid()
    modifies db`sites
    ensures db.Valid()
    ensures r.success <==> InsertError(SiteIdTaken(old(db.sites), id), failure).None?
    ensures r.success ==>
      (r.error.None? && db.sites == old(db.sites) + [NewSite(ProposedSite(site, authorName, authorEmail), id, now)])
    ensures !r.success ==>
      (r.error == InsertError(SiteIdTaken(old(db.sites), id), failure) && db.sites == old(db.sites))
  {
    var err := db.InsertSite(ProposedSite(site, authorName, authorEmail), id, now, failure);
    if err.None? {
      r := AddSiteResult(true, None);
    } else {
      r := AddSiteResult(false, err);
    }
  }

  /** The row `addComment` inserts for the signed-in user: status forced to
      `pending`, `user_id` taken from the identity, not from the caller. */
  function CommentPayload(siteId: string, content: string, rating: Rating, authorName: string, user: User): (p: CommentInsert)
    ensures p.status == CommentStatus.Pending && p.userId == user.id
    ensures p.siteId == siteId && p.content == content && p.rating == rating && p.authorName == authorName
  {
    CommentInsert(siteId, user.id, authorName, content, rating, CommentStatus.Pending)
  }

  /** What `addComment` does to the `comments` table and which toasts it
      shows, for the identity `authUser` that `auth.getUser()` returns. */
  ghost predicate AddCommentOutcome(before: seq<Comment>, after: seq<Comment>, toasts: seq<Toast>,
                                    siteId: string, content: string, rating: Rating, authorName: string,
                                    authUser: Option<User>, id: string, now: int, failure: Option<string>)
  {
    if authUser.None? then
      after == before && toasts == [AddCommentFailed(NotAuthenticated)]
    else
      var err := InsertError(CommentIdTaken(before, id), failure);
      if err.None? then
        after == before + [NewComment(CommentPayload(siteId, content, rating, authorName, authUser.value), id, now)] &&
        toasts == [CommentAddedToast]
      else
        after == before && toasts == [AddCommentFailed(err.value)]
  }

  /** `!siteId`: no site id, or the empty one. */
  predicate NoSiteId(siteId: Option<string>)
  {
    siteId.None? || siteId.value == ""
  }

  /** State of `useComments(siteId)` exported from useSites.tsx. */
  class SiteCommentsHook {
    const siteId: Option<string>
    var comments: seq<Comment>
    var loading: bool

    constructor (siteId: Option<string>)
      ensures this.siteId == siteId && comments == [] && loading
    {
      this.siteId := siteId;
      comments := [];
      loading := true;
    }

    /** `fetchComments`: without a site id nothing happens (and `loading`
        stays true); otherwise the approved reviews of that site, newest
        first, or on failure the old list and an error toast. */
    method FetchComments(db: Database, failure: Option<string>) returns (toasts: seq<Toast>)
      modifies this
      ensures NoSiteId(siteId) ==> comments == old(comments) && loading == old(loading) && toasts == []
      ensures !NoSiteId(siteId) ==> !loading
      ensures !NoSiteId(siteId) && failure.None? ==>
        comments == ApprovedCommentsFor(db.comments, siteId.value) && toasts == []
      ensures !NoSiteId(siteId) && failure.Some? ==>
        comments == old(comments) && toasts == [FetchCommentsFailed]
    {
      toasts := [];
      if NoSiteId(siteId) {
        return;
      }
      if failure.None? {
        comments := ApprovedCommentsFor(db.comments, siteId.value);
      } else {
        toasts := [FetchCommentsFailed];
      }
      loading := false;
    }

    /** `addComment`: needs a signed-in identity; inserts a `pending` review
        carrying that identity's id. It never throws: every failure ends in a
        toast. The hook's own list is not refreshed. */
    method AddComment(db: Database, siteId: string, content: string, rating: Rating, authorName: string,
                      authUser: Option<User>, id: string, now: int, failure: Option<string>)
      returns (toasts: seq<Toast>)
      requires db.Valid()
      modifies db`comments
      ensures db.Valid()
      ensures AddCommentOutcome(old(db.comments), db.comments, toasts, siteId, content, rating, authorName,
                                authUser, id, now, failure)
    {
      if authUser.None? {
        toasts := [AddCommentFailed(NotAuthenticated)];
        return;
      }
      var err := db.InsertComment(CommentPayload(siteId, content, rating, authorName, authUser.value), id, now, failure);
      if err.None? {
        toasts := [CommentAddedToast];
      } else {
        toasts := [AddCommentFailed(err.value)];
      }
    }
  }
}
