/** src/components/UpdatedGovSiteCard.tsx: the card the landing page shows
    for a backend site, with its approved reviews and the review form that
    submits through the `useComments(site.id)` hook of src/hooks/useSites.tsx. */
module UpdatedGovSiteCard {
  import opened Records
  import opened Backend
  import opened UseSites
  import opened Reviews
  import Seqs
  import Text

  const AuthRequired := Toast("Authentication Required", "Please sign in to leave a comment.", true)

  class Card {
    const site: Site
    const reviews: SiteCommentsHook
    var isCommenting: bool
    var commentText: string
    var selectedRating: Rating
    var authorName: string

    function Form(): ReviewForm
      reads this
    {
      ReviewForm(isCommenting, commentText, selectedRating, authorName)
    }

    /** The form starts closed and empty with the `neutral` rating; the
        hook is bound to this site and has loaded nothing yet. */
    constructor (site: Site)
      ensures this.site == site && Form() == InitialForm
      ensures fresh(reviews) && reviews.siteId == Some(site.id) && reviews.comments == [] && reviews.loading
    {
      this.site := site;
      reviews := new SiteCommentsHook(Some(site.id));
      isCommenting := false;
      commentText := "";
      selectedRating := Neutral;
      authorName := "";
    }

    /** The "Review" button opens the form. */
    method OpenForm()
      modifies this`isCommenting
      ensures isCommenting
    {
      isCommenting := true;
    }

    /** "Cancel" closes the form and keeps what was typed. */
    method Cancel()
      modifies this`isCommenting
      ensures !isCommenting
    {
      isCommenting := false;
    }

    /** `handleSubmitComment`: without a signed-in user, or with a blank name
        or text, a toast and nothing else; otherwise `addComment` with the
        trimmed text and name, and then the form is reset, whatever
        `addComment` reported. */
    method HandleSubmitComment(user: Option<User>, db: Database, authUser: Option<User>,
                               id: string, now: int, failure: Option<string>)
      returns (toasts: seq<Toast>)
      requires db.Valid()
      modifies this`isCommenting, this`commentText, this`selectedRating, this`authorName, db`comments
      ensures db.Valid()
      ensures user.None? ==>
        toasts == [AuthRequired] && db.comments == old(db.comments) && Form() == old(Form())
      ensures user.Some? && (Blank(old(commentText)) || Blank(old(authorName))) ==>
        toasts == [MissingInformationToast] && db.comments == old(db.comments) && Form() == old(Form())
      ensures user.Some? && !Blank(old(commentText)) && !Blank(old(authorName)) ==>
        AddCommentOutcome(old(db.comments), db.comments, toasts, site.id, Text.Trim(old(commentText)),
                          old(selectedRating), Text.Trim(old(authorName)), authUser, id, now, failure) &&
        Form() == InitialForm
    {
      if user.None? {
        toasts := [AuthRequired];
        return;
      }
      if Blank(commentText) || Blank(authorName) {
        toasts := [MissingInformationToast];
        return;
      }
      ghost var before := db.comments;
      var text, name, rating := Text.Trim(commentText), Text.Trim(authorName), selectedRating;
      toasts := reviews.AddComment(db, site.id, text, rating, name, authUser, id, now, failure);
      assert AddCommentOutcome(before, db.comments, toasts, site.id, text, rating, name, authUser, id, now, failure);
      commentText := "";
      authorName := "";
      selectedRating := Neutral;
      isCommenting := false;
    }

  }

  /** The card's preview holds the newest of the site's approved reviews:
      none of the reviews left out of it is more recent. */
  lemma RecentAreNewest(t: seq<Comment>, siteId: string)
    ensures var cs := ApprovedCommentsFor(t, siteId);
      var s := Summarize(cs, CommentRating);
      forall i, j :: 0 <= i < |s.recent| <= j < |cs| ==> cs[i].createdAt >= cs[j].createdAt
  {
    var cs := ApprovedCommentsFor(t, siteId);
    assert Seqs.SortedDesc(cs, CommentCreatedAt);
  }
}
