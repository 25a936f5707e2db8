/** src/components/GovSiteCard.tsx: the earlier card that holds its reviews
    inside the site value and hands new reviews to its parent through the
    `onAddComment` callback. */
module GovSiteCard {
  import opened Records
  import opened Reviews
  import Text
  import Seqs

  /** The card's own review record; `timestamp` stands for the `Date`. */
  datatype CardComment = CardComment(id: string, author: string, content: string, rating: Rating, timestamp: int)

  /** The card's site value; `avgRating` is carried but never read by the card. */
  datatype GovSite = GovSite(
    id: string,
    title: string,
    url: string,
    description: string,
    category: string,
    comments: seq<CardComment>,
    avgRating: real)

  /** `Omit<Comment, "id" | "timestamp">`, what the callback receives. */
  datatype CommentDraft = CommentDraft(author: string, content: string, rating: Rating)

  /** What a submission does outside the card, in order. */
  datatype CardEvent =
    | AddCommentCalled(siteId: string, draft: CommentDraft)
    | Notified(toast: Toast)

  const CommentAddedToast := Toast("Comment Added", "Thank you for sharing your experience!", false)

  function CardRating(c: CardComment): Rating { c.rating }
  predicate IsPositive(c: CardComment) { c.rating == Positive }
  predicate IsNegative(c: CardComment) { c.rating == Negative }

  class Card {
    const site: GovSite
    var isCommenting: bool
    var commentText: string
    var selectedRating: Rating
    var authorName: string

    function Form(): ReviewForm
      reads this
    {
      ReviewForm(isCommenting, commentText, selectedRating, authorName)
    }

    constructor (site: GovSite)
      ensures this.site == site && Form() == InitialForm
    {
      this.site := site;
      isCommenting := false;
      commentText := "";
      selectedRating := Neutral;
      authorName := "";
    }

    /** The thumbs-up, thumbs-down and review counters of the site's
        reviews, the first two as "Recent Reviews", and "+N more reviews". */
    function Counters(): (s: Summary<CardComment>)
      ensures s.positive == |Seqs.Filter(site.comments, IsPositive)|
      ensures s.negative == |Seqs.Filter(site.comments, IsNegative)|
      ensures s.total == |site.comments|
      ensures s.showRecent <==> |site.comments| > 0
      ensures s.recent == site.comments[..if |site.comments| < 2 then |site.comments| else 2]
      ensures s.more.Some? <==> |site.comments| > 2
      ensures s.more.Some? ==> s.more.value == |site.comments| - 2
    {
      CountRatingBy(site.comments, CardRating, Positive, IsPositive);
      CountRatingBy(site.comments, CardRating, Negative, IsNegative);
      Summarize(site.comments, CardRating)
    }

    /** The "Review" button, shown while the form is closed, opens it. */
    method OpenForm()
      modifies this`isCommenting
      ensures isCommenting
    {
      isCommenting := true;
    }

    /** "Cancel" closes the form and keeps what was typed. */
    method Cancel()
      modifies this`isCommenting
      ensures !isCommenting
    {
      isCommenting := false;
    }

    /** `handleSubmitComment`: a blank name or text gives one toast and
        changes nothing; otherwise the callback receives the trimmed name
        and text and the chosen rating, the form is reset, and only then the
        success toast is shown. */
    method HandleSubmitComment() returns (events: seq<CardEvent>)
      modifies this
      ensures Blank(old(commentText)) || Blank(old(authorName)) ==>
        events == [Notified(MissingInformationToast)] && Form() == old(Form())
      ensures !Blank(old(commentText)) && !Blank(old(authorName)) ==>
        events == [AddCommentCalled(site.id, CommentDraft(Text.Trim(old(authorName)), Text.Trim(old(commentText)), old(selectedRating))),
                   Notified(CommentAddedToast)] &&
        Form() == InitialForm
    {
      if Blank(commentText) || Blank(authorName) {
        events := [Notified(MissingInformationToast)];
        return;
      }
      var draft := CommentDraft(Text.Trim(authorName), Text.Trim(commentText), selectedRating);
      commentText := "";
      authorName := "";
      selectedRating := Neutral;
      isCommenting := false;
      events := [AddCommentCalled(site.id, draft), Notified(CommentAddedToast)];
    }

  }

  /** A draft handed to the callback never has a blank name or text, and
      both are already trimmed. */
  lemma DraftIsTrimmed(name: string, text: string, rating: Rating)
    requires !Blank(text) && !Blank(name)
    ensures var d := CommentDraft(Text.Trim(name), Text.Trim(text), rating);
      d.author != "" && d.content != "" && Text.Trim(d.author) == d.author && Text.Trim(d.content) == d.content
  {
    Text.TrimIdempotent(name);
    Text.TrimIdempotent(text);
  }
}
