/** What both review cards compute from a list of reviews: the per-rating
    counts, the "recent two" preview and the "+N more" counter, and the
    review form they share. */
module Reviews {
  import opened Records
  import Seqs
  import Text

  /** `c => c.rating === r`. */
  function HasRating<T>(rating: T -> Rating, r: Rating): T -> bool
  {
    (c: T) => rating(c) == r
  }

  /** `reviews.filter(c => c.rating === r).length`. */
  function CountRating<T>(cs: seq<T>, rating: T -> Rating, r: Rating): (n: nat)
    ensures n <= |cs|
  {
    |Seqs.Filter(cs, HasRating(rating, r))|
  }

  /** Any predicate that holds of exactly the reviews with rating `r` counts them. */
  lemma CountRatingBy<T>(cs: seq<T>, rating: T -> Rating, r: Rating, q: T -> bool)
    requires forall i :: 0 <= i < |cs| ==> q(cs[i]) == (rating(cs[i]) == r)
    ensures CountRating(cs, rating, r) == |Seqs.Filter(cs, q)|
  {
    Seqs.FilterCongruent(cs, HasRating(rating, r), q);
  }

  lemma {:induction false} CountRatingCons<T>(cs: seq<T>, rating: T -> Rating, r: Rating)
    requires cs != []
    ensures CountRating(cs, rating, r) == (if rating(cs[0]) == r then 1 else 0) + CountRating(cs[1..], rating, r)
  {
  }

  /** Every review has exactly one rating, so the three counts add up to the
      number of reviews. */
  lemma {:induction false} RatingsPartition<T>(cs: seq<T>, rating: T -> Rating)
    ensures CountRating(cs, rating, Positive) + CountRating(cs, rating, Negative) + CountRating(cs, rating, Neutral) == |cs|
  {
    if cs != [] {
      CountRatingCons(cs, rating, Positive);
      CountRatingCons(cs, rating, Negative);
      CountRatingCons(cs, rating, Neutral);
      RatingsPartition(cs[1..], rating);
    }
  }

  function CommentRating(c: Comment): Rating { c.rating }

  /** What a card shows about its reviews. */
  datatype Summary<T> = Summary(
    positive: nat,
    negative: nat,
    total: nat,
    showRecent: bool,
    recent: seq<T>,
    more: Option<nat>)

  /** The card's counters, `comments.slice(0, 2)` under
      `comments.length > 0 &&`, and `+{length - 2} more reviews` under
      `comments.length > 2 &&`. */
  function Summarize<T>(cs: seq<T>, rating: T -> Rating): (s: Summary<T>)
    ensures s.total == |cs|
    ensures s.positive == CountRating(cs, rating, Positive)
    ensures s.negative == CountRating(cs, rating, Negative)
    ensures s.positive + s.negative <= s.total
    ensures s.showRecent <==> |cs| > 0
    ensures |s.recent| == (if |cs| < 2 then |cs| else 2) && s.recent == cs[..|s.recent|]
    ensures s.more.Some? <==> |cs| > 2
    ensures s.more.Some? ==> s.more.value == |cs| - 2 && |s.recent| + s.more.value == |cs|
  {
    RatingsPartition(cs, rating);
    var shown := |cs| > 0;
    Summary(
      CountRating(cs, rating, Positive),
      CountRating(cs, rating, Negative),
      |cs|,
      shown,
      cs[..if |cs| < 2 then |cs| else 2],
      if shown && |cs| > 2 then Some(|cs| - 2) else None)
  }

  /** The review form's four pieces of state. */
  datatype ReviewForm = ReviewForm(isCommenting: bool, commentText: string, selectedRating: Rating, authorName: string)

  /** Closed, both texts empty, rating `neutral`. */
  const InitialForm := ReviewForm(false, "", Neutral, "")

  const MissingInformationToast := Toast("Missing Information", "Please fill in both your name and comment.", true)

  /** `!s.trim()`: nothing but white space. */
  predicate Blank(s: string): (b: bool)
    ensures b <==> forall i :: 0 <= i < |s| ==> Text.IsSpace(s[i])
  {
    Text.TrimEmptyIff(s);
    Text.Trim(s) == ""
  }
}
