/** src/pages/Index.tsx: the landing page's search and category filter over
    the public sites, the category list it offers, and its review totals. */
module Directory {
  import opened Records
  import Seqs
  import Text
  import Reviews

  /** The category value that matches every site. */
  const AllCategories := "all"

  /** `title.toLowerCase().includes(term.toLowerCase()) ||
      description.toLowerCase().includes(term.toLowerCase())`. */
  predicate MatchesSearch(s: Site, term: string)
  {
    Text.Contains(Text.LowerStr(s.title), Text.LowerStr(term)) ||
    Text.Contains(Text.LowerStr(s.description), Text.LowerStr(term))
  }

  predicate MatchesCategory(s: Site, category: string)
  {
    category == AllCategories || s.category == category
  }

  function ShownBy(term: string, category: string): Site -> bool
  {
    (s: Site) => MatchesSearch(s, term) && MatchesCategory(s, category)
  }

  /** `filteredSites`. */
  function FilteredSites(sites: seq<Site>, term: string, category: string): (r: seq<Site>)
    ensures |r| <= |sites|
  {
    Seqs.Filter(sites, ShownBy(term, category))
  }

  /** A site is listed exactly when it is loaded, its lower-cased title or
      description contains the lower-cased term, and the category filter is
      "all" or names its category. */
  lemma FilteredSitesMembers(sites: seq<Site>, term: string, category: string, s: Site)
    ensures s in FilteredSites(sites, term, category) <==>
      (s in sites &&
       (Text.Contains(Text.LowerStr(s.title), Text.LowerStr(term)) ||
        Text.Contains(Text.LowerStr(s.description), Text.LowerStr(term))) &&
       (category == "all" || s.category == category))
  {
    Seqs.FilterMembers(sites, ShownBy(term, category), s);
  }

  /** The listing keeps the loaded order and never lists more than is loaded. */
  lemma FilteredSitesSubsequence(sites: seq<Site>, term: string, category: string)
    ensures Seqs.IsSubsequence(FilteredSites(sites, term, category), sites)
    ensures |FilteredSites(sites, term, category)| <= |sites|
  {
    Seqs.FilterIsSubsequence(sites, ShownBy(term, category));
  }

  /** No search term and category "all": every site, in order. */
  lemma NoFiltersShowAll(sites: seq<Site>)
    ensures FilteredSites(sites, "", "all") == sites
  {
    forall i | 0 <= i < |sites| ensures ShownBy("", "all")(sites[i]) {
      Text.ContainsEmpty(Text.LowerStr(sites[i].title));
    }
    Seqs.FilterAll(sites, ShownBy("", "all"));
  }

  /** Two terms that lower-case alike select the same sites. */
  lemma SearchIgnoresCase(sites: seq<Site>, term1: string, term2: string, category: string)
    requires Text.LowerStr(term1) == Text.LowerStr(term2)
    ensures FilteredSites(sites, term1, category) == FilteredSites(sites, term2, category)
  {
    Seqs.FilterCongruent(sites, ShownBy(term1, category), ShownBy(term2, category));
  }

  /** The term is lower-cased before the comparison, so searching for the
      lower-cased term gives the same listing. */
  lemma SearchByLoweredTerm(sites: seq<Site>, term: string, category: string)
    ensures FilteredSites(sites, Text.LowerStr(term), category) == FilteredSites(sites, term, category)
  {
    Text.LowerStrIdempotent(term);
    SearchIgnoresCase(sites, Text.LowerStr(term), term, category);
  }

  /** "FINANCE" and "finance" give the same listing. */
  lemma FinanceAnyCase(sites: seq<Site>, category: string)
    ensures FilteredSites(sites, "FINANCE", category) == FilteredSites(sites, "finance", category)
  {
    assert Text.LowerStr("FINANCE") == "finance";
    SearchIgnoresCase(sites, "FINANCE", "finance", category);
  }

  /** Filtering the listing again with the same term and category changes nothing. */
  lemma FilterTwiceIsOnce(sites: seq<Site>, term: string, category: string)
    ensures FilteredSites(FilteredSites(sites, term, category), term, category) == FilteredSites(sites, term, category)
  {
    Seqs.FilterIdempotent(sites, ShownBy(term, category));
  }

  /** `Array.from(new Set(sites.map(site => site.category))).sort()`. */
  function Categories(sites: seq<Site>): (r: seq<string>)
    ensures Text.StrictlySorted(r)
    ensures forall i, j :: 0 <= i < j < |r| ==> r[i] != r[j]
    ensures forall x :: x in r <==> exists i :: 0 <= i < |sites| && sites[i].category == x
  {
    var column := seq(|sites|, i requires 0 <= i < |sites| => sites[i].category);
    var r := Text.SortedDistinct(column);
    Text.StrictlySortedDistinct(r);
    assert forall x :: x in column <==> exists i :: 0 <= i < |sites| && sites[i].category == x by {
      forall x ensures x in column <==> exists i :: 0 <= i < |sites| && sites[i].category == x {
        if x in column {
          var i :| 0 <= i < |column| && column[i] == x;
          assert sites[i].category == x;
        }
        if exists i :: 0 <= i < |sites| && sites[i].category == x {
          var i :| 0 <= i < |sites| && sites[i].category == x;
          assert column[i] == x;
        }
      }
    }
    r
  }

  /** `reviews.length`. */
  function TotalReviews(reviews: seq<Comment>): nat
  {
    |reviews|
  }

  /** `reviews.filter(r => r.rating === "positive").length`. */
  function PositiveReviews(reviews: seq<Comment>): nat
  {
    Reviews.CountRating(reviews, Reviews.CommentRating, Positive)
  }

  /** The positive count never exceeds the total, and the rest of the
      reviews are exactly the negative and neutral ones. */
  lemma PositiveWithinTotal(reviews: seq<Comment>)
    ensures PositiveReviews(reviews) <= TotalReviews(reviews)
    ensures TotalReviews(reviews) - PositiveReviews(reviews) ==
      Reviews.CountRating(reviews, Reviews.CommentRating, Negative) + Reviews.CountRating(reviews, Reviews.CommentRating, Neutral)
  {
    Reviews.RatingsPartition(reviews, Reviews.CommentRating);
  }
}
