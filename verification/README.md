# Government sites directory: a Dafny model

This project models the front end of a directory of Indian government
websites. The front end lists public sites, lets visitors search them and
filter them by category, and shows each site's approved community reviews. A
signed-in user can propose a site or write a review. An admin page moderates
reviews, toggles sites between active and inactive, and adds sites directly.

The hosted backend becomes a `Backend.Database` object with two tables held
as sequences of rows: `sites` and `comments`. Its primary-key constraint is
the invariant `Valid()`. Every request the screens send takes the error the
backend would report as a parameter (`None` on success). The backend also
supplies the new row's `id` and `created_at` (`now`). Each React hook or
component is a class whose fields are its state variables. Each handler is a
method whose contract states the new state, the rows written and the toasts
shown. The pure parts are functions with lemmas about them:
- the queries (filter, then order by `created_at` descending)
- the landing-page filter and the category list
- the review counts and the preview
- the status mappings
- the bundled site list

Modules, one per source file plus shared ones:
- `Seqs`: JavaScript's `filter` and `find`, and the backend's descending order.
- `Text`: ASCII `toLowerCase`, `includes`, `trim` with the ECMAScript white-space set, and the default string `sort` as lexicographic order.
- `Records`: the table rows and the values the screens exchange with them.
- `Backend`: the tables, the requests and the queries.
- `UseSites`, `UseComments`: the two hook files.
- `Admin`: the admin page.
- `Directory`: the landing page.
- `SearchAndFilter`: the filter bar.
- `Reviews`: what both cards compute from a list of reviews.
- `UpdatedGovSiteCard`, `GovSiteCard`: the two cards.
- `GovSites`: the bundled data.
- `Lifecycle`: lemmas about how the operations compose.

Where the written description of the system and the code disagree, the model
follows the code:
- The admin's "all sites" load fetches every row, `pending` ones included, in one query. There is no separate pending-sites query.
- No delete or edit exists, and "reject a pending site" is not a deletion. The only site transition is the toggle, which turns `pending` into `active`.
- After a write, the admin page reloads only all sites and the pending reviews.
- The admin add-site check is not trimmed: a field of spaces passes. Only the review cards trim.
- `addComment` itself does not check the content. The cards do.
- A visitor who is not signed in gets an "Authentication Required" toast from the card. There is no redirect.

## Model

| member | source | states |
|---|---|---|
| Backend.InsertError | src/hooks/useSites.tsx:74-83 | An insert succeeds exactly when the backend reports no error and the id is free. |
| Backend.NewSite | src/hooks/useSites.tsx:76-82 | The stored row is the payload's columns unchanged (projecting them back gives the payload), plus the backend's id and `created_at`. |
| Backend.NewComment | src/hooks/useSites.tsx:125-132 | The stored review is the payload unchanged, plus the backend's id and `created_at`. |
| Backend.WithSiteStatus | src/pages/Admin.tsx:141-144 | `update({status}).eq('id', id)`: same length and ids; rows with that id get the new status; every other row is unchanged. |
| Backend.WithCommentStatus | src/pages/Admin.tsx:116-119 | The same for `comments`: only rows with the id change, and only in `status`. |
| Backend.ActiveSites | src/hooks/useSites.tsx:37-41 | Holds exactly the `active` rows of the table, each as often as in the table (a permutation of the filtered rows), newest first. |
| Backend.AllSites | src/pages/Admin.tsx:46-49 | A permutation of the whole table, whatever the status, newest first. |
| Backend.PendingComments | src/pages/Admin.tsx:55-59 | Holds exactly the `pending` reviews, each as often as in the table (a permutation of the filtered rows), newest first. |
| Backend.ApprovedComments | src/hooks/useComments.tsx:13-17 | Holds exactly the `approved` reviews of all sites, each as often as in the table (a permutation of the filtered rows), newest first. |
| Backend.ApprovedCommentsFor | src/hooks/useSites.tsx:98-103 | Holds exactly the `approved` reviews of the given site, each as often as in the table (a permutation of the filtered rows), newest first. |
| Backend.Database.constructor | src/hooks/useSites.tsx:5-28 | Tables with unique ids form a valid database. |
| Backend.Database.InsertSite | src/hooks/useSites.tsx:74-82 | Keeps ids unique; on success appends exactly the new row; on error the table is unchanged. |
| Backend.Database.InsertComment | src/hooks/useSites.tsx:123-134 | The same for `comments`. |
| Backend.Database.UpdateSiteStatus | src/pages/Admin.tsx:141-146 | On success the table becomes `WithSiteStatus`; on error it is unchanged. |
| Backend.Database.UpdateCommentStatus | src/pages/Admin.tsx:116-121 | On success the table becomes `WithCommentStatus`; on error it is unchanged. |
| UseSites.AddCommentFailed | src/hooks/useSites.tsx:141-145 | The error toast carries the error's message, or "Failed to add comment" when the message is empty. |
| UseSites.SitesHook.constructor | src/hooks/useSites.tsx:31-32 | Starts with no sites and loading. |
| UseSites.SitesHook.FetchSites | src/hooks/useSites.tsx:35-54 | On success the list is the active sites, newest first; on failure it is kept and an error toast is shown; loading is false either way. |
| UseSites.ProposedSite | src/hooks/useSites.tsx:76-81 | A proposed site is always `pending`, carries the given author name and e-mail, and has no creator. |
| UseSites.AddSite | src/hooks/useSites.tsx:68-87 | Reports success exactly when the insert succeeded, and then appends the pending row; otherwise reports the error and leaves the table alone. |
| UseSites.CommentPayload | src/hooks/useSites.tsx:125-132 | A new review is `pending` and its `user_id` is the signed-in identity's id. |
| UseSites.SiteCommentsHook.constructor | src/hooks/useSites.tsx:89-91 | Starts bound to the site id, with no reviews and loading. |
| UseSites.NoSiteId | src/hooks/useSites.tsx:95 | `!siteId` holds for a missing id and for the empty id. |
| UseSites.SiteCommentsHook.FetchComments | src/hooks/useSites.tsx:94-116 | Without a site id nothing changes and loading stays true. Otherwise it loads the site's approved reviews, or keeps the list and shows a toast; loading is then false. |
| UseSites.SiteCommentsHook.AddComment | src/hooks/useSites.tsx:118-147 | Without an identity, nothing is inserted and "Not authenticated" is shown. Otherwise the pending row is appended on success, or the table is kept and the error is shown. |
| UseComments.ReviewsHook.constructor | src/hooks/useComments.tsx:7-8 | Starts with no reviews and loading. |
| UseComments.ReviewsHook.FetchComments | src/hooks/useComments.tsx:11-29 | On success the approved reviews of all sites, newest first; on failure the old list and a toast; loading is false either way. |
| Admin.ModeratedStatus | src/pages/Admin.tsx:115 | Approve gives `approved` and reject gives `rejected` (both directions); never `pending`. |
| Admin.MissingInformation | src/pages/Admin.tsx:77 | A field counts as missing only when it is the empty string; white space passes. |
| Admin.ToggledStatus | src/pages/Admin.tsx:140 | `active` becomes `inactive` and every other status becomes `active` (both directions); never `pending`. |
| Admin.ToggleCaption | src/pages/Admin.tsx:220 | The caption is "Deactivate" for an `active` site and "Activate" for any other. |
| Admin.ToggleCaptionMatches | src/pages/Admin.tsx:218-220 | The button reads "Activate" exactly when the toggle activates, and "Deactivate" exactly when it deactivates. |
| Admin.AdminSitePayload | src/pages/Admin.tsx:89-93 | The admin's row is `active` and credited to the signed-in user, whatever the form holds; fields are copied unchanged. |
| Admin.SiteLabel | src/pages/Admin.tsx:243-257 | With no loaded site of that id, "Unknown Site". Otherwise the first matching site's title when it is non-empty, and "Unknown Site" when it is empty. |
| Admin.SiteLabelOfLoadedSite | src/pages/Admin.tsx:243-257 | With unique ids, a review of a loaded site shows that site's title, or "Unknown Site" when the title is empty. |
| Admin.PendingBadge | src/pages/Admin.tsx:176-180 | The tab badge appears exactly when reviews are waiting, and shows their number. |
| Admin.ActionDoneAsWritten | src/pages/Admin.tsx:123-126 | The success toast as the page builds it: "Comment " + action + "d", never destructive. |
| Admin.RejectToastMisspelled | src/pages/Admin.tsx:123-126 | Rejecting shows "Comment rejectd", not "Comment rejected". |
| Admin.ActionDone | src/pages/Admin.tsx:123-126 | The corrected success toast: "Comment approved" / "Comment rejected" with the matching description, never destructive. |
| Admin.ApproveToastUnchanged | src/pages/Admin.tsx:123-126 | For approval the corrected toast is exactly the one the page builds. |
| Admin.ActionFailed | src/pages/Admin.tsx:130-134 | The failure toast is the destructive "Error" with "Failed to approve comment" or "Failed to reject comment". |
| Admin.SiteUpdated | src/pages/Admin.tsx:149-152 | "Site Updated", not destructive; the description says "activated" exactly when the new status is `active` and "deactivated" otherwise. |
| Admin.AccessRedirect | src/pages/Admin.tsx:31-41 | No user goes to /auth; a non-admin goes to /; only an admin stays. |
| Admin.AdminPage.constructor | src/pages/Admin.tsx:18-26 | Empty lists, loading, four empty form fields. |
| Admin.AdminPage.OnMount | src/pages/Admin.tsx:31-41 | A redirected visitor triggers no fetch and changes no list; an admin triggers `fetchData`. |
| Admin.AdminPage.FetchData | src/pages/Admin.tsx:43-72 | A sites failure changes neither list. A reviews failure leaves the sites already replaced. Success loads all sites and the pending reviews. Loading ends false. |
| Admin.AdminPage.HandleAddSite | src/pages/Admin.tsx:74-111 | A missing field: one toast and nothing changes. A failed insert: one toast, the form kept. Success: the active row is appended, the form is cleared and the lists reload. |
| Admin.AdminPage.HandleCommentAction | src/pages/Admin.tsx:113-136 | On success the review's status is set from the action, the corrected `ActionDone` toast is shown and the lists reload; on failure nothing changes. |
| Admin.AdminPage.HandleToggleSiteStatus | src/pages/Admin.tsx:138-161 | On success the toggled form of the shown status is written and the lists reload; on failure nothing changes. |
| Directory.MatchesSearch | src/pages/Index.tsx:26-27 | `matchesSearch`: the lower-cased title or description includes the lower-cased term; used by FilteredSitesMembers. |
| Directory.MatchesCategory | src/pages/Index.tsx:28 | `matchesCategory`: the filter is "all" or equals the site's category; used by FilteredSitesMembers. |
| Directory.FilteredSites | src/pages/Index.tsx:24-31 | Never lists more sites than are loaded. |
| Directory.FilteredSitesMembers | src/pages/Index.tsx:25-29 | A site is listed exactly when it is loaded, its lower-cased title or description contains the lower-cased term, and the category is "all" or its own. |
| Directory.FilteredSitesSubsequence | src/pages/Index.tsx:24-31 | The listing is an order-preserving subsequence of the loaded sites. |
| Directory.NoFiltersShowAll | src/pages/Index.tsx:26-28 | An empty term with category "all" lists every site, unchanged. |
| Directory.SearchIgnoresCase | src/pages/Index.tsx:26-27 | Terms that lower-case alike give the same listing. |
| Directory.SearchByLoweredTerm | src/pages/Index.tsx:26-27 | Searching for the lower-cased term lists exactly what the term itself lists. |
| Directory.FinanceAnyCase | src/pages/Index.tsx:26-27 | "FINANCE" and "finance" give the same listing. |
| Directory.FilterTwiceIsOnce | src/pages/Index.tsx:24-31 | Filtering the listing again with the same term and category changes nothing. |
| Directory.Categories | src/pages/Index.tsx:34 | Strictly sorted, no duplicates, and exactly the categories of the loaded sites. |
| Directory.TotalReviews | src/pages/Index.tsx:37 | The total is the number of loaded reviews. |
| Directory.PositiveReviews | src/pages/Index.tsx:38 | The positive count is the number of loaded reviews rated `positive`, at most the total. |
| Directory.PositiveWithinTotal | src/pages/Index.tsx:37-38 | Positive reviews never exceed the total; the rest are exactly the negative and neutral ones. |
| SearchAndFilter.HasActiveFilters | src/components/SearchAndFilter.tsx:34 | A filter is active when the term is non-empty or the category is not "all". |
| SearchAndFilter.Bar | src/components/SearchAndFilter.tsx:65-91 | The clear button shows exactly when a filter is active. The search badge shows exactly for a non-empty term, and the category badge exactly for a category other than "all". |
| SearchAndFilter.BarFor | src/pages/Index.tsx:138-146 | The bar counts the landing page's listing against all loaded sites, so "Showing n of m" has n ≤ m. |
| SearchAndFilter.FilterState.constructor | src/pages/Index.tsx:14-15 | The page starts with term "" and category "all", so no filter is active. |
| SearchAndFilter.FilterState.OnSearchChange | src/components/SearchAndFilter.tsx:44 | Typing sets the term. |
| SearchAndFilter.FilterState.OnCategoryChange | src/components/SearchAndFilter.tsx:50 | Choosing sets the category. |
| SearchAndFilter.FilterState.ClearFilters | src/components/SearchAndFilter.tsx:29-34 | Afterwards the term is "", the category is "all" and no filter is active. |
| SearchAndFilter.ClearedBarShowsEverything | src/components/SearchAndFilter.tsx:29-34 | After clearing there is no clear button and no badge, and the shown count equals the total. |
| Reviews.CountRating | src/components/UpdatedGovSiteCard.tsx:54-55 | A rating count never exceeds the number of reviews. |
| Reviews.RatingsPartition | src/components/UpdatedGovSiteCard.tsx:54-55 | The positive, negative and neutral counts add up to the number of reviews. |
| Reviews.CountRatingBy | src/components/GovSiteCard.tsx:66-67 | Any predicate true of exactly the reviews with a rating counts the same reviews as that rating's filter. |
| Reviews.Summarize | src/components/UpdatedGovSiteCard.tsx:54-110 | positive + negative ≤ total. The preview is the first min(2, n) reviews. The section shows exactly when n > 0. "+N more" appears exactly when n > 2, with N = n − 2. |
| Reviews.Blank | src/components/UpdatedGovSiteCard.tsx:37 | `!s.trim()` holds exactly when every character of `s` is white space (used by both cards, GovSiteCard.tsx:40 too). |
| UpdatedGovSiteCard.Card.constructor | src/components/UpdatedGovSiteCard.tsx:19-25 | Closed, empty form with rating `neutral`; the review hook is bound to this site. |
| UpdatedGovSiteCard.Card.OpenForm | src/components/UpdatedGovSiteCard.tsx:189 | "Review" opens the form. |
| UpdatedGovSiteCard.Card.Cancel | src/components/UpdatedGovSiteCard.tsx:173 | "Cancel" closes the form. |
| UpdatedGovSiteCard.Card.HandleSubmitComment | src/components/UpdatedGovSiteCard.tsx:27-52 | No user: a toast, with no insert and the form unchanged. A blank name or text: likewise. Otherwise `addComment` gets the trimmed text and name, and the form resets to closed, empty and `neutral`. |
| UpdatedGovSiteCard.RecentAreNewest | src/components/UpdatedGovSiteCard.tsx:91 | No review left out of the preview is newer than one in it. |
| GovSiteCard.Card.constructor | src/components/GovSiteCard.tsx:33-36 | Closed, empty form with rating `neutral`. |
| GovSiteCard.Card.OpenForm | src/components/GovSiteCard.tsx:199-200 | "Review" opens the form. |
| GovSiteCard.Card.Cancel | src/components/GovSiteCard.tsx:184 | "Cancel" closes the form. |
| GovSiteCard.Card.Counters | src/components/GovSiteCard.tsx:66-118 | The thumbs-up and thumbs-down counters count the site's positive and negative reviews; the total is their number; "Recent Reviews" is the first min(2, n) and shows exactly when n > 0; "+N more reviews" appears exactly when n > 2, with N = n − 2. |
| GovSiteCard.Card.HandleSubmitComment | src/components/GovSiteCard.tsx:39-64 | A blank name or text: only the "Missing Information" toast, and nothing changes. Otherwise the callback gets the trimmed author and text and the chosen rating; the form resets; the success toast comes after the callback. |
| GovSiteCard.DraftIsTrimmed | src/components/GovSiteCard.tsx:49-53 | The callback's author and text are never empty and are already trimmed. |
| GovSites.GovSitesData | src/data/govSites.ts:3-144 | The twenty bundled records, each with its id, title, url, description and category; the lemmas below are about this list. |
| GovSites.CategoryColumn | src/data/govSites.ts:146 | One category per record, in record order. |
| GovSites.Categories | src/data/govSites.ts:146 | Strictly sorted, and exactly the records' categories. |
| GovSites.SortedCategoriesSorted | src/data/govSites.ts:146 | The explicit eighteen-name list is strictly sorted. |
| GovSites.ColumnOfData | src/data/govSites.ts:3-146 | The category column of the twenty records, record by record. |
| GovSites.ColumnListed | src/data/govSites.ts:3-146 | Every record's category is one of the eighteen sorted names. |
| GovSites.ListedInColumn | src/data/govSites.ts:3-146 | Every one of the eighteen sorted names is some record's category. |
| GovSites.CategoriesAre | src/data/govSites.ts:146 | Records whose categories are exactly the members of a strictly sorted list yield that list. |
| GovSites.CategoriesOfData | src/data/govSites.ts:3-146 | The twenty records yield exactly that list of eighteen categories. |
| GovSites.CategoriesCoverData | src/data/govSites.ts:146 | Every record's category is listed, and every listed category is some record's. |
| GovSites.ListedOnce | src/data/govSites.ts:146 | A category that some record carries is listed exactly once. |
| GovSites.EnergyOnce | src/data/govSites.ts:116-146 | Records 17 and 18 are both "Energy", which is listed once. |
| GovSites.GeneralServicesOnce | src/data/govSites.ts:3-146 | Records 1 and 20 are both "General Services", which is listed once. |
| GovSites.OptionsAreSortedCategories | src/pages/Admin.tsx:327-344 | The add-site form offers eighteen options, exactly the bundled categories. |
| GovSites.OptionsListed | src/pages/Admin.tsx:327-344 | Every offered option is a bundled category. |
| GovSites.ListedOffered | src/pages/Admin.tsx:327-344 | Every bundled category is offered. |
| GovSites.IdsDistinct | src/data/govSites.ts:5-140 | The ids "1" to "20" are pairwise distinct. |
| Lifecycle.RejectedRowFilteredOut | src/hooks/useSites.tsx:102 | Appending a row the filter rejects leaves the filtered list as it was. |
| Lifecycle.AddedCommentAwaitsApproval | src/hooks/useSites.tsx:123-134 | A stored review carries the user's id and sits in the admin queue. No public query, for any site, shows it before approval. |
| Lifecycle.StatusSetFor | src/pages/Admin.tsx:113-128 | After a status update every row with that id carries the new status. |
| Lifecycle.ModerationOutcome | src/pages/Admin.tsx:113-128 | Only the one row changes. It leaves the moderation queue. Approval makes it public on its site and in the totals; rejection keeps it hidden. |
| Lifecycle.ProposedSiteAwaitsReview | src/hooks/useSites.tsx:74-81 | A proposed site leaves the public list as it was, and the admin's list shows it. |
| Lifecycle.HiddenSiteAdded | src/hooks/useSites.tsx:37-41 | Adding a row that is not `active` does not change the public list. |
| Lifecycle.AdminSiteIsPublic | src/pages/Admin.tsx:87-93 | An admin-added site is in the public list and, unfiltered, on the landing page. |
| Lifecycle.ListedSitesAreActive | src/pages/Index.tsx:24-31 | The landing page lists only active rows of the table. |
| Lifecycle.ToggleActivatesPending | src/pages/Admin.tsx:140-144 | Toggling a pending site makes it active and public. |
| Lifecycle.ApplyToggles | src/pages/Admin.tsx:138-146 | A series of toggles keeps the table's length and ids. |
| Lifecycle.NeverBackToPending | src/pages/Admin.tsx:140 | No series of toggles makes a non-pending site pending again. |
| Lifecycle.ToggledSiteLeavesPending | src/pages/Admin.tsx:140 | A site that any toggle touched ends non-pending, whatever status was shown and whatever followed. |
| Seqs.Filter | src/pages/Index.tsx:25 | Keeps only elements satisfying the predicate, never more than given, and never invents one; FilterMultiplicity states how often each is kept. |
| Seqs.FilterMembers | src/pages/Index.tsx:25-30 | An element is kept exactly when it occurs and satisfies the predicate. |
| Seqs.FilterMultiplicity | src/pages/Index.tsx:25 | An element satisfying the predicate is kept as often as it occurs, and any other is dropped every time. |
| Seqs.FilterIsSubsequence | src/pages/Index.tsx:25 | `filter` keeps the original order. |
| Seqs.FilterIdempotent | src/pages/Index.tsx:24-31 | Filtering twice by the same predicate is filtering once. |
| Seqs.SortDesc | src/hooks/useSites.tsx:41 | `order('created_at', {ascending: false})` returns a permutation, sorted newest first. |
| Seqs.FindIndex | src/pages/Admin.tsx:243 | `find` returns the first match, or nothing when none matches. |
| Text.LowerStr | src/pages/Index.tsx:26 | Lower-casing keeps the length and lower-cases each letter. |
| Text.LowerStrIdempotent | src/pages/Index.tsx:26-27 | Lower-casing twice is lower-casing once (used by SearchByLoweredTerm). |
| Text.Contains | src/pages/Index.tsx:26 | `includes`: the needle occurs somewhere in the text; the empty needle occurs everywhere. |
| Text.ContainsAt | src/pages/Index.tsx:26 | `includes` holds exactly when the needle occurs at some position. |
| Text.IsSpaceCodes | src/components/UpdatedGovSiteCard.tsx:37 | A character counts as white space for `trim` exactly when its code point is one of the twenty-five listed. |
| Text.Trim | src/components/UpdatedGovSiteCard.tsx:37 | `trim` drops the leading and the trailing white space. |
| Text.TrimStartSpec | src/components/UpdatedGovSiteCard.tsx:37 | Dropping leading white space removes a prefix made only of white space and stops at the first other character. |
| Text.TrimEndSpec | src/components/UpdatedGovSiteCard.tsx:37 | Dropping trailing white space removes a suffix made only of white space and stops at the last other character. |
| Text.TrimEmptyIff | src/components/UpdatedGovSiteCard.tsx:37 | `!s.trim()` holds exactly for strings made only of white space. |
| Text.TrimIsCore | src/components/UpdatedGovSiteCard.tsx:46 | `trim` returns a contiguous piece of the string, and what it cuts off is white space. |
| Text.TrimEndsNotSpace | src/components/UpdatedGovSiteCard.tsx:46 | The trimmed string neither starts nor ends with white space. |
| Text.TrimIdempotent | src/components/UpdatedGovSiteCard.tsx:46 | Trimming twice is trimming once. |
| Text.LexLess | src/pages/Index.tsx:34 | The order `.sort()` uses: code point by code point, a proper prefix first. |
| Text.LexIrreflexive | src/pages/Index.tsx:34 | No string sorts before itself. |
| Text.LexTransitive | src/pages/Index.tsx:34 | The sort order is transitive. |
| Text.LexTotal | src/pages/Index.tsx:34 | Of two different strings one sorts before the other. |
| Text.Distinct | src/pages/Index.tsx:34 | `Array.from(new Set(xs))` has exactly the members of `xs` and no duplicates. |
| Text.SortStrings | src/pages/Index.tsx:34 | `sort` returns a permutation. |
| Text.SortedDistinct | src/pages/Index.tsx:34 | Distinct-then-sort is strictly sorted with exactly the given members. |
| Text.SortedUnique | src/data/govSites.ts:146 | Two strictly sorted lists with the same members are equal. |
| Text.StrictlySortedOnce | src/data/govSites.ts:146 | A strictly sorted list holds each value at most once. |

## Left out

- The backend client, its query builder, authentication and row-level security are not modelled. The tables are in-memory sequences, and whether a request fails is a parameter, so network behaviour is not modelled.
- `updated_at` is dropped from the rows: nothing in the modelled code reads or writes it. `avgRating` and `created_by` are carried but never read. `created_at` is an integer, not a timestamp string.
- Rows with equal `created_at` keep their table order in every newest-first query, while the backend leaves their order unspecified. The sequence equalities in `Lifecycle` (`AddedCommentAwaitsApproval`, `ProposedSiteAwaitsReview` and the others) rely on that fixed tie order; membership and multiplicity do not.
- Which of the card buttons are rendered (the "Review" button only for a signed-in user with the form closed) is not modelled. The counters and preview are `GovSiteCard.Card.Counters` and, for the other card, `Reviews.Summarize` over its loaded reviews.
- async scheduling and effect timing are not modelled. Each handler is one atomic step, so requests in flight cannot interleave. The effects that call `fetchSites`, the two `fetchComments` and `fetchData` on mount are the methods themselves.
- Toasts are returned values, not shown, and routing is a returned path. Rendering, styling, the Select widget and the form's text-field setters are left out. `Index.tsx`'s loading screen and header are presentation and are left out.
- Text.Lower: only ASCII letters are lower-cased. Unicode case mapping is not modelled.
- Text.LexLess: it compares code points, while JavaScript's `sort` compares UTF-16 code units. They differ only outside the Basic Multilingual Plane.
- The `data || []` fallback for a missing result set is not modelled; a successful query always returns rows.
- Extra keys that a spread such as `...newSite` or `...site` could carry beyond the declared fields are not modelled.
- src/pages/SiteDetails.tsx is not part of this model. Its only logic is a lookup by id, which `Admin.SiteLabel` covers.
- Editing and deleting sites or reviews, and rejecting a site by deleting it, are not modelled. The code does not implement them.

## Findings

| source | as written | input that shows it | evidently intended | confidence | as-written member | corrected member |
|---|---|---|---|---|---|---|
| src/pages/Admin.tsx:123-126 | The success toast appends "d" to the action word: `` `Comment ${action}d` `` and `` `The comment has been ${action}d successfully.` `` | `handleCommentAction(id, 'reject')` shows "Comment rejectd" and "The comment has been rejectd successfully." | "Comment rejected" and "The comment has been rejected successfully." | not executed | Admin.ActionDoneAsWritten, Admin.RejectToastMisspelled | Admin.ActionDone, Admin.ApproveToastUnchanged |
