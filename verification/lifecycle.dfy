/** How the screens' operations compose over the two tables: what a new
    review, a proposed site, an admin-added site, a moderation decision and
    a status toggle do to what the public pages and the admin page load. */
module Lifecycle {
  import opened Records
  import opened Backend
  import Seqs
  import UseSites
  import Admin
  import Directory

  /** Appending a row a filter rejects leaves the filtered list as it was. */
  lemma RejectedRowFilteredOut(t: seq<Comment>, c: Comment, p: Comment -> bool)
    requires !p(c)
    ensures Seqs.Filter(t + [c], p) == Seqs.Filter(t, p)
  {
    Seqs.FilterAppend(t, [c], p);
    assert Seqs.Filter([c], p) == [];
  }

  /** A review `addComment` stores is `pending`: no public query shows it,
      for any site, while the admin's moderation queue does. */
  lemma AddedCommentAwaitsApproval(before: seq<Comment>, after: seq<Comment>, toasts: seq<Toast>,
                                   siteId: string, content: string, rating: Rating, authorName: string,
                                   authUser: Option<User>, id: string, now: int, failure: Option<string>,
                                   anySite: string)
    requires UseSites.AddCommentOutcome(before, after, toasts, siteId, content, rating, authorName,
                                        authUser, id, now, failure)
    ensures ApprovedCommentsFor(after, anySite) == ApprovedCommentsFor(before, anySite)
    ensures ApprovedComments(after) == ApprovedComments(before)
    ensures after != before ==>
      (authUser.Some? && |after| == |before| + 1 &&
       after[|before|].userId == authUser.value.id && after[|before|] in PendingComments(after))
  {
    if after != before {
      var c := after[|before|];
      assert after == before + [c];
      RejectedRowFilteredOut(before, c, ApprovedFor(anySite));
      RejectedRowFilteredOut(before, c, IsApprovedComment);
    }
  }

  /** Moderating a review changes only that row (ids are unique), takes it
      out of the moderation queue, and approval makes it public on its
      site's card and in the totals while rejection keeps it hidden. */
  lemma ModerationOutcome(t: seq<Comment>, i: int, a: Admin.ModerationAction)
    requires UniqueCommentIds(t) && 0 <= i < |t|
    ensures var t1 := WithCommentStatus(t, t[i].id, Admin.ModeratedStatus(a));
      (t1[i] == t[i].(status := Admin.ModeratedStatus(a))) &&
      (forall j :: 0 <= j < |t| && j != i ==> t1[j] == t[j]) &&
      (forall c :: c in PendingComments(t1) ==> c.id != t[i].id) &&
      (a == Admin.Approve ==> t1[i] in ApprovedCommentsFor(t1, t[i].siteId) && t1[i] in ApprovedComments(t1)) &&
      (a == Admin.Reject ==> forall c :: c in ApprovedComments(t1) ==> c.id != t[i].id)
  {
    var st := Admin.ModeratedStatus(a);
    StatusSetFor(t, t[i].id, st);
  }

  /** After a status update every row with that id has the new status. */
  lemma StatusSetFor(t: seq<Comment>, id: string, st: CommentStatus)
    ensures var t1 := WithCommentStatus(t, id, st);
      forall c :: c in t1 && c.id == id ==> c.status == st
  {
    var t1 := WithCommentStatus(t, id, st);
    forall c | c in t1 && c.id == id ensures c.status == st {
      var k :| 0 <= k < |t1| && t1[k] == c;
    }
  }

  /** A site proposed through `addSite` is `pending`: the public list is the
      same as before, while the admin's list of all sites shows it. */
  lemma ProposedSiteAwaitsReview(t: seq<Site>, site: SiteFields, authorName: Option<string>,
                                 authorEmail: Option<string>, id: string, now: int)
    ensures var row := NewSite(UseSites.ProposedSite(site, authorName, authorEmail), id, now);
      ActiveSites(t + [row]) == ActiveSites(t) && row in AllSites(t + [row])
  {
    var row := NewSite(UseSites.ProposedSite(site, authorName, authorEmail), id, now);
    assert row.status == SiteStatus.Pending;
    HiddenSiteAdded(t, row);
  }

  /** Adding a row that is not `active` leaves the public list as it was. */
  lemma HiddenSiteAdded(t: seq<Site>, row: Site)
    requires row.status != SiteStatus.Active
    ensures ActiveSites(t + [row]) == ActiveSites(t)
  {
    Seqs.FilterAppend(t, [row], IsActiveSite);
    assert Seqs.Filter([row], IsActiveSite) == [];
    assert Seqs.Filter(t + [row], IsActiveSite) == Seqs.Filter(t, IsActiveSite);
  }

  /** A site the admin adds is `active` and so appears in the public list
      and, with no filter, on the landing page. */
  lemma AdminSiteIsPublic(t: seq<Site>, f: SiteFields, user: Option<User>, id: string, now: int)
    ensures var row := NewSite(Admin.AdminSitePayload(f, user), id, now);
      row in ActiveSites(t + [row]) &&
      row in Directory.FilteredSites(ActiveSites(t + [row]), "", "all")
  {
    var row := NewSite(Admin.AdminSitePayload(f, user), id, now);
    Directory.NoFiltersShowAll(ActiveSites(t + [row]));
  }

  /** The landing page lists only active sites of the table. */
  lemma ListedSitesAreActive(t: seq<Site>, term: string, category: string)
    ensures forall s :: s in Directory.FilteredSites(ActiveSites(t), term, category) ==>
      s in t && s.status == SiteStatus.Active
  {
    forall s | s in Directory.FilteredSites(ActiveSites(t), term, category)
      ensures s in t && s.status == SiteStatus.Active
    {
      Directory.FilteredSitesMembers(ActiveSites(t), term, category, s);
    }
  }

  /** Toggling a pending site makes it active, and so public. */
  lemma ToggleActivatesPending(t: seq<Site>, i: int)
    requires 0 <= i < |t| && t[i].status == SiteStatus.Pending
    ensures var t1 := WithSiteStatus(t, t[i].id, Admin.ToggledStatus(t[i].status));
      t1[i] == t[i].(status := SiteStatus.Active) && t1[i] in ActiveSites(t1)
  {
  }

  /** One press of a toggle button: the site's id and the status the admin
      page showed for it (which may be stale). */
  datatype Toggle = Toggle(siteId: string, shown: SiteStatus)

  /** The `sites` table after a series of successful toggles. */
  function ApplyToggles(t: seq<Site>, steps: seq<Toggle>): (r: seq<Site>)
    ensures |r| == |t|
    ensures forall i :: 0 <= i < |t| ==> r[i].id == t[i].id
    decreases |steps|
  {
    if steps == [] then t
    else ApplyToggles(WithSiteStatus(t, steps[0].siteId, Admin.ToggledStatus(steps[0].shown)), steps[1..])
  }

  /** Once a site is not pending, no series of toggles makes it pending again. */
  lemma {:induction false} NeverBackToPending(t: seq<Site>, steps: seq<Toggle>)
    ensures forall i :: 0 <= i < |t| && t[i].status != SiteStatus.Pending ==>
      ApplyToggles(t, steps)[i].status != SiteStatus.Pending
    decreases |steps|
  {
    if steps != [] {
      var t1 := WithSiteStatus(t, steps[0].siteId, Admin.ToggledStatus(steps[0].shown));
      NeverBackToPending(t1, steps[1..]);
    }
  }

  /** A site that some toggle touched is not pending afterwards, whatever
      status the page showed and whatever came after. */
  lemma {:induction false} ToggledSiteLeavesPending(t: seq<Site>, steps: seq<Toggle>, i: int, k: int)
    requires 0 <= i < |t| && 0 <= k < |steps| && steps[k].siteId == t[i].id
    ensures ApplyToggles(t, steps)[i].status != SiteStatus.Pending
    decreases |steps|
  {
    var t1 := WithSiteStatus(t, steps[0].siteId, Admin.ToggledStatus(steps[0].shown));
    if k == 0 {
      NeverBackToPending(t1, steps[1..]);
    } else {
      ToggledSiteLeavesPending(t1, steps[1..], i, k - 1);
    }
  }
}
