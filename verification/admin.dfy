/** src/pages/Admin.tsx: the moderation console. It holds every site, the
    pending reviews and the add-site form; each successful write is followed
    by a reload of both lists. */
module Admin {
  import opened Records
  import opened Backend
  import Seqs

  const FetchDataFailed := Toast("Error", "Failed to fetch admin data", true)
  const MissingInformationToast := Toast("Missing Information", "Please fill in all fields.", true)
  const SiteAddedToast := Toast("Site Added", "New government site has been added successfully.", false)
  const AddSiteFailed := Toast("Error", "Failed to add site", true)
  const UpdateStatusFailed := Toast("Error", "Failed to update site status", true)
  const UnknownSite := "Unknown Site"

  /** The categories the add-site form offers, in the order it lists them. */
  const CategoryOptions := [
    "General Services", "Citizen Engagement", "Leadership", "Security & Administration",
    "Finance & Economics", "Foreign Affairs", "Defence", "Transportation", "Health & Welfare",
    "Education", "Agriculture", "Technology", "Environment", "Employment", "Social Welfare",
    "Urban Development", "Energy", "Data & Analytics"]

  /** The two buttons on a pending review. */
  datatype ModerationAction = Approve | Reject

  function ActionWord(a: ModerationAction): string
  {
    match a
    case Approve => "approve"
    case Reject => "reject"
  }

  /** Approve sets `approved`, reject sets `rejected`: a rejected review is
      kept, not deleted. */
  function ModeratedStatus(a: ModerationAction): (st: CommentStatus)
    ensures st == CommentStatus.Approved <==> a == Approve
    ensures st == CommentStatus.Rejected <==> a == Reject
    ensures st != CommentStatus.Pending
  {
    match a
    case Approve => CommentStatus.Approved
    case Reject => CommentStatus.Rejected
  }

  /** The status toggle: `active` becomes `inactive`, every other status
      (including `pending`) becomes `active`; `pending` is never produced. */
  function ToggledStatus(current: SiteStatus): (next: SiteStatus)
    ensures next != SiteStatus.Pending
    ensures next == SiteStatus.Inactive <==> current == SiteStatus.Active
    ensures next == SiteStatus.Active <==> current != SiteStatus.Active
  {
    if current == SiteStatus.Active then SiteStatus.Inactive else SiteStatus.Active
  }

  /** The toggle button's caption. */
  function ToggleCaption(current: SiteStatus): string
  {
    if current == SiteStatus.Active then "Deactivate" else "Activate"
  }

  /** The caption names what the toggle does. */
  lemma ToggleCaptionMatches(current: SiteStatus)
    ensures ToggleCaption(current) == "Activate" <==> ToggledStatus(current) == SiteStatus.Active
    ensures ToggleCaption(current) == "Deactivate" <==> ToggledStatus(current) == SiteStatus.Inactive
  {
  }

  /** The add-site check `!title || !url || !description || !category`: a
      field counts as missing only when it is the empty string (white space
      passes, nothing is trimmed). */
  predicate MissingInformation(f: SiteFields)
  {
    f.title == "" || f.url == "" || f.description == "" || f.category == ""
  }

  /** `{...newSite, created_by: user?.id, status: 'active'}`: the row the
      admin adds is `active` and credited to the signed-in user, whatever the
      form holds. */
  function AdminSitePayload(f: SiteFields, user: Option<User>): (p: SiteInsert)
    ensures p.status == SiteStatus.Active
    ensures p.fields == f
    ensures user.Some? ==> p.createdBy == Some(user.value.id)
    ensures user.None? ==> p.createdBy.None?
    ensures p.authorName.None? && p.authorEmail.None?
  {
    SiteInsert(f, SiteStatus.Active, if user.Some? then Some(user.value.id) else None, None, None)
  }

  function SiteIdIs(siteId: string): Site -> bool
  {
    (s: Site) => s.id == siteId
  }

  /** `site?.title || 'Unknown Site'` for `sites.find(s => s.id === comment.site_id)`. */
  function SiteLabel(sites: seq<Site>, c: Comment): (shown: string)
    ensures (forall i :: 0 <= i < |sites| ==> sites[i].id != c.siteId) ==> shown == UnknownSite
    ensures forall i ::
      (0 <= i < |sites| && sites[i].id == c.siteId && sites[i].title != "" &&
       (forall j :: 0 <= j < i ==> sites[j].id != c.siteId)) ==> shown == sites[i].title
    ensures forall i ::
      (0 <= i < |sites| && sites[i].id == c.siteId && sites[i].title == "" &&
       (forall j :: 0 <= j < i ==> sites[j].id != c.siteId)) ==> shown == UnknownSite
  {
    var k := Seqs.FindIndex(sites, SiteIdIs(c.siteId));
    assert forall i :: 0 <= i < |sites| ==> SiteIdIs(c.siteId)(sites[i]) == (sites[i].id == c.siteId);
    if k >= 0 && sites[k].title != "" then sites[k].title else UnknownSite
  }

  /** With unique ids, a review of a loaded site with a title shows that
      site's title, and a review of any other site shows 'Unknown Site'. */
  lemma SiteLabelOfLoadedSite(sites: seq<Site>, c: Comment, i: int)
    requires UniqueSiteIds(sites)
    requires 0 <= i < |sites| && sites[i].id == c.siteId
    ensures sites[i].title != "" ==> SiteLabel(sites, c) == sites[i].title
    ensures sites[i].title == "" ==> SiteLabel(sites, c) == UnknownSite
  {
    var k := Seqs.FindIndex(sites, SiteIdIs(c.siteId));
    assert SiteIdIs(c.siteId)(sites[i]);
    assert k == i;
  }

  /** The count badge on the review tab, shown only when something waits. */
  function PendingBadge(pending: seq<Comment>): (b: Option<nat>)
    ensures b.Some? <==> |pending| > 0
    ensures b.Some? ==> b.value == |pending|
  {
    if |pending| > 0 then Some(|pending|) else None
  }

  /** The success toast of a review action as the page builds it: the
      action word with a "d" appended, which spells "approved" but
      "rejectd". */
  function ActionDoneAsWritten(a: ModerationAction): (t: Toast)
    ensures t.title == "Comment " + ActionWord(a) + "d"
    ensures !t.destructive
  {
    Toast("Comment " + ActionWord(a) + "d", "The comment has been " + ActionWord(a) + "d successfully.", false)
  }

  /** Rejecting a review shows "Comment rejectd", not "Comment rejected". */
  lemma RejectToastMisspelled()
    ensures ActionDoneAsWritten(Reject).title == "Comment rejectd"
    ensures ActionDoneAsWritten(Reject).title != "Comment rejected"
  {
    assert ActionDoneAsWritten(Reject).title[14] == 'd';
  }

  /** The success toast of a review action, spelled as intended: "Comment
      approved" or "Comment rejected". */
  function ActionDone(a: ModerationAction): (t: Toast)
    ensures a == Approve ==> t.title == "Comment approved"
    ensures a == Approve ==> t.description == "The comment has been approved successfully."
    ensures a == Reject ==> t.title == "Comment rejected"
    ensures a == Reject ==> t.description == "The comment has been rejected successfully."
    ensures !t.destructive
  {
    match a
    case Approve => Toast("Comment approved", "The comment has been approved successfully.", false)
    case Reject => Toast("Comment rejected", "The comment has been rejected successfully.", false)
  }

  /** Where the page spells the toast right, the corrected toast is the same. */
  lemma ApproveToastUnchanged()
    ensures ActionDone(Approve) == ActionDoneAsWritten(Approve)
  {
    var w := ActionWord(Approve) + "d";
    assert w == "approved";
    assert "Comment " + w == "Comment approved";
    assert "The comment has been " + w + " successfully." == "The comment has been approved successfully.";
  }

  /** The destructive toast of a failed review action. */
  function ActionFailed(a: ModerationAction): (t: Toast)
    ensures t.title == "Error" && t.destructive
    ensures t.description == (if a == Approve then "Failed to approve comment" else "Failed to reject comment")
  {
    Toast("Error", "Failed to " + ActionWord(a) + " comment", true)
  }

  /** The success toast of a toggle, naming the direction it went. */
  function SiteUpdated(next: SiteStatus): (t: Toast)
    ensures t.title == "Site Updated" && !t.destructive
    ensures t.description == "Site has been activated." <==> next == SiteStatus.Active
    ensures t.description == "Site has been deactivated." <==> next != SiteStatus.Active
  {
    Toast("Site Updated", "Site has been " + (if next == SiteStatus.Active then "activated" else "deactivated") + ".", false)
  }

  /** The lists after `fetchData`: the sites query runs first and, when it
      fails, the reviews query is not sent; so a sites failure changes
      neither list, a reviews failure leaves the sites already replaced. */
  ghost predicate FetchDataOutcome(db: Database, sites0: seq<Site>, pending0: seq<Comment>,
                                   sites1: seq<Site>, pending1: seq<Comment>, toasts: seq<Toast>,
                                   sitesFailure: Option<string>, commentsFailure: Option<string>)
    reads db
  {
    && (sitesFailure.Some? ==> sites1 == sites0 && pending1 == pending0 && toasts == [FetchDataFailed])
    && (sitesFailure.None? ==> sites1 == AllSites(db.sites))
    && (sitesFailure.None? && commentsFailure.Some? ==> pending1 == pending0 && toasts == [FetchDataFailed])
    && (sitesFailure.None? && commentsFailure.None? ==>
          pending1 == PendingComments(db.comments) && toasts == [])
  }

  /** Where the page sends a visitor who may not see it. */
  function AccessRedirect(user: Option<User>, isAdmin: bool): (r: Option<string>)
    ensures user.None? ==> r == Some("/auth")
    ensures user.Some? && !isAdmin ==> r == Some("/")
    ensures r.None? <==> user.Some? && isAdmin
  {
    if user.None? then Some("/auth") else if !isAdmin then Some("/") else None
  }

  class AdminPage {
    var sites: seq<Site>
    var pendingComments: seq<Comment>
    var loading: bool
    var newSite: SiteFields

    constructor ()
      ensures sites == [] && pendingComments == [] && loading && newSite == EmptyFields
    {
      sites := [];
      pendingComments := [];
      loading := true;
      newSite := EmptyFields;
    }

    /** The access guard run on mount: no user goes to /auth, a non-admin
        to /, and only an admin triggers `fetchData`. */
    method OnMount(db: Database, user: Option<User>, isAdmin: bool,
                   sitesFailure: Option<string>, commentsFailure: Option<string>)
      returns (redirect: Option<string>, toasts: seq<Toast>)
      modifies this
      ensures redirect == AccessRedirect(user, isAdmin)
      ensures redirect.Some? ==>
        sites == old(sites) && pendingComments == old(pendingComments) && loading == old(loading) && toasts == []
      ensures redirect.None? ==>
        (!loading &&
         FetchDataOutcome(db, old(sites), old(pendingComments), sites, pendingComments, toasts,
                          sitesFailure, commentsFailure))
      ensures newSite == old(newSite)
    {
      redirect := AccessRedirect(user, isAdmin);
      toasts := [];
      if redirect.None? {
        toasts := FetchData(db, sitesFailure, commentsFailure);
      }
    }

    /** `fetchData`; `loading` is false afterwards in every case. */
    method FetchData(db: Database, sitesFailure: Option<string>, commentsFailure: Option<string>)
      returns (toasts: seq<Toast>)
      modifies this
      ensures !loading && newSite == old(newSite)
      ensures FetchDataOutcome(db, old(sites), old(pendingComments), sites, pendingComments, toasts,
                               sitesFailure, commentsFailure)
    {
      toasts := [];
      if sitesFailure.Some? {
        toasts := [FetchDataFailed];
      } else {
        sites := AllSites(db.sites);
        if commentsFailure.Some? {
          toasts := [FetchDataFailed];
        } else {
          pendingComments := PendingComments(db.comments);
        }
      }
      loading := false;
    }

    /** `handleAddSite`: a missing field stops everything with a toast; else
        the `active` row is inserted, and on success the form is cleared and
        the lists reloaded, on failure the form is kept. */
    method HandleAddSite(db: Database, user: Option<User>, id: string, now: int, insertFailure: Option<string>,
                         sitesFailure: Option<string>, commentsFailure: Option<string>)
      returns (toasts: seq<Toast>)
      requires db.Valid()
      modifies this, db`sites
      ensures db.Valid()
      ensures MissingInformation(old(newSite)) ==>
        toasts == [MissingInformationToast] && db.sites == old(db.sites) &&
        sites == old(sites) && pendingComments == old(pendingComments) &&
        loading == old(loading) && newSite == old(newSite)
      ensures !MissingInformation(old(newSite)) &&
              InsertError(SiteIdTaken(old(db.sites), id), insertFailure).Some? ==>
        toasts == [AddSiteFailed] && db.sites == old(db.sites) &&
        sites == old(sites) && pendingComments == old(pendingComments) &&
        loading == old(loading) && newSite == old(newSite)
      ensures !MissingInformation(old(newSite)) &&
              InsertError(SiteIdTaken(old(db.sites), id), insertFailure).None? ==>
        db.sites == old(db.sites) + [NewSite(AdminSitePayload(old(newSite), user), id, now)] &&
        newSite == EmptyFields && !loading && |toasts| >= 1 && toasts[0] == SiteAddedToast &&
        FetchDataOutcome(db, old(sites), old(pendingComments), sites, pendingComments, toasts[1..],
                         sitesFailure, commentsFailure)
    {
      if MissingInformation(newSite) {
        toasts := [MissingInformationToast];
        return;
      }
      var err := db.InsertSite(AdminSitePayload(newSite, user), id, now, insertFailure);
      if err.Some? {
        toasts := [AddSiteFailed];
        return;
      }
      newSite := EmptyFields;
      var more := FetchData(db, sitesFailure, commentsFailure);
      toasts := [SiteAddedToast] + more;
    }

    /** `handleCommentAction`: sets the one review's status from the action
        and, on success, reloads; on failure nothing changes. */
    method HandleCommentAction(db: Database, commentId: string, action: ModerationAction,
                               updateFailure: Option<string>,
                               sitesFailure: Option<string>, commentsFailure: Option<string>)
      returns (toasts: seq<Toast>)
      requires db.Valid()
      modifies this, db`comments
      ensures db.Valid() && newSite == old(newSite)
      ensures updateFailure.Some? ==>
        toasts == [ActionFailed(action)] && db.comments == old(db.comments) &&
        sites == old(sites) && pendingComments == old(pendingComments) && loading == old(loading)
      ensures updateFailure.None? ==>
        db.comments == WithCommentStatus(old(db.comments), commentId, ModeratedStatus(action)) &&
        !loading && |toasts| >= 1 && toasts[0] == ActionDone(action) &&
        FetchDataOutcome(db, old(sites), old(pendingComments), sites, pendingComments, toasts[1..],
                         sitesFailure, commentsFailure)
    {
      var err := db.UpdateCommentStatus(commentId, ModeratedStatus(action), updateFailure);
      if err.Some? {
        toasts := [ActionFailed(action)];
        return;
      }
      var more := FetchData(db, sitesFailure, commentsFailure);
      toasts := [ActionDone(action)] + more;
    }

    /** `handleToggleSiteStatus`: writes the toggled form of the status the
        list showed and, on success, reloads; on failure nothing changes. */
    method HandleToggleSiteStatus(db: Database, siteId: string, currentStatus: SiteStatus,
                                  updateFailure: Option<string>,
                                  sitesFailure: Option<string>, commentsFailure: Option<string>)
      returns (toasts: seq<Toast>)
      requires db.Valid()
      modifies this, db`sites
      ensures db.Valid() && newSite == old(newSite)
      ensures updateFailure.Some? ==>
        toasts == [UpdateStatusFailed] && db.sites == old(db.sites) &&
        sites == old(sites) && pendingComments == old(pendingComments) && loading == old(loading)
      ensures updateFailure.None? ==>
        db.sites == WithSiteStatus(old(db.sites), siteId, ToggledStatus(currentStatus)) &&
        !loading && |toasts| >= 1 && toasts[0] == SiteUpdated(ToggledStatus(currentStatus)) &&
        FetchDataOutcome(db, old(sites), old(pendingComments), sites, pendingComments, toasts[1..],
                         sitesFailure, commentsFailure)
    {
      var next := ToggledStatus(currentStatus);
      var err := db.UpdateSiteStatus(siteId, next, updateFailure);
      if err.Some? {
        toasts := [UpdateStatusFailed];
        return;
      }
      var more := FetchData(db, sitesFailure, commentsFailure);
      toasts := [SiteUpdated(next)] + more;
    }
  }
}
