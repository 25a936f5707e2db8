/** The hosted backend seen by the front end: two tables held in memory, the
    insert and update-by-id requests the screens send, and the select queries
    they run. Whether a request reaches the backend is not modelled: every
    request takes the error the backend would report (`None` when it
    succeeds), and the backend supplies the new row's `id` and `created_at`. */
module Backend {
  import opened Records
  import Seqs

  /** The error a primary-key clash yields. */
  const DuplicateKey := "duplicate key value violates unique constraint"

  ghost predicate UniqueSiteIds(t: seq<Site>)
  {
    forall i, j :: 0 <= i < j < |t| ==> t[i].id != t[j].id
  }

  ghost predicate UniqueCommentIds(t: seq<Comment>)
  {
    forall i, j :: 0 <= i < j < |t| ==> t[i].id != t[j].id
  }

  predicate SiteIdTaken(t: seq<Site>, id: string)
  {
    exists i :: 0 <= i < |t| && t[i].id == id
  }

  predicate CommentIdTaken(t: seq<Comment>, id: string)
  {
    exists i :: 0 <= i < |t| && t[i].id == id
  }

  /** The outcome of an insert: the transport error if there is one, else a
      primary-key clash, else success. */
  function InsertError(taken: bool, failure: Option<string>): (err: Option<string>)
    ensures err.None? <==> !taken && failure.None?
  {
    if failure.Some? then failure else if taken then Some(DuplicateKey) else None
  }

  /** The row the backend stores for an insert payload: the payload's
      columns unchanged, with the backend's `id` and `created_at`. */
  function NewSite(p: SiteInsert, id: string, now: int): (r: Site)
    ensures SiteInsert(SiteFields(r.title, r.url, r.description, r.category),
                       r.status, r.createdBy, r.authorName, r.authorEmail) == p
    ensures r.id == id && r.createdAt == now
  {
    Site(id, p.fields.title, p.fields.url, p.fields.description, p.fields.category,
         p.status, p.createdBy, p.authorName, p.authorEmail, now)
  }

  function NewComment(p: CommentInsert, id: string, now: int): (r: Comment)
    ensures CommentInsert(r.siteId, r.userId, r.authorName, r.content, r.rating, r.status) == p
    ensures r.id == id && r.createdAt == now
  {
    Comment(id, p.siteId, p.userId, p.authorName, p.content, p.rating, p.status, now)
  }

  /** `update({status}).eq('id', id)` on `sites`: every row with that id gets
      the new status, and nothing else changes. */
  function WithSiteStatus(t: seq<Site>, id: string, st: SiteStatus): (r: seq<Site>)
    ensures |r| == |t|
    ensures forall i :: 0 <= i < |t| ==> r[i].id == t[i].id
    ensures forall i :: 0 <= i < |t| && t[i].id != id ==> r[i] == t[i]
    ensures forall i :: 0 <= i < |t| && t[i].id == id ==> r[i] == t[i].(status := st)
  {
    seq(|t|, i requires 0 <= i < |t| => if t[i].id == id then t[i].(status := st) else t[i])
  }

  /** `update({status}).eq('id', id)` on `comments`. */
  function WithCommentStatus(t: seq<Comment>, id: string, st: CommentStatus): (r: seq<Comment>)
    ensures |r| == |t|
    ensures forall i :: 0 <= i < |t| ==> r[i].id == t[i].id
    ensures forall i :: 0 <= i < |t| && t[i].id != id ==> r[i] == t[i]
    ensures forall i :: 0 <= i < |t| && t[i].id == id ==> r[i] == t[i].(status := st)
  {
    seq(|t|, i requires 0 <= i < |t| => if t[i].id == id then t[i].(status := st) else t[i])
  }

  function SiteCreatedAt(s: Site): int { s.createdAt }
  function CommentCreatedAt(c: Comment): int { c.createdAt }
  predicate IsActiveSite(s: Site) { s.status == SiteStatus.Active }
  predicate IsPendingComment(c: Comment) { c.status == CommentStatus.Pending }
  predicate IsApprovedComment(c: Comment) { c.status == CommentStatus.Approved }

  function ApprovedFor(siteId: string): Comment -> bool
  {
    (c: Comment) => c.siteId == siteId && c.status == CommentStatus.Approved
  }

  /** `select('*').eq('status', 'active').order('created_at', {ascending: false})`. */
  function ActiveSites(t: seq<Site>): (r: seq<Site>)
    ensures multiset(r) == multiset(Seqs.Filter(t, IsActiveSite))
    ensures forall s :: s in r <==> s in t && s.status == SiteStatus.Active
    ensures Seqs.SortedDesc(r, SiteCreatedAt)
  {
    Seqs.SortedFilterMembers(t, IsActiveSite, SiteCreatedAt);
    Seqs.SortDesc(Seqs.Filter(t, IsActiveSite), SiteCreatedAt)
  }

  /** `select('*').order('created_at', {ascending: false})`: every row, whatever its status. */
  function AllSites(t: seq<Site>): (r: seq<Site>)
    ensures multiset(r) == multiset(t)
    ensures forall s :: s in r <==> s in t
    ensures Seqs.SortedDesc(r, SiteCreatedAt)
  {
    Seqs.SortDescMembersAll(t, SiteCreatedAt);
    Seqs.SortDesc(t, SiteCreatedAt)
  }

  /** `select('*').eq('status', 'pending').order('created_at', {ascending: false})`. */
  function PendingComments(t: seq<Comment>): (r: seq<Comment>)
    ensures multiset(r) == multiset(Seqs.Filter(t, IsPendingComment))
    ensures forall c :: c in r <==> c in t && c.status == CommentStatus.Pending
    ensures Seqs.SortedDesc(r, CommentCreatedAt)
  {
    Seqs.SortedFilterMembers(t, IsPendingComment, CommentCreatedAt);
    Seqs.SortDesc(Seqs.Filter(t, IsPendingComment), CommentCreatedAt)
  }

  /** `select('*').eq('status', 'approved').order('created_at', {ascending: false})`. */
  function ApprovedComments(t: seq<Comment>): (r: seq<Comment>)
    ensures multiset(r) == multiset(Seqs.Filter(t, IsApprovedComment))
    ensures forall c :: c in r <==> c in t && c.status == CommentStatus.Approved
    ensures Seqs.SortedDesc(r, CommentCreatedAt)
  {
    Seqs.SortedFilterMembers(t, IsApprovedComment, CommentCreatedAt);
    Seqs.SortDesc(Seqs.Filter(t, IsApprovedComment), CommentCreatedAt)
  }

  /** `select('*').eq('site_id', siteId).eq('status', 'approved').order('created_at', {ascending: false})`. */
  function ApprovedCommentsFor(t: seq<Comment>, siteId: string): (r: seq<Comment>)
    ensures multiset(r) == multiset(Seqs.Filter(t, ApprovedFor(siteId)))
    ensures forall c :: c in r <==> c in t && c.siteId == siteId && c.status == CommentStatus.Approved
    ensures Seqs.SortedDesc(r, CommentCreatedAt)
  {
    Seqs.SortedFilterMembers(t, ApprovedFor(siteId), CommentCreatedAt);
    Seqs.SortDesc(Seqs.Filter(t, ApprovedFor(siteId)), CommentCreatedAt)
  }

  /** The two tables. `Valid` is the primary-key constraint on `id`. */
  class Database {
    var sites: seq<Site>
    var comments: seq<Comment>

    ghost predicate Valid()
      reads this
    {
      UniqueSiteIds(sites) && UniqueCommentIds(comments)
    }

    constructor (sites: seq<Site>, comments: seq<Comment>)
      requires UniqueSiteIds(sites) && UniqueCommentIds(comments)
      ensures Valid()
      ensures this.sites == sites && this.comments == comments
    {
      this.sites := sites;
      this.comments := comments;
    }

    /** `from('sites').insert(p)`. */
    method InsertSite(p: SiteInsert, id: string, now: int, failure: Option<string>)
      returns (err: Option<string>)
      requires Valid()
      modifies this`sites
      ensures Valid()
      ensures err == InsertError(SiteIdTaken(old(sites), id), failure)
      ensures err.None? ==> sites == old(sites) + [NewSite(p, id, now)]
      ensures err.Some? ==> sites == old(sites)
    {
      err := InsertError(SiteIdTaken(sites, id), failure);
      if err.None? {
        sites := sites + [NewSite(p, id, now)];
      }
    }

    /** `from('comments').insert(p)`. */
    method InsertComment(p: CommentInsert, id: string, now: int, failure: Option<string>)
      returns (err: Option<string>)
      requires Valid()
      modifies this`comments
      ensures Valid()
      ensures err == InsertError(CommentIdTaken(old(comments), id), failure)
      ensures err.None? ==> comments == old(comments) + [NewComment(p, id, now)]
      ensures err.Some? ==> comments == old(comments)
    {
      err := InsertError(CommentIdTaken(comments, id), failure);
      if err.None? {
        comments := comments + [NewComment(p, id, now)];
      }
    }

    /** `from('sites').update({status}).eq('id', id)`. */
    method UpdateSiteStatus(id: string, st: SiteStatus, failure: Option<string>)
      returns (err: Option<string>)
      requires Valid()
      modifies this`sites
      ensures Valid()
      ensures err == failure
      ensures err.None? ==> sites == WithSiteStatus(old(sites), id, st)
      ensures err.Some? ==> sites == old(sites)
    {
      err := failure;
      if err.None? {
        sites := WithSiteStatus(sites, id, st);
      }
    }

    /** `from('comments').update({status}).eq('id', id)`. */
    method UpdateCommentStatus(id: string, st: CommentStatus, failure: Option<string>)
      returns (err: Option<string>)
      requires Valid()
      modifies this`comments
      ensures Valid()
      ensures err == failure
      ensures err.None? ==> comments == WithCommentStatus(old(comments), id, st)
      ensures err.Some? ==> comments == old(comments)
    {
      err := failure;
      if err.None? {
        comments := WithCommentStatus(comments, id, st);
      }
    }
  }
}
