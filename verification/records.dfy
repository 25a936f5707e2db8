/** The rows of the two backend tables, `sites` and `comments`, and the
    values the screens exchange with them (src/hooks/useSites.tsx:5-28). */
module Records {

  datatype Option<T> = None | Some(value: T)

  /** `sites.status`: 'pending', 'active' or 'inactive'. */
  datatype SiteStatus = Pending | Active | Inactive

  /** `comments.status`: 'pending', 'approved' or 'rejected'. */
  datatype CommentStatus = Pending | Approved | Rejected

  /** `comments.rating`. */
  datatype Rating = Positive | Negative | Neutral

  /** The signed-in identity given by the authentication service. */
  datatype User = User(id: string, email: string)

  /** A row of `sites`; `createdAt` stands for the `created_at` timestamp. */
  datatype Site = Site(
    id: string,
    title: string,
    url: string,
    description: string,
    category: string,
    status: SiteStatus,
    createdBy: Option<string>,
    authorName: Option<string>,
    authorEmail: Option<string>,
    createdAt: int)

  /** A row of `comments`. */
  datatype Comment = Comment(
    id: string,
    siteId: string,
    userId: string,
    authorName: string,
    content: string,
    rating: Rating,
    status: CommentStatus,
    createdAt: int)

  /** The four user-entered fields of a site. */
  datatype SiteFields = SiteFields(title: string, url: string, description: string, category: string)

  /** The object handed to `insert` on `sites`; the backend adds `id` and `created_at`. */
  datatype SiteInsert = SiteInsert(
    fields: SiteFields,
    status: SiteStatus,
    createdBy: Option<string>,
    authorName: Option<string>,
    authorEmail: Option<string>)

  /** The object handed to `insert` on `comments`. */
  datatype CommentInsert = CommentInsert(
    siteId: string,
    userId: string,
    authorName: string,
    content: string,
    rating: Rating,
    status: CommentStatus)

  /** A notification shown to the user (`toast({title, description, variant})`). */
  datatype Toast = Toast(title: string, description: string, destructive: bool)

  const EmptyFields := SiteFields("", "", "", "")
}
