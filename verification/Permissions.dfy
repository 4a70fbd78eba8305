/** Read and write gates. */
module Permissions {
  import opened Basics
  import opened Model

  datatype OperationType =
    | ReadSite | WriteSiteQuestion | WriteSiteComment | WriteSiteAnswer | AddSiteMember | WriteSiteSubmission

  predicate PublicFor(site: Site, op: OperationType) {
    match op
    case ReadSite => site.publicReadable
    case WriteSiteAnswer => site.publicWritableAnswer
    case WriteSiteSubmission => site.publicWritableSubmission
    case WriteSiteQuestion => site.publicWritableQuestion
    case WriteSiteComment => site.publicWritableComment
    case AddSiteMember => false
  }

  predicate UserInSite(rows: Rows, s: SiteId, user: Option<UserId>, op: OperationType) {
    s < |rows.sites| &&
    (PublicFor(rows.sites[s], op) ||
     (user.Some? && (user.value, s) in rows.members && (op.AddSiteMember? ==> rows.sites[s].addableMember)))
  }

  predicate AnswerReadAllowed(rows: Rows, author: UserId, a: AnswerRow, user: Option<UserId>) {
    !a.isDeleted &&
    (user == Some(author) ||
     (IsLiveAnswer(a) &&
      if user.None?
      then a.visibility == Anyone && a.site < |rows.sites| && rows.sites[a.site].publicReadable
      else UserInSite(rows, a.site, user, ReadSite)))
  }

  predicate CanReadAnswer(rows: Rows, author: UserId, a: AnswerRow, user: UserId) {
    !a.isDeleted && (user == author || (IsLiveAnswer(a) && UserInSite(rows, a.site, Some(user), ReadSite)))
  }

  predicate IsQuestion(rows: Rows, q: ItemId) {
    q < |rows.contents| && rows.contents[q].item.Question?
  }

  function SiteOfQuestion(rows: Rows, q: ItemId): SiteId
    requires IsQuestion(rows, q)
  {
    rows.contents[q].item.question.site
  }

  predicate QuestionPreviewable(rows: Rows, q: ItemId, user: UserId) {
    && IsQuestion(rows, q)
    && UserInSite(rows, SiteOfQuestion(rows, q), Some(user), ReadSite)
    && (rows.contents[q].item.question.isHidden ==> rows.contents[q].author == user)
  }

  /** The answer payload can be built for `user`: the read gate passes, a draft is shown to its
      author only, and the embedded question preview, a required field, exists. */
  predicate AnswerShaped(rows: Rows, author: UserId, a: AnswerRow, user: UserId) {
    && AnswerReadAllowed(rows, author, a, Some(user))
    && (a.isPublished || user == author)
    && QuestionPreviewable(rows, a.question, user)
  }
}
