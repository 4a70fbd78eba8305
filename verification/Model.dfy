/** The rows of the database, without the three cached columns
    (`User.karma`, `User.remaining_coins`, `upvotes_count`), which only a Session holds.

    Rows are never physically removed, so a row's id is its position in its table. The five tables
    of content share one sequence, in creation order; so do the four tables that move coins. */
module Model {
  import opened Basics

  type UserId = nat
  type SiteId = nat
  type ItemId = nat

  // ---- users and sites

  datatype ProfileField =
    | FullName | GithubUsername | TwitterUsername | LinkedinUrl | HomepageUrl
    | ZhihuUrl | AvatarUrl | GifAvatarUrl | PersonalIntroduction

  datatype Profile = Profile(
    filled: set<ProfileField>,
    workExperiences: nat,
    educationExperiences: nat,
    isSuperuser: bool,
    claimedWelcome: bool)

  datatype Site = Site(
    publicReadable: bool,
    publicWritableQuestion: bool,
    publicWritableSubmission: bool,
    publicWritableAnswer: bool,
    publicWritableComment: bool,
    addableMember: bool,
    createQuestionCost: int,
    createSubmissionCost: int,
    createSuggestionCost: int,
    upvoteAnswerCost: int,
    upvoteQuestionCost: int,
    upvoteSubmissionCost: int,
    moderator: UserId)

  // ---- content

  datatype Visibility = Anyone | Registered

  /** What an editor submits: the source text and, if the client made it, its rendering. */
  datatype Text = Text(source: string, editor: string, rendered: Option<string>)

  datatype Archive = Archive(title: string, body: string, editor: string, createdAt: int)

  datatype Status = Pending | Accepted | Rejected | Retracted

  datatype SuggestEdit = SuggestEdit(
    author: UserId,
    text: Text,
    status: Status,
    acceptedAt: Option<int>,
    rejectedAt: Option<int>,
    retractedAt: Option<int>,
    acceptedDiffBase: Option<Text>)

  datatype AnswerRow = AnswerRow(
    site: SiteId,
    question: ItemId,
    visibility: Visibility,
    isDeleted: bool,
    isHiddenByModerator: bool,
    isPublished: bool,
    body: string,
    rendered: string,
    editor: string,
    bodyDraft: Option<string>,
    updatedAt: int,
    archives: seq<Archive>,  // oldest first
    contributors: seq<UserId>,
    edits: seq<SuggestEdit>)

  datatype ArticleRow = ArticleRow(
    visibility: Visibility,
    isDeleted: bool,
    isPublished: bool,
    title: string,
    body: string,
    rendered: Option<string>,
    editor: string,
    titleDraft: Option<string>,
    bodyDraft: Option<string>,
    updatedAt: Option<int>,
    archives: seq<Archive>)  // oldest first

  datatype QuestionRow = QuestionRow(site: SiteId, isHidden: bool)

  datatype SubmissionRow = SubmissionRow(site: SiteId, isHidden: bool)

  /** Five nullable foreign keys say what a comment hangs on. */
  datatype CommentRow = CommentRow(
    site: Option<SiteId>,
    questionId: Option<ItemId>,
    submissionId: Option<ItemId>,
    answerId: Option<ItemId>,
    articleId: Option<ItemId>,
    parentCommentId: Option<ItemId>,
    isDeleted: bool,
    body: string,
    rendered: string,
    editor: string,
    shared: bool,
    updatedAt: int)

  datatype Item =
    | Answer(answer: AnswerRow)
    | Question(question: QuestionRow)
    | Article(article: ArticleRow)
    | Submission(submission: SubmissionRow)
    | Comment(comment: CommentRow)

  /** `votes` is the item's vote table, from voter to `cancelled`. */
  datatype Content = Content(author: UserId, votes: map<UserId, bool>, item: Item)

  const DELETED := "[DELETED]"

  predicate IsLiveAnswer(a: AnswerRow) {
    !a.isDeleted && !a.isHiddenByModerator && a.isPublished
  }

  predicate IsLiveArticle(a: ArticleRow) {
    !a.isDeleted && a.isPublished
  }

  function Active(votes: map<UserId, bool>): set<UserId> {
    set v | v in votes && !votes[v]
  }

  predicate HasActiveVote(c: Content, voter: UserId) {
    voter in c.votes && !c.votes[voter]
  }

  // ---- coins

  datatype Memo =
    | UpvoteOf(voter: UserId, item: ItemId)
    | ArticleCreation
    | SiteCreation
    | Invitation

  datatype RewardState = Open | Claimed | Refunded

  datatype Entry =
    | Payment(payer: UserId, payee: UserId, amount: int, memo: Memo)
    | Deposit(payee: UserId, amount: int)
    | Reward(giver: UserId, receiver: UserId, amount: int, expiresAt: int,
             condition: Option<ItemId>, state: RewardState)
    | Upload(uploader: UserId, sha: string)

  /** An award for a reward. No table records it: it is known only from the history. */
  datatype Payout = Payout(to: UserId, amount: int)

  // ---- the tables

  /** `payouts` is not a table but the history of awards that none of the tables shows. */
  datatype Rows = Rows(
    profiles: seq<Profile>,
    sites: seq<Site>,
    members: set<(UserId, SiteId)>,
    contents: seq<Content>,
    book: seq<Entry>,
    payouts: seq<Payout>)

  const EMPTY := Rows([], [], {}, [], [], [])
}
