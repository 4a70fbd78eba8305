# A verified model of chafan-core

chafan-core is the backend of a question-and-answer site. It stores three columns that summarise
other rows (`User.karma`, `User.remaining_coins`, and `upvotes_count` on every kind of content) and
moves them incrementally; it keeps an editing history with archives and suggested edits; it hangs
comments in a forest that recursive readers walk; and it leans on the request boundary to undo
whatever a failing request had already changed. This project models that behaviour in Dafny and
proves what is meant to hold of it in every reachable state.

The system is described twice, and the two descriptions are proved to agree.

* **The simple machine** (`Model`, `Requests`, with the per-item machines `AnswerLife`, `ArticleLife`,
  `ItemLife`, the comment update `CommentUpdate` and the book of coins `Money`) has rows and nothing
  else. A request is refused without a trace, or is one change to one row and at most one line of the
  book or one award. Karma, balances and counts are not stored: whoever needs one recomputes it
  (`Karma`, `Money`).
  What each request does is stated a second time, in numbers and in the request's own words, and without
  the functions that carry it out: who gets in (`AccessLaws`), what it changes (`EditLaws`, `VoteLaws`),
  whose coins move (`CoinLaws`) and whose karma (`KarmaLaws`).
* **The program** (`Database.Session`, `Services`, `Boundary`) is imperative, step by step as the
  source has it: it stores and updates the three columns, writes rows one assignment at a time, may
  give up half way, and commits or rolls back.

`Boundary.Serve` closes the gap: after any sequence of requests, the stored rows are those of the
simple machine and each stored column equals its recomputation from scratch; for coins the
recomputation needs the history of awards for rewards, which no table keeps, unless there were none.
Every law of whole runs (`Runs`, `Ledger`, `Rewards`, `Forest`) is proved of the simple machine and
so holds of the program.

Separate modules model the recommendation code (`Similarity`, `Fanout`, `Contributions`, `Ranking`
over `Sorting`) and two concurrent protocols (`Uploads`, `BotLinks`).

## What the proofs found

* **A reward is never closed.** Claiming and refunding set a time on the reward, award the coins and
  refresh the reward. The session does not flush by itself (`db/session.py:13`) and nothing flushes
  in between, so the refresh discards the time while the award is committed. Whatever passes the guard
  of a claim or refund passes it again and is paid again (`Rewards.EveryRepeatPays`, example
  `Rewards.ClaimedTwiceIsPaidTwice`). Balances are the fold of the stored rows, and the stored rows
  conserve coins, if and only if no claim and no refund ever passed its guard
  (`Rewards.BalancesFoldExactly`); in general the awards come on top (`Ledger.ConservationOfRun`).
  Were the time stored, the books would balance (`Columns.ClosedInStep`).
* **Site creation can overdraw.** The coin gate of `create_site_for_user` is skipped for
  superusers, but the charge is not. Balances stay non-negative over a run if and only if no
  superuser other than the one who is paid creates a site with fewer than ten coins
  (`Ledger.NeverNegativeExactly`, example `Ledger.SecondSuperuserGoesNegative`). With at most one
  superuser the guarantee is unconditional (`Ledger.NonNegativeRun`). No endpoint makes a second
  superuser: signing up never sets the flag, so that account comes from the operators, as the first
  one does in `db/init_db.py`; the model's `SignUp` covers both.
* **An empty uuid makes an unreachable comment.** `create_comment` counts parents that are not
  `None`, the crud layer tests truthiness, so `""` passes the count and sets no key. Every comment
  has a route if and only if no accepted comment did that (`Forest.EveryCommentHasARoute`, example
  `Forest.BlankUuidLosesTheRoute`).
* **Deleting an article leaves its text readable.** Deletion overwrites `body`, `body_draft` and the
  bodies of the archives. It does not touch `body_text` (the rendered text), `title`, `title_draft` or
  the titles of the archives, and the read gate of the full article does not test `is_deleted`, so a
  published article goes on showing title and rendered text to everyone
  (`Runs.DeletedArticleIsServed`, example `ArticleLife.DeletedArticleStillShown`). Nor does the update
  path test `is_deleted`, so the author can publish again (`ArticleLife.DeletedTextCanReturn`). In
  every later state the overwritten columns are clear if and only if no other text was published
  since; the rendered text is that of the last publication, before the deletion or after; all text is
  gone if and only if both come out empty. Only the zero karma is certain
  (`Runs.ArticleAfterDeletion`).
* **A moderator can hide only answers of their own.** After hiding, the payload of the answer is
  built for the moderator, who may no longer read it; the endpoint declares a payload that is never
  absent, so the request is rolled back. A request changes an answer's hidden flag if and only if the
  answer's author moderates the site and makes it (`Runs.HidingIsForOwnAnswers`, example
  `Runs.ModeratorIsRefused`).
* **Editing a comment stores no text.** The loop that sets fields skips names that are not attributes
  of the row, and `content` is none. Whatever a request carries, the loop sets the sharing flag and
  the time (`CommentUpdate.RequestStoresNoText`, example `CommentUpdate.NewTextIsDropped`); such a
  request is accepted (`Runs.AcceptedUpdateDropsText`), and a comment keeps its text over every run
  until deletion (`Runs.CommentKeepsItsText`). A field named after the column would be stored
  (`CommentUpdate.BodyIsSetByItsColumn`).
* **A text without its rendering cannot be published as an answer or comment.** The rendering is
  optional in the schema and `NOT NULL` in the tables, so such requests fail at the flush; in
  particular a suggestion without one is never accepted (`AnswerLife.StampsStayRight`).
* The comment in `rules.py` counts ten profile fields; `karma.py` lists nine, and nine are modelled.

## Model

| member | source | states |
|---|---|---|
| Boundary.Serve | chafan_core/app/api/deps.py:64-76 | Serving any sequence of requests leaves exactly the rows of the simple machine, with karma (worth what `KarmaLaws` says), coins and upvote counts equal to a recomputation from scratch that counts in the awards for rewards; without the awards the coins agree if and only if no claim or refund ever passed its guard |
| Boundary.Handle | chafan_core/app/api/deps.py:79-90 | One request either commits its whole planned step or leaves the database exactly as it was; nothing is pending afterwards |
| Boundary.Dispatch | chafan_core/app/karma.py:20-22 | Whatever the request, success happens exactly when the simple machine has a plan for it, and then the rows are the planned ones, karma and counts are in step with them and coins with them and the awards made |
| Karma.ComputeKarmaInOnePass | chafan_core/app/karma.py:140-155 | The table-by-table recomputation counts every item of the user exactly once, whatever its kind |
| Karma.EarnedUpdate | chafan_core/app/karma.py:115-126 | Changing one item changes each user's sum by that user's change of share, and by nothing else |
| KarmaLaws.VoteMovesKarma | chafan_core/app/karma.py:78-97 | Whatever is requested, a vote that newly stands on an item adds to its author's karma 10 points on a live answer, visible question or live article, 2 on a visible submission and 0 on a comment or anything not live; a vote that ceases to stand takes the same away; nobody else's karma moves |
| KarmaLaws.CreationMovesKarma | chafan_core/app/karma.py:129-131 | A new answer, question, article, submission or comment is worth 10, 5, 5, 1 or 2 points to its author, an unpublished answer or article none |
| KarmaLaws.WithdrawalMovesKarma | chafan_core/app/karma.py:115-126 | Hiding or deleting an item with n standing votes takes exactly its creation points and n times its vote points from its author; publishing one gives them |
| KarmaLaws.KarmaRests | chafan_core/app/karma.py:115-126 | A user whose profile, items and their standing votes stay as they are keeps the same karma |
| KarmaLaws.ProfileMovesKarma | chafan_core/app/karma.py:63-70 | A filled field is worth 2 points, and so is each of the first five entries of work experience and of education; nobody else's karma moves |
| KarmaLaws.NewcomerKarma | chafan_core/app/crud/crud_user.py:100-125 | A newcomer has 2 points for a name given at sign-up, else none |
| Columns.NoDrift | chafan_core/app/karma.py:20-22 | Columns kept in step are exactly the recomputed ones |
| Columns.TrackedInStep | chafan_core/app/karma.py:115-126 | Moving the author by the difference of contributions keeps every user's karma equal to the recomputation |
| Columns.RecordedInStep | chafan_core/app/karma.py:129-131 | So does crediting a new item's contribution to its author |
| Columns.NewUserInStep | chafan_core/app/crud/crud_user.py:100-125 | A new user starts with the karma of the profile and no coins, and that is what recomputation gives |
| Columns.EditedUserInStep | chafan_core/app/services/me.py:104-121 | A tracked profile edit keeps karma in step |
| Columns.BookedInStep | chafan_core/app/coins.py:22-31 | Moving balances by what a new line means keeps each balance equal to the fold of the book plus the awards made |
| Columns.AwardedInStep | chafan_core/app/services/rewards.py:135-138 | An award that leaves the reward's row alone keeps every balance equal to the fold of the book plus the awards made |
| Columns.ClosedInStep | chafan_core/app/services/rewards.py:135-138 | Were the closing stored, the same award would keep balances equal to the fold of the book with nothing left to history |
| Columns.UntrackedInStep | chafan_core/app/karma.py:115-126 | A rewriting that is not tracked keeps karma in step if and only if it leaves the item's contribution as it was |
| CommentUpdate.RequestStoresNoText | chafan_core/app/services/comments.py:128-134 | For every request the loop sets the sharing flag and the time and nothing else |
| CommentUpdate.NewTextIsDropped | chafan_core/app/crud/crud_comment.py:141-154 | A request with new content leaves the old body; the same text under the column's name would be stored |
| CommentUpdate.BodyIsSetByItsColumn | chafan_core/app/crud/crud_comment.py:148-150 | The loop changes the body only by fields named after the column, the last one winning |
| Ledger.WelcomedOnce | chafan_core/app/services/welcome_test.py:20-59 | In every reachable state a user has received exactly one deposit if the flag is set, and none otherwise |
| Runs.OnlyModeratorHandsOver | chafan_core/app/services/sites.py:229-257 | A request changes who moderates a site if and only if the moderator hands it to another existing user |
| Runs.ModeratorsInReach | chafan_core/app/services/sites.py:229-257 | In every reachable state every site is moderated by an existing user |
| Requests.PlanOf | chafan_core/app/api/deps.py:64-76 | Every accepted request's change fits the state: edits fit their item's machine, new items refer to older items of the same site, no second undeleted answer, awards go to a party of an open reward |
| CoinLaws.VoteMovesCoins | chafan_core/app/services/answers.py:407-461 | A first vote moves exactly the site's price for that kind, 2 for an article, from the voter to the author and nobody else's coins; a vote revived, repeated or refused, and any vote on a comment, moves none; to stand, a vote needs another's item and a purse that covers the price |
| CoinLaws.ArticleMovesCoins | chafan_core/app/services/articles.py:206-269 | An article costs its author 2, paid to the first superuser |
| CoinLaws.SiteMovesCoins | chafan_core/app/services/sites.py:151-226 | A site costs its creator 10, paid to the first superuser |
| CoinLaws.InvitationMovesCoins | chafan_core/app/services/accounts.py:94-125 | An invitation moves 5 from the first superuser to the inviter exactly when fewer than ten were sent and the superuser has 5 |
| CoinLaws.WelcomeMovesCoins | chafan_core/app/services/welcome_test.py:20-59 | A passed test adds its score exactly when the user is eligible and has not claimed, and that sets the flag |
| CoinLaws.UploadMovesCoins | chafan_core/app/services/uploads.py:48-96 | A picture costs its uploader 2 exactly when its digest is not stored yet |
| CoinLaws.OfferMovesCoins | chafan_core/app/services/rewards.py:37-83 | An offer takes the amount from the giver and records an open reward running for that many days |
| CoinLaws.ClaimMovesCoins | chafan_core/app/services/rewards.py:86-155 | A claim pays the receiver of an open, unexpired reward whose condition is met; any other claim, one after the expiry included, leaves all rows alone |
| CoinLaws.RefundMovesCoins | chafan_core/app/services/rewards.py:158-187 | A refund pays the giver of an open reward; any other leaves all rows alone |
| CoinLaws.NothingElseMovesCoins | chafan_core/app/coins.py:22-31 | No other request moves anyone's coins or writes a line of the book |
| VoteLaws.VotesAreOnesOwn | chafan_core/app/crud/crud_answer.py:74-107 | Whatever is requested, the votes on an item change only by the voter's own upvote or cancellation, in that voter's row only |
| AccessLaws.WhoVotes | chafan_core/app/services/answers.py:386-470 | A vote not standing yet comes to stand exactly when the voter is not the author, may read the site and, comments apart, has the price |
| AccessLaws.WhoCancels | chafan_core/app/services/answers.py:473-510 | A standing vote ceases to stand exactly when the voter may read the site |
| EditLaws.UpdateAnswerStep | chafan_core/app/services/answers.py:308-350 | A draft with content sets `body_draft` to it and leaves body, rendering, editor, archives, flag, time and published log; anything else publishes the text sent or the standing one, archives the replaced text, clears the draft and extends the log by that text; both take the request's visibility and touch nothing else |
| AccessLaws.WhoUpdatesAnswers | chafan_core/app/services/answers.py:261-305 | An update is accepted exactly from the author of an undeleted answer with write and read access to its question and a text that can be stored |
| EditLaws.UpdateArticleStep | chafan_core/app/services/articles.py:302-341 | The same draft-or-publish law for an article |
| AccessLaws.WhoUpdatesArticles | chafan_core/app/services/articles.py:272-301 | An article is updated exactly by its author |
| EditLaws.WhoDecidesSuggestions | chafan_core/app/services/answer_suggest_edits.py:113-192 | Whatever is requested, a suggestion becomes accepted or rejected only by the answer's author naming it, retracted or pending again only by its own author |
| EditLaws.EntitledRequestsSucceed | chafan_core/app/services/answer_suggest_edits.py:82-205 | Whoever is entitled, may write in the site and can be shown the answer gets the status asked for, and acceptance publishes the suggested text |
| EditLaws.SuggestStep | chafan_core/app/services/answer_suggest_edits.py:24-61 | A new suggestion is pending, the requester's, with the text sent, and nothing else changes |
| AccessLaws.WhoSuggests | chafan_core/app/services/answer_suggest_edits.py:24-61 | Exactly who may suggest: write access, the price held, a text, and an answer without a draft that can be shown |
| EditLaws.ModerateStep | chafan_core/app/services/answers.py:353-383 | A moderator's update sets the hidden flag to what it says and nothing else |
| EditLaws.UpdateCommentStep | chafan_core/app/services/comments.py:102-136 | An update of a comment sets the time and the sharing flag and nothing else |
| EditLaws.WhoWithdraws | chafan_core/app/services/answers.py:51-61 | Whatever is requested, an item is deleted only by its author asking for it, a question or submission hidden only by its author or the moderator, and neither is ever undone |
| EditLaws.DeleteStep | chafan_core/app/crud/crud_answer.py:148-157 | The author's deletion is always carried out: these columns read "[DELETED]", all others and all other rows stay |
| EditLaws.HideStep | chafan_core/app/services/questions.py:307-320 | Hiding sets the flag of that item and nothing else |
| AccessLaws.WhoHides | chafan_core/app/services/questions.py:307-320 | Exactly who may hide: the moderator or the author, for a question with read access |
| EditLaws.DeleteDraftStep | chafan_core/app/services/answers.py:141-170 | Dropping a draft clears it, touches nothing else and is the author's alone |
| EditLaws.CreateAnswerStep | chafan_core/app/crud/crud_answer.py:43-71 | A new answer is the requester's, with body, rendering, editor, visibility and published flag of the request, in the question's site |
| EditLaws.CreateArticleStep | chafan_core/app/crud/crud_article.py:29-59 | A new article carries title, text, visibility and published flag of the request |
| EditLaws.CreateCommentStep | chafan_core/app/crud/crud_comment.py:27-95 | A new comment carries the text sent and hangs on exactly what the request names |
| EditLaws.CreateQuestionStep | chafan_core/app/crud/crud_question.py:34-55 | A new question is visible, in the site named, and the only change |
| EditLaws.CreateSubmissionStep | chafan_core/app/crud/crud_submission.py:30-50 | The same for a submission |
| AccessLaws.WhoAnswers | chafan_core/app/services/answers.py:210-258 | Exactly who may answer: write and read access to a visible question, a rendered text and no undeleted answer of one's own |
| AccessLaws.WhoComments | chafan_core/app/services/comments.py:63-99 | Exactly who may comment: one uuid, naming an item of its kind in a site open to the requester's comments or nothing at all |
| AccessLaws.WhoEditsComments | chafan_core/app/services/comments.py:102-136 | Exactly who may edit a comment: its author with write and read access |
| AccessLaws.WhoAsks | chafan_core/app/services/questions.py:170-206 | Exactly who may ask: write and read access and the price held |
| AccessLaws.WhoSubmits | chafan_core/app/services/submissions.py:186-230 | The same for submitting |
| AccessLaws.WhoWritesArticles | chafan_core/app/services/articles.py:206-269 | Exactly who may write an article: the owner of the column with 2 coins, given a superuser to pay |
| AccessLaws.WhoMakesSites | chafan_core/app/services/sites.py:151-226 | Exactly who may make a site: for a free name, superusers, and for public ones whoever has 100 karma and 10 coins |
| AccessLaws.CreateSiteStep | chafan_core/app/crud/crud_site.py:73-99 | A new site has its creator as moderator and member, the default prices, and all of its public flags as asked |
| AccessLaws.WhoOffers | chafan_core/app/services/rewards.py:37-83 | Exactly who may offer a reward to whom |
| AccessLaws.WhoUploads | chafan_core/app/services/uploads.py:48-96 | Exactly who may upload: with 100 karma for a figure, and 2 coins unless the digest is stored |
| AccessLaws.HandOverStep | chafan_core/app/services/sites.py:229-257 | Handing a site over changes its moderator and nothing else |
| AccessLaws.ProfileSteps | chafan_core/app/crud/crud_user.py:100-145 | What a newcomer's profile holds, and that an edit sets the profile's fields and no flag |
| AccessLaws.MembershipStep | chafan_core/app/services/sites.py:47-70 | Joining and leaving change that one membership |
| ItemLife.EditKeepsIdentity | chafan_core/app/crud/crud_answer.py:123-145 | No edit changes an item's author, kind, site or parent |
| ItemLife.EditMovesCount | chafan_core/app/crud/crud_answer.py:74-107 | The number of standing votes moves by one exactly for a cast or cancelled vote |
| ItemLife.LastActionDecides | chafan_core/app/karma.py:78-97 | Count and contribution depend only on the set of voters whose last action was an upvote, for any sequences with repeats and no-ops |
| ItemLife.CommentTextOfRun | chafan_core/app/crud/crud_comment.py:141-154 | Over any run of edits, updates with new content included, source, rendering and editor of a comment stay as posted until deletion replaces the first two |
| AnswerLife.LogStep | chafan_core/app/services/answers.py:308-350 | Publishing extends the log of published texts by exactly the new body; a draft leaves it alone |
| AnswerLife.LogOfRun | chafan_core/app/services/answers.py:322-347 | Over any run without deletion the log grows by exactly what was published |
| AnswerLife.PublishedForGood | chafan_core/app/crud/crud_answer.py:142-145 | Publication never reverts |
| AnswerLife.ArchivesStayChronological | chafan_core/app/services/answers.py:322-333 | With publication times that do not go back, archives stay in order, none later than the current text |
| AnswerLife.GoneForGood | chafan_core/app/crud/crud_answer.py:148-157 | After a deletion body, rendered text and archives read "[DELETED]", and so does the draft unless it is dropped, whatever fitting edits follow |
| AnswerLife.SuggestionStep | chafan_core/app/services/answer_suggest_edits.py:113-192 | Each edit moves a suggestion at most one legal step; an accepted one is frozen |
| AnswerLife.AcceptedIsAbsorbing | chafan_core/app/services/answer_suggest_edits.py:113-192 | Over runs, accepted is absorbing and no suggestion is dropped, reworded or reattributed |
| AnswerLife.StampsStayRight | chafan_core/app/services/answer_suggest_edits.py:122-192 | `accepted_at` is set iff accepted, `retracted_at` iff retracted, rejected implies `rejected_at`, and only a suggestion with a rendering is accepted |
| AnswerLife.AcceptPublishes | chafan_core/app/services/answer_suggest_edits.py:122-164 | The suggested body becomes the body, `accepted_diff_base` the replaced body when there was one, and that is the newest archive if the answer was published |
| AnswerLife.ContributorsAreAcceptedAuthors | chafan_core/app/services/answer_suggest_edits.py:133-139 | The contributor list is duplicate-free and names exactly the authors of accepted suggestions |
| ArticleLife.LogOfRun | chafan_core/app/services/articles.py:302-341 | An article's log of titles and texts grows by exactly what was published |
| ArticleLife.ArchivesStayChronological | chafan_core/app/services/articles.py:302-341 | Archives stay in order, and the assertion that a published article has a time never fails |
| ArticleLife.BodiesGoneUntilPublished | chafan_core/app/services/articles.py:272-341 | The columns that deletion overwrites, body and archive bodies, stay clear if and only if no other text is published after the last deletion |
| ArticleLife.DeletionKeepsRendering | chafan_core/app/crud/crud_article.py:121-129 | Over any run, deletions included, title and rendered text are those of the last publication and archive titles survive |
| ArticleLife.TextGoneExactly | chafan_core/app/crud/crud_article.py:121-129 | After a deletion all text, rendered text included, is gone if and only if no other text is published since and the last publication came without a rendering |
| ArticleLife.ReadersSeeThePublished | chafan_core/app/responders/article.py:31-74 | Nobody but the author is shown a draft, a draft of a published article changes nothing shown, and publishing shows the text |
| ArticleLife.DeletedArticleStillShown | chafan_core/app/responders/article.py:31-74 | Publishing with a rendering and then deleting leaves title and rendering in the payload for anyone |
| ArticleLife.DeletedTextCanReturn | chafan_core/app/services/articles.py:272-341 | Deleting and then publishing shows source text on a deleted article |
| Runs.EveryItemReplays | chafan_core/app/api/deps.py:64-76 | Every item of every reachable state is a newly born row with fitting edits replayed on it |
| Runs.AnswerLogIsAppendOnly | chafan_core/app/services/answers.py:308-350 | In any run of requests without deleting the answer, its published log grows by exactly the published texts and publication is never taken back |
| Runs.ArticleLogIsAppendOnly | chafan_core/app/services/articles.py:302-341 | The same for articles |
| Runs.ArchivesInOrder | chafan_core/app/services/answers.py:322-333 | Under a monotone clock, archives of all answers and articles of every reachable state are in time order |
| Runs.SuggestionsAlwaysInOrder | chafan_core/app/services/answer_suggest_edits.py:113-192 | In every reachable state all suggestions are stamped as their status says and contributors are exactly the accepted authors |
| Runs.SuggestionsNeverUndone | chafan_core/app/services/answer_suggest_edits.py:113-192 | From any state on, an accepted suggestion never changes again |
| Runs.DeletionIsTerminal | chafan_core/app/crud/crud_answer.py:148-157 | After its author deletes an answer, body, rendered text and archives read "[DELETED]", no other draft is kept, and it contributes 0 in every later state, whatever is requested and however votes move |
| Runs.DeletedAnswersRefuse | chafan_core/app/user_permission.py:99-119 | Every later author update, moderator update or suggestion change aborts and leaves no trace |
| Runs.ArticleAfterDeletion | chafan_core/app/services/articles.py:131-143 | In every state after its deletion an article contributes 0; body and archive bodies are clear if and only if no other text was published since; title and rendered text are those of the last publication; all text is gone if and only if both conditions hold |
| Runs.DeletedArticleIsServed | chafan_core/app/user_permission.py:53-63 | Deleting a published article that anyone may read leaves its title and rendered text in the payload |
| Runs.CommentKeepsItsText | chafan_core/app/crud/crud_comment.py:141-154 | From any state on, whatever is requested, a comment keeps source, rendering and editor until it is deleted |
| Runs.AcceptedUpdateDropsText | chafan_core/app/services/comments.py:102-136 | A request for other text is accepted and changes nothing but the time |
| Runs.HidingIsForOwnAnswers | chafan_core/app/services/answers.py:353-383 | A request turns an answer's hidden flag around if and only if the answer's author moderates the site and makes it |
| Runs.ModeratorIsRefused | chafan_core/app/api/api_v1/endpoints/answers.py:160-172 | A moderator who can read someone else's answer is refused when hiding it, and nothing changes |
| Runs.ModeratorsCannotHide | chafan_core/app/user_permission.py:99-119 | Over any run in which others than the author moderate the site, an answer is neither hidden nor shown again |
| Runs.OneAnswerInReach | chafan_core/app/services/answers.py:210-258 | In every reachable state each user has at most one undeleted answer per question |
| Runs.VotesAreLastActions | chafan_core/app/crud/crud_answer.py:74-107 | In every reachable state the standing votes of an item are those whose last action was an upvote, and its author has none |
| Money.BalanceSettle | chafan_core/app/models/reward.py:17-18 | What a stored closing of a reward would mean for the fold: its amount goes to one party and nobody else |
| Money.CoinsAreConserved | chafan_core/app/crud/crud_coin_payment.py:16-33 | All balances folded from a book together are its deposits, less open rewards, less the price of each distinct picture; payments add nothing, self-payments included |
| Money.PursesAreConserved | chafan_core/app/coins.py:22-31 | What everyone holds exceeds that by exactly the awards made for rewards |
| Ledger.ConservationOfRun | chafan_core/app/coins.py:22-31 | In every reachable state what everyone holds is the deposits, less open rewards, less the price of each distinct picture, plus the awards made for rewards |
| Rewards.BalancesFoldExactly | chafan_core/app/services/rewards.py:86-187 | In every reachable state all balances are the fold of the stored rows, and coins are conserved by the stored rows, if and only if no claim or refund ever passed its guard |
| Rewards.RewardsStayOpen | chafan_core/app/services/rewards.py:135-138 | Over every run no reward is ever stored as claimed or refunded |
| Rewards.EveryRepeatPays | chafan_core/app/services/rewards.py:86-187 | A claim or refund that passes its guard passes it any number of times and pays every time |
| Rewards.ClaimedTwiceIsPaidTwice | chafan_core/app/services/rewards.py:135-138 | With five coins in the system, claiming a reward of five twice leaves its receiver with ten and the reward open |
| Ledger.PaidOnce | chafan_core/app/services/answers.py:395-461 | In every reachable state each voter with a vote row on an item has paid for it exactly once, and an item's upvote payments are as many as its vote rows, cancelled or not |
| Ledger.GatedCharges | chafan_core/app/services/answers.py:407-448 | Whoever is charged could afford it, with one branch excepted, exactly |
| Ledger.NonNegativeStep | chafan_core/app/services/sites.py:151-226 | One request keeps all balances non-negative if and only if it is not a superuser's uncovered site creation |
| Ledger.NeverNegativeExactly | chafan_core/app/services/sites.py:151-226 | The same equivalence over whole runs |
| Ledger.NonNegativeRun | chafan_core/app/crud/crud_user.py:165-177 | With at most one superuser no run takes a balance below zero |
| Ledger.SecondSuperuserGoesNegative | chafan_core/app/services/sites.py:151-226 | Two superusers and one site creation give a balance of -10 |
| Forest.WellGrownRun | chafan_core/app/crud/crud_comment.py:27-95 | In every reachable state everything an item hangs on is older and in the same site |
| Forest.ParentIsOlder | chafan_core/app/crud/crud_comment.py:67-89 | A reply's parent is a strictly older comment of the same site |
| Forest.ThreadsAgree | chafan_core/app/responders/comment.py:13-26 | A whole thread shares its root's site and route; there is no route exactly when the root hangs on nothing |
| Forest.RouteNamesTheParent | chafan_core/app/responders/comment.py:13-26 | The route of a comment at any depth, read off the keys of its thread's root: question, article or submission q exactly when that key is q, and answer a of question q exactly when the answer key is a and q is its question |
| Forest.OrphanStep | chafan_core/app/services/comments.py:79-96 | A comment hanging on nothing is made exactly by an accepted comment whose one parent uuid is empty |
| Forest.EveryCommentHasARoute | chafan_core/app/responders/comment.py:13-26 | In every reachable state threads agree with their roots, and every comment has a route if and only if no such comment was ever made |
| Forest.BlankUuidLosesTheRoute | chafan_core/app/services/comments.py:79-89 | One empty uuid stores a comment without a route |
| Forest.ShapeKeepsTheThread | chafan_core/app/responders/comment.py:29-66 | A visible comment is shown with every reply at every depth, each exactly once, and nothing else |
| Forest.ShapeCarriesTheRoute | chafan_core/app/responders/comment.py:29-66 | Every comment shown in a thread carries the route of the thread's root |
| Similarity.ComputeSimilarityMatrix | chafan_core/app/recs/matrices.py:22-46 | An entry for exactly the rows that have keywords, each the head of the full ranking |
| Similarity.FullRankingIsRight | chafan_core/app/recs/matrices.py:36-45 | The full ranking names every other entity exactly once, by overlap, ties in input order |
| Similarity.OverlapCounts | chafan_core/app/recs/matrices.py:36-41 | The overlap of two rows is the number of keywords occurring in both, repetitions not counted |
| Similarity.EntryKeepsTheBest | chafan_core/app/recs/matrices.py:44-45 | An entry has exactly min(50, n-1) distinct other entities and leaves out none with a larger overlap |
| Similarity.TopKIsHeadOfRanking | chafan_core/app/recs/matrices.py:107-118 | For up to fifty, the answer is the head of the untruncated ranking |
| Fanout.Follows.AddFollower | chafan_core/app/crud/crud_user.py:186-191 | Adds exactly one pair to the follow relation and keeps lists duplicate-free |
| Fanout.Follows.RemoveFollower | chafan_core/app/crud/crud_user.py:194-200 | Removes exactly one pair |
| Fanout.ComputeFanout | chafan_core/app/recs/matrices.py:49-58 | One counter per user, counting everyone met on the walk but the user |
| Fanout.FanoutCountsFriends | chafan_core/app/recs/matrices.py:49-58 | An entry (u, v) is the number of users whom u follows and who follow v; there is one exactly when that is not zero and v is not u |
| Contributions.ComputeUserContributions | chafan_core/app/recs/matrices.py:61-104 | Every year from the latest down to the earliest with an action, 364 cells each, each the capped weight of its day's actions; nothing for no actions |
| Contributions.CellIsLitByActions | chafan_core/app/recs/matrices.py:88-101 | A cell is in 0..3 and not zero exactly when some action falls on its day |
| Contributions.HitsOfLog | chafan_core/app/recs/matrices.py:64-83 | Each list counts as its own kind: as many hits as the list has actions on the clamped day |
| Contributions.OneKindLights | chafan_core/app/recs/matrices.py:88-101 | What n actions of one kind light: answers or articles 2 up to two and 3 beyond, questions n, submissions half of n rounded down but at least 1, all capped at 3 |
| Contributions.KindsAddUp | chafan_core/app/recs/matrices.py:88-101 | Different kinds on one day add up, capped at 3 |
| Contributions.EveryActionIsShown | chafan_core/app/recs/matrices.py:64-83 | Every action lights the cell of its year and clamped day |
| Contributions.OrderDoesNotMatter | chafan_core/app/recs/matrices.py:61-104 | Reordering the actions leaves the calendar as it is |
| Sorting.SortRanks | chafan_core/app/recs/ranking.py:66-66 | The sort orders by key, largest first, ties in input order |
| Sorting.SortPermutes | chafan_core/app/recs/ranking.py:66-66 | The sort permutes its input |
| Ranking.FreshnessBounds | chafan_core/app/recs/ranking.py:29-32 | Freshness lies in (1/2, 1] for every non-negative age and boost |
| Ranking.OwnAnswerRanksFirst | chafan_core/app/recs/ranking.py:50-66 | The ranking is a stable sorted permutation in which the viewer's own answer precedes any other with at most 249 upvotes |
| Ranking.LimitIsSharp | chafan_core/app/recs/ranking.py:50-66 | At 250 upvotes that no longer holds |
| Uploads.KeysAreTruncations | chafan_core/app/crud/crud_upload.py:37-46 | A lock key is below 2^60, and two digests share one exactly when they share fifteen digits |
| Uploads.HexValueOrdered | chafan_core/app/crud/crud_upload.py:37-46 | Keys are ordered as the digit strings are, most significant digit first |
| Uploads.UploadsAreAtomic | chafan_core/app/crud/crud_upload.py:49-65 | Under any interleaving each upload takes effect as if it ran alone at its commit, charged exactly when its own digest is new |
| Uploads.UploadsAsArrived | chafan_core/app/services/uploads.py:48-70 | Each upload runs for the user and the bytes it arrived with |
| Uploads.ChargedExactlyOnce | chafan_core/app/services/uploads.py:71-95 | Under any interleaving each distinct stored digest has been charged exactly once |
| Uploads.SomeoneCanGoOn | chafan_core/app/crud/crud_upload.py:37-46 | Waiting for a lock never deadlocks: while an upload is unfinished some upload can go on |
| Uploads.StepsMakeProgress | chafan_core/app/services/uploads.py:71-95 | Every step leaves less to do, so uploads end |
| Uploads.UnlockedUploadsPayTwice | chafan_core/app/crud/crud_upload.py:49-65 | Without the lock two uploads of the same new bytes are both charged |
| BotLinks.FormatRoundTrip | chafan_core/app/services/bot_links.py:46-58 | Normalising a displayed code gives the code back, for every length and whatever the character tables say outside ASCII |
| BotLinks.CodeAsShown | chafan_core/app/services/bot_links.py:55-58 | An eight-character code is displayed with a dash after its first four characters |
| BotLinks.NormalizeReadsTyping | chafan_core/app/services/bot_links.py:46-52 | For ASCII text, normalising gives a code exactly for the ways of typing it: any case, any other characters strewn in |
| BotLinks.BotForSecret | chafan_core/app/services/bot_links.py:78-88 | Compares every secret and names a bot exactly when one matches |
| BotLinks.LastMatchWins | chafan_core/app/services/bot_links.py:78-88 | Of several bots with that secret the last is named |
| BotLinks.CodeStore.GenerateLinkCode | chafan_core/app/services/bot_links.py:61-75 | Parks the user under the code, replacing an earlier issuance, and shows something that reads back as the code |
| BotLinks.CodeStore.ClaimLink | chafan_core/app/services/bot_links.py:91-130 | Yields a token exactly when the history says one is due, to that user and that bot, and spends the code either way |
| BotLinks.ParkedIsStanding | chafan_core/app/services/bot_links.py:61-75 | What is parked under a code is what its latest issuance left, unless claimed since |
| BotLinks.OneTokenPerIssue | chafan_core/app/services/bot_links.py:102-114 | One issuance never yields two tokens |
| BotLinks.OnlyLatestIssue | chafan_core/app/services/bot_links.py:102-114 | A claim can only redeem the latest issuance of its code |
| Database.Session.Rollback | chafan_core/app/infra/request_context.py:182-185 | The session shows the stored state again, whatever a failed request had done |
| Database.Session.Close | chafan_core/app/infra/request_context.py:187-193 | Closing undoes what was not committed and never touches the database |
| Database.Session.Create | chafan_core/app/karma.py:129-131 | A new item is appended under the next id and all columns stay in step |
| Database.Session.CastVote | chafan_core/app/crud/crud_answer.py:74-91 | Inserts or revives the voter's row, changes no other row, and keeps count and karma in step, for every kind of content |
| Database.Session.CancelVote | chafan_core/app/crud/crud_answer.py:94-107 | Cancels a standing row only; the counter never goes below zero and stays the number of standing rows |
| Database.Session.Update | chafan_core/app/crud/crud_answer.py:123-145 | Any rewriting of an item's fields through the tracked update keeps karma in step |
| Database.Session.UpdateComment | chafan_core/app/crud/crud_comment.py:141-154 | The field-setting loop leaves the row as setting the fields that are attributes, in order, would, and, since `is_deleted` is not among them, keeps karma in step although it is untracked |
| Database.Session.DeleteAnswer | chafan_core/app/crud/crud_answer.py:148-157 | Body, rendered text, draft and every archive body read "[DELETED]" and the author loses the contribution |
| Database.Session.DeleteArticle | chafan_core/app/crud/crud_article.py:121-129 | Body, draft and every archive body read "[DELETED]", rendered text and titles stay, and the author loses the contribution |
| Database.Session.DeleteComment | chafan_core/app/crud/crud_comment.py:98-104 | Body and rendered text read "[DELETED]" and the author loses the contribution |
| Database.Session.MakePayment | chafan_core/app/crud/crud_coin_payment.py:16-33 | Payer and payee move by the amount, one row is added, and payer may be payee |
| Database.Session.MakeDeposit | chafan_core/app/crud/crud_coin_deposit.py:16-32 | The payee gains the amount and one row is added |
| Database.Session.CreateReward | chafan_core/app/crud/crud_reward.py:16-40 | The amount leaves the giver at once and is held in an open reward |
| Database.Session.PayReward | chafan_core/app/services/rewards.py:135-138 | Setting the closing, awarding and refreshing without a flush pays the party and leaves every stored row, the open reward included, as it was |
| Database.Session.RecordUpload | chafan_core/app/services/uploads.py:71-95 | A row is added in both cases, a charge made only for new content |
| Services.UpvoteAnswer | chafan_core/app/services/answers.py:386-470 | Refuses, ignores or casts the vote as the plan says, the author being paid by the voter once (`CoinLaws.VoteMovesCoins`, `AccessLaws.WhoVotes`) |
| Services.UpvoteQuestion | chafan_core/app/services/questions.py:362-433 | The same for a question |
| Services.UpvoteSubmission | chafan_core/app/services/submissions.py:358-439 | The same for a submission |
| Services.UpvoteArticle | chafan_core/app/services/articles.py:395-469 | The same for an article, where a standing vote is an error |
| Services.UpvoteComment | chafan_core/app/services/comments.py:139-176 | The same for a comment, free of charge |
| Services.CancelUpvote | chafan_core/app/services/answers.py:473-510 | Cancels a standing vote under the read gate of the item's kind |
| Services.CreateAnswer | chafan_core/app/services/answers.py:210-258 | Succeeds exactly for a writer of the site without an undeleted answer to the question, with a rendered text, who may be shown the result |
| Services.UpdateAnswer | chafan_core/app/services/answers.py:261-305 | Only the author, only while the result can be shown to the author; what it does is `EditLaws.UpdateAnswerStep` |
| Services.ApplyAnswerUpdate | chafan_core/app/services/answers.py:308-350 | The stepwise draft-or-publish code performs the one edit of the answer machine that the flags ask for; a draft without content publishes; which columns each changes is `EditLaws.UpdateAnswerStep` |
| Services.ModerateAnswer | chafan_core/app/services/answers.py:353-383 | Only the site's moderator, through the read gate both before and after the change |
| Services.CreateSuggestEdit | chafan_core/app/services/answer_suggest_edits.py:24-61 | Appends a pending suggestion when gates, coins and draft state allow |
| Services.AcceptSuggestion | chafan_core/app/services/answer_suggest_edits.py:122-164 | The accepting branch, which writes contributors, answer and suggestion in turn, amounts to the one edit `Accept` |
| Services.UpdateSuggestEdit | chafan_core/app/services/answer_suggest_edits.py:82-205 | The nested status checks allow exactly the transitions of the four-status machine, each by the user entitled to it (`EditLaws.WhoDecidesSuggestions`) |
| Services.CreateArticle | chafan_core/app/services/articles.py:206-269 | Gated by coins, charged to the author in favour of the first superuser |
| Services.UpdateArticle | chafan_core/app/services/articles.py:272-341 | Draft or publish, archiving the public text |
| Services.DeleteItem | chafan_core/app/services/answers.py:51-61 | Only the author deletes an answer, an article or a comment |
| Services.DeleteDraft | chafan_core/app/services/answers.py:141-170 | Only the author drops a draft, and only an existing one |
| Services.HideItem | chafan_core/app/services/questions.py:307-320 | Moderator or author hides a question or a submission; for a question the request is undone when the caller may not read the site |
| Services.CreateComment | chafan_core/app/services/comments.py:63-99 | One given parent; key and site resolved from it; the write gate of the parent's site; a rendering is needed |
| Services.UpdateComment | chafan_core/app/services/comments.py:102-136 | Gated like creation; hands the request's fields, content included, to the field-setting loop and succeeds when the result can be shown |
| Services.RewardInvitation | chafan_core/app/services/accounts.py:94-125 | Pays the inviter while the cap and the superuser's balance allow |
| Services.ClaimWelcomeReward | chafan_core/app/services/welcome_test.py:20-59 | Deposits the score and sets the flag for a passed test, and refuses whoever has the flag |
| Services.CreateReward | chafan_core/app/services/rewards.py:37-83 | Positive amount and duration, covered by the giver's balance |
| Services.ClaimReward | chafan_core/app/services/rewards.py:86-155 | Pays the receiver, in time and with the condition met, and leaves the reward open |
| Services.RefundReward | chafan_core/app/services/rewards.py:158-187 | Pays the giver of an open reward and leaves it open |
| Services.UploadImage | chafan_core/app/services/uploads.py:48-96 | Karma gate for figures; charge gated and made only for new content |
| Services.CreateSite | chafan_core/app/services/sites.py:151-226 | Karma and coin gates for everyone but superusers; moderator charged and made a member |
| Services.CreateQuestion | chafan_core/app/services/questions.py:170-206 | Gated by membership and by holding, not spending, the site's price; undone when the author may not read the site |
| Services.CreateSubmission | chafan_core/app/services/submissions.py:186-230 | The same for a submission |

## Left out

- Object identity: rows are values addressed by position and a uuid is the id it names, so aliasing of ORM objects, lookups by uuid, flushing and refreshing are not modelled, except the refresh that loses the closing of a reward, the one refresh of a changed row without a flush before it; nor is the physical layout (the five content tables share one id sequence, the four coin tables one book).
- Vote rows: a vote table is a map from voter to `cancelled`; that there is at most one row per voter is the unique constraint of the vote tables and is not proved again.
- Concurrent requests: coins, karma and votes are proved for requests served one after another; `coins.py` disclaims atomicity of balances under concurrency. Interleavings are modelled for uploads and link codes only.
- Uploads: the coin balance is not part of the concurrent model; failing for lack of coins is one of the aborts possible at any step.
- Fields nothing modelled depends on: draft editors, `draft_saved_at`, `initial_published_at`, keywords, topics, descriptions, text and archives of questions and submissions.
- Site settings: the permission flags and prices of a site are the defaults it is created with, since no endpoint changes them; only the moderator can change.
- Memberships: joining and leaving a site are steps of the environment, without the application process.
- Parameters: whether a welcome test was passed and its score (not negative, as `services/forms.py` returns it), how many invitations were sent, whether a name is taken, who owns an article column, file size limits and image formats enter as parameters or not at all.
- Payloads: of the payload of a request only its presence is modelled, with the read gates that decide it, and for articles title, source and rendered text; an absent payload undoes the request where the endpoint declares one.
- Deactivated accounts: every user of a request is taken to be active.
- `get_superuser` takes whatever row the database returns first; the model takes the lowest id.
- Time: one timestamp per request. With equal timestamps the order of archives in the database is not determined; the model keeps insertion order.
- Numbers: coins and counters are unbounded integers; freshness is over the reals, for non-negative ages.
- Character tables: `str.upper` and `str.isalnum` are fixed for ASCII and left open elsewhere; upper-casing is taken character by character.
- Fan-out keys are user ids rather than uuids, and only active users are compared.
- `update_residency_topics`, `update_profession_topics`: they remove from the list they iterate; not modelled.
- Side effects outside the transaction: events, notifications, feeds, audit log, view counts, writing sessions, search, mail, object storage.
- Suggestions on submissions, channels, forms, feedback and webhooks would add members of the same shapes.
