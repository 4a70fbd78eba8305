/** The numbers that decide karma and coins. */
module Rules {
  const ANSWER_CREATE := 10
  const ANSWER_UPVOTE := 10
  const QUESTION_CREATE := 5
  const QUESTION_UPVOTE := 10
  const ARTICLE_CREATE := 5
  const ARTICLE_UPVOTE := 10
  const SUBMISSION_CREATE := 1
  const SUBMISSION_UPVOTE := 2
  const COMMENT_CREATE := 2

  const PROFILE_FIELD := 2
  const EXPERIENCE_PER_ITEM := 2
  const EXPERIENCE_MAX_ITEMS := 5

  const MIN_KARMA_CREATE_SITE := 100
  const MIN_KARMA_UPLOAD_IMAGE := 100

  const INITIAL_USER_COINS := 0
  const CREATE_ARTICLE_COST := 2
  const UPVOTE_ARTICLE_COST := 2
  const CREATE_SITE_COST := 10
  const UPLOAD_IMAGE_COST := 2
  const INVITE_NEW_USER_REWARD := 5
  const INVITE_NEW_USER_MAX_REWARDED := 10

  const SECONDS_PER_DAY := 86400
}
