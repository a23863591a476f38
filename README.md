# OctoFit gamification rules in Dafny

This project models the gamification rule engine of the OctoFit tracker, a
Django fitness app. Users belong to houses, log activities, accept and
complete house challenges, and earn badges and rewards.

The model covers the following:

- **The activity-save pipeline** (`FitnessActivity.save`). Its five steps run
  in the source's order:
  1. add `duration // 10` to the house;
  2. recompute and cache the streak;
  3. complete the matching open challenges;
  4. grant badges;
  5. grant rewards.
- **The streak calculator.**
- **The challenge matcher.** A challenge with a canonical tag matches by
  exact equality. A challenge without one matches when either string
  contains the other.
- **The badge evaluator.** Its regular expression is modelled as written.
  The greedy `.*` in `.*(\d+)[+]? challenge` makes the threshold the single
  digit just before the tail, so "Complete 10 challenges" has threshold 0.
  The evaluator also has the "Zen Guru" and "Trailblazer" rules.
- **The reward evaluator.**
- **The house-delete hook** and the cascades of the schema.
- **Request handlers of `views.py`:**
  - `submit_activity` (the extra 10 points);
  - `accept_challenge` and `complete_challenge`;
  - the one-way confetti flag of `house_detail`;
  - the `leaderboard` catch-up prediction;
  - friend requests and friendships.
- **The language-model fallbacks of `agent_logic.py`.**
- **The coach's reply selection in `octocoach.py`,** and the start-up
  routine that makes sure the four houses exist.
- **The two suggestion actions of the admin site.**

All tables live in one `Tables.Store` object, as `seq` and `map` fields.
Each handler is a method over the store with a field-level `modifies`
frame. `Store.Valid` holds the schema's constraints:

- every profile's house exists;
- houses are in primary-key order;
- the unique pairs of `UserBadge`, `UserReward`, `FriendRequest` and
  `Friendship` hold;
- a friendship stores the smaller user id first.

Each handler is proved against a pure specification function. Lemmas then
prove what the source promises about those functions: monotonicity, at
most one grant per pair, idempotence, the decision order, and the
round-trips.

The following become parameters:

- the clock, in whole seconds (`now`);
- calendar dates, as day numbers (`today`);
- the random quote choice (`pick`);
- the persona.

Django's exceptions become outcome constructors:

- a negative xp breaks the `PositiveIntegerField` check;
- `get_or_create` raises when it finds two rows;
- a house switch by a user without a house dereferences `None`.

The source's order of query results is modelled as table order, that is,
primary-key order. The one exception is the admin site's move action: the
admin's change list orders a model without its own ordering by descending
primary key, so the move handles the selected suggestions newest first.

Three behaviours of the source are modelled as they are written:

- **The badge threshold.** Python's `re.match(r".*(\d+)[+]? challenge", ...)`
  backtracks from the longest prefix. The captured group is therefore
  always one digit.
- **The coach's later branches.** `get_octocoach_message_for_user` returns
  in both the "no house" and the "house" branch, so the branches at
  octofit-tracker/backend/fitness/utils/octocoach.py:126-146 cannot be
  reached. The coach never updates `last_streak_milestone`.
- **The "Cardio" branches.** `get_fallback_recommendations` and
  `get_fallback_feedback` test for "Cardio" and "Strength Training". The
  submission form only offers "Running" … "Other" and stores "Strength".
  After any activity logged through the form, the fallbacks therefore take
  their generic branch.

## Model

| member | source | states |
|---|---|---|
| Tables.Store.CreateUser | octofit-tracker/backend/fitness/models.py:254-257 | a new user gets a fresh id and the default profile (no house, streak 0, persona "arnold"); the schema invariant is kept |
| Seqs.SortDesc | octofit-tracker/backend/fitness/views.py:68 | `order_by('-points')`: the result is sorted by descending points and is a permutation of the houses |
| Text.Strip | octofit-tracker/backend/fitness/models.py:148 | `strip()` returns a contiguous slice of the input that starts and ends with non-whitespace (Python's whitespace set) and drops only whitespace |
| Text.Split | octofit-tracker/backend/fitness/utils/agent_logic.py:100 | `split('\n')` yields one more part than there are newlines, none containing a newline |
| Text.SplitFirst | octofit-tracker/backend/fitness/utils/agent_logic.py:100 | the first part of `split('\n')` is the text before the first newline; the other parts are the split of the text after it, and there are none when there is no newline |
| Text.SplitJoin | octofit-tracker/backend/fitness/utils/agent_logic.py:100 | joining the parts of a split with the separator gives back the input |
| Text.NatToStringRoundTrip | octofit-tracker/backend/fitness/utils/agent_logic.py:217-219 | the decimal text the feedback embeds for a streak reads back as that streak |
| Streak.UserDatesNewestFirst | octofit-tracker/backend/fitness/utils/agent_logic.py:38 | the dates of exactly the user's activities (same multiset), sorted newest first |
| Streak.StreakOf | octofit-tracker/backend/fitness/utils/agent_logic.py:38-52 | the streak is 0 exactly when there are no activities and never exceeds their number |
| Streak.StreakIsLeadingRun | octofit-tracker/backend/fitness/utils/agent_logic.py:42-50 | a streak k is at least 1 and the k newest dates are d0, d0-1, …, d0-k+1 counted from the newest logged date; the next date breaks the run, so a second activity on the newest date stops the streak at 1 |
| Streak.LeadingRunIsStreak | octofit-tracker/backend/fitness/utils/agent_logic.py:42-50 | conversely, a leading run of consecutive days of length k that the next date breaks is exactly the streak |
| Streak.StreakAtMostDistinctDates | octofit-tracker/backend/fitness/utils/agent_logic.py:42-52 | the streak is at most the number of distinct dates |
| Streak.CalculateStreak | octofit-tracker/backend/fitness/utils/agent_logic.py:27-52 | the loop over the dates newest first returns the streak of the user's activities |
| Challenges.CanonicalTagDecides | octofit-tracker/backend/fitness/models.py:148-153 | a challenge with a canonical tag matches exactly when the stripped, lower-cased activity type equals the stripped, lower-cased tag; its description plays no part |
| Challenges.UntaggedMatchIsSubstring | octofit-tracker/backend/fitness/models.py:154-157 | an untagged challenge matches exactly when either lower-cased string contains the other, so an equal description or an empty type always matches |
| Challenges.CompleteMatchedEffect | octofit-tracker/backend/fitness/models.py:150-157 | a row changes exactly when it is the user's open row for a matching challenge's description; only `completed_at` changes, to now; with no open row nothing changes |
| Challenges.CompletedCountAfterMatch | octofit-tracker/backend/fitness/models.py:150-157 | the user's completed count grows by exactly the number of open matching rows; every other user's count is unchanged |
| Challenges.NoChallengesNoMatch | octofit-tracker/backend/fitness/models.py:150 | a house without challenges completes nothing |
| Challenges.MatchStep | octofit-tracker/backend/fitness/models.py:150-157 | one iteration of the loop over the house's challenges completes the open rows of that challenge when it matches and nothing otherwise |
| Challenges.CompleteMatchingChallenges | octofit-tracker/backend/fitness/models.py:143-157 | without a house nothing changes; with one, the accepted rows become those with every open matching row completed |
| Badges.SearchFrom | octofit-tracker/backend/fitness/models.py:273 | the backtracking search of `.*(\d+)` finds, if anything, a digit group that ends before the tail |
| Badges.SearchIsLastDigit | octofit-tracker/backend/fitness/models.py:273 | the regular expression's group is one digit, the last digit followed by the tail |
| Badges.ThresholdIsLastDigit | octofit-tracker/backend/fitness/models.py:273-275 | the parsed threshold is the value of the last digit before " challenge" / "day streak", hence at most 9 |
| Badges.TenChallengesMeansZero | octofit-tracker/backend/fitness/models.py:273-275 | "Complete 10 challenges" has threshold 0 |
| Badges.NoDigitNoThreshold | octofit-tracker/backend/fitness/models.py:273-274 | a name without digits has no threshold |
| Badges.CountersOf | octofit-tracker/backend/fitness/models.py:270-294 | the counters the rules read: the user's completed rows, the cached streak, the number of the house's yoga/stretch challenges, and a walk count no larger than the activity list |
| Badges.AwardBadgesRows | octofit-tracker/backend/fitness/models.py:271-296 | existing grants stay in place; a grant is present afterwards exactly when it was before or it is the user's for a house badge whose rule holds |
| Badges.AwardBadgesNoDuplicates | octofit-tracker/backend/fitness/models.py:271-296 | the existence checks keep the (user, badge) pairs unique |
| Badges.AwardBadgesStable | octofit-tracker/backend/fitness/models.py:271-296 | when every earned badge is already granted, nothing is added |
| Badges.AwardBadgesIdempotent | octofit-tracker/backend/fitness/models.py:271-296 | evaluating the badges a second time on the same counters adds nothing |
| Badges.NineIsEnough | octofit-tracker/backend/fitness/models.py:272-285 | every numbered challenge badge is earned with 9 completed challenges and every numbered streak badge with a 9-day streak |
| Badges.TenChallengesEarnedAtOnce | octofit-tracker/backend/fitness/models.py:273-277 | "Complete 10 challenges" is earned with no completed challenge at all |
| Badges.ZenGuruRule | octofit-tracker/backend/fitness/models.py:287-291 | "Zen Guru" is earned exactly when the house has at least one yoga/stretch challenge and the number of the user's completed rows naming one of their descriptions equals the number of those challenges |
| Badges.TrailblazerRule | octofit-tracker/backend/fitness/models.py:292-296 | "Trailblazer" is earned exactly when the user has at least 7 activities whose type contains "walk" |
| Badges.AwardBadge | octofit-tracker/backend/fitness/models.py:272-296 | one iteration: the badge is granted when its rule holds and it is not yet granted |
| Badges.CheckAndAwardBadges | octofit-tracker/backend/fitness/models.py:263-297 | no house, no change; otherwise the grants of the house's badges are evaluated in order against the counters |
| Rewards.AllZeroNeverUnlocks | octofit-tracker/backend/fitness/models.py:345-349 | a reward whose three thresholds are 0 never unlocks |
| Rewards.UnlocksMonotone | octofit-tracker/backend/fitness/models.py:345-349 | more points, a longer streak or more completions never lock an unlocked reward |
| Rewards.GrantRewardsRows | octofit-tracker/backend/fitness/models.py:344-351 | existing grants stay in place; a grant is present afterwards exactly when it was before or the reward unlocks for the user |
| Rewards.GrantRewardsNoDuplicates | octofit-tracker/backend/fitness/models.py:344-351 | the (user, reward) pairs stay unique |
| Rewards.GrantRewardsStable | octofit-tracker/backend/fitness/models.py:350-351 | when every unlocked reward is already granted, nothing is added |
| Rewards.GrantRewardsIdempotent | octofit-tracker/backend/fitness/models.py:344-351 | evaluating the rewards a second time adds nothing |
| Rewards.GrantReward | octofit-tracker/backend/fitness/models.py:345-351 | one iteration: the reward is granted when it unlocks and is not yet granted |
| Rewards.CheckAndAwardRewards | octofit-tracker/backend/fitness/models.py:338-351 | the grants are evaluated over all rewards against the house's points (0 without a house), the cached streak and the completed count |
| ActivitySave.AddPointsEffect | octofit-tracker/backend/fitness/models.py:126-128 | adding to one house changes the points every member of that house sees by exactly that amount and no one else's |
| ActivitySave.StreakAfterSave | octofit-tracker/backend/fitness/models.py:131-138 | once the activity is stored its owner's streak is at least 1 and at most the owner's number of activities |
| ActivitySave.SaveActivity | octofit-tracker/backend/fitness/models.py:122-162 | the activity is appended, the house gains `duration // 10`, the profile caches the new streak, matching open challenges complete, then badges and then rewards are evaluated on the updated state |
| ActivitySave.ApplyRules | octofit-tracker/backend/fitness/models.py:143-162 | the last three steps of the save, in order: the matching open challenges complete, then badges and then rewards are evaluated on the updated rows |
| ActivitySave.AwardBadgesThenRewards | octofit-tracker/backend/fitness/models.py:159-162 | badges are evaluated on the current counters, then rewards on the current house points, streak and completed count |
| ActivitySave.RecordActivity | octofit-tracker/backend/fitness/models.py:123-138 | the first three steps of the save: the row, the house points and the cached streak |
| ActivitySave.AddDurationPoints | octofit-tracker/backend/fitness/models.py:125-128 | the user's house gains `duration // 10`; no change without a house |
| ActivitySave.CacheStreak | octofit-tracker/backend/fitness/models.py:131-138 | the profile's `streak_count` becomes the streak of all the user's activities, the new one included |
| ActivitySave.SavePoints | octofit-tracker/backend/fitness/models.py:125-128 | every member of the user's house sees `duration // 10` more points; everyone else sees the same |
| ActivitySave.Unhoused | octofit-tracker/backend/fitness/models.py:202 | `SET_NULL`: every profile stays, none still points at the deleted house |
| ActivitySave.HookRemovesMembersRows | octofit-tracker/backend/fitness/models.py:299-304 | deleting a house removes every accepted row of its members, whatever the challenge, and leaves every other user's rows as they were |
| ActivitySave.DeleteHouse | octofit-tracker/backend/fitness/models.py:299-304 | the hook's deletion, then the cascades to challenges, badges and their grants, and suggestions, then the profiles lose the house and the house is removed |
| ActivitySave.DeleteHouseRows | octofit-tracker/backend/fitness/models.py:299-302 | the members' accepted rows, the house's challenges and its suggestions are removed |
| ActivitySave.DeleteBadgesOf | octofit-tracker/backend/fitness/models.py:87-88 | the house's badges and every grant of them are removed |
| ActivitySave.RemoveHouse | octofit-tracker/backend/fitness/models.py:199-202 | the profiles lose the house and the house row is removed, keeping the schema invariant |
| ChallengeViews.SubmitActivity | octofit-tracker/backend/fitness/views.py:200-211 | an invalid form changes nothing; a valid one runs the whole save, then adds 10 to the house, after the rewards were evaluated on the `duration // 10` increase only |
| ChallengeViews.AddBonus | octofit-tracker/backend/fitness/views.py:208-211 | the user's house gains 10; no change without a house |
| ChallengeViews.SubmissionPoints | octofit-tracker/backend/fitness/views.py:206-211 | a submission raises the points every member of the house sees by `duration // 10 + 10` and no one else's |
| ChallengeViews.ProgressConsistent | octofit-tracker/backend/fitness/views.py:305-319 | completed is contained in accepted, both list only the house's challenge descriptions, `done` is the number completed and `total` the number of house challenges |
| ChallengeViews.FirstOpen | octofit-tracker/backend/fitness/views.py:330 | the first open row of the user for the description, or none when there is no such row |
| ChallengeViews.AcceptChallenge | octofit-tracker/backend/fitness/views.py:289-319 | with no row yet for (user, description) one open row is added; one row means "Already accepted" and two mean the lookup fails, both changing nothing; a negative xp is refused |
| ChallengeViews.AcceptTwice | octofit-tracker/backend/fitness/views.py:296-303 | after a first acceptance there is exactly one row, so a second acceptance reports "Already accepted" |
| ChallengeViews.CompletingOneRow | octofit-tracker/backend/fitness/views.py:333-335 | completing one open row raises the user's completed count by exactly one |
| ChallengeViews.CompleteChallenge | octofit-tracker/backend/fitness/views.py:324-357 | no open row gives the 404 and changes nothing; otherwise only the first open row is completed with the request's xp, then badges and rewards are evaluated |
| HouseViews.ConfettiOneWay | octofit-tracker/backend/fitness/views.py:97-104 | confetti shows at exactly 100 or 1000 points, or at 500 or more while the flag is down; the flag is only ever raised, and once raised a later visit away from 100/1000 shows nothing |
| HouseViews.FirstNamed | octofit-tracker/backend/fitness/views.py:94 | the first house whose name equals the requested one ignoring case, or none |
| HouseViews.HouseDetail | octofit-tracker/backend/fitness/views.py:85-104 | a user without a house gets the no-house page and an unknown name the not-found page, both changing nothing; otherwise the confetti rule decides what shows and the flag's new value |
| HouseViews.RankedFirstIsTop | octofit-tracker/backend/fitness/views.py:68-73 | the first house of the ranking has at least the points of every house |
| HouseViews.PredictionIffCloseRace | octofit-tracker/backend/fitness/views.py:68-76 | the prediction is non-empty exactly when there are two or more houses and the leader is at most 20 points ahead of the runner-up |
| HouseViews.PredictionNamesRunnerUp | octofit-tracker/backend/fitness/views.py:71-76 | a non-empty prediction names a house within 20 points of the leader |
| FriendViews.SendFriendRequest | octofit-tracker/backend/fitness/views.py:653-664 | a missing or own id is invalid, an unknown id is not found, a repeated (from, to) pair is already sent, each changing nothing; otherwise one pending request is added |
| FriendViews.FindRequest | octofit-tracker/backend/fitness/views.py:673 | the request with that id addressed to the current user, or none |
| FriendViews.RespondFriendRequest | octofit-tracker/backend/fitness/views.py:669-684 | an unknown request changes nothing; otherwise its status is set and, on acceptance, the friendship is stored once with the smaller id first |
| FriendViews.FriendsSymmetric | octofit-tracker/backend/fitness/views.py:688-691 | b is a friend of a exactly when a is a friend of b |
| FriendViews.AcceptMakesFriends | octofit-tracker/backend/fitness/views.py:676-679 | after an acceptance each of the two users lists the other as a friend |
| FriendViews.PairStoredOnce | octofit-tracker/backend/fitness/models.py:38-39 | in normalised friendships a pair of users is stored at most once, in either order |
| FriendViews.AddFriendshipNormalised | octofit-tracker/backend/fitness/views.py:679 | storing an accepted pair keeps friendships normalised |
| AgentLogic.FallbackRecommendations | octofit-tracker/backend/fitness/utils/agent_logic.py:126-146 | always the three keys; the starter set exactly for no activity, the strength set exactly when the latest type is "Cardio" |
| AgentLogic.FormTypesGetCardioSet | octofit-tracker/backend/fitness/utils/agent_logic.py:135-146 | after an activity logged through the form the fallback is the cardio set |
| AgentLogic.FallbackFeedback | octofit-tracker/backend/fitness/utils/agent_logic.py:211-230 | the welcome exactly when there is no activity; with activities and streak 0, "Cardio" gets the strength-training suggestion, "Strength Training" the yoga suggestion and any other type the variety message |
| AgentLogic.FeedbackQuotesStreak | octofit-tracker/backend/fitness/utils/agent_logic.py:216-219 | with activities and a positive streak the feedback starts "Amazing " (streak above 5) or "Nice " and then quotes the streak in decimal |
| AgentLogic.FormStrengthGetsVariety | octofit-tracker/backend/fitness/utils/agent_logic.py:221-228 | with streak 0 after a form "Strength" activity the feedback is the variety message, not the weights one |
| AgentLogic.LinesToRecommendations | octofit-tracker/backend/fitness/utils/agent_logic.py:101-105 | the three keys for any non-empty list of lines, which `split` always returns |
| AgentLogic.AiRecommendations | octofit-tracker/backend/fitness/utils/agent_logic.py:100-105 | the reply, stripped and split into lines, always gives the three keys |
| AgentLogic.LinesMapPositionally | octofit-tracker/backend/fitness/utils/agent_logic.py:100-105 | "balance" is the stripped reply up to its first newline; "challenge" is the text between the first and the second newline, or "Join a new challenge!" when there is no newline; "house_boost" is the text after the second newline up to the third, or "Log a workout to boost house points!" when there is no second newline |
| AgentLogic.AiThreeLinesRoundTrip | octofit-tracker/backend/fitness/utils/agent_logic.py:100-105 | a stripped three-line reply is recovered by joining the three recommendations with newlines |
| OctoCoach.PersonaGreetingLinks | octofit-tracker/backend/fitness/utils/octocoach.py:46-56 | the greetings of arnold, jennifer, katy and mel link to the login and the sign-up page |
| OctoCoach.ArnoldGreetingText | octofit-tracker/backend/fitness/utils/octocoach.py:47-50 | the default persona's greeting is the source's text with `/accounts/login/` and `/register/` each inside a single `<a href='…'>` anchor |
| OctoCoach.GuestReply | octofit-tracker/backend/fitness/utils/octocoach.py:46-63 | a visitor with no persona or an empty one gets the "arnold" greeting, which links to both pages; a known persona gets its own greeting; any other non-empty persona gets the generic greeting |
| OctoCoach.GuestReplyLinks | octofit-tracker/backend/fitness/utils/octocoach.py:46-63 | the reply to a visitor with no persona, an empty one or a known one links to the login and the sign-up page |
| OctoCoach.LastBotTime | octofit-tracker/backend/fitness/utils/octocoach.py:67 | the time of the latest coach message to the user: none exactly when there is no such message, otherwise one of them and no earlier than any |
| OctoCoach.HouseListNamesEveryHouse | octofit-tracker/backend/fitness/utils/octocoach.py:107-111 | the house list contains the line of every house |
| OctoCoach.FaqAnswerIsFirst | octofit-tracker/backend/fitness/utils/octocoach.py:114-117 | the knowledge base answers exactly when some key with an answer occurs, and then with the first such entry in dictionary order |
| OctoCoach.CoachReplyFor | octofit-tracker/backend/fitness/utils/octocoach.py:64-124 | the reply is recorded as the greeting exactly when a greeting is due; the only failure is a house-switch event with no greeting due for a user without a house |
| OctoCoach.EventBeatsInput | octofit-tracker/backend/fitness/utils/octocoach.py:73-87 | with no greeting due, a house switch by a user with a house gets the switch message recorded as "house_switch", a logged activity the activity message recorded as "activity_log", and a milestone the milestone message recorded as "milestone", whatever the input |
| OctoCoach.FallbackText | octofit-tracker/backend/fitness/utils/octocoach.py:118-124 | when the input is neither a house question nor answered by the knowledge base, a user without a house gets the onboarding text and a user with one the quote greeting naming the house, neither recorded |
| OctoCoach.QuietTurnAnswersInput | octofit-tracker/backend/fitness/utils/octocoach.py:64-124 | with no greeting due and no house-switch, activity or milestone event, the reply is the answer to the input |
| OctoCoach.InputReply | octofit-tracker/backend/fitness/utils/octocoach.py:103-124 | without a greeting or an event the coach always replies, and never with the greeting |
| OctoCoach.AnswerInput | octofit-tracker/backend/fitness/utils/octocoach.py:103-124 | the house-question check, the loop over the knowledge base and the fallbacks yield the specified reply to the input |
| OctoCoach.BuildHouseList | octofit-tracker/backend/fitness/utils/octocoach.py:107-111 | the loop builds the intro, one line per house in table order, and the closing line |
| OctoCoach.FirstAnswer | octofit-tracker/backend/fitness/utils/octocoach.py:114-117 | the loop returns the knowledge base's answer for the input |
| OctoCoach.CoachMessage | octofit-tracker/backend/fitness/utils/octocoach.py:60-146 | the reply is the chosen one and the chat history gains exactly the recorded reply, stamped now; nothing else changes, so `last_streak_milestone` is never updated |
| OctoCoach.RecordedReplyHoldsOffGreeting | octofit-tracker/backend/fitness/utils/octocoach.py:67-72 | after any recorded reply no greeting is due for a day |
| OctoCoach.GreetedOncePerDay | octofit-tracker/backend/fitness/utils/octocoach.py:67-72 | after a greeting, no reply within the next day is a greeting, whatever the event and input |
| OctoCoach.FaqReplyIsFirstMatch | octofit-tracker/backend/fitness/utils/octocoach.py:103-117 | with no greeting due, no event and no house question, the reply is the first entry in dictionary order whose key occurs in the lower-cased input, recorded as "faq" |
| OctoCoach.HouseQuestionBeforeFaq | octofit-tracker/backend/fitness/utils/octocoach.py:103-113 | with no greeting due and no event, a house question gets the house list even when a knowledge-base key also occurs |
| OctoCoach.UnrecordedReplies | octofit-tracker/backend/fitness/utils/octocoach.py:118-124 | a user with a house always gets a reply; a reply goes unrecorded exactly when no greeting, event, house question or answer applies |
| OctoCoach.EnsureAllKeepsExisting | octofit-tracker/backend/fitness/utils/octocoach.py:148-155 | existing houses stay unchanged and in place; new houses are only appended |
| OctoCoach.EnsureAllPresent | octofit-tracker/backend/fitness/utils/octocoach.py:148-155 | when the set-up gets through, each of the four names belongs to exactly one house |
| OctoCoach.AllPresentIsNoop | octofit-tracker/backend/fitness/utils/octocoach.py:149-155 | when every name already belongs to exactly one house, nothing changes |
| OctoCoach.EnsureHousesIdempotent | octofit-tracker/backend/fitness/utils/octocoach.py:148-155 | a second call after a successful one creates nothing |
| OctoCoach.CreateHouse | octofit-tracker/backend/fitness/utils/octocoach.py:150-155 | a missing name gets the default house (mascot "<name> Mascot", colour #cccccc, description "<name> house", theme the name) with the next id |
| OctoCoach.EnsureHousesExist | octofit-tracker/backend/fitness/utils/octocoach.py:148-155 | `get_or_create` for the four names in turn, stopping at a name two houses share |
| SuggestionAdmin.Approve | octofit-tracker/backend/fitness/admin.py:49 | every row stays in place; exactly the selected rows become reviewed and approved |
| SuggestionAdmin.ApproveIdempotent | octofit-tracker/backend/fitness/admin.py:48-50 | approving the same selection twice is approving it once |
| SuggestionAdmin.ApproveSuggestions | octofit-tracker/backend/fitness/admin.py:48-50 | the selected suggestions are approved and `updated` is their number |
| SuggestionAdmin.ApprovedAreCandidates | octofit-tracker/backend/fitness/admin.py:48-56 | after approval every selected suggestion is considered by the move |
| SuggestionAdmin.PromoteAllCounts | octofit-tracker/backend/fitness/admin.py:55-62 | existing challenges stay in place, the count equals the number of challenges created, and each new one carries a candidate's house and description with xp 10 and no tag |
| SuggestionAdmin.PromoteAllPresent | octofit-tracker/backend/fitness/admin.py:56-60 | when the move gets through, every candidate's (house, description) belongs to exactly one challenge |
| SuggestionAdmin.AllPresentIsNoop | octofit-tracker/backend/fitness/admin.py:56-62 | when every candidate's challenge exists once, nothing is created |
| SuggestionAdmin.MoveTwiceCreatesNothing | octofit-tracker/backend/fitness/admin.py:53-63 | a second move on the same selection creates nothing and reports 0 |
| SuggestionAdmin.MoveApprovedToChallenges | octofit-tracker/backend/fitness/admin.py:53-63 | `get_or_create` for each selected approved suggestion in turn, newest first, counting creations; the suggestions are left alone |
| SuggestionAdmin.PromoteEach | octofit-tracker/backend/fitness/admin.py:55-62 | the loop's challenges and count are those of the specified run of `get_or_create` over the suggestions, stopping at one that matches two challenges |

## Left out

- Language-model calls (`octocoach_response`, `ask_coachbot`, the AI branch of `daily_tip`, the calls in `recommend_workout` and `generate_coachbot_feedback`). These are foreign network calls. Only their pure fallbacks and the mapping of a reply's lines are modelled.
- The response cache (`cache_utils.py`). It is a wrapper over Django's cache backend and MD5.
- Percentage bars (views.py:128-130, 159, 549-551). They use floating point; integer arithmetic would not agree with it.
- Progress photos, e-mail reminders, seed commands, templates, JavaScript and URL routing. None of them is part of the rule engine.
- The `RecommendationLog` completion on save (models.py:141). It is a bulk update of a log table that no rule reads.
- The notification `respond_friend_request` creates on acceptance (views.py:680). No rule reads notifications.
- `house_detail`'s page content after the confetti decision: the weekly progress, the member ranking and the percentages. It reads data and changes no state.
- Concurrency. Two requests racing between an existence check and an insert are not modelled; requests run one at a time.
- Badges.ThresholdIsLastDigit: `\d` in Python's `re` also matches non-ASCII decimal digits (Arabic-Indic, full-width and others). The model reads only ASCII `0`–`9`, so a badge name whose last digit before the tail is a non-ASCII digit is not covered.
- Badges.NoDigitNoThreshold: "without digits" means without ASCII digits. A name with only non-ASCII decimal digits has a threshold in the source and none in the model.
- Text.Lower: `str.lower()` and the case-insensitive lookups (`iexact`, `icontains`, `re.IGNORECASE`) fold only ASCII letters. Unicode case folding is not modelled.
- FriendViews.SendFriendRequest: `to_user_id` is an integer, with 0 for a missing one. A value `int()` cannot parse makes the source raise, and that is not modelled.
- OctoCoach.CoachMessage: timestamps are whole seconds, and the stored message is stamped `now` rather than the slightly later time at which the row is created.
- OctoCoach.CoachMessage: a malformed request body (a JSON error before the rules run) is not modelled. The same holds for the other handlers.
- HouseViews.RankedFirstIsTop: the database returns houses with equal points in an unspecified order. Seqs.SortDesc keeps them in table order, which is one of the orders the database may return; the contracts state only the points order, so no lemma relies on the order among ties.
- AgentLogic.FallbackRecommendations: the activities are given as their types, newest first. The query that fetches them is not modelled.
- The final `return` of `get_fallback_feedback` (agent_logic.py:230) is unreachable, because a non-empty list always has a first activity. It has no counterpart in the model.
