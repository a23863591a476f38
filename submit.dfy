/**
 * The challenge and activity handlers of fitness/views.py:
 * `submit_activity`, `accept_challenge` and `complete_challenge`, with the
 * progress summary the last two return.
 */
module ChallengeViews {
  import opened Wrappers
  import opened Seqs
  import opened Tables
  import opened Challenges
  import opened Badges
  import opened Rewards
  import opened ActivitySave

  /** The activity types the submission form offers (fitness/forms.py). */
  const ActivityChoices: seq<string> :=
    ["Running", "Walking", "Cycling", "Swimming", "Strength", "Yoga", "Other"]

  /** The form accepts one of the offered types and a duration of at least one minute. */
  predicate ValidSubmission(activityType: string, durationMinutes: int) {
    activityType in ActivityChoices && durationMinutes >= 1
  }

  /** The flat bonus `submit_activity` adds to the user's house after the save. */
  const SubmissionBonus := 10

  /** The houses after the bonus for a user whose profile is `p`. */
  function HousesAfterBonus(hs: seq<House>, p: Profile): seq<House> {
    match p.house
    case None => hs
    case Some(h) => AddPoints(hs, h, SubmissionBonus)
  }

  /**
   * `submit_activity`: an invalid form changes nothing. A valid one saves the
   * activity dated `today` (the whole save pipeline) and then adds 10 to the
   * user's house, after reward evaluation has already run: the rewards see
   * the `duration // 10` increase but not the bonus.
   */
  method SubmitActivity(s: Store, u: UserId, activityType: string, durationMinutes: int,
                        today: Day, now: Seconds) returns (ok: bool)
    requires s.Valid() && u in s.profiles
    modifies s`activities, s`houses, s`profiles, s`accepted, s`userBadges, s`userRewards
    ensures s.Valid()
    ensures ok <==> ValidSubmission(activityType, durationMinutes)
    ensures !ok ==> unchanged(s`activities, s`houses, s`profiles, s`accepted, s`userBadges, s`userRewards)
    ensures ok ==> (durationMinutes >= 1 &&
      var a := Activity(u, activityType, durationMinutes as nat, today);
      var afterSave := HousesAfterSave(old(s.houses), old(s.profiles[u]), a.durationMinutes);
      && s.activities == old(s.activities) + [a]
      && s.houses == HousesAfterBonus(afterSave, old(s.profiles[u]))
      && s.profiles == WithStreak(old(s.profiles), u, s.activities)
      && s.accepted == AcceptedAfterMatch(old(s.accepted), u, old(s.profiles[u].house), activityType,
                                          s.challenges, now)
      && s.userBadges == BadgesAfterCheck(s.badges, u, old(s.profiles[u].house), s.accepted, s.activities,
                                          s.challenges, StreakAfter(s.activities, u), old(s.userBadges))
      && s.userRewards == GrantRewards(s.rewards, u, HousePointsOf(s.profiles, afterSave, u),
                                       StreakAfter(s.activities, u),
                                       CompletedCount(s.accepted, u), old(s.userRewards)))
  {
    if !(activityType in ActivityChoices && durationMinutes >= 1) {
      return false;
    }
    var a := Activity(u, activityType, durationMinutes as nat, today);
    SaveActivity(s, a, now);
    AddBonus(s, u);
    ok := true;
  }

  /** `user_profile.house.points += 10` when the user has a house. */
  method AddBonus(s: Store, u: UserId)
    requires s.Valid() && u in s.profiles
    modifies s`houses
    ensures s.Valid()
    ensures s.houses == HousesAfterBonus(old(s.houses), s.profiles[u])
  {
    if s.profiles[u].house.Some? {
      var h := s.profiles[u].house.value;
      AddPointsKeepsOrder(s.houses, s.nextHouseId, h, SubmissionBonus);
      AddPointsKeepsProfiles(s.profiles, s.houses, h, SubmissionBonus);
      s.houses := AddPoints(s.houses, h, SubmissionBonus);
    }
  }

  /**
   * A valid submission raises the points of the submitter's house by
   * `duration // 10 + 10`, and leaves the points every user of another
   * house, or of none, sees unchanged.
   */
  lemma SubmissionPoints(profiles: map<UserId, Profile>, hs: seq<House>, a: Activity, v: UserId)
    requires a.user in profiles && ProfilesHaveHouses(profiles, hs)
    ensures var h := profiles[a.user].house;
            var after := HousesAfterBonus(HousesAfterSave(hs, profiles[a.user], a.durationMinutes),
                                          profiles[a.user]);
            (h.Some? && v in profiles && profiles[v].house == h ==>
               HousePointsOf(profiles, after, v)
               == HousePointsOf(profiles, hs, v) + a.durationMinutes / 10 + SubmissionBonus)
            && (!(h.Some? && v in profiles && profiles[v].house == h) ==>
               HousePointsOf(profiles, after, v) == HousePointsOf(profiles, hs, v))
  {
    var p := profiles[a.user];
    if p.house.Some? {
      var h := p.house.value;
      var mid := AddPoints(hs, h, a.durationMinutes / 10);
      AddPointsEffect(profiles, hs, h, a.durationMinutes / 10, v);
      AddPointsKeepsIndex(hs, h, a.durationMinutes / 10, h);
      AddPointsEffect(profiles, mid, h, SubmissionBonus, v);
    }
  }

  // ---- Accepting and completing challenges ----

  /** The progress summary in the accept and complete responses. */
  datatype Progress = Progress(accepted: seq<string>, completed: seq<string>, total: nat, done: nat)

  datatype AcceptOutcome =
    | ChallengeAccepted(progress: Progress)
    | AlreadyAccepted
    /** `get_or_create` found more than one row for the pair. */
    | MultipleRows
    /** A negative xp breaks the non-negative column constraint on insert. */
    | NegativeXp

  datatype CompleteOutcome =
    | ChallengeCompleted(progress: Progress)
    /** No open row for the description: the 404 response. */
    | NotFoundOrDone
    | NegativeXpOnSave

  /** Selects `u`'s rows for `desc`, open or completed. */
  function RowFor(u: UserId, desc: string): AcceptedChallenge -> bool {
    (r: AcceptedChallenge) => r.user == u && r.challengeDescription == desc
  }

  function RowDescriptions(rows: seq<AcceptedChallenge>): (ds: seq<string>)
    ensures |ds| == |rows| && forall i :: 0 <= i < |rows| ==> ds[i] == rows[i].challengeDescription
  {
    seq(|rows|, i requires 0 <= i < |rows| => rows[i].challengeDescription)
  }

  /** The descriptions of the challenges of the user's house, none without a house. */
  function HouseDescriptions(cs: seq<HouseChallenge>, house: Option<HouseId>): seq<string> {
    match house
    case None => []
    case Some(h) => Descriptions(HouseChallenges(cs, h))
  }

  /** Selects `u`'s rows, open or completed, whose description is one of `descs`. */
  function AcceptedIn(u: UserId, descs: seq<string>): AcceptedChallenge -> bool {
    (r: AcceptedChallenge) => r.user == u && r.challengeDescription in descs
  }

  /**
   * The response lists: the descriptions of `u`'s rows, and of `u`'s
   * completed rows, that name a challenge of the house, with the counts.
   */
  function ProgressOf(rows: seq<AcceptedChallenge>, cs: seq<HouseChallenge>, house: Option<HouseId>,
                      u: UserId): Progress
  {
    var descs := HouseDescriptions(cs, house);
    var completed := RowDescriptions(Filter(rows, CompletedIn(u, descs)));
    Progress(RowDescriptions(Filter(rows, AcceptedIn(u, descs))), completed, |descs|, |completed|)
  }

  /** Rows kept by a stronger filter are, with multiplicity, among those kept by a weaker one. */
  lemma {:induction false} StrongerFilterDescriptions(rows: seq<AcceptedChallenge>,
                                                      strong: AcceptedChallenge -> bool,
                                                      weak: AcceptedChallenge -> bool)
    requires forall i :: 0 <= i < |rows| && strong(rows[i]) ==> weak(rows[i])
    ensures multiset(RowDescriptions(Filter(rows, strong))) <= multiset(RowDescriptions(Filter(rows, weak)))
  {
    if rows != [] {
      StrongerFilterDescriptions(rows[1..], strong, weak);
      var s1 := Filter(rows[1..], strong);
      var w1 := Filter(rows[1..], weak);
      if strong(rows[0]) {
        assert RowDescriptions([rows[0]] + s1) == [rows[0].challengeDescription] + RowDescriptions(s1);
        assert RowDescriptions([rows[0]] + w1) == [rows[0].challengeDescription] + RowDescriptions(w1);
      } else if weak(rows[0]) {
        assert RowDescriptions([rows[0]] + w1) == [rows[0].challengeDescription] + RowDescriptions(w1);
      }
    }
  }

  /**
   * In every response, the completed list is contained (with multiplicity)
   * in the accepted list, both name only challenges of the user's house,
   * `done` counts the completed list and `total` the house's challenges.
   */
  lemma ProgressConsistent(rows: seq<AcceptedChallenge>, cs: seq<HouseChallenge>,
                           house: Option<HouseId>, u: UserId)
    ensures var p := ProgressOf(rows, cs, house, u);
            && multiset(p.completed) <= multiset(p.accepted)
            && (forall i :: 0 <= i < |p.accepted| ==> p.accepted[i] in HouseDescriptions(cs, house))
            && (forall i :: 0 <= i < |p.completed| ==> p.completed[i] in HouseDescriptions(cs, house))
            && p.done == |p.completed|
            && p.total == (if house.None? then 0 else |HouseChallenges(cs, house.value)|)
  {
    var descs := HouseDescriptions(cs, house);
    StrongerFilterDescriptions(rows, CompletedIn(u, descs), AcceptedIn(u, descs));
  }

  /** The position of `u`'s first open row for `desc` (`.filter(...).first()`). */
  function FirstOpen(rows: seq<AcceptedChallenge>, u: UserId, desc: string): (r: Option<nat>)
    ensures r.Some? ==> r.value < |rows| && IsOpenFor(rows[r.value], u)
                        && rows[r.value].challengeDescription == desc
                        && forall k :: 0 <= k < r.value ==>
                             !(IsOpenFor(rows[k], u) && rows[k].challengeDescription == desc)
    ensures r.None? ==> forall k :: 0 <= k < |rows| ==>
                          !(IsOpenFor(rows[k], u) && rows[k].challengeDescription == desc)
  {
    if rows == [] then None
    else if IsOpenFor(rows[0], u) && rows[0].challengeDescription == desc then Some(0)
    else match FirstOpen(rows[1..], u, desc)
      case Some(i) => Some(i + 1)
      case None => None
  }

  /**
   * `accept_challenge`: `get_or_create` on (user, description). An existing
   * row, open or completed, means "Already accepted" and no change; two or
   * more make the lookup fail; otherwise a new open row is stored with the
   * request's xp and the progress summary is returned.
   */
  method AcceptChallenge(s: Store, u: UserId, description: string, xp: int, now: Seconds)
    returns (res: AcceptOutcome)
    requires u in s.profiles
    modifies s`accepted
    ensures var existing := Count(old(s.accepted), RowFor(u, description));
            && (existing == 1 <==> res == AlreadyAccepted)
            && (existing >= 2 <==> res == MultipleRows)
            && (existing == 0 && xp < 0 <==> res == NegativeXp)
    ensures !res.ChallengeAccepted? ==> s.accepted == old(s.accepted)
    ensures res.ChallengeAccepted? ==>
              xp >= 0 && s.accepted == old(s.accepted) + [AcceptedChallenge(u, description, xp as nat, now, None)]
              && res.progress == ProgressOf(s.accepted, s.challenges, s.profiles[u].house, u)
  {
    var existing := Count(s.accepted, RowFor(u, description));
    if existing >= 2 {
      return MultipleRows;
    }
    if existing == 1 {
      return AlreadyAccepted;
    }
    if xp < 0 {
      return NegativeXp;
    }
    s.accepted := s.accepted + [AcceptedChallenge(u, description, xp as nat, now, None)];
    res := ChallengeAccepted(ProgressOf(s.accepted, s.challenges, s.profiles[u].house, u));
  }

  /** A second acceptance of the same description is always refused and changes nothing. */
  lemma AcceptTwice(rows: seq<AcceptedChallenge>, u: UserId, description: string, xp: nat, now: Seconds)
    requires Count(rows, RowFor(u, description)) == 0
    ensures Count(rows + [AcceptedChallenge(u, description, xp, now, None)], RowFor(u, description)) == 1
  {
    FilterAppend(rows, [AcceptedChallenge(u, description, xp, now, None)], RowFor(u, description));
  }

  /** The row completed by `complete_challenge`: timestamped, with the request's xp. */
  function Completed(r: AcceptedChallenge, xp: nat, now: Seconds): AcceptedChallenge {
    r.(completedAt := Some(now), xpPoints := xp)
  }

  /** Completing one open row of `u` raises `u`'s completed count by exactly one. */
  lemma {:induction false} CompletingOneRow(rows: seq<AcceptedChallenge>, i: nat, u: UserId, xp: nat,
                                            now: Seconds)
    requires i < |rows| && IsOpenFor(rows[i], u)
    ensures CompletedCount(rows[i := Completed(rows[i], xp, now)], u) == CompletedCount(rows, u) + 1
  {
    var r := rows[i := Completed(rows[i], xp, now)];
    CountFirst(r, CompletedBy(u));
    CountFirst(rows, CompletedBy(u));
    if i > 0 {
      assert r[1..] == rows[1..][i - 1 := Completed(rows[i], xp, now)];
      CompletingOneRow(rows[1..], i - 1, u, xp, now);
    } else {
      assert r[1..] == rows[1..];
    }
  }

  /**
   * `complete_challenge`: without an open row for the description, the 404
   * response and no change. Otherwise the first open row gets `completed_at`
   * and the request's xp (a negative xp fails the save and changes nothing),
   * then badges and rewards are evaluated and the progress summary returned.
   */
  method CompleteChallenge(s: Store, u: UserId, description: string, xp: int, now: Seconds)
    returns (res: CompleteOutcome)
    requires s.Valid() && u in s.profiles
    modifies s`accepted, s`userBadges, s`userRewards
    ensures s.Valid()
    ensures FirstOpen(old(s.accepted), u, description).None? <==> res == NotFoundOrDone
    ensures FirstOpen(old(s.accepted), u, description).Some? && xp < 0 <==> res == NegativeXpOnSave
    ensures !res.ChallengeCompleted? ==> unchanged(s`accepted, s`userBadges, s`userRewards)
    ensures res.ChallengeCompleted? ==> (
      FirstOpen(old(s.accepted), u, description).Some? && xp >= 0 &&
      var i := FirstOpen(old(s.accepted), u, description).value;
      && s.accepted == old(s.accepted)[i := Completed(old(s.accepted)[i], xp as nat, now)]
      && s.userBadges == BadgesAfterCheck(s.badges, u, s.profiles[u].house, s.accepted, s.activities,
                                          s.challenges, s.profiles[u].streakCount, old(s.userBadges))
      && s.userRewards == GrantRewards(s.rewards, u, HousePointsOf(s.profiles, s.houses, u),
                                       s.profiles[u].streakCount, CompletedCount(s.accepted, u),
                                       old(s.userRewards))
      && res.progress == ProgressOf(s.accepted, s.challenges, s.profiles[u].house, u))
  {
    var found := FirstOpen(s.accepted, u, description);
    if found.None? {
      return NotFoundOrDone;
    }
    if xp < 0 {
      return NegativeXpOnSave;
    }
    var i := found.value;
    s.accepted := s.accepted[i := Completed(s.accepted[i], xp as nat, now)];
    AwardBadgesThenRewards(s, u);
    res := ChallengeCompleted(ProgressOf(s.accepted, s.challenges, s.profiles[u].house, u));
  }
}
