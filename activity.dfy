/**
 * `FitnessActivity.save` and the house-delete hook (fitness/models.py):
 * the fixed pipeline run on every logged activity, and what deleting a
 * house removes.
 */
module ActivitySave {
  import opened Wrappers
  import opened Seqs
  import opened Tables
  import opened Streak
  import opened Challenges
  import opened Badges
  import opened Rewards

  /** Adding points to one house keeps every house's id, and so its position. */
  lemma {:induction false} AddPointsKeepsIndex(hs: seq<House>, h: HouseId, delta: int, id: HouseId)
    ensures HouseIndex(AddPoints(hs, h, delta), id) == HouseIndex(hs, id)
  {
    if hs != [] {
      var r := AddPoints(hs, h, delta);
      assert r[1..] == AddPoints(hs[1..], h, delta);
      AddPointsKeepsIndex(hs[1..], h, delta, id);
    }
  }

  /**
   * After adding `delta` to house `h`, the members of `h` see their house's
   * points up by exactly `delta`, and every other user sees the same points.
   */
  lemma AddPointsEffect(profiles: map<UserId, Profile>, hs: seq<House>, h: HouseId, delta: int, v: UserId)
    requires HasHouse(hs, h)
    ensures v in profiles && profiles[v].house == Some(h) ==>
              HousePointsOf(profiles, AddPoints(hs, h, delta), v) == HousePointsOf(profiles, hs, v) + delta
    ensures !(v in profiles && profiles[v].house == Some(h)) ==>
              HousePointsOf(profiles, AddPoints(hs, h, delta), v) == HousePointsOf(profiles, hs, v)
  {
    if v in profiles && profiles[v].house.Some? {
      AddPointsKeepsIndex(hs, h, delta, profiles[v].house.value);
    }
  }

  /** Adding points keeps the houses in primary-key order. */
  lemma AddPointsKeepsOrder(hs: seq<House>, nextId: nat, h: HouseId, delta: int)
    requires HousesOrdered(hs, nextId)
    ensures HousesOrdered(AddPoints(hs, h, delta), nextId)
  {
  }

  /** Profiles that keep their houses keep pointing at houses that exist. */
  lemma AddPointsKeepsProfiles(profiles: map<UserId, Profile>, hs: seq<House>, h: HouseId, delta: int)
    requires ProfilesHaveHouses(profiles, hs)
    ensures ProfilesHaveHouses(profiles, AddPoints(hs, h, delta))
  {
    forall u | u in profiles && profiles[u].house.Some?
      ensures HasHouse(AddPoints(hs, h, delta), profiles[u].house.value)
    {
      AddPointsKeepsIndex(hs, h, delta, profiles[u].house.value);
    }
  }

  /** The streak cached for `u` once the activity is stored. */
  function StreakAfter(acts: seq<Activity>, u: UserId): nat {
    StreakOf(UserDatesNewestFirst(acts, u))
  }

  /**
   * Once an activity of `u` is stored, `u` has a streak of at least one
   * day, and at most as many days as `u` has activities.
   */
  lemma StreakAfterSave(acts: seq<Activity>, a: Activity)
    ensures 1 <= StreakAfter(acts + [a], a.user) <= |Filter(acts + [a], OwnedBy(a.user))|
  {
    var all := acts + [a];
    assert all[|acts|] == a;
    var mine := Filter(all, OwnedBy(a.user));
    FilterMembers(all, OwnedBy(a.user));
    assert a in mine;
    var dates := UserDatesNewestFirst(all, a.user);
    assert |DatesOf(mine)| == |mine|;
    assert |multiset(dates)| == |multiset(DatesOf(mine))|;
    assert dates != [];
  }

  /** The profile of `u` with the streak recomputed over `acts`. */
  function WithStreak(profiles: map<UserId, Profile>, u: UserId, acts: seq<Activity>): map<UserId, Profile>
    requires u in profiles
  {
    profiles[u := profiles[u].(streakCount := StreakAfter(acts, u))]
  }

  /** The houses after the activity's points (one per ten minutes) are added. */
  function HousesAfterSave(hs: seq<House>, p: Profile, durationMinutes: nat): seq<House> {
    match p.house
    case None => hs
    case Some(h) => AddPoints(hs, h, durationMinutes / 10)
  }

  /**
   * Saving an activity: store it; add `duration // 10` to the user's house;
   * recompute the streak over all of the user's activities (the new one
   * included) and cache it on the profile; complete the open challenges the
   * activity matches; then grant badges (which read the new streak) and
   * rewards (which read the new house points). Nothing else changes.
   */
  method SaveActivity(s: Store, a: Activity, now: Seconds)
    requires s.Valid() && a.user in s.profiles
    modifies s`activities, s`houses, s`profiles, s`accepted, s`userBadges, s`userRewards
    ensures s.Valid()
    ensures s.activities == old(s.activities) + [a]
    ensures s.houses == HousesAfterSave(old(s.houses), old(s.profiles[a.user]), a.durationMinutes)
    ensures s.profiles == WithStreak(old(s.profiles), a.user, s.activities)
    ensures s.accepted == AcceptedAfterMatch(old(s.accepted), a.user, old(s.profiles[a.user].house),
                                             a.activityType, s.challenges, now)
    ensures s.userBadges == BadgesAfterCheck(s.badges, a.user, old(s.profiles[a.user].house), s.accepted,
                                             s.activities, s.challenges, StreakAfter(s.activities, a.user),
                                             old(s.userBadges))
    ensures s.userRewards == GrantRewards(s.rewards, a.user, HousePointsOf(s.profiles, s.houses, a.user),
                                          StreakAfter(s.activities, a.user),
                                          CompletedCount(s.accepted, a.user), old(s.userRewards))
  {
    RecordActivity(s, a);
    ApplyRules(s, a.user, a.activityType, now);
  }

  /**
   * The last three steps of the save, on the stored activity and the cached
   * streak: complete the matching open challenges, then grant badges, then
   * rewards.
   */
  method ApplyRules(s: Store, u: UserId, activityType: string, now: Seconds)
    requires s.Valid() && u in s.profiles
    modifies s`accepted, s`userBadges, s`userRewards
    ensures s.Valid()
    ensures s.accepted == AcceptedAfterMatch(old(s.accepted), u, s.profiles[u].house, activityType, s.challenges, now)
    ensures s.userBadges == BadgesAfterCheck(s.badges, u, s.profiles[u].house, s.accepted, s.activities,
                                             s.challenges, s.profiles[u].streakCount, old(s.userBadges))
    ensures s.userRewards == GrantRewards(s.rewards, u, HousePointsOf(s.profiles, s.houses, u),
                                          s.profiles[u].streakCount,
                                          CompletedCount(s.accepted, u), old(s.userRewards))
  {
    CompleteMatchingChallenges(s, u, activityType, now);
    AwardBadgesThenRewards(s, u);
  }

  /**
   * `check_and_award_badges(user)` followed by `check_and_award_rewards(user)`,
   * as both the save and `complete_challenge` run them.
   */
  method AwardBadgesThenRewards(s: Store, u: UserId)
    requires s.Valid() && u in s.profiles
    modifies s`userBadges, s`userRewards
    ensures s.Valid()
    ensures s.userBadges == BadgesAfterCheck(s.badges, u, s.profiles[u].house, s.accepted, s.activities,
                                             s.challenges, s.profiles[u].streakCount, old(s.userBadges))
    ensures s.userRewards == GrantRewards(s.rewards, u, HousePointsOf(s.profiles, s.houses, u),
                                          s.profiles[u].streakCount,
                                          CompletedCount(s.accepted, u), old(s.userRewards))
  {
    CheckAndAwardBadges(s, u);
    CheckAndAwardRewards(s, u);
  }

  /**
   * The first three steps of the save: store the activity, add its points
   * to the user's house, and cache the recomputed streak on the profile.
   */
  method RecordActivity(s: Store, a: Activity)
    requires s.Valid() && a.user in s.profiles
    modifies s`activities, s`houses, s`profiles
    ensures s.Valid()
    ensures s.activities == old(s.activities) + [a]
    ensures s.houses == HousesAfterSave(old(s.houses), old(s.profiles[a.user]), a.durationMinutes)
    ensures s.profiles == WithStreak(old(s.profiles), a.user, s.activities)
  {
    s.activities := s.activities + [a];
    AddDurationPoints(s, a);
    CacheStreak(s, a.user);
  }

  /** `profile.house.points += duration_minutes // 10` when the user has a house. */
  method AddDurationPoints(s: Store, a: Activity)
    requires s.Valid() && a.user in s.profiles
    modifies s`houses
    ensures s.Valid()
    ensures s.houses == HousesAfterSave(old(s.houses), s.profiles[a.user], a.durationMinutes)
  {
    if s.profiles[a.user].house.Some? {
      var h := s.profiles[a.user].house.value;
      AddPointsKeepsOrder(s.houses, s.nextHouseId, h, a.durationMinutes / 10);
      AddPointsKeepsProfiles(s.profiles, s.houses, h, a.durationMinutes / 10);
      s.houses := AddPoints(s.houses, h, a.durationMinutes / 10);
    }
  }

  /** `user_profile.streak_count = calculate_streak(user)`. */
  method CacheStreak(s: Store, u: UserId)
    requires s.Valid() && u in s.profiles
    modifies s`profiles
    ensures s.Valid()
    ensures s.profiles == WithStreak(old(s.profiles), u, s.activities)
  {
    var streak := CalculateStreak(s.activities, u);
    s.profiles := s.profiles[u := s.profiles[u].(streakCount := streak)];
  }

  /**
   * Saving raises the user's house points by exactly `duration // 10` and
   * leaves every user of another house, or of none, with the same points.
   */
  lemma SavePoints(profiles: map<UserId, Profile>, hs: seq<House>, a: Activity, v: UserId)
    requires a.user in profiles && ProfilesHaveHouses(profiles, hs)
    ensures var after := HousesAfterSave(hs, profiles[a.user], a.durationMinutes);
            var h := profiles[a.user].house;
            (h.Some? && v in profiles && profiles[v].house == h ==>
               HousePointsOf(profiles, after, v) == HousePointsOf(profiles, hs, v) + a.durationMinutes / 10)
            && (!(h.Some? && v in profiles && profiles[v].house == h) ==>
               HousePointsOf(profiles, after, v) == HousePointsOf(profiles, hs, v))
  {
    if profiles[a.user].house.Some? {
      AddPointsEffect(profiles, hs, profiles[a.user].house.value, a.durationMinutes / 10, v);
    }
  }

  // ---- Deleting a house ----

  /** The row survives the hook: its user is not a member of house `h`. */
  function NotMemberRow(profiles: map<UserId, Profile>, h: HouseId): AcceptedChallenge -> bool {
    (r: AcceptedChallenge) => !(r.user in profiles && profiles[r.user].house == Some(h))
  }

  /** Selects the accepted-challenge rows of user `v`. */
  function RowOf(v: UserId): AcceptedChallenge -> bool {
    (r: AcceptedChallenge) => r.user == v
  }

  function NotChallengeOf(h: HouseId): HouseChallenge -> bool {
    (c: HouseChallenge) => c.house != h
  }

  function NotBadgeOf(h: HouseId): HouseBadge -> bool {
    (b: HouseBadge) => b.house != h
  }

  /** The user-badge row survives: its badge does not belong to house `h`. */
  function BadgeRowKept(bs: seq<HouseBadge>, h: HouseId): UserBadge -> bool {
    (ub: UserBadge) => !(exists i :: 0 <= i < |bs| && bs[i].id == ub.badge && bs[i].house == h)
  }

  function NotSuggestionFor(h: HouseId): ChallengeSuggestion -> bool {
    (c: ChallengeSuggestion) => c.house != h
  }

  function NotHouse(h: HouseId): House -> bool {
    (x: House) => x.id != h
  }

  /** `on_delete=SET_NULL` on `UserProfile.house`. */
  function Unhoused(profiles: map<UserId, Profile>, h: HouseId): (r: map<UserId, Profile>)
    ensures r.Keys == profiles.Keys
    ensures forall u :: u in r ==> r[u].house != Some(h)
  {
    map u | u in profiles :: if profiles[u].house == Some(h) then profiles[u].(house := None) else profiles[u]
  }

  /**
   * The hook removes every row of every member of `h`, whatever challenge
   * it names, and leaves the rows of every other user exactly as they were.
   */
  lemma {:induction false} HookRemovesMembersRows(rows: seq<AcceptedChallenge>, profiles: map<UserId, Profile>,
                                           h: HouseId, v: UserId)
    ensures v in profiles && profiles[v].house == Some(h) ==>
              Filter(Filter(rows, NotMemberRow(profiles, h)), RowOf(v)) == []
    ensures !(v in profiles && profiles[v].house == Some(h)) ==>
              Filter(Filter(rows, NotMemberRow(profiles, h)), RowOf(v)) == Filter(rows, RowOf(v))
  {
    if rows != [] {
      HookRemovesMembersRows(rows[1..], profiles, h, v);
    }
  }

  /** Removing elements keeps a sequence free of repeats. */
  lemma {:induction false} FilterNoDuplicates<T>(s: seq<T>, p: T -> bool)
    requires NoDuplicates(s)
    ensures NoDuplicates(Filter(s, p))
  {
    if s != [] {
      FilterNoDuplicates(s[1..], p);
      FilterMembers(s[1..], p);
      assert s[0] !in s[1..];
      assert s[0] !in Filter(s[1..], p);
    }
  }

  /** Removing houses keeps the rest in primary-key order. */
  lemma {:induction false} FilterKeepsOrder(hs: seq<House>, nextId: nat, p: House -> bool)
    requires HousesOrdered(hs, nextId)
    ensures HousesOrdered(Filter(hs, p), nextId)
  {
    if hs != [] {
      FilterKeepsOrder(hs[1..], nextId, p);
      FilterMembers(hs[1..], p);
      var rest := Filter(hs[1..], p);
      forall j | 0 <= j < |rest| ensures hs[0].id < rest[j].id {
        var k :| 0 <= k < |hs[1..]| && hs[1..][k] == rest[j];
        assert hs[k + 1] == rest[j];
      }
      if p(hs[0]) {
        ConsKeepsOrder(hs[0], rest, nextId);
      }
    }
  }

  /** A house whose id is below every id that follows it can be put in front. */
  lemma ConsKeepsOrder(h: House, rest: seq<House>, nextId: nat)
    requires HousesOrdered(rest, nextId) && h.id < nextId
    requires forall j :: 0 <= j < |rest| ==> h.id < rest[j].id
    ensures HousesOrdered([h] + rest, nextId)
  {
    var r := [h] + rest;
    forall i, j | 0 <= i < j < |r| ensures r[i].id < r[j].id {
      assert r[j] == rest[j - 1];
      if i > 0 { assert r[i] == rest[i - 1]; }
    }
  }

  /** Every house other than `h` is still there after `h` is removed. */
  lemma RemoveHouseKeepsOthers(hs: seq<House>, h: HouseId, id: HouseId)
    requires HasHouse(hs, id) && id != h
    ensures HasHouse(Filter(hs, NotHouse(h)), id)
  {
    var i := HouseIndex(hs, id).value;
    assert NotHouse(h)(hs[i]);
    var r := Filter(hs, NotHouse(h));
    FilterMembers(hs, NotHouse(h));
    var j :| 0 <= j < |r| && r[j] == hs[i];
  }

  /**
   * Deleting house `h`: the hook first deletes the accepted challenges of
   * its members; then the database cascades to its challenges, its badges
   * and their user-badge rows, and its suggestions; its members' profiles
   * lose their house; the house itself goes.
   */
  method DeleteHouse(s: Store, h: HouseId)
    requires s.Valid()
    modifies s`accepted, s`challenges, s`badges, s`userBadges, s`suggestions, s`profiles, s`houses
    ensures s.Valid()
    ensures s.accepted == Filter(old(s.accepted), NotMemberRow(old(s.profiles), h))
    ensures s.challenges == Filter(old(s.challenges), NotChallengeOf(h))
    ensures s.badges == Filter(old(s.badges), NotBadgeOf(h))
    ensures s.userBadges == Filter(old(s.userBadges), BadgeRowKept(old(s.badges), h))
    ensures s.suggestions == Filter(old(s.suggestions), NotSuggestionFor(h))
    ensures s.profiles == Unhoused(old(s.profiles), h)
    ensures s.houses == Filter(old(s.houses), NotHouse(h))
  {
    DeleteHouseRows(s, h);
    DeleteBadgesOf(s, h);
    RemoveHouse(s, h);
  }

  /**
   * The `pre_delete` hook `delete_accepted_challenges_on_house_delete`, then
   * the cascades to the house's challenges and suggestions.
   */
  method DeleteHouseRows(s: Store, h: HouseId)
    modifies s`accepted, s`challenges, s`suggestions
    ensures s.accepted == Filter(old(s.accepted), NotMemberRow(s.profiles, h))
    ensures s.challenges == Filter(old(s.challenges), NotChallengeOf(h))
    ensures s.suggestions == Filter(old(s.suggestions), NotSuggestionFor(h))
  {
    s.accepted := Filter(s.accepted, NotMemberRow(s.profiles, h));
    s.challenges := Filter(s.challenges, NotChallengeOf(h));
    s.suggestions := Filter(s.suggestions, NotSuggestionFor(h));
  }

  /** The cascade to the house's badges and the user-badge rows that grant them. */
  method DeleteBadgesOf(s: Store, h: HouseId)
    requires s.Valid()
    modifies s`badges, s`userBadges
    ensures s.Valid()
    ensures s.badges == Filter(old(s.badges), NotBadgeOf(h))
    ensures s.userBadges == Filter(old(s.userBadges), BadgeRowKept(old(s.badges), h))
  {
    FilterNoDuplicates(s.userBadges, BadgeRowKept(s.badges, h));
    s.userBadges := Filter(s.userBadges, BadgeRowKept(s.badges, h));
    FilterKeepsBadgeIds(s.badges, NotBadgeOf(h));
    s.badges := Filter(s.badges, NotBadgeOf(h));
  }

  /** The house row goes; its members' profiles get no house (`SET_NULL`). */
  method RemoveHouse(s: Store, h: HouseId)
    requires s.Valid()
    modifies s`profiles, s`houses
    ensures s.Valid()
    ensures s.profiles == Unhoused(old(s.profiles), h)
    ensures s.houses == Filter(old(s.houses), NotHouse(h))
  {
    var newProfiles := Unhoused(s.profiles, h);
    var newHouses := Filter(s.houses, NotHouse(h));
    FilterKeepsOrder(s.houses, s.nextHouseId, NotHouse(h));
    forall u | u in newProfiles && newProfiles[u].house.Some?
      ensures HasHouse(newHouses, newProfiles[u].house.value)
    {
      RemoveHouseKeepsOthers(s.houses, h, newProfiles[u].house.value);
    }
    s.profiles := newProfiles;
    s.houses := newHouses;
  }

  /** Removing badges keeps the remaining ids distinct. */
  lemma {:induction false} FilterKeepsBadgeIds(bs: seq<HouseBadge>, p: HouseBadge -> bool)
    requires BadgeIdsUnique(bs)
    ensures BadgeIdsUnique(Filter(bs, p))
  {
    if bs != [] {
      FilterKeepsBadgeIds(bs[1..], p);
      FilterMembers(bs[1..], p);
      var rest := Filter(bs[1..], p);
      forall j | 0 <= j < |rest| ensures bs[0].id != rest[j].id {
        var k :| 0 <= k < |bs[1..]| && bs[1..][k] == rest[j];
        assert bs[k + 1] == rest[j];
      }
    }
  }
}
