/**
 * `check_and_award_rewards` (fitness/models.py): a reward unlocks when any
 * of its non-zero thresholds is met, and is granted once per user.
 */
module Rewards {
  import opened Seqs
  import opened Tables
  import opened Challenges

  /**
   * A threshold of 0 is falsy in the source and switches its rule off; a
   * reward unlocks when some threshold that is switched on is reached.
   */
  predicate Unlocks(r: Reward, points: int, streak: nat, completed: nat) {
    (r.unlockPoints != 0 && points >= r.unlockPoints)
    || (r.unlockStreak != 0 && streak >= r.unlockStreak)
    || (r.unlockChallenges != 0 && completed >= r.unlockChallenges)
  }

  /** A reward whose three thresholds are all 0 never unlocks, whatever the user has done. */
  lemma AllZeroNeverUnlocks(r: Reward, points: int, streak: nat, completed: nat)
    requires r.unlockPoints == 0 && r.unlockStreak == 0 && r.unlockChallenges == 0
    ensures !Unlocks(r, points, streak, completed)
  {
  }

  /** More points, a longer streak or more completed challenges never lock a reward again. */
  lemma UnlocksMonotone(r: Reward, points: int, streak: nat, completed: nat,
                        points': int, streak': nat, completed': nat)
    requires points <= points' && streak <= streak' && completed <= completed'
    ensures Unlocks(r, points, streak, completed) ==> Unlocks(r, points', streak', completed')
  {
  }

  /** One iteration of the reward loop: grant `rw` when it unlocks and is not yet held. */
  function GrantOne(rw: Reward, u: UserId, points: int, streak: nat, completed: nat,
                    grants: seq<UserReward>): seq<UserReward>
  {
    if Unlocks(rw, points, streak, completed) && UserReward(u, rw.id) !in grants
    then grants + [UserReward(u, rw.id)] else grants
  }

  /** The user-reward table after the loop over `rs`, in order. */
  function GrantRewards(rs: seq<Reward>, u: UserId, points: int, streak: nat, completed: nat,
                        grants: seq<UserReward>): seq<UserReward>
  {
    if rs == [] then grants
    else GrantOne(rs[|rs| - 1], u, points, streak, completed,
                  GrantRewards(rs[..|rs| - 1], u, points, streak, completed, grants))
  }

  lemma GrantRewardsStep(rs: seq<Reward>, i: nat, u: UserId, points: int, streak: nat,
                         completed: nat, grants: seq<UserReward>)
    requires i < |rs|
    ensures GrantRewards(rs[..i + 1], u, points, streak, completed, grants)
            == GrantOne(rs[i], u, points, streak, completed,
                        GrantRewards(rs[..i], u, points, streak, completed, grants))
  {
    assert rs[..i + 1][..i] == rs[..i];
  }

  /**
   * The loop only appends, and a row ends up in the table exactly when it
   * was there before or is `u`'s row for a reward of `rs` that unlocks.
   */
  lemma {:induction false} GrantRewardsRows(rs: seq<Reward>, u: UserId, points: int, streak: nat,
                                            completed: nat, grants: seq<UserReward>, x: UserReward)
    ensures var r := GrantRewards(rs, u, points, streak, completed, grants);
            |grants| <= |r| && r[..|grants|] == grants
            && (x in r <==> x in grants
                            || (x.user == u && exists i :: 0 <= i < |rs| && rs[i].id == x.reward
                                                           && Unlocks(rs[i], points, streak, completed)))
  {
    if rs != [] {
      var init := rs[..|rs| - 1];
      GrantRewardsRows(init, u, points, streak, completed, grants, x);
      var prev := GrantRewards(init, u, points, streak, completed, grants);
      var r := GrantRewards(rs, u, points, streak, completed, grants);
      assert prev[..|grants|] == grants;
      if r != prev {
        assert r[..|prev|] == prev;
        assert r[..|grants|] == prev[..|grants|];
      }
      if x.user == u && (exists i :: 0 <= i < |rs| && rs[i].id == x.reward
                                     && Unlocks(rs[i], points, streak, completed)) {
        var i :| 0 <= i < |rs| && rs[i].id == x.reward && Unlocks(rs[i], points, streak, completed);
        if i < |rs| - 1 {
          assert init[i] == rs[i];
        }
      }
      if x.user == u && (exists i :: 0 <= i < |init| && init[i].id == x.reward
                                     && Unlocks(init[i], points, streak, completed)) {
        var i :| 0 <= i < |init| && init[i].id == x.reward && Unlocks(init[i], points, streak, completed);
        assert rs[i] == init[i];
      }
    }
  }

  /** The loop adds no row twice, so the `unique_together` constraint holds afterwards. */
  lemma {:induction false} GrantRewardsNoDuplicates(rs: seq<Reward>, u: UserId, points: int,
                                                    streak: nat, completed: nat, grants: seq<UserReward>)
    requires NoDuplicates(grants)
    ensures NoDuplicates(GrantRewards(rs, u, points, streak, completed, grants))
  {
    if rs != [] {
      GrantRewardsNoDuplicates(rs[..|rs| - 1], u, points, streak, completed, grants);
    }
  }

  /** When every unlocked reward is already held, the loop adds nothing. */
  lemma {:induction false} GrantRewardsStable(rs: seq<Reward>, u: UserId, points: int, streak: nat,
                                              completed: nat, grants: seq<UserReward>)
    requires forall i :: 0 <= i < |rs| && Unlocks(rs[i], points, streak, completed) ==>
               UserReward(u, rs[i].id) in grants
    ensures GrantRewards(rs, u, points, streak, completed, grants) == grants
  {
    if rs != [] {
      var init := rs[..|rs| - 1];
      forall i | 0 <= i < |init| && Unlocks(init[i], points, streak, completed)
        ensures UserReward(u, init[i].id) in grants
      {
        assert init[i] == rs[i];
      }
      GrantRewardsStable(init, u, points, streak, completed, grants);
    }
  }

  /** Running the evaluator again on unchanged numbers grants nothing new. */
  lemma GrantRewardsIdempotent(rs: seq<Reward>, u: UserId, points: int, streak: nat, completed: nat,
                               grants: seq<UserReward>)
    ensures var r := GrantRewards(rs, u, points, streak, completed, grants);
            GrantRewards(rs, u, points, streak, completed, r) == r
  {
    var r := GrantRewards(rs, u, points, streak, completed, grants);
    forall i | 0 <= i < |rs| && Unlocks(rs[i], points, streak, completed)
      ensures UserReward(u, rs[i].id) in r
    {
      GrantRewardsRows(rs, u, points, streak, completed, grants, UserReward(u, rs[i].id));
    }
    GrantRewardsStable(rs, u, points, streak, completed, r);
  }

  /** One iteration of the reward loop, with its existence check. */
  method GrantReward(s: Store, u: UserId, rw: Reward, points: int, streak: nat, completed: nat)
    modifies s`userRewards
    ensures s.userRewards == GrantOne(rw, u, points, streak, completed, old(s.userRewards))
  {
    if (rw.unlockPoints != 0 && points >= rw.unlockPoints)
       || (rw.unlockStreak != 0 && streak >= rw.unlockStreak)
       || (rw.unlockChallenges != 0 && completed >= rw.unlockChallenges)
    {
      if UserReward(u, rw.id) !in s.userRewards {
        s.userRewards := s.userRewards + [UserReward(u, rw.id)];
      }
    }
  }

  /**
   * `check_and_award_rewards(user)`: the house's points (0 without a house),
   * the cached streak and the completed count, checked against every reward.
   */
  method CheckAndAwardRewards(s: Store, u: UserId)
    requires s.Valid() && u in s.profiles
    modifies s`userRewards
    ensures s.Valid()
    ensures s.userRewards == GrantRewards(s.rewards, u, HousePointsOf(s.profiles, s.houses, u),
                                          s.profiles[u].streakCount,
                                          CompletedCount(s.accepted, u), old(s.userRewards))
  {
    var points := HousePointsOf(s.profiles, s.houses, u);
    var streak := s.profiles[u].streakCount;
    var completed := CompletedCount(s.accepted, u);
    var rs := s.rewards;
    ghost var g0 := s.userRewards;
    for i := 0 to |rs|
      invariant s.userRewards == GrantRewards(rs[..i], u, points, streak, completed, g0)
    {
      GrantRewardsStep(rs, i, u, points, streak, completed, g0);
      GrantReward(s, u, rs[i], points, streak, completed);
    }
    assert rs[..|rs|] == rs;
    GrantRewardsNoDuplicates(rs, u, points, streak, completed, g0);
  }
}
