/**
 * `calculate_streak` (fitness/utils/agent_logic.py): the number of
 * consecutive days, counting back from the newest logged date, on which the
 * user logged an activity.
 */
module Streak {
  import opened Seqs
  import opened Tables

  function DayKey(d: Day): int { d }

  /** Selects the activities of user `u`. */
  function OwnedBy(u: UserId): Activity -> bool {
    (a: Activity) => a.user == u
  }

  function DatesOf(acts: seq<Activity>): (ds: seq<Day>)
    ensures |ds| == |acts|
    ensures forall i :: 0 <= i < |acts| ==> ds[i] == acts[i].date
  {
    seq(|acts|, i requires 0 <= i < |acts| => acts[i].date)
  }

  /**
   * The dates of `u`'s activities, newest first
   * (`FitnessActivity.objects.filter(user=u).order_by('-date')`).
   */
  function UserDatesNewestFirst(acts: seq<Activity>, u: UserId): (ds: seq<Day>)
    ensures SortedDesc(ds, DayKey)
    ensures multiset(ds) == multiset(DatesOf(Filter(acts, OwnedBy(u))))
  {
    SortDesc(DatesOf(Filter(acts, OwnedBy(u))), DayKey)
  }

  /**
   * The streak of a list of dates: 0 for no dates; otherwise one more for
   * each following date that is exactly one day before its predecessor, up
   * to the first one that is not.
   */
  function StreakOf(dates: seq<Day>): (k: nat)
    ensures k <= |dates|
    ensures k == 0 <==> dates == []
  {
    if |dates| == 0 then 0
    else if |dates| == 1 || dates[0] - dates[1] != 1 then 1
    else 1 + StreakOf(dates[1..])
  }

  /**
   * What a streak of k means: the k newest dates are d0, d0 - 1, ...,
   * d0 - k + 1, where d0 is the newest logged date (not today), and the next
   * date, if any, breaks the run. A second activity on the newest date
   * therefore ends the streak at 1.
   */
  lemma {:induction false} StreakIsLeadingRun(dates: seq<Day>)
    requires dates != []
    ensures var k := StreakOf(dates);
            1 <= k
            && (forall i :: 0 <= i < k ==> dates[i] == dates[0] - i)
            && (k < |dates| ==> dates[k] != dates[0] - k)
    ensures |dates| >= 2 && dates[1] == dates[0] ==> StreakOf(dates) == 1
  {
    if |dates| >= 2 && dates[0] - dates[1] == 1 {
      StreakIsLeadingRun(dates[1..]);
      var k := StreakOf(dates);
      assert k == 1 + StreakOf(dates[1..]);
      forall i | 1 <= i < k ensures dates[i] == dates[0] - i {
        assert dates[i] == dates[1..][i - 1];
      }
      if k < |dates| {
        assert dates[k] == dates[1..][k - 1];
      }
    }
  }

  /** The leading run condition determines the streak: no other length satisfies it. */
  lemma LeadingRunIsStreak(dates: seq<Day>, k: nat)
    requires 1 <= k <= |dates|
    requires forall i :: 0 <= i < k ==> dates[i] == dates[0] - i
    requires k < |dates| ==> dates[k] != dates[0] - k
    ensures StreakOf(dates) == k
  {
    StreakIsLeadingRun(dates);
  }

  /** A sequence without repeated elements has as many distinct elements as entries. */
  lemma {:induction false} DistinctCard(s: seq<Day>)
    requires forall i, j :: 0 <= i < j < |s| ==> s[i] != s[j]
    ensures |set x | x in s| == |s|
  {
    if s != [] {
      DistinctCard(s[1..]);
      assert (set x | x in s) == {s[0]} + (set x | x in s[1..]);
      assert s[0] !in (set x | x in s[1..]);
    }
  }

  /** The streak never exceeds the number of distinct dates logged. */
  lemma StreakAtMostDistinctDates(dates: seq<Day>)
    ensures StreakOf(dates) <= |set d | d in dates|
  {
    if dates != [] {
      StreakIsLeadingRun(dates);
      var k := StreakOf(dates);
      var run := dates[..k];
      DistinctCard(run);
      assert (set d | d in run) <= (set d | d in dates);
      SubsetCard(set d | d in run, set d | d in dates);
    }
  }

  lemma SubsetCard(a: set<Day>, b: set<Day>)
    requires a <= b
    ensures |a| <= |b|
  {
    assert b == a + (b - a);
  }

  /**
   * `calculate_streak(user)`: walks the dates newest first, counting while
   * each is exactly one day before the previous one.
   */
  method CalculateStreak(acts: seq<Activity>, u: UserId) returns (streak: nat)
    ensures streak == StreakOf(UserDatesNewestFirst(acts, u))
  {
    var dates := UserDatesNewestFirst(acts, u);
    if |dates| == 0 {
      return 0;
    }
    streak := 1;
    var previous := dates[0];
    var i := 1;
    while i < |dates|
      invariant 1 <= i <= |dates|
      invariant streak == i && previous == dates[i - 1]
      invariant StreakOf(dates) == i - 1 + StreakOf(dates[i - 1..])
    {
      if previous - dates[i] == 1 {
        assert dates[i - 1..][1..] == dates[i..];
        streak := streak + 1;
        previous := dates[i];
        i := i + 1;
      } else {
        break;
      }
    }
  }
}
