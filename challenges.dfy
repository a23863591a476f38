/**
 * Challenge matching on activity save (fitness/models.py, `FitnessActivity.save`):
 * which house challenges an activity type matches, and which accepted
 * challenge rows that completes.
 */
module Challenges {
  import opened Wrappers
  import opened Seqs
  import opened Text
  import opened Tables

  /** `activity_type.strip().lower()`. */
  function NormalizeType(t: string): string {
    Lower(Strip(t))
  }

  /** `challenge.canonical_activity` is truthy: present and not the empty string. */
  predicate HasCanonicalTag(c: HouseChallenge) {
    c.canonicalActivity.Some? && c.canonicalActivity.value != ""
  }

  /**
   * Whether the normalised activity type `act` matches challenge `c`: exact
   * equality with the normalised tag when there is one, otherwise either
   * lower-cased string containing the other.
   */
  predicate Matches(act: string, c: HouseChallenge) {
    if HasCanonicalTag(c) then act == NormalizeType(c.canonicalActivity.value)
    else Contains(Lower(c.description), act) || Contains(act, Lower(c.description))
  }

  /**
   * A tagged challenge is decided by its tag alone: the match holds exactly
   * when both sides agree after strip and lower-case, whatever the
   * description says.
   */
  lemma CanonicalTagDecides(t: string, c: HouseChallenge, otherDescription: string)
    requires HasCanonicalTag(c)
    ensures Matches(NormalizeType(t), c) <==> Lower(Strip(t)) == Lower(Strip(c.canonicalActivity.value))
    ensures Matches(NormalizeType(t), c) <==> Matches(NormalizeType(t), c.(description := otherDescription))
  {
  }

  /**
   * Without a tag the heuristic is symmetric in its two strings and always
   * accepts a challenge whose lower-cased description is the activity type.
   */
  lemma UntaggedMatchIsSubstring(act: string, c: HouseChallenge)
    requires !HasCanonicalTag(c)
    ensures Matches(act, c) <==> Contains(Lower(c.description), act) || Contains(act, Lower(c.description))
    ensures Lower(c.description) == act ==> Matches(act, c)
    ensures act == "" ==> Matches(act, c)
  {
    ContainsBasics(act, Lower(c.description));
  }

  /** Selects the challenges of house `h` (`house.challenges.all()`). */
  function OfHouse(h: HouseId): HouseChallenge -> bool {
    (c: HouseChallenge) => c.house == h
  }

  function HouseChallenges(cs: seq<HouseChallenge>, h: HouseId): seq<HouseChallenge> {
    Filter(cs, OfHouse(h))
  }

  /** Some challenge of `cs` with description `desc` matches `act`. */
  predicate SomeMatch(act: string, cs: seq<HouseChallenge>, desc: string) {
    exists i :: 0 <= i < |cs| && cs[i].description == desc && Matches(act, cs[i])
  }

  /** The row is `u`'s and still open. */
  predicate IsOpenFor(r: AcceptedChallenge, u: UserId) {
    r.user == u && r.completedAt.None?
  }

  /** One accepted-challenge row after the activity has been matched. */
  function AfterMatchRow(r: AcceptedChallenge, u: UserId, act: string, cs: seq<HouseChallenge>,
                         now: Seconds): AcceptedChallenge
  {
    if IsOpenFor(r, u) && SomeMatch(act, cs, r.challengeDescription)
    then r.(completedAt := Some(now)) else r
  }

  /**
   * The accepted-challenge table after the activity: every open row of `u`
   * whose description is that of a matching challenge is completed at `now`.
   */
  function CompleteMatched(rows: seq<AcceptedChallenge>, u: UserId, act: string,
                           cs: seq<HouseChallenge>, now: Seconds): (r: seq<AcceptedChallenge>)
    ensures |r| == |rows|
  {
    seq(|rows|, i requires 0 <= i < |rows| => AfterMatchRow(rows[i], u, act, cs, now))
  }

  /** `AcceptedChallenge.objects.filter(user=u, challenge_description=desc, completed_at__isnull=True).update(completed_at=now)`. */
  function CompleteOpen(rows: seq<AcceptedChallenge>, u: UserId, desc: string, now: Seconds)
    : (r: seq<AcceptedChallenge>)
    ensures |r| == |rows|
  {
    seq(|rows|, i requires 0 <= i < |rows| =>
      if IsOpenFor(rows[i], u) && rows[i].challengeDescription == desc
      then rows[i].(completedAt := Some(now)) else rows[i])
  }

  /**
   * What the activity does to the accepted challenges: rows of other users,
   * completed rows and rows whose description no matching challenge has are
   * untouched; the others are completed at `now` with nothing else changed.
   * When `u` has no open row nothing changes at all.
   */
  lemma CompleteMatchedEffect(rows: seq<AcceptedChallenge>, u: UserId, act: string,
                              cs: seq<HouseChallenge>, now: Seconds)
    ensures var r := CompleteMatched(rows, u, act, cs, now);
            forall i :: 0 <= i < |rows| ==>
              (r[i] != rows[i] <==> IsOpenFor(rows[i], u) && SomeMatch(act, cs, rows[i].challengeDescription))
              && r[i] == rows[i].(completedAt := r[i].completedAt)
              && (r[i] != rows[i] ==> r[i].completedAt == Some(now))
    ensures (forall i :: 0 <= i < |rows| ==> !IsOpenFor(rows[i], u)) ==>
              CompleteMatched(rows, u, act, cs, now) == rows
  {
  }

  /** Selects `u`'s completed rows. */
  function CompletedBy(u: UserId): AcceptedChallenge -> bool {
    (r: AcceptedChallenge) => r.user == u && r.completedAt.Some?
  }

  /** `AcceptedChallenge.objects.filter(user=u, completed_at__isnull=False).count()`. */
  function CompletedCount(rows: seq<AcceptedChallenge>, u: UserId): nat {
    Count(rows, CompletedBy(u))
  }

  /** Selects `u`'s open rows that a matching challenge completes. */
  function OpenMatching(u: UserId, act: string, cs: seq<HouseChallenge>): AcceptedChallenge -> bool {
    (r: AcceptedChallenge) => IsOpenFor(r, u) && SomeMatch(act, cs, r.challengeDescription)
  }

  /**
   * The completed count of `u` grows by exactly the number of open rows the
   * activity completes; every other user's count stays the same.
   */
  lemma {:induction false} CompletedCountAfterMatch(rows: seq<AcceptedChallenge>, u: UserId, act: string,
                                                     cs: seq<HouseChallenge>, now: Seconds, v: UserId)
    ensures CompletedCount(CompleteMatched(rows, u, act, cs, now), u)
            == CompletedCount(rows, u) + Count(rows, OpenMatching(u, act, cs))
    ensures v != u ==> CompletedCount(CompleteMatched(rows, u, act, cs, now), v) == CompletedCount(rows, v)
  {
    if rows != [] {
      var r := CompleteMatched(rows, u, act, cs, now);
      assert r[1..] == CompleteMatched(rows[1..], u, act, cs, now);
      CompletedCountAfterMatch(rows[1..], u, act, cs, now, v);
      CountFirst(r, CompletedBy(u));
      CountFirst(rows, CompletedBy(u));
      CountFirst(rows, OpenMatching(u, act, cs));
      CountFirst(r, CompletedBy(v));
      CountFirst(rows, CompletedBy(v));
    }
  }

  lemma NoChallengesNoMatch(rows: seq<AcceptedChallenge>, u: UserId, act: string, now: Seconds)
    ensures CompleteMatched(rows, u, act, [], now) == rows
  {
  }

  /** One more challenge in the loop: its bulk update extends the completed set. */
  lemma MatchStep(rows: seq<AcceptedChallenge>, u: UserId, act: string, cs: seq<HouseChallenge>,
                  i: nat, now: Seconds)
    requires i < |cs|
    ensures Matches(act, cs[i]) ==>
      CompleteOpen(CompleteMatched(rows, u, act, cs[..i], now), u, cs[i].description, now)
      == CompleteMatched(rows, u, act, cs[..i + 1], now)
    ensures !Matches(act, cs[i]) ==>
      CompleteMatched(rows, u, act, cs[..i], now) == CompleteMatched(rows, u, act, cs[..i + 1], now)
  {
    forall d ensures SomeMatch(act, cs[..i + 1], d) <==>
                     SomeMatch(act, cs[..i], d) || (cs[i].description == d && Matches(act, cs[i]))
    {
      if SomeMatch(act, cs[..i + 1], d) {
        var j :| 0 <= j < i + 1 && cs[..i + 1][j].description == d && Matches(act, cs[..i + 1][j]);
        if j < i {
          assert cs[..i][j] == cs[j];
        }
      }
      if SomeMatch(act, cs[..i], d) {
        var j :| 0 <= j < i && cs[..i][j].description == d && Matches(act, cs[..i][j]);
        assert cs[..i + 1][j] == cs[j];
      }
      if cs[i].description == d && Matches(act, cs[i]) {
        assert cs[..i + 1][i] == cs[i];
      }
    }
  }

  /** The accepted-challenge table after the matching step, for a user whose house is `house`. */
  function AcceptedAfterMatch(rows: seq<AcceptedChallenge>, u: UserId, house: Option<HouseId>,
                              activityType: string, cs: seq<HouseChallenge>, now: Seconds): seq<AcceptedChallenge> {
    match house
    case None => rows
    case Some(h) => CompleteMatched(rows, u, NormalizeType(activityType), HouseChallenges(cs, h), now)
  }

  /**
   * The matching step of `FitnessActivity.save`: for each challenge of the
   * user's house, if it matches the activity, complete the user's open rows
   * with its description. A user without a house changes nothing.
   */
  method CompleteMatchingChallenges(s: Store, u: UserId, activityType: string, now: Seconds)
    requires s.Valid() && u in s.profiles
    modifies s`accepted
    ensures s.Valid()
    ensures s.accepted == AcceptedAfterMatch(old(s.accepted), u, s.profiles[u].house, activityType, s.challenges, now)
  {
    if s.profiles[u].house.None? {
      return;
    }
    var h := s.profiles[u].house.value;
    var act := NormalizeType(activityType);
    var cs := HouseChallenges(s.challenges, h);
    ghost var rows0 := s.accepted;
    NoChallengesNoMatch(rows0, u, act, now);
    assert cs[..0] == [];
    var i := 0;
    while i < |cs|
      invariant 0 <= i <= |cs|
      invariant s.accepted == CompleteMatched(rows0, u, act, cs[..i], now)
    {
      var c := cs[i];
      MatchStep(rows0, u, act, cs, i, now);
      if HasCanonicalTag(c) {
        if act == NormalizeType(c.canonicalActivity.value) {
          s.accepted := CompleteOpen(s.accepted, u, c.description, now);
        }
      } else if Contains(Lower(c.description), act) || Contains(act, Lower(c.description)) {
        s.accepted := CompleteOpen(s.accepted, u, c.description, now);
      }
      i := i + 1;
    }
    assert cs[..|cs|] == cs;
  }
}
