/**
 * `check_and_award_badges` (fitness/models.py): which house badges a user
 * has earned, and the grant rows the evaluator adds.
 */
module Badges {
  import opened Wrappers
  import opened Seqs
  import opened Text
  import opened Tables
  import opened Challenges

  /** The two threshold rules a badge name can encode. */
  datatype NameRule = ChallengeRule | StreakRule

  /** How far the greedy `.*` can reach: `.` does not match a newline. */
  function DotReach(s: string): (p: nat)
    ensures p <= |s|
    ensures forall k :: 0 <= k < p ==> s[k] != '\n'
    ensures p < |s| ==> s[p] == '\n'
  {
    if s == [] || s[0] == '\n' then 0 else 1 + DotReach(s[1..])
  }

  /**
   * What follows `(\d+)` in the pattern, matched ignoring case at `q`:
   * `[+]? challenge` for the challenge rule, `[- ]?day streak` for the streak rule.
   */
  predicate TailAt(rule: NameRule, s: string, q: nat) {
    match rule
    case ChallengeRule =>
      (q < |s| && s[q] == '+' && StartsWithIgnoreCase(s, q + 1, " challenge"))
      || StartsWithIgnoreCase(s, q, " challenge")
    case StreakRule =>
      (q < |s| && (s[q] == '-' || s[q] == ' ') && StartsWithIgnoreCase(s, q + 1, "day streak"))
      || StartsWithIgnoreCase(s, q, "day streak")
  }

  /** The number of digits in the run starting at `p`. */
  function DigitRun(s: string, p: nat): (n: nat)
    requires p <= |s|
    ensures p + n <= |s|
    ensures forall k :: p <= k < p + n ==> IsDigit(s[k])
    decreases |s| - p
  {
    if p == |s| || !IsDigit(s[p]) then 0 else 1 + DigitRun(s, p + 1)
  }

  /**
   * `(\d+)` at `p`, greedy with backtracking: the longest digit group of at
   * most `len` characters after which the tail matches; its length.
   */
  function TryDigits(rule: NameRule, s: string, p: nat, len: nat): (g: Option<nat>)
    requires p + len <= |s|
    ensures g.Some? ==> 1 <= g.value <= len && GroupFits(rule, s, p, g.value)
    ensures g.None? ==> forall l :: 1 <= l <= len ==> !GroupFits(rule, s, p, l)
  {
    if len == 0 then None
    else if GroupFits(rule, s, p, len) then Some(len)
    else TryDigits(rule, s, p, len - 1)
  }

  /** The tail matches right after a digit group of length `l` starting at `p`. */
  predicate GroupFits(rule: NameRule, s: string, p: nat, l: nat) {
    TailAt(rule, s, p + l)
  }

  /** Where the digit group starts and how long it is. */
  datatype Group = Group(start: nat, len: nat)

  /**
   * `re.match` of `.*(\d+)<tail>`: the greedy `.*` takes the longest prefix
   * `s[..p]` first and gives characters back one at a time.
   */
  function SearchFrom(rule: NameRule, s: string, p: int): (g: Option<Group>)
    requires p <= DotReach(s)
    ensures g.Some? ==> g.value.start <= p && g.value.start + g.value.len <= |s|
                        && 1 <= g.value.len
                        && (forall k :: g.value.start <= k < g.value.start + g.value.len ==> IsDigit(s[k]))
    decreases p
  {
    if p < 0 then None
    else match TryDigits(rule, s, p, DigitRun(s, p))
      case Some(l) => Some(Group(p, l))
      case None => SearchFrom(rule, s, p - 1)
  }

  /**
   * The threshold a badge name encodes: `int(match.group(1))` when
   * `re.match(r".*(\d+)[+]? challenge", name, re.IGNORECASE)` (or the
   * `[- ]?day streak` pattern) matches, `None` when it does not.
   */
  function ParseThreshold(rule: NameRule, name: string): Option<nat> {
    match SearchFrom(rule, name, DotReach(name))
    case Some(g) => Some(DigitsValue(name[g.start..g.start + g.len]))
    case None => None
  }

  /** A single digit at `q` followed by the tail. */
  predicate DigitBeforeTail(rule: NameRule, s: string, q: int) {
    0 <= q < |s| && IsDigit(s[q]) && TailAt(rule, s, q + 1)
  }

  /** Reference reading: the last position at or before `p` holding a digit followed by the tail. */
  function LastDigitBeforeTail(rule: NameRule, s: string, p: int): (q: Option<nat>)
    ensures q.Some? ==> q.value <= p && DigitBeforeTail(rule, s, q.value)
    ensures q.None? ==> forall k :: 0 <= k <= p ==> !DigitBeforeTail(rule, s, k)
    decreases p
  {
    if p < 0 then None
    else if DigitBeforeTail(rule, s, p) then Some(p)
    else LastDigitBeforeTail(rule, s, p - 1)
  }

  /** A digit group of two or more that works leaves a working single digit at its last position. */
  lemma LongGroupEndsInDigit(rule: NameRule, s: string, p: nat, l: nat)
    requires 2 <= l && p + l <= |s| && GroupFits(rule, s, p, l)
    requires forall k :: p <= k < p + l ==> IsDigit(s[k])
    ensures DigitBeforeTail(rule, s, p + l - 1)
  {
  }

  /**
   * The backtracking search agrees with the reference reading as long as no
   * position after `p` (within reach of `.*`) has a digit before the tail.
   */
  lemma {:induction false} SearchIsLastDigit(rule: NameRule, s: string, p: int)
    requires p <= DotReach(s)
    requires forall k :: p < k <= DotReach(s) ==> !DigitBeforeTail(rule, s, k)
    ensures match SearchFrom(rule, s, p)
            case Some(g) => g.len == 1 && LastDigitBeforeTail(rule, s, p) == Some(g.start)
            case None => LastDigitBeforeTail(rule, s, p).None?
  {
    if p >= 0 {
      if TryDigits(rule, s, p, DigitRun(s, p)).Some? {
        SearchStepFound(rule, s, p);
      } else {
        SearchStepMissed(rule, s, p);
        SearchIsLastDigit(rule, s, p - 1);
      }
    }
  }

  /** Where the search finds a group, it is the single digit at `p`, which the tail follows. */
  lemma SearchStepFound(rule: NameRule, s: string, p: nat)
    requires p <= DotReach(s)
    requires TryDigits(rule, s, p, DigitRun(s, p)).Some?
    requires forall k :: p < k <= DotReach(s) ==> !DigitBeforeTail(rule, s, k)
    ensures TryDigits(rule, s, p, DigitRun(s, p)) == Some(1) && DigitBeforeTail(rule, s, p)
  {
    var l := TryDigits(rule, s, p, DigitRun(s, p)).value;
    if l >= 2 {
      LongGroupEndsInDigit(rule, s, p, l);
      assert false;
    }
  }

  /** Where the search finds no group at `p`, no digit at `p` is followed by the tail. */
  lemma SearchStepMissed(rule: NameRule, s: string, p: nat)
    requires p <= DotReach(s)
    requires TryDigits(rule, s, p, DigitRun(s, p)).None?
    ensures !DigitBeforeTail(rule, s, p)
  {
    if DigitBeforeTail(rule, s, p) {
      assert 1 <= DigitRun(s, p);
      assert GroupFits(rule, s, p, 1);
      assert false;
    }
  }

  /**
   * Because the leading `.*` is greedy, the captured threshold is always the
   * single digit just before " challenge" / "day streak", at the last place
   * where one occurs on the first line: "Complete 10 challenges" gives 0.
   */
  lemma ThresholdIsLastDigit(rule: NameRule, name: string)
    ensures ParseThreshold(rule, name) == match LastDigitBeforeTail(rule, name, DotReach(name))
                                         case Some(q) => Some(DigitValue(name[q]))
                                         case None => None
    ensures ParseThreshold(rule, name).Some? ==> ParseThreshold(rule, name).value <= 9
  {
    SearchIsLastDigit(rule, name, DotReach(name));
    var g := SearchFrom(rule, name, DotReach(name));
    if g.Some? {
      var digits := name[g.value.start..g.value.start + 1];
      assert digits == [name[g.value.start]];
      assert digits[..0] == [];
      assert DigitsValue(digits) == DigitValue(name[g.value.start]);
    }
  }

  /** `LastDigitBeforeTail` stops at the first digit-before-tail found scanning down from `p`. */
  lemma {:induction false} LastDigitIs(rule: NameRule, s: string, p: int, q: nat)
    requires q <= p && DigitBeforeTail(rule, s, q)
    requires forall k :: q < k <= p ==> !DigitBeforeTail(rule, s, k)
    ensures LastDigitBeforeTail(rule, s, p) == Some(q)
    decreases p
  {
    if p > q {
      LastDigitIs(rule, s, p - 1, q);
    }
  }

  /** The positions that matter in "Complete 10 challenges". */
  lemma TenChallengesFacts(name: string)
    requires name == "Complete 10 challenges"
    ensures DotReach(name) == 22
    ensures DigitBeforeTail(ChallengeRule, name, 10)
    ensures forall k :: 10 < k <= 22 ==> !DigitBeforeTail(ChallengeRule, name, k)
  {
    assert forall k :: 0 <= k < |name| ==> name[k] != '\n';
    assert name[11..21] == " challenge";
    assert Lower(" challenge") == " challenge";
    assert StartsWithIgnoreCase(name, 11, " challenge");
    assert forall k :: 10 < k < |name| ==> !IsDigit(name[k]);
  }

  /** A name promising ten challenges sets a threshold of zero. */
  lemma TenChallengesMeansZero(name: string)
    requires name == "Complete 10 challenges"
    ensures ParseThreshold(ChallengeRule, name) == Some(0)
  {
    TenChallengesFacts(name);
    LastDigitIs(ChallengeRule, name, 22, 10);
    ThresholdIsLastDigit(ChallengeRule, name);
  }

  /** A badge name without any digit encodes no threshold under either rule. */
  lemma NoDigitNoThreshold(rule: NameRule, name: string)
    requires forall k :: 0 <= k < |name| ==> !IsDigit(name[k])
    ensures ParseThreshold(rule, name) == None
  {
    ThresholdIsLastDigit(rule, name);
  }

  /** Selects `u`'s activities whose type contains "walk", ignoring case. */
  function WalkBy(u: UserId): Activity -> bool {
    (a: Activity) => a.user == u && ContainsIgnoreCase(a.activityType, "walk")
  }

  /** Selects house `h`'s challenges whose description contains "yoga" or "stretch", ignoring case. */
  function WellnessOf(h: HouseId): HouseChallenge -> bool {
    (c: HouseChallenge) => c.house == h
      && (ContainsIgnoreCase(c.description, "yoga") || ContainsIgnoreCase(c.description, "stretch"))
  }

  function Descriptions(cs: seq<HouseChallenge>): (ds: seq<string>)
    ensures |ds| == |cs| && forall i :: 0 <= i < |cs| ==> ds[i] == cs[i].description
  {
    seq(|cs|, i requires 0 <= i < |cs| => cs[i].description)
  }

  /** Selects `u`'s completed rows whose description is one of `descs`. */
  function CompletedIn(u: UserId, descs: seq<string>): AcceptedChallenge -> bool {
    (r: AcceptedChallenge) => r.user == u && r.completedAt.Some? && r.challengeDescription in descs
  }

  /** The numbers the badge rules compare against. */
  datatype Counters = Counters(completed: nat, streak: nat, zenTotal: nat, zenCompleted: nat,
                               walks: nat)

  /**
   * The counters of user `u` in house `h`: completed rows, the cached
   * streak, the wellness challenges of the house and how many of `u`'s
   * completed rows name one of them, and `u`'s walking activities.
   */
  function CountersOf(accepted: seq<AcceptedChallenge>, acts: seq<Activity>,
                      cs: seq<HouseChallenge>, streak: nat, u: UserId, h: HouseId): (c: Counters)
    ensures c.completed == CompletedCount(accepted, u) && c.streak == streak
    ensures c.zenTotal == |Filter(cs, WellnessOf(h))| && c.walks <= |acts|
  {
    var zen := Filter(cs, WellnessOf(h));
    Counters(CompletedCount(accepted, u), streak, |zen|,
             Count(accepted, CompletedIn(u, Descriptions(zen))), Count(acts, WalkBy(u)))
  }

  /** The rule a threshold badge name states is met by `count`. */
  predicate ThresholdMet(rule: NameRule, name: string, count: nat) {
    match ParseThreshold(rule, name)
    case Some(n) => count >= n
    case None => false
  }

  /** Whether a badge named `name` is earned with counters `c`. */
  predicate Earned(name: string, c: Counters) {
    ThresholdMet(ChallengeRule, name, c.completed)
    || ThresholdMet(StreakRule, name, c.streak)
    || (name == "Zen Guru" && c.zenTotal > 0 && c.zenCompleted == c.zenTotal)
    || (name == "Trailblazer" && c.walks >= 7)
  }

  /** One iteration of the badge loop: grant `b` when earned and not yet held. */
  function AwardOne(b: HouseBadge, u: UserId, c: Counters, grants: seq<UserBadge>): seq<UserBadge> {
    if Earned(b.name, c) && UserBadge(u, b.id) !in grants then grants + [UserBadge(u, b.id)] else grants
  }

  /** The user-badge table after the loop over `bs`, in order. */
  function AwardBadges(bs: seq<HouseBadge>, u: UserId, c: Counters, grants: seq<UserBadge>)
    : seq<UserBadge>
  {
    if bs == [] then grants
    else AwardOne(bs[|bs| - 1], u, c, AwardBadges(bs[..|bs| - 1], u, c, grants))
  }

  /** The loop over the first `i + 1` badges is the loop over the first `i` and one more iteration. */
  lemma AwardBadgesStep(bs: seq<HouseBadge>, i: nat, u: UserId, c: Counters, grants: seq<UserBadge>)
    requires i < |bs|
    ensures AwardBadges(bs[..i + 1], u, c, grants) == AwardOne(bs[i], u, c, AwardBadges(bs[..i], u, c, grants))
  {
    assert bs[..i + 1][..i] == bs[..i];
  }

  /** Selects the badges of house `h` (`HouseBadge.objects.filter(house=h)`). */
  function BadgeOf(h: HouseId): HouseBadge -> bool {
    (b: HouseBadge) => b.house == h
  }

  /**
   * The loop only appends, and a row ends up in the table exactly when it
   * was there before or is `u`'s row for a badge of `bs` that is earned.
   */
  lemma {:induction false} AwardBadgesRows(bs: seq<HouseBadge>, u: UserId, c: Counters,
                                           grants: seq<UserBadge>, x: UserBadge)
    ensures var r := AwardBadges(bs, u, c, grants);
            |grants| <= |r| && r[..|grants|] == grants
            && (x in r <==> x in grants
                            || (x.user == u && exists i :: 0 <= i < |bs| && bs[i].id == x.badge
                                                           && Earned(bs[i].name, c)))
  {
    if bs != [] {
      var init := bs[..|bs| - 1];
      AwardBadgesRows(init, u, c, grants, x);
      var b := bs[|bs| - 1];
      var prev := AwardBadges(init, u, c, grants);
      var r := AwardBadges(bs, u, c, grants);
      assert r == AwardOne(b, u, c, prev);
      assert prev[..|grants|] == grants;
      if r != prev {
        assert r[..|prev|] == prev;
        assert r[..|grants|] == prev[..|grants|];
      }
      if x.user == u && (exists i :: 0 <= i < |bs| && bs[i].id == x.badge && Earned(bs[i].name, c)) {
        var i :| 0 <= i < |bs| && bs[i].id == x.badge && Earned(bs[i].name, c);
        if i < |bs| - 1 {
          assert init[i] == bs[i];
        }
      }
      if x.user == u && (exists i :: 0 <= i < |init| && init[i].id == x.badge && Earned(init[i].name, c)) {
        var i :| 0 <= i < |init| && init[i].id == x.badge && Earned(init[i].name, c);
        assert bs[i] == init[i];
      }
    }
  }

  /** The loop adds no row twice, so the `unique_together` constraint holds afterwards. */
  lemma {:induction false} AwardBadgesNoDuplicates(bs: seq<HouseBadge>, u: UserId, c: Counters,
                                                   grants: seq<UserBadge>)
    requires NoDuplicates(grants)
    ensures NoDuplicates(AwardBadges(bs, u, c, grants))
  {
    if bs != [] {
      AwardBadgesNoDuplicates(bs[..|bs| - 1], u, c, grants);
    }
  }

  /** When every earned badge is already held, the loop adds nothing. */
  lemma {:induction false} AwardBadgesStable(bs: seq<HouseBadge>, u: UserId, c: Counters,
                                             grants: seq<UserBadge>)
    requires forall i :: 0 <= i < |bs| && Earned(bs[i].name, c) ==> UserBadge(u, bs[i].id) in grants
    ensures AwardBadges(bs, u, c, grants) == grants
  {
    if bs != [] {
      var init := bs[..|bs| - 1];
      forall i | 0 <= i < |init| && Earned(init[i].name, c) ensures UserBadge(u, init[i].id) in grants {
        assert init[i] == bs[i];
      }
      AwardBadgesStable(init, u, c, grants);
    }
  }

  /** Running the evaluator again on unchanged counters grants nothing new. */
  lemma AwardBadgesIdempotent(bs: seq<HouseBadge>, u: UserId, c: Counters, grants: seq<UserBadge>)
    ensures var r := AwardBadges(bs, u, c, grants);
            AwardBadges(bs, u, c, r) == r
  {
    var r := AwardBadges(bs, u, c, grants);
    forall i | 0 <= i < |bs| && Earned(bs[i].name, c) ensures UserBadge(u, bs[i].id) in r {
      AwardBadgesRows(bs, u, c, grants, UserBadge(u, bs[i].id));
    }
    AwardBadgesStable(bs, u, c, r);
  }

  /**
   * Since the threshold is one digit, nine completed challenges earn every
   * badge whose name matches the challenge pattern, and a nine-day streak
   * every badge matching the streak pattern.
   */
  lemma NineIsEnough(name: string, c: Counters)
    ensures ParseThreshold(ChallengeRule, name).Some? && c.completed >= 9 ==> Earned(name, c)
    ensures ParseThreshold(StreakRule, name).Some? && c.streak >= 9 ==> Earned(name, c)
  {
    ThresholdIsLastDigit(ChallengeRule, name);
    ThresholdIsLastDigit(StreakRule, name);
  }

  /** "Complete 10 challenges" is earned by everyone, even with no completed challenge. */
  lemma TenChallengesEarnedAtOnce(name: string, c: Counters)
    requires name == "Complete 10 challenges"
    ensures Earned(name, c)
  {
    TenChallengesMeansZero(name);
  }

  /** "Zen Guru": at least one wellness challenge, and as many completed rows naming one as there are. */
  lemma ZenGuruRule(name: string, c: Counters)
    requires name == "Zen Guru"
    ensures Earned(name, c) <==> c.zenTotal > 0 && c.zenCompleted == c.zenTotal
  {
    NoDigitNoThreshold(ChallengeRule, name);
    NoDigitNoThreshold(StreakRule, name);
  }

  /** "Trailblazer": at least seven walking activities. */
  lemma TrailblazerRule(name: string, c: Counters)
    requires name == "Trailblazer"
    ensures Earned(name, c) <==> c.walks >= 7
  {
    NoDigitNoThreshold(ChallengeRule, name);
    NoDigitNoThreshold(StreakRule, name);
  }

  /**
   * One iteration of the badge loop: the challenge rule, then the streak
   * rule, then the two named badges, each guarded by the existence check.
   */
  method AwardBadge(s: Store, u: UserId, b: HouseBadge, c: Counters)
    modifies s`userBadges
    ensures s.userBadges == AwardOne(b, u, c, old(s.userBadges))
  {
    var held := UserBadge(u, b.id) in s.userBadges;
    var n := ParseThreshold(ChallengeRule, b.name);
    if n.Some? && c.completed >= n.value && !held {
      s.userBadges := s.userBadges + [UserBadge(u, b.id)];
      return;
    }
    n := ParseThreshold(StreakRule, b.name);
    if n.Some? && c.streak >= n.value && !held {
      s.userBadges := s.userBadges + [UserBadge(u, b.id)];
      return;
    }
    if b.name == "Zen Guru" && c.zenTotal > 0 && c.zenCompleted == c.zenTotal && !held {
      s.userBadges := s.userBadges + [UserBadge(u, b.id)];
    }
    if b.name == "Trailblazer" && c.walks >= 7 && !held {
      s.userBadges := s.userBadges + [UserBadge(u, b.id)];
    }
  }

  /** The user-badge table after the badge check, for a user whose house is `house`. */
  function BadgesAfterCheck(badges: seq<HouseBadge>, u: UserId, house: Option<HouseId>,
                            accepted: seq<AcceptedChallenge>, acts: seq<Activity>, cs: seq<HouseChallenge>,
                            streak: nat, grants: seq<UserBadge>): seq<UserBadge> {
    match house
    case None => grants
    case Some(h) => AwardBadges(Filter(badges, BadgeOf(h)), u, CountersOf(accepted, acts, cs, streak, u, h), grants)
  }

  /**
   * `check_and_award_badges(user)`: nothing for a user without a house;
   * otherwise each badge of the house, in order, is granted when its rule is
   * met and the user does not hold it yet.
   */
  method CheckAndAwardBadges(s: Store, u: UserId)
    requires s.Valid() && u in s.profiles
    modifies s`userBadges
    ensures s.Valid()
    ensures s.userBadges == BadgesAfterCheck(s.badges, u, s.profiles[u].house, s.accepted, s.activities,
                                             s.challenges, s.profiles[u].streakCount, old(s.userBadges))
  {
    var profile := s.profiles[u];
    if profile.house.None? {
      return;
    }
    var h := profile.house.value;
    var c := CountersOf(s.accepted, s.activities, s.challenges, profile.streakCount, u, h);
    var bs := Filter(s.badges, BadgeOf(h));
    ghost var g0 := s.userBadges;
    for i := 0 to |bs|
      invariant s.userBadges == AwardBadges(bs[..i], u, c, g0)
    {
      var b := bs[i];
      AwardBadgesStep(bs, i, u, c, g0);
      AwardBadge(s, u, b, c);
    }
    assert bs[..|bs|] == bs;
    AwardBadgesNoDuplicates(bs, u, c, g0);
  }
}
