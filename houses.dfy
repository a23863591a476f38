/**
 * The house page's confetti rule and the leaderboard's catch-up prediction
 * (`house_detail` and `leaderboard` in fitness/views.py).
 */
module HouseViews {
  import opened Wrappers
  import opened Seqs
  import opened Text
  import opened Tables

  // ---- Confetti ----

  /** Whether the page shows confetti, and the house's flag afterwards. */
  datatype Confetti = Confetti(show: bool, shownAfter: bool)

  /**
   * Exactly 100 or 1000 points always show confetti and leave the flag
   * alone; otherwise 500 points or more show it once, setting the flag.
   */
  function ConfettiFor(points: int, shown: bool): Confetti {
    if points == 100 || points == 1000 then Confetti(true, shown)
    else if points >= 500 && !shown then Confetti(true, true)
    else Confetti(false, shown)
  }

  /**
   * The flag is one-way: it is never cleared; it is set only by the 500
   * rule; and apart from the two exact scores, a second visit at the same
   * points shows no confetti.
   */
  lemma ConfettiOneWay(points: int, shown: bool)
    ensures shown ==> ConfettiFor(points, shown).shownAfter
    ensures ConfettiFor(points, shown).shownAfter != shown ==> points >= 500 && !shown
    ensures points != 100 && points != 1000 ==>
              !ConfettiFor(points, ConfettiFor(points, shown).shownAfter).show
    ensures ConfettiFor(points, shown).show <==>
              points == 100 || points == 1000 || (points >= 500 && !shown)
  {
  }

  /** What `house_detail` renders. */
  datatype HousePage =
    | NoHousePage
    /** No house has the requested name: the 404 page. */
    | HouseNotFound
    | HousePageFor(house: HouseId, confetti: bool)

  /** The first house, in primary-key order, whose name equals `name` ignoring case (`name__iexact`). */
  function FirstNamed(hs: seq<House>, name: string): (r: Option<nat>)
    ensures r.Some? ==> r.value < |hs| && Lower(hs[r.value].name) == Lower(name)
                        && forall k :: 0 <= k < r.value ==> Lower(hs[k].name) != Lower(name)
    ensures r.None? ==> forall k :: 0 <= k < |hs| ==> Lower(hs[k].name) != Lower(name)
  {
    if hs == [] then None
    else if Lower(hs[0].name) == Lower(name) then Some(0)
    else match FirstNamed(hs[1..], name)
      case Some(i) => Some(i + 1)
      case None => None
  }

  /** Houses with the same ids in the same places are looked up alike. */
  lemma {:induction false} SameIdsSameIndex(hs: seq<House>, hs': seq<House>, id: HouseId)
    requires |hs| == |hs'| && forall i :: 0 <= i < |hs| ==> hs[i].id == hs'[i].id
    ensures HouseIndex(hs', id) == HouseIndex(hs, id)
  {
    if hs != [] {
      SameIdsSameIndex(hs[1..], hs'[1..], id);
    }
  }

  /**
   * `house_detail(name)` as far as the confetti goes: a user without a house
   * gets the no-house page; an unknown name the 404 page; otherwise the
   * first house so named is shown, and only its flag may change, by the
   * confetti rule.
   */
  method HouseDetail(s: Store, u: UserId, name: string) returns (page: HousePage)
    requires s.Valid() && u in s.profiles
    modifies s`houses
    ensures s.Valid()
    ensures s.profiles[u].house.None? ==> page == NoHousePage && s.houses == old(s.houses)
    ensures s.profiles[u].house.Some? && FirstNamed(old(s.houses), name).None? ==>
              page == HouseNotFound && s.houses == old(s.houses)
    ensures s.profiles[u].house.Some? && FirstNamed(old(s.houses), name).Some? ==>
              var i := FirstNamed(old(s.houses), name).value;
              var house := old(s.houses)[i];
              var c := ConfettiFor(house.points, house.confettiShown);
              page == HousePageFor(house.id, c.show)
              && s.houses == old(s.houses)[i := house.(confettiShown := c.shownAfter)]
  {
    if s.profiles[u].house.None? {
      return NoHousePage;
    }
    var found := FirstNamed(s.houses, name);
    if found.None? {
      return HouseNotFound;
    }
    var i := found.value;
    var house := s.houses[i];
    if house.points == 100 || house.points == 1000 {
      page := HousePageFor(house.id, true);
      assert s.houses == s.houses[i := house];
      return;
    }
    if house.points >= 500 && !house.confettiShown {
      var hs' := s.houses[i := house.(confettiShown := true)];
      forall v | v in s.profiles && s.profiles[v].house.Some?
        ensures HasHouse(hs', s.profiles[v].house.value)
      {
        SameIdsSameIndex(s.houses, hs', s.profiles[v].house.value);
      }
      s.houses := hs';
      page := HousePageFor(house.id, true);
    } else {
      assert s.houses == s.houses[i := house];
      page := HousePageFor(house.id, false);
    }
  }

  // ---- Leaderboard prediction ----

  function ByPoints(): House -> int {
    (h: House) => h.points
  }

  /** The catch-up line naming the runner-up. */
  function PredictionText(name: string): string {
    "🏁 If " + name + " logs 2 more workouts, they’ll take the lead!"
  }

  /**
   * The leaderboard's prediction: with the houses ordered by points, largest
   * first, the runner-up is named when it trails the leader by 20 or less;
   * otherwise, or with fewer than two houses, there is no prediction.
   */
  function Prediction(hs: seq<House>): string {
    var ranked := SortDesc(hs, ByPoints());
    if |ranked| > 1 && ranked[0].points - ranked[1].points <= 20 then PredictionText(ranked[1].name)
    else ""
  }

  /** House `i` is within 20 points of every house. */
  predicate NearTop(hs: seq<House>, i: int) {
    0 <= i < |hs| && forall k :: 0 <= k < |hs| ==> hs[k].points - hs[i].points <= 20
  }

  /** Two different houses are each within 20 points of every house. */
  predicate CloseRace(hs: seq<House>) {
    exists i, j :: 0 <= i < j < |hs| && NearTop(hs, i) && NearTop(hs, j)
  }

  /** A value that occurs twice occurs at two positions. */
  lemma {:induction false} TwiceAtTwoPositions(s: seq<House>, v: House)
    requires multiset(s)[v] >= 2
    ensures exists i, j :: 0 <= i < j < |s| && s[i] == v && s[j] == v
  {
    assert s == [s[0]] + s[1..];
    if s[0] == v {
      assert v in multiset(s[1..]);
      var j :| 0 <= j < |s[1..]| && s[1..][j] == v;
      assert s[j + 1] == v;
    } else {
      TwiceAtTwoPositions(s[1..], v);
      var i, j :| 0 <= i < j < |s[1..]| && s[1..][i] == v && s[1..][j] == v;
      assert s[i + 1] == v && s[j + 1] == v;
    }
  }

  /** A value at two positions occurs twice. */
  lemma TwoPositionsTwice(s: seq<House>, v: House, i: nat, j: nat)
    requires i < j < |s| && s[i] == v && s[j] == v
    ensures multiset(s)[v] >= 2
  {
    assert s == s[..j] + s[j..];
    assert s[..j][i] == v && s[j..][0] == v;
    assert multiset(s) == multiset(s[..j]) + multiset(s[j..]);
  }

  /** Two positions of one sequence appear at two positions of any permutation of it. */
  lemma TwoPositionsCarryOver(x: seq<House>, y: seq<House>, a: nat, b: nat)
    requires multiset(x) == multiset(y) && a < b < |y|
    ensures exists i, j :: 0 <= i < |x| && 0 <= j < |x| && i != j && x[i] == y[a] && x[j] == y[b]
  {
    if y[a] == y[b] {
      TwoPositionsTwice(y, y[a], a, b);
      TwiceAtTwoPositions(x, y[a]);
      var i, j :| 0 <= i < j < |x| && x[i] == y[a] && x[j] == y[a];
    } else {
      assert y[a] in multiset(x) && y[b] in multiset(x);
      var i :| 0 <= i < |x| && x[i] == y[a];
      var j :| 0 <= j < |x| && x[j] == y[b];
    }
  }

  /** Every house scores at most the first of the ranking. */
  lemma RankedFirstIsTop(hs: seq<House>, k: nat)
    requires k < |hs|
    ensures SortDesc(hs, ByPoints())[0].points >= hs[k].points
  {
    var ranked := SortDesc(hs, ByPoints());
    assert hs[k] in multiset(ranked);
    var m :| 0 <= m < |ranked| && ranked[m] == hs[k];
    if m > 0 {
      assert ByPoints()(ranked[0]) >= ByPoints()(ranked[m]);
    }
  }

  /**
   * The prediction appears exactly when two different houses are each
   * within 20 points of every house: the leader and a runner-up close
   * behind, whatever the order the houses are stored in.
   */
  lemma PredictionIffCloseRace(hs: seq<House>)
    ensures Prediction(hs) != "" <==> CloseRace(hs)
  {
    var ranked := SortDesc(hs, ByPoints());
    if Prediction(hs) != "" {
      assert |ranked| > 1 && ranked[0].points - ranked[1].points <= 20;
      TwoPositionsCarryOver(hs, ranked, 0, 1);
      var i, j :| 0 <= i < |hs| && 0 <= j < |hs| && i != j && hs[i] == ranked[0] && hs[j] == ranked[1];
      forall k | 0 <= k < |hs| ensures hs[k].points - hs[i].points <= 20 && hs[k].points - hs[j].points <= 20 {
        RankedFirstIsTop(hs, k);
      }
      assert NearTop(hs, i) && NearTop(hs, j);
      if i < j {
        assert CloseRace(hs);
      } else {
        assert CloseRace(hs);
      }
    }
    if CloseRace(hs) {
      var i, j :| 0 <= i < j < |hs| && NearTop(hs, i) && NearTop(hs, j);
      TwoPositionsCarryOver(ranked, hs, i, j);
      var p, q :| 0 <= p < |ranked| && 0 <= q < |ranked| && p != q && ranked[p] == hs[i] && ranked[q] == hs[j];
      assert ranked[0] in multiset(hs);
      var t :| 0 <= t < |hs| && hs[t] == ranked[0];
      var later := if p >= 1 then p else q;
      assert later >= 1;
      if later > 1 {
        assert ByPoints()(ranked[1]) >= ByPoints()(ranked[later]);
      }
      assert ranked[0].points - ranked[1].points <= 20;
      assert Prediction(hs) == PredictionText(ranked[1].name);
    }
  }

  /** The house the prediction names is the runner-up: it trails the leader by at most 20. */
  lemma PredictionNamesRunnerUp(hs: seq<House>)
    requires Prediction(hs) != ""
    ensures exists j :: 0 <= j < |hs| && NearTop(hs, j)
                        && Prediction(hs) == PredictionText(hs[j].name)
  {
    var ranked := SortDesc(hs, ByPoints());
    assert ranked[1] in multiset(hs);
    var j :| 0 <= j < |hs| && hs[j] == ranked[1];
    forall k | 0 <= k < |hs| ensures hs[k].points - hs[j].points <= 20 {
      RankedFirstIsTop(hs, k);
    }
  }
}
