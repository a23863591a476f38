/**
 * fitness/admin.py: the two admin actions on challenge suggestions:
 * approving the selected suggestions, and turning the approved ones among
 * the selection into house challenges.
 */
module SuggestionAdmin {
  import opened Wrappers
  import opened Seqs
  import opened Tables

  /** The suggestion is one of the rows the admin selected. */
  function Selected(ids: set<nat>): ChallengeSuggestion -> bool {
    (sg: ChallengeSuggestion) => sg.id in ids
  }

  /** The suggestion as `queryset.update(reviewed=True, approved=True)` leaves it. */
  function Approved(sg: ChallengeSuggestion, ids: set<nat>): ChallengeSuggestion {
    if sg.id in ids then sg.(reviewed := true, approved := true) else sg
  }

  /** The table after approving the selection: each row in its place, the selected ones approved. */
  function Approve(sgs: seq<ChallengeSuggestion>, ids: set<nat>): (r: seq<ChallengeSuggestion>)
    ensures |r| == |sgs|
    ensures forall i :: 0 <= i < |sgs| ==> r[i] == Approved(sgs[i], ids)
  {
    seq(|sgs|, i requires 0 <= i < |sgs| => Approved(sgs[i], ids))
  }

  /** Approving the same selection again changes nothing. */
  lemma ApproveIdempotent(sgs: seq<ChallengeSuggestion>, ids: set<nat>)
    ensures Approve(Approve(sgs, ids), ids) == Approve(sgs, ids)
  {
  }

  /**
   * `approve_suggestions`: every selected suggestion becomes reviewed and
   * approved, every other row stays as it was, and `updated` is the number
   * of selected rows.
   */
  method ApproveSuggestions(s: Store, ids: set<nat>) returns (updated: nat)
    modifies s`suggestions
    ensures s.suggestions == Approve(old(s.suggestions), ids)
    ensures updated == Count(old(s.suggestions), Selected(ids))
  {
    updated := Count(s.suggestions, Selected(ids));
    s.suggestions := Approve(s.suggestions, ids);
  }

  /** The suggestion is selected and approved: `queryset.filter(approved=True)`. */
  function SelectedApproved(ids: set<nat>): ChallengeSuggestion -> bool {
    (sg: ChallengeSuggestion) => sg.id in ids && sg.approved
  }

  /**
   * The suggestions the move considers, newest first: the admin's change
   * list orders a model without its own ordering by descending primary key.
   */
  function Candidates(sgs: seq<ChallengeSuggestion>, ids: set<nat>): seq<ChallengeSuggestion> {
    Reverse(Filter(sgs, SelectedApproved(ids)))
  }

  /** After approving a selection, every selected suggestion is a candidate of the move. */
  lemma ApprovedAreCandidates(sgs: seq<ChallengeSuggestion>, ids: set<nat>, i: nat)
    requires i < |sgs| && sgs[i].id in ids
    ensures Approve(sgs, ids)[i] in Candidates(Approve(sgs, ids), ids)
  {
    var f := Filter(Approve(sgs, ids), SelectedApproved(ids));
    FilterMembers(Approve(sgs, ids), SelectedApproved(ids));
    assert Approve(sgs, ids)[i] in multiset(f);
  }

  /** The challenge is the one with this house and description. */
  function SameChallenge(h: HouseId, description: string): HouseChallenge -> bool {
    (c: HouseChallenge) => c.house == h && c.description == description
  }

  // The move is a loop of `get_or_create` calls, like the house set-up of
  // the coach (OctoCoach.Setup, EnsureAll and their lemmas); the state, the
  // step and the lemmas below follow that set-up, over challenges keyed by
  // (house, description) instead of houses keyed by name.

  /** The challenges while the candidates are processed, the number created, and whether it stopped. */
  datatype Promotion = Promotion(challenges: seq<HouseChallenge>, created: nat, failed: bool)

  /**
   * `HouseChallenge.objects.get_or_create(house=..., description=...)` for
   * one suggestion: a new challenge with the default xp of 10 and no type
   * tag when none matches, nothing when one matches, and a failure (the
   * query returns several objects) when two or more match.
   */
  function PromoteOne(st: Promotion, sg: ChallengeSuggestion): Promotion {
    if st.failed then st
    else
      var n := Count(st.challenges, SameChallenge(sg.house, sg.description));
      if n == 0 then
        Promotion(st.challenges + [HouseChallenge(sg.house, sg.description, 10, None)], st.created + 1, false)
      else if n == 1 then st
      else st.(failed := true)
  }

  /** `get_or_create` for each candidate in turn. */
  function PromoteAll(st: Promotion, cs: seq<ChallengeSuggestion>): Promotion {
    if cs == [] then st else PromoteOne(PromoteAll(st, cs[..|cs| - 1]), cs[|cs| - 1])
  }

  /** Once failed, the remaining candidates change nothing. */
  lemma {:induction false} FailedStays(st: Promotion, cs: seq<ChallengeSuggestion>)
    requires st.failed
    ensures PromoteAll(st, cs) == st
  {
    if cs != [] {
      FailedStays(st, cs[..|cs| - 1]);
    }
  }

  /** Processing `a + b` is processing `a`, then `b`. */
  lemma {:induction false} PromoteAllSplit(st: Promotion, a: seq<ChallengeSuggestion>, b: seq<ChallengeSuggestion>)
    ensures PromoteAll(st, a + b) == PromoteAll(PromoteAll(st, a), b)
  {
    if b == [] {
      assert a + b == a;
    } else {
      assert (a + b)[..|a + b| - 1] == a + b[..|b| - 1];
      PromoteAllSplit(st, a, b[..|b| - 1]);
    }
  }

  /**
   * The existing challenges stay, unchanged and in place, and the reported
   * count grows by exactly the number of challenges appended, each one a
   * default challenge for a candidate's house and description.
   */
  lemma {:induction false} PromoteAllCounts(st: Promotion, cs: seq<ChallengeSuggestion>)
    ensures var r := PromoteAll(st, cs);
            |st.challenges| <= |r.challenges| && r.challenges[..|st.challenges|] == st.challenges
            && r.created - st.created == |r.challenges| - |st.challenges|
            && forall i :: |st.challenges| <= i < |r.challenges| ==>
                 r.challenges[i].xp == 10 && r.challenges[i].canonicalActivity.None?
                 && exists k :: 0 <= k < |cs| && cs[k].house == r.challenges[i].house
                                && cs[k].description == r.challenges[i].description
  {
    if cs != [] {
      var front := cs[..|cs| - 1];
      PromoteAllCounts(st, front);
      var mid := PromoteAll(st, front);
      var r := PromoteAll(st, cs);
      forall i | |st.challenges| <= i < |r.challenges|
        ensures exists k :: 0 <= k < |cs| && cs[k].house == r.challenges[i].house
                            && cs[k].description == r.challenges[i].description
      {
        if i < |mid.challenges| {
          var k :| 0 <= k < |front| && front[k].house == mid.challenges[i].house
                   && front[k].description == mid.challenges[i].description;
          assert cs[k] == front[k];
        } else {
          assert r.challenges[i].house == cs[|cs| - 1].house;
        }
      }
    }
  }

  lemma CountAppendSame(cs: seq<HouseChallenge>, c: HouseChallenge, h: HouseId, d: string)
    ensures Count(cs + [c], SameChallenge(h, d)) == Count(cs, SameChallenge(h, d)) + (if c.house == h && c.description == d then 1 else 0)
  {
    FilterAppend(cs, [c], SameChallenge(h, d));
    assert [c][1..] == [];
  }

  /**
   * When the move gets through, the house and description of every
   * candidate belong to exactly one challenge.
   */
  lemma {:induction false} PromoteAllPresent(st: Promotion, cs: seq<ChallengeSuggestion>)
    requires !PromoteAll(st, cs).failed
    ensures forall k :: 0 <= k < |cs| ==>
              Count(PromoteAll(st, cs).challenges, SameChallenge(cs[k].house, cs[k].description)) == 1
  {
    if cs != [] {
      var front := cs[..|cs| - 1];
      var last := cs[|cs| - 1];
      var mid := PromoteAll(st, front);
      PromoteAllPresent(st, front);
      forall k | 0 <= k < |cs|
        ensures Count(PromoteAll(st, cs).challenges, SameChallenge(cs[k].house, cs[k].description)) == 1
      {
        if Count(mid.challenges, SameChallenge(last.house, last.description)) == 0 {
          CountAppendSame(mid.challenges, HouseChallenge(last.house, last.description, 10, None),
                          cs[k].house, cs[k].description);
        }
        if k < |cs| - 1 {
          assert front[k] == cs[k];
        }
      }
    }
  }

  /** With every candidate's challenge already there exactly once, the move changes nothing. */
  lemma {:induction false} AllPresentIsNoop(st: Promotion, cs: seq<ChallengeSuggestion>)
    requires !st.failed
    requires forall k :: 0 <= k < |cs| ==> Count(st.challenges, SameChallenge(cs[k].house, cs[k].description)) == 1
    ensures PromoteAll(st, cs) == st
  {
    if cs != [] {
      AllPresentIsNoop(st, cs[..|cs| - 1]);
    }
  }

  /** Running the move a second time on the same selection creates nothing and reports 0. */
  lemma MoveTwiceCreatesNothing(challenges: seq<HouseChallenge>, sgs: seq<ChallengeSuggestion>, ids: set<nat>)
    requires !PromoteAll(Promotion(challenges, 0, false), Candidates(sgs, ids)).failed
    ensures var once := PromoteAll(Promotion(challenges, 0, false), Candidates(sgs, ids));
            PromoteAll(Promotion(once.challenges, 0, false), Candidates(sgs, ids))
              == Promotion(once.challenges, 0, false)
  {
    var cs := Candidates(sgs, ids);
    PromoteAllPresent(Promotion(challenges, 0, false), cs);
    var once := PromoteAll(Promotion(challenges, 0, false), cs);
    AllPresentIsNoop(Promotion(once.challenges, 0, false), cs);
  }

  /**
   * `move_approved_to_challenges`: `get_or_create` for each selected,
   * approved suggestion in turn, newest first, counting the challenges
   * created; `None` when it stops at a suggestion that matches two
   * challenges. The suggestions themselves are left alone.
   */
  method MoveApprovedToChallenges(s: Store, ids: set<nat>) returns (moved: Option<nat>)
    modifies s`challenges
    ensures var r := PromoteAll(Promotion(old(s.challenges), 0, false), Candidates(s.suggestions, ids));
            s.challenges == r.challenges && moved == (if r.failed then None else Some(r.created))
  {
    moved := PromoteEach(s, Candidates(s.suggestions, ids));
  }

  /** The loop of the move over the given suggestions. */
  method PromoteEach(s: Store, cs: seq<ChallengeSuggestion>) returns (moved: Option<nat>)
    modifies s`challenges
    ensures var r := PromoteAll(Promotion(old(s.challenges), 0, false), cs);
            s.challenges == r.challenges && moved == (if r.failed then None else Some(r.created))
  {
    ghost var init := Promotion(s.challenges, 0, false);
    var count := 0;
    for i := 0 to |cs|
      invariant PromoteAll(init, cs[..i]) == Promotion(s.challenges, count, false)
    {
      assert cs[..i + 1][..i] == cs[..i];
      var sg := cs[i];
      var n := Count(s.challenges, SameChallenge(sg.house, sg.description));
      if n == 0 {
        s.challenges := s.challenges + [HouseChallenge(sg.house, sg.description, 10, None)];
        count := count + 1;
      } else if n >= 2 {
        var failed := Promotion(s.challenges, count, true);
        PromoteAllSplit(init, cs[..i + 1], cs[i + 1..]);
        assert cs[..i + 1] + cs[i + 1..] == cs;
        FailedStays(failed, cs[i + 1..]);
        return None;
      }
    }
    assert cs[..|cs|] == cs;
    return Some(count);
  }
}
