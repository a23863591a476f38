/**
 * The pure fallbacks of fitness/utils/agent_logic.py: the recommendation
 * sets and feedback messages used when the language model is unavailable,
 * and how the model's reply lines are mapped to the three recommendation keys.
 */
module AgentLogic {
  import opened Text
  import opened ChallengeViews

  /** The three keys every recommendation set has. */
  const RecommendationKeys: set<string> := {"balance", "challenge", "house_boost"}

  const StarterSet: map<string, string> := map[
    "balance" := "Start your fitness journey with a simple walk! 🚶‍♂️",
    "challenge" := "Try our beginner-friendly challenge this week! 🎯",
    "house_boost" := "Any activity helps your house earn points! 🏆"]

  const StrengthSet: map<string, string> := map[
    "balance" := "Time for some strength training! 💪",
    "challenge" := "Can you do 10 push-ups today? 💪",
    "house_boost" := "A HIIT session would boost your house points! 🔥"]

  const CardioSet: map<string, string> := map[
    "balance" := "How about some cardio today? 🏃‍♂️",
    "challenge" := "Try a new workout type this week! 🌟",
    "house_boost" := "Your house needs your energy! 🏋️‍♂️"]

  /**
   * `get_fallback_recommendations(activities)`, given the activity types
   * newest first: the starter set for no activity, the strength set when
   * the latest type is exactly "Cardio", the cardio set otherwise.
   */
  function FallbackRecommendations(types: seq<string>): (r: map<string, string>)
    ensures r.Keys == RecommendationKeys
    ensures types == [] <==> r == StarterSet
    ensures r == StrengthSet <==> types != [] && types[0] == "Cardio"
  {
    if types == [] then StarterSet
    else if types[0] == "Cardio" then StrengthSet
    else CardioSet
  }

  /**
   * "Cardio" is not a type the submission form offers, so after any
   * activity logged through the form the fallback is the cardio set.
   */
  lemma FormTypesGetCardioSet(types: seq<string>)
    requires types != [] && types[0] in ActivityChoices
    ensures FallbackRecommendations(types) == CardioSet
  {
  }

  const Welcome := "Welcome to OctoFit! Ready to start your fitness journey? 🚀"

  const CardioFeedback := "Great cardio session! How about some strength training next? 💪"
  const WeightsFeedback := "Crushing those weights! Maybe try some yoga for recovery? 🧘‍♂️"
  const VarietyFeedback := "Way to mix up your routine! Keep that variety coming! 🌟"

  /**
   * `get_fallback_feedback(activities, streak)`, given the activity types
   * newest first: the welcome exactly for no activity; then a streak above
   * 5, then a streak of 1 to 5, each quoting the streak; with no streak a
   * message chosen by the latest type. (The source's last `return` cannot
   * be reached: a non-empty list always has a latest activity.)
   */
  function FallbackFeedback(types: seq<string>, streak: nat): (r: string)
    ensures r == Welcome <==> types == []
    ensures types != [] && streak == 0 && types[0] == "Cardio" ==> r == CardioFeedback
    ensures types != [] && streak == 0 && types[0] == "Strength Training" ==> r == WeightsFeedback
    ensures types != [] && streak == 0 && types[0] != "Cardio" && types[0] != "Strength Training" ==> r == VarietyFeedback
  {
    if types == [] then Welcome
    else if streak > 5 then
      var r := "Amazing " + NatToString(streak) + "-day streak! You're on fire! 🔥";
      assert r[|r| - 1] != Welcome[|Welcome| - 1];
      r
    else if streak > 0 then
      var r := "Nice " + NatToString(streak) + "-day streak! Keep it going! 💪";
      assert r[|r| - 1] != Welcome[|Welcome| - 1];
      r
    else if types[0] == "Cardio" then
      assert CardioFeedback[|CardioFeedback| - 1] != Welcome[|Welcome| - 1];
      CardioFeedback
    else if types[0] == "Strength Training" then
      assert WeightsFeedback[|WeightsFeedback| - 1] != Welcome[|Welcome| - 1];
      WeightsFeedback
    else
      assert VarietyFeedback[|VarietyFeedback| - 1] != Welcome[|Welcome| - 1];
      VarietyFeedback
  }

  /**
   * The feedback quotes the streak so that it reads back as the same number:
   * the digits after "Amazing " (streak above 5) or "Nice " (streak 1 to 5)
   * are `str(streak)`.
   */
  lemma FeedbackQuotesStreak(types: seq<string>, streak: nat)
    requires types != [] && streak > 0
    ensures var r := FallbackFeedback(types, streak);
            var start := if streak > 5 then |"Amazing "| else |"Nice "|;
            var digits := NatToString(streak);
            && start + |digits| <= |r|
            && r[start..start + |digits|] == digits
            && r[..start] == (if streak > 5 then "Amazing " else "Nice ")
            && DigitsValue(r[start..start + |digits|]) == streak
  {
    NatToStringRoundTrip(streak);
    var digits := NatToString(streak);
    if streak > 5 {
      var r := "Amazing " + digits + "-day streak! You're on fire! 🔥";
      assert r[8..8 + |digits|] == digits;
      assert r[..8] == "Amazing ";
    } else {
      var r := "Nice " + digits + "-day streak! Keep it going! 💪";
      assert r[5..5 + |digits|] == digits;
      assert r[..5] == "Nice ";
    }
  }

  /**
   * With no streak the message follows the latest type; and as the form
   * stores "Strength", never "Strength Training", a logged strength session
   * gets the variety message.
   */
  lemma FormStrengthGetsVariety(types: seq<string>)
    requires types != [] && types[0] == "Strength"
    ensures FallbackFeedback(types, 0) == VarietyFeedback
  {
  }

  const DefaultChallenge := "Join a new challenge!"
  const DefaultHouseBoost := "Log a workout to boost house points!"

  /**
   * The reply lines mapped to the three keys: line 0 to "balance", line 1 to
   * "challenge", line 2 to "house_boost", each missing line replaced by its
   * default. Splitting always yields a line 0, so "balance" is never
   * defaulted.
   */
  function LinesToRecommendations(lines: seq<string>): (r: map<string, string>)
    requires |lines| >= 1
    ensures r.Keys == RecommendationKeys
  {
    map["balance" := lines[0],
        "challenge" := if |lines| > 1 then lines[1] else DefaultChallenge,
        "house_boost" := if |lines| > 2 then lines[2] else DefaultHouseBoost]
  }

  /** The model's reply, stripped and split on newlines, mapped to the three keys. */
  function AiRecommendations(content: string): (r: map<string, string>)
    ensures r.Keys == RecommendationKeys
  {
    LinesToRecommendations(Split(Strip(content), '\n'))
  }

  /**
   * `r` holds the text read line by line: "balance" is `t` up to its first
   * newline; "challenge" is the next line, or the default when there is no
   * newline; "house_boost" is the line after that, or the default when
   * there is no second newline.
   */
  predicate ReadsLines(t: string, r: map<string, string>) {
    && "balance" in r && "challenge" in r && "house_boost" in r
    && r["balance"] == t[..LineEnd(t, '\n')]
    && (LineEnd(t, '\n') == |t| ==> r["challenge"] == DefaultChallenge && r["house_boost"] == DefaultHouseBoost)
    && (LineEnd(t, '\n') < |t| ==> SecondAndThird(t[LineEnd(t, '\n') + 1..], r))
  }

  /** The model's reply is read line by line once it is stripped. */
  lemma LinesMapPositionally(content: string)
    ensures ReadsLines(Strip(content), AiRecommendations(content))
  {
    LinesOfText(Strip(content));
  }

  /** The keys are read line by line from any text. */
  lemma LinesOfText(t: string)
    ensures ReadsLines(t, LinesToRecommendations(Split(t, '\n')))
  {
    var e := LineEnd(t, '\n');
    SplitFirst(t, '\n');
    if e < |t| {
      SecondLines(t[e + 1..], Split(t, '\n'));
    }
  }

  /**
   * `r` holds the first line of `t1` under "challenge" and its second line,
   * or the default when there is none, under "house_boost".
   */
  predicate SecondAndThird(t1: string, r: map<string, string>) {
    && "challenge" in r && "house_boost" in r
    && r["challenge"] == t1[..LineEnd(t1, '\n')]
    && (LineEnd(t1, '\n') == |t1| ==> r["house_boost"] == DefaultHouseBoost)
    && (LineEnd(t1, '\n') < |t1| ==>
          var t2 := t1[LineEnd(t1, '\n') + 1..];
          r["house_boost"] == t2[..LineEnd(t2, '\n')])
  }

  /** The second and third lines of a split, seen from the text after the first newline. */
  lemma SecondLines(t1: string, lines: seq<string>)
    requires |lines| >= 1 && lines[1..] == Split(t1, '\n')
    ensures SecondAndThird(t1, LinesToRecommendations(lines))
  {
    var rest := Split(t1, '\n');
    var e1 := LineEnd(t1, '\n');
    SplitFirst(t1, '\n');
    assert lines[1] == rest[0];
    if e1 < |t1| {
      var t2 := t1[e1 + 1..];
      SplitFirst(t2, '\n');
      assert rest[1..] == Split(t2, '\n');
      assert |rest| >= 2 && rest[1] == Split(t2, '\n')[0];
      assert lines[2] == rest[1];
      assert LinesToRecommendations(lines)["house_boost"] == t2[..LineEnd(t2, '\n')];
    } else {
      assert |rest| == 1 && |lines| == 2;
      assert LinesToRecommendations(lines)["house_boost"] == DefaultHouseBoost;
    }
  }

  /**
   * A reply of exactly three lines, without surrounding whitespace, is
   * recovered by joining the three recommendations with newlines.
   */
  lemma AiThreeLinesRoundTrip(content: string)
    requires Strip(content) == content && Occurrences(content, '\n') == 2
    ensures var r := AiRecommendations(content);
            Join([r["balance"], r["challenge"], r["house_boost"]], '\n') == content
  {
    SplitJoin(content, '\n');
    ThreeLinesInOrder(Split(content, '\n'));
  }

  /** Three lines mapped to the keys are read back in order. */
  lemma ThreeLinesInOrder(lines: seq<string>)
    requires |lines| == 3
    ensures var r := LinesToRecommendations(lines);
            [r["balance"], r["challenge"], r["house_boost"]] == lines
  {
    var r := LinesToRecommendations(lines);
    assert r["balance"] == lines[0] && r["challenge"] == lines[1] && r["house_boost"] == lines[2];
  }
}
