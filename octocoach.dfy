/**
 * fitness/utils/octocoach.py: the coach's scripted replies (the guest
 * greeting and the priority-ordered choice of a reply for a signed-in user,
 * which records some replies in the chat history) and the start-up routine
 * that makes sure the four houses exist.
 */
module OctoCoach {
  import opened Wrappers
  import opened Seqs
  import opened Text
  import opened Tables

  // ---------------------------------------------------------------- guests

  const LoginUrl := "/accounts/login/"
  const RegisterUrl := "/register/"

  /** The personas that have their own guest greeting. */
  const Personas: set<string> := {"arnold", "jennifer", "katy", "mel"}

  /** How the greetings open and close a link around its address. */
  const LinkOpen := "<a href='"
  const LinkClose := "'>"

  /** The link to the login page and the link to the sign-up page, as the greetings write them. */
  const LoginLink := LinkOpen + LoginUrl + LinkClose
  const RegisterLink := LinkOpen + RegisterUrl + LinkClose

  /** The text of the default persona's greeting before its first link and after its second. */
  const ArnoldOpening := "Ahoy there, future OctoFitter! 🐙 Before we pump any iron, you gotta hop aboard. ⛵ "
  const ArnoldClosing := "create an account</a> — I’ll be here cheering you on! 💪 Once you’re in, I’ll help you pick a house, log activities, and start your fitness adventure! 🌊"

  /**
   * Each persona's f-string cut at its two links `<a href='{login_url}'>`
   * and `<a href='{register_url}'>`: the text before the first link, the
   * text between the two, and the text after the second.
   */
  function GreetingParts(persona: string): (string, string, string)
    requires persona in Personas
  {
    if persona == "arnold" then (ArnoldOpening, "Log in</a> or ", ArnoldClosing)
    else if persona == "jennifer" then ("Hey there, future OctoFitter! 🌟 Before we get started, please ", "log in</a> or ", "create an account</a>. I’ll be here cheering you on! ✨ Once you’re in, I’ll help you pick a house, log activities, and start your wellness journey!")
    else if persona == "katy" then ("Hey superstar! 🎤 Before we make fitness fireworks, ", "log in</a> or ", "create an account</a> — I’ll be here cheering you on! 💃🌈 Once you’re in, I’ll help you pick a house, log activities, and start your fitness adventure!")
    else ("Ready for action, recruit? 🦸‍♂️ Before you join the OctoFit squad, ", "log in</a> or ", "create an account</a>. I’ll be here cheering you on! ⚔️💥 Once you’re in, I’ll help you pick a house, log activities, and start your fitness adventure!")
  }

  /** A greeting with the login link after `p0` and the sign-up link after `p1`. */
  function Linked(p0: string, p1: string, p2: string): string {
    p0 + LoginLink + p1 + RegisterLink + p2
  }

  const GenericGreeting := "Ahoy there, future OctoFitter! 🐙 Before we swim any laps, you’ll need to hop aboard. ⛵ — I’ll be here cheering you on! 💪 Once you’re in, I’ll help you pick a house, log activities, and start your fitness adventure! 🌊"

  /** `get_guest_greeting(persona)`: the persona's text with both links, the generic text for any other persona. */
  function GuestGreeting(persona: string): string {
    if persona in Personas then
      var p := GreetingParts(persona);
      Linked(p.0, p.1, p.2)
    else
      GenericGreeting
  }

  /** The text links to both the login page and the sign-up page. */
  predicate LinksToSignIn(text: string) {
    Contains(text, LoginLink) && Contains(text, RegisterLink)
  }

  /** `x` occurs in `a + x`. */
  lemma ContainsAtEnd(a: string, x: string)
    ensures Contains(a + x, x)
  {
    assert (a + x)[|a|..|a| + |x|] == x;
    assert OccursAt(a + x, x, |a|);
  }

  /** Whatever occurs in `a` occurs in `a + b`. */
  lemma ContainsExtend(a: string, b: string, x: string)
    requires Contains(a, x)
    ensures Contains(a + b, x)
  {
    var i :| 0 <= i <= |a| - |x| && OccursAt(a, x, i);
    assert (a + b)[i..i + |x|] == a[i..i + |x|];
    assert OccursAt(a + b, x, i);
  }

  /** A greeting put together by `Linked` links to both pages. */
  lemma LinkedLinks(p0: string, p1: string, p2: string)
    ensures LinksToSignIn(Linked(p0, p1, p2))
  {
    ContainsAtEnd(p0, LoginLink);
    ContainsExtend(p0 + LoginLink, p1 + RegisterLink + p2, LoginLink);
    assert p0 + LoginLink + (p1 + RegisterLink + p2) == Linked(p0, p1, p2);
    ContainsAtEnd(p0 + LoginLink + p1, RegisterLink);
    ContainsExtend(p0 + LoginLink + p1 + RegisterLink, p2, RegisterLink);
  }

  /** The two anchors, with the login and sign-up addresses filled in. */
  lemma LinkTexts()
    ensures LoginLink == "<a href='/accounts/login/'>"
    ensures RegisterLink == "<a href='/register/'>"
  {
  }

  /**
   * The default persona's greeting, written out as the source's f-string
   * with `login_url` and `register_url` substituted: each address sits
   * inside exactly one `<a href='...'>`.
   */
  lemma ArnoldGreetingText(persona: string)
    requires persona == "arnold"
    ensures GuestGreeting(persona)
            == ArnoldOpening + "<a href='/accounts/login/'>" + "Log in</a> or " + "<a href='/register/'>" + ArnoldClosing
  {
    var p := GreetingParts(persona);
    LinkTexts();
    assert GuestGreeting(persona) == Linked(p.0, p.1, p.2);
  }

  /** The greetings of the four personas link to the login and sign-up pages. */
  lemma PersonaGreetingLinks(persona: string)
    requires persona in Personas
    ensures LinksToSignIn(GuestGreeting(persona))
  {
    var p := GreetingParts(persona);
    LinkedLinks(p.0, p.1, p.2);
  }

  /** No persona is the empty string, so an empty persona falls back to "arnold". */
  lemma NoEmptyPersona()
    ensures "" !in Personas
  {
  }

  /**
   * The reply to a visitor who is not signed in: the greeting of the
   * requested persona, or of "arnold" when none (or an empty one) is given,
   * which links to the login and sign-up pages; any other persona gets the
   * generic greeting.
   */
  function GuestReply(persona: Option<string>): (r: string)
    ensures persona.None? || persona.value == "" ==> r == GuestGreeting("arnold") && LinksToSignIn(r)
    ensures persona.Some? && persona.value in Personas ==> r == GuestGreeting(persona.value)
    ensures persona.Some? && persona.value != "" && persona.value !in Personas ==> r == GenericGreeting
  {
    NoEmptyPersona();
    var name := GuestPersona(persona);
    assert persona.Some? && persona.value in Personas ==> name == persona.value;
    if name == "arnold" then
      PersonaGreetingLinks("arnold");
      GuestGreeting(name)
    else
      GuestGreeting(name)
  }

  /** The persona a visitor gets: the one asked for, or "arnold" when none or an empty one is given. */
  function GuestPersona(persona: Option<string>): (name: string)
    ensures persona.None? || persona.value == "" ==> name == "arnold"
    ensures persona.Some? && persona.value != "" ==> name == persona.value
  {
    if persona.None? || persona.value == "" then "arnold" else persona.value
  }

  /** Every persona's reply to a visitor links to the login and sign-up pages. */
  lemma GuestReplyLinks(persona: Option<string>)
    requires persona.None? || persona.value == "" || persona.value in Personas
    ensures LinksToSignIn(GuestReply(persona))
  {
    if persona.Some? && persona.value in Personas {
      PersonaGreetingLinks(persona.value);
    }
  }

  // ------------------------------------------------------- signed-in users

  /** The `event` argument: the three events the coach knows, or none, or another one. */
  datatype CoachEvent = NoEvent | HouseSwitch | ActivityLogged | Milestone | OtherEvent

  /**
   * The outcome of `get_octocoach_message_for_user` for a signed-in user:
   * a reply, with the context under which it is stored in the chat history
   * (`None` when it is not stored), or the failure of a house-switch event
   * for a user without a house (the source dereferences the missing house).
   */
  datatype CoachReply = Reply(message: string, recordedAs: Option<string>) | HouseSwitchWithoutHouse

  /** `e` is a message the coach sent to `u`. */
  predicate BotTo(e: ChatEntry, u: UserId) {
    e.user == u && e.sender == BotSender
  }

  /** The time of the latest coach message to `u`, if there is one. */
  function LastBotTime(chat: seq<ChatEntry>, u: UserId): (r: Option<Seconds>)
    ensures r.None? <==> forall i :: 0 <= i < |chat| ==> !BotTo(chat[i], u)
    ensures r.Some? ==> (exists i :: 0 <= i < |chat| && BotTo(chat[i], u) && chat[i].timestamp == r.value)
    ensures r.Some? ==> forall i :: 0 <= i < |chat| && BotTo(chat[i], u) ==> chat[i].timestamp <= r.value
  {
    if chat == [] then None
    else
      var e := chat[|chat| - 1];
      var before := LastBotTime(chat[..|chat| - 1], u);
      if !BotTo(e, u) then before
      else if before.Some? && before.value >= e.timestamp then before
      else Some(e.timestamp)
  }

  /** One day, in seconds. */
  const Day := 86400

  /** The user gets the daily greeting: no coach message yet, or the latest is over a day old. */
  predicate NeedsGreeting(chat: seq<ChatEntry>, u: UserId, now: Seconds) {
    match LastBotTime(chat, u)
    case None => true
    case Some(t) => now - t > Day
  }

  function Greeting(username: string, house: Option<House>): string {
    "👋 Hey " + username + "! Welcome back to OctoFit. You're in House " + (if house.Some? then house.value.name else "None") + ". Ready to crush your goals today?"
  }

  function SwitchMessage(houseName: string): string {
    "🏠 You just switched to House " + houseName + "! Let's earn some points and unlock new badges!"
  }

  const ActivityMessage := "💪 Nice job logging your activity! Keep it up for more streaks and rewards. Want to try a new challenge?"

  function MilestoneMessage(username: string): string {
    "🎉 Congrats " + username + "! You hit a new milestone. Check your badges and celebrate!"
  }

  /** Phrases that ask for the list of houses. */
  const HouseKeywords: seq<string> := ["house list", "what house", "which house", "houses", "pick a house", "choose a house"]

  /** The input (lower-cased) mentions one of the house phrases. */
  predicate AsksForHouses(lower: string) {
    exists k :: 0 <= k < |HouseKeywords| && Contains(lower, HouseKeywords[k])
  }

  const HouseListIntro := "Here are your real house options in OctoFit:\n"
  const HouseListOutro := "\nPick the one that matches your vibe!"

  /** The line of the house list that describes `h`. */
  function HouseLine(h: House): string {
    "\n🏠 " + h.name + ": " + h.description + " (Theme: " + h.theme + ", Mascot: " + h.mascot + ")"
  }

  /** The lines of all houses, in table order. */
  function HouseLines(hs: seq<House>): string {
    if hs == [] then "" else HouseLines(hs[..|hs| - 1]) + HouseLine(hs[|hs| - 1])
  }

  function HouseList(hs: seq<House>): string {
    HouseListIntro + HouseLines(hs) + HouseListOutro
  }

  /** The line of every house is part of the house list. */
  lemma HouseListNamesEveryHouse(hs: seq<House>, i: nat)
    requires i < |hs|
    ensures Contains(HouseList(hs), HouseLine(hs[i]))
  {
    var x := HouseLine(hs[i]);
    HouseLinesHold(hs, i);
    ContainsBehind(HouseListIntro, HouseLines(hs), x);
    ContainsExtend(HouseListIntro + HouseLines(hs), HouseListOutro, x);
  }

  lemma ContainsBehind(a: string, b: string, x: string)
    requires Contains(b, x)
    ensures Contains(a + b, x)
  {
    var j :| 0 <= j <= |b| - |x| && OccursAt(b, x, j);
    assert (a + b)[|a| + j..|a| + j + |x|] == b[j..j + |x|];
    assert OccursAt(a + b, x, |a| + j);
  }

  lemma {:induction false} HouseLinesHold(hs: seq<House>, i: nat)
    requires i < |hs|
    ensures Contains(HouseLines(hs), HouseLine(hs[i]))
  {
    var front := hs[..|hs| - 1];
    if i == |hs| - 1 {
      ContainsAtEnd(HouseLines(front), HouseLine(hs[i]));
    } else {
      assert front[i] == hs[i];
      HouseLinesHold(front, i);
      ContainsExtend(HouseLines(front), HouseLine(hs[|hs| - 1]), HouseLine(hs[i]));
    }
  }

  /** The knowledge base, in the order of its dictionary; three keys have no answer of their own. */
  const Faq: seq<(string, Option<string>)> := [
    ("log activity", Some("To log an activity, click the 'Log Activity' button at the top of the page. You can record your workout, and it will count toward your streak and house points!")),
    ("how do i log", Some("Just click the 'Log Activity' button at the top of the home or house page to record your workout!")),
    ("earn badge", Some("You earn badges by completing challenges, maintaining streaks, and reaching house milestones. Check the House Badges section for your progress!")),
    ("switch house", Some("You can switch houses anytime from the home or house page by clicking the 'Switch House' button.")),
    ("join house", Some("To join a house, go to the home page and click 'Switch to' on your favorite house!")),
    ("challenge", Some("House challenges are listed on your house page. Accept and complete them to earn XP and badges!")),
    ("photo", Some("Upload your progress photos from the dashboard to celebrate your journey!")),
    ("leaderboard", Some("The leaderboard shows the top members in your house. Log activities to climb the ranks!")),
    ("progress", Some("Your dashboard and house page show your real-time progress, streaks, and house points!")),
    ("house list", None),
    ("what house", None),
    ("which house", None)]

  /** The entry answers the input: its key occurs in it and it has a (non-empty) answer. */
  predicate Answers(entry: (string, Option<string>), lower: string) {
    Contains(lower, entry.0) && entry.1.Some? && entry.1.value != ""
  }

  /** The answer of the first entry that answers the input. */
  function FaqAnswer(faq: seq<(string, Option<string>)>, lower: string): Option<string> {
    if faq == [] then None
    else if Answers(faq[0], lower) then faq[0].1
    else FaqAnswer(faq[1..], lower)
  }

  /**
   * The knowledge base answers exactly when some entry answers, and then
   * with the answer of the first such entry in dictionary order.
   */
  lemma {:induction false} FaqAnswerIsFirst(faq: seq<(string, Option<string>)>, lower: string)
    ensures FaqAnswer(faq, lower).Some? <==> exists i :: 0 <= i < |faq| && Answers(faq[i], lower)
    ensures FaqAnswer(faq, lower).Some? ==>
      exists i :: 0 <= i < |faq| && Answers(faq[i], lower) && faq[i].1 == FaqAnswer(faq, lower)
                  && forall j :: 0 <= j < i ==> !Answers(faq[j], lower)
  {
    if faq != [] && !Answers(faq[0], lower) {
      FaqAnswerIsFirst(faq[1..], lower);
      if FaqAnswer(faq, lower).Some? {
        var i :| 0 <= i < |faq[1..]| && Answers(faq[1..][i], lower) && faq[1..][i].1 == FaqAnswer(faq, lower)
                 && forall j :: 0 <= j < i ==> !Answers(faq[1..][j], lower);
        assert Answers(faq[i + 1], lower);
        assert forall j :: 0 <= j < i + 1 ==> !Answers(faq[j], lower) by {
          forall j | 0 <= j < i + 1 ensures !Answers(faq[j], lower) {
            if j > 0 { assert faq[j] == faq[1..][j - 1]; }
          }
        }
      } else {
        forall i | 0 <= i < |faq| ensures !Answers(faq[i], lower) {
          if i > 0 { assert faq[i] == faq[1..][i - 1]; }
        }
      }
    }
  }

  const Onboarding := "Welcome to OctoFit! I'm OctoCoach. Let's get you started—join a house to begin your journey!"

  /** The seven quote templates, each put together with the user name where it has a slot. */
  function ArnoldQuote(k: nat, username: string): string
    requires k < 7
  {
    if k == 0 then "Hasta la vista, " + username + "! Ready to crush your streak today?"
    else if k == 1 then "Get to the chopper, " + username + "! Time to move! 🏋️‍♂️"
    else if k == 2 then "You can do it, " + username + "! No pain, no gain! 💪"
    else if k == 3 then "Stay hungry, " + username + ", stay fit!"
    else if k == 4 then "It’s not a tumor, it’s just your growing muscles, " + username + "!"
    else if k == 5 then "Strength does not come from winning. Your struggles develop your strengths, " + username + "."
    else "Come with me if you want to lift!"
  }

  function HouseGreeting(quote: string, houseName: string): string {
    "🐙 " + quote + " You're in House " + houseName + ". Ready to log an activity or take on a new challenge?"
  }

  /** The house the profile belongs to, if any. */
  function ProfileHouse(hs: seq<House>, p: Profile): Option<House> {
    if p.house.None? then None
    else match HouseIndex(hs, p.house.value)
      case Some(i) => Some(hs[i])
      case None => None
  }

  /**
   * The reply `get_octocoach_message_for_user` chooses for a signed-in user,
   * checking in this order: the daily greeting; the house-switch, activity
   * and milestone events; a house question; the knowledge base; then the
   * onboarding text for a user without a house, or a house greeting with the
   * quote `pick` (the random choice) for a user with one. The last two are
   * not recorded; the source's later branches cannot be reached.
   */
  function CoachReplyFor(chat: seq<ChatEntry>, u: UserId, username: string, house: Option<House>,
                         hs: seq<House>, input: string, event: CoachEvent, now: Seconds, pick: nat): (r: CoachReply)
    ensures r.HouseSwitchWithoutHouse? <==> !NeedsGreeting(chat, u, now) && event == HouseSwitch && house.None?
    ensures NeedsGreeting(chat, u, now) <==> r.Reply? && r.recordedAs == Some("greeting")
  {
    if NeedsGreeting(chat, u, now) then Reply(Greeting(username, house), Some("greeting"))
    else if event == HouseSwitch then
      if house.None? then HouseSwitchWithoutHouse else Reply(SwitchMessage(house.value.name), Some("house_switch"))
    else if event == ActivityLogged then Reply(ActivityMessage, Some("activity_log"))
    else if event == Milestone then Reply(MilestoneMessage(username), Some("milestone"))
    else InputReply(username, house, hs, input, pick)
  }

  /**
   * The reply to the user's input when no greeting is due and no event
   * applies: the house list, the knowledge base, then the onboarding text or
   * a house greeting.
   */
  function InputReply(username: string, house: Option<House>, hs: seq<House>, input: string, pick: nat): (r: CoachReply)
    ensures r.Reply? && r.recordedAs != Some("greeting")
  {
    if input != "" && AsksForHouses(Lower(input)) then Reply(HouseList(hs), Some("house_list"))
    else if input != "" && FaqAnswer(Faq, Lower(input)).Some? then
      Reply(FaqAnswer(Faq, Lower(input)).value, Some("faq"))
    else if house.None? then Reply(Onboarding, None)
    else Reply(HouseGreeting(ArnoldQuote(pick % 7, username), house.value.name), None)
  }

  /** The chat rows a reply adds: one coach message at `now` when the reply is recorded. */
  function Recorded(r: CoachReply, u: UserId, now: Seconds): seq<ChatEntry> {
    if r.Reply? && r.recordedAs.Some? then [ChatEntry(u, BotSender, r.message, now, r.recordedAs.value)] else []
  }

  /** Builds the house list line by line, as the source's loop does. */
  method BuildHouseList(hs: seq<House>) returns (msg: string)
    ensures msg == HouseList(hs)
  {
    msg := HouseListIntro;
    for i := 0 to |hs|
      invariant msg == HouseListIntro + HouseLines(hs[..i])
    {
      assert hs[..i + 1][..i] == hs[..i];
      msg := msg + HouseLine(hs[i]);
    }
    assert hs[..|hs|] == hs;
    msg := msg + HouseListOutro;
  }

  /** Walks the knowledge base in order and returns the first answer whose key occurs. */
  method FirstAnswer(faq: seq<(string, Option<string>)>, lower: string) returns (answer: Option<string>)
    ensures answer == FaqAnswer(faq, lower)
  {
    for i := 0 to |faq|
      invariant FaqAnswer(faq, lower) == FaqAnswer(faq[i..], lower)
    {
      assert faq[i..][1..] == faq[i + 1..];
      if Answers(faq[i], lower) {
        return faq[i].1;
      }
    }
    return None;
  }

  /**
   * `get_octocoach_message_for_user` for the signed-in user `u` at time
   * `now`, with the random quote index `pick`: the reply of `CoachReplyFor`
   * (the answer to the input computed by the source's loops when neither a
   * greeting nor an event applies), and the chat history gains exactly the
   * recorded reply. Nothing else changes (so `last_streak_milestone` is
   * never updated).
   */
  method CoachMessage(s: Store, u: UserId, input: string, event: CoachEvent, now: Seconds, pick: nat)
    returns (r: CoachReply)
    requires s.Valid() && u in s.profiles
    modifies s`chat
    ensures r == CoachReplyFor(old(s.chat), u, s.usernames[u], ProfileHouse(s.houses, s.profiles[u]),
                               s.houses, input, event, now, pick)
    ensures s.chat == old(s.chat) + Recorded(r, u, now)
  {
    var house := ProfileHouse(s.houses, s.profiles[u]);
    var name := s.usernames[u];
    if !NeedsGreeting(s.chat, u, now) && (event == NoEvent || event == OtherEvent) {
      r := AnswerInput(name, house, s.houses, input, pick);
      QuietTurnAnswersInput(s.chat, u, name, house, s.houses, input, event, now, pick);
    } else {
      r := CoachReplyFor(s.chat, u, name, house, s.houses, input, event, now, pick);
    }
    s.chat := s.chat + Recorded(r, u, now);
  }

  /** Answers the input: a house question, then the knowledge base, then the fallbacks. */
  method AnswerInput(username: string, house: Option<House>, hs: seq<House>, input: string, pick: nat)
    returns (r: CoachReply)
    ensures r == InputReply(username, house, hs, input, pick)
  {
    var lower := Lower(input);
    if input != "" && AsksForHouses(lower) {
      var msg := BuildHouseList(hs);
      return Reply(msg, Some("house_list"));
    }
    var answer := None;
    if input != "" {
      answer := FirstAnswer(Faq, lower);
    }
    if answer.Some? {
      r := Reply(answer.value, Some("faq"));
    } else if house.None? {
      r := Reply(Onboarding, None);
    } else {
      r := Reply(HouseGreeting(ArnoldQuote(pick % 7, username), house.value.name), None);
    }
  }

  /**
   * Any recorded reply holds off the daily greeting for a day: at any time
   * up to a day later the user is not greeted again.
   */
  lemma RecordedReplyHoldsOffGreeting(chat: seq<ChatEntry>, r: CoachReply, u: UserId, now: Seconds, t: Seconds)
    requires r.Reply? && r.recordedAs.Some?
    requires now <= t <= now + Day
    ensures !NeedsGreeting(chat + Recorded(r, u, now), u, t)
  {
    var chat' := chat + Recorded(r, u, now);
    assert BotTo(chat'[|chat|], u);
  }

  /**
   * The user is greeted at most once a day: after a greeting at `now`, a
   * reply at any time up to a day later is not the greeting, whatever the
   * event and the input.
   */
  lemma GreetedOncePerDay(chat: seq<ChatEntry>, u: UserId, username: string, house: Option<House>,
                          hs: seq<House>, input: string, event: CoachEvent, now: Seconds, pick: nat,
                          input': string, event': CoachEvent, t: Seconds, pick': nat)
    requires NeedsGreeting(chat, u, now) && now <= t <= now + Day
    ensures var r := CoachReplyFor(chat, u, username, house, hs, input, event, now, pick);
            var chat' := chat + Recorded(r, u, now);
            var r' := CoachReplyFor(chat', u, username, house, hs, input', event', t, pick');
            !(r'.Reply? && r'.recordedAs == Some("greeting"))
  {
    var r := CoachReplyFor(chat, u, username, house, hs, input, event, now, pick);
    RecordedReplyHoldsOffGreeting(chat, r, u, now, t);
  }

  /**
   * Without a greeting due and without an event, an input that names the
   * knowledge base but asks no house question is answered with the first
   * entry, in dictionary order, whose key occurs in the lower-cased input.
   */
  lemma FaqReplyIsFirstMatch(chat: seq<ChatEntry>, u: UserId, username: string, house: Option<House>,
                             hs: seq<House>, input: string, event: CoachEvent, now: Seconds, pick: nat, i: nat)
    requires !NeedsGreeting(chat, u, now) && (event == NoEvent || event == OtherEvent)
    requires !AsksForHouses(Lower(input))
    requires i < |Faq| && Answers(Faq[i], Lower(input))
    requires forall j :: 0 <= j < i ==> !Answers(Faq[j], Lower(input))
    ensures CoachReplyFor(chat, u, username, house, hs, input, event, now, pick)
            == Reply(Faq[i].1.value, Some("faq"))
  {
    var lower := Lower(input);
    FirstAnswerAt(Faq, lower, i);
    FaqKeysNonEmpty();
    assert |Faq[i].0| > 0 && |lower| >= |Faq[i].0|;
    assert input != "";
  }

  /** Every key of the knowledge base is non-empty, so the empty input matches none. */
  lemma FaqKeysNonEmpty()
    ensures forall k :: 0 <= k < |Faq| ==> |Faq[k].0| > 0
  {
  }

  /** An entry that answers, with none before it answering, gives the knowledge base's answer. */
  lemma {:induction false} FirstAnswerAt(faq: seq<(string, Option<string>)>, lower: string, i: nat)
    requires i < |faq| && Answers(faq[i], lower)
    requires forall j :: 0 <= j < i ==> !Answers(faq[j], lower)
    ensures FaqAnswer(faq, lower) == faq[i].1
  {
    if i > 0 {
      assert !Answers(faq[0], lower);
      assert forall j :: 0 <= j < i - 1 ==> faq[1..][j] == faq[j + 1];
      FirstAnswerAt(faq[1..], lower, i - 1);
    }
  }

  /**
   * A house question is answered with the house list even when the input
   * also names a knowledge-base entry.
   */
  lemma HouseQuestionBeforeFaq(chat: seq<ChatEntry>, u: UserId, username: string, house: Option<House>,
                               hs: seq<House>, input: string, event: CoachEvent, now: Seconds, pick: nat)
    requires !NeedsGreeting(chat, u, now) && (event == NoEvent || event == OtherEvent)
    requires AsksForHouses(Lower(input))
    ensures CoachReplyFor(chat, u, username, house, hs, input, event, now, pick)
            == Reply(HouseList(hs), Some("house_list"))
  {
    var k :| 0 <= k < |HouseKeywords| && Contains(Lower(input), HouseKeywords[k]);
    assert |HouseKeywords[k]| > 0;
  }

  /**
   * With no greeting due, an event fixes the reply whatever the input: the
   * switch message for a user with a house, the activity message, or the
   * milestone message, each recorded under its event.
   */
  lemma EventBeatsInput(chat: seq<ChatEntry>, u: UserId, username: string, house: Option<House>,
                        hs: seq<House>, input: string, event: CoachEvent, now: Seconds, pick: nat)
    requires !NeedsGreeting(chat, u, now)
    ensures event == HouseSwitch && house.Some? ==>
              CoachReplyFor(chat, u, username, house, hs, input, event, now, pick)
              == Reply(SwitchMessage(house.value.name), Some("house_switch"))
    ensures event == ActivityLogged ==>
              CoachReplyFor(chat, u, username, house, hs, input, event, now, pick)
              == Reply(ActivityMessage, Some("activity_log"))
    ensures event == Milestone ==>
              CoachReplyFor(chat, u, username, house, hs, input, event, now, pick)
              == Reply(MilestoneMessage(username), Some("milestone"))
  {
  }

  /**
   * When the input is neither a house question nor answered by the
   * knowledge base, a user without a house gets the onboarding text and a
   * user with one the quote greeting for their house, both unrecorded.
   */
  lemma FallbackText(username: string, house: Option<House>, hs: seq<House>, input: string, pick: nat)
    requires !(input != "" && (AsksForHouses(Lower(input)) || FaqAnswer(Faq, Lower(input)).Some?))
    ensures house.None? ==> InputReply(username, house, hs, input, pick) == Reply(Onboarding, None)
    ensures house.Some? ==>
              InputReply(username, house, hs, input, pick)
              == Reply(HouseGreeting(ArnoldQuote(pick % 7, username), house.value.name), None)
  {
  }

  /** With no greeting due and no event, the coach's reply is its answer to the input. */
  lemma QuietTurnAnswersInput(chat: seq<ChatEntry>, u: UserId, username: string, house: Option<House>,
                              hs: seq<House>, input: string, event: CoachEvent, now: Seconds, pick: nat)
    requires !NeedsGreeting(chat, u, now) && (event == NoEvent || event == OtherEvent)
    ensures CoachReplyFor(chat, u, username, house, hs, input, event, now, pick)
            == InputReply(username, house, hs, input, pick)
  {
  }

  /**
   * Only the onboarding text and the house greeting go unrecorded, and a
   * user with a house always gets a reply.
   */
  lemma UnrecordedReplies(chat: seq<ChatEntry>, u: UserId, username: string, house: Option<House>,
                          hs: seq<House>, input: string, event: CoachEvent, now: Seconds, pick: nat)
    ensures var r := CoachReplyFor(chat, u, username, house, hs, input, event, now, pick);
            (house.Some? ==> r.Reply?)
            && (r.Reply? && r.recordedAs.None? <==>
                  !NeedsGreeting(chat, u, now) && (event == NoEvent || event == OtherEvent)
                  && !(input != "" && (AsksForHouses(Lower(input)) || FaqAnswer(Faq, Lower(input)).Some?)))
  {
    if !NeedsGreeting(chat, u, now) && (event == NoEvent || event == OtherEvent) {
      QuietTurnAnswersInput(chat, u, username, house, hs, input, event, now, pick);
    }
  }

  // -------------------------------------------------------- house set-up

  const HouseNames: seq<string> := ["Kraken", "Montana", "Razor", "Serene"]

  /** The house `get_or_create` makes for a missing name, with the default fields. */
  function DefaultHouse(id: HouseId, name: string): House {
    House(id, name, name + " Mascot", "#cccccc", 0, false, name + " house", name)
  }

  function Named(name: string): House -> bool {
    (h: House) => h.name == name
  }

  /** The houses table while the names are processed; `failed` once a name matches two houses. */
  datatype Setup = Setup(houses: seq<House>, nextId: nat, failed: bool)

  /**
   * `House.objects.get_or_create(name=name, ...)`: nothing when one house has
   * the name, a new default house when none has, and a failure (the query
   * returns several objects) when two or more have.
   */
  function EnsureOne(st: Setup, name: string): Setup {
    if st.failed then st
    else
      var n := Count(st.houses, Named(name));
      if n == 0 then Setup(st.houses + [DefaultHouse(st.nextId, name)], st.nextId + 1, false)
      else if n == 1 then st
      else st.(failed := true)
  }

  /** `get_or_create` for each name in turn. */
  function EnsureAll(st: Setup, names: seq<string>): Setup {
    if names == [] then st else EnsureOne(EnsureAll(st, names[..|names| - 1]), names[|names| - 1])
  }

  /** Once failed, the remaining names change nothing. */
  lemma {:induction false} FailedStays(st: Setup, names: seq<string>)
    requires st.failed
    ensures EnsureAll(st, names) == st
  {
    if names != [] {
      FailedStays(st, names[..|names| - 1]);
    }
  }

  /** Processing `a + b` is processing `a`, then `b`. */
  lemma {:induction false} EnsureAllSplit(st: Setup, a: seq<string>, b: seq<string>)
    ensures EnsureAll(st, a + b) == EnsureAll(EnsureAll(st, a), b)
  {
    if b == [] {
      assert a + b == a;
    } else {
      assert (a + b)[..|a + b| - 1] == a + b[..|b| - 1];
      EnsureAllSplit(st, a, b[..|b| - 1]);
    }
  }

  /** The houses that were there stay, unchanged and in place; new ones are appended. */
  lemma {:induction false} EnsureAllKeepsExisting(st: Setup, names: seq<string>)
    ensures |st.houses| <= |EnsureAll(st, names).houses|
    ensures EnsureAll(st, names).houses[..|st.houses|] == st.houses
  {
    if names != [] {
      EnsureAllKeepsExisting(st, names[..|names| - 1]);
    }
  }

  lemma CountAppendNamed(hs: seq<House>, h: House, name: string)
    ensures Count(hs + [h], Named(name)) == Count(hs, Named(name)) + (if h.name == name then 1 else 0)
  {
    FilterAppend(hs, [h], Named(name));
    assert [h][1..] == [];
  }

  /**
   * When the set-up succeeds, every one of the (distinct) names belongs to
   * exactly one house.
   */
  lemma {:induction false} EnsureAllPresent(st: Setup, names: seq<string>)
    requires NoDuplicates(names)
    requires !EnsureAll(st, names).failed
    ensures forall k :: 0 <= k < |names| ==> Count(EnsureAll(st, names).houses, Named(names[k])) == 1
  {
    if names != [] {
      var front := names[..|names| - 1];
      var last := names[|names| - 1];
      var mid := EnsureAll(st, front);
      EnsureAllPresent(st, front);
      forall k | 0 <= k < |names|
        ensures Count(EnsureAll(st, names).houses, Named(names[k])) == 1
      {
        if Count(mid.houses, Named(last)) == 0 {
          CountAppendNamed(mid.houses, DefaultHouse(mid.nextId, last), names[k]);
        }
        if k < |names| - 1 {
          assert front[k] == names[k];
        }
      }
    }
  }

  /** With every name already taken by exactly one house, the set-up changes nothing. */
  lemma {:induction false} AllPresentIsNoop(st: Setup, names: seq<string>)
    requires !st.failed
    requires forall k :: 0 <= k < |names| ==> Count(st.houses, Named(names[k])) == 1
    ensures EnsureAll(st, names) == st
  {
    if names != [] {
      AllPresentIsNoop(st, names[..|names| - 1]);
    }
  }

  /** A second run of a successful set-up creates nothing. */
  lemma EnsureHousesIdempotent(st: Setup)
    requires !EnsureAll(st, HouseNames).failed
    ensures var once := EnsureAll(st, HouseNames);
            EnsureAll(Setup(once.houses, once.nextId, false), HouseNames) == once
  {
    assert NoDuplicates(HouseNames);
    EnsureAllPresent(st, HouseNames);
    var once := EnsureAll(st, HouseNames);
    AllPresentIsNoop(Setup(once.houses, once.nextId, false), HouseNames);
  }

  /** Appending a house keeps every existing house where it was. */
  lemma {:induction false} AppendKeepsIndex(hs: seq<House>, h: House, id: HouseId)
    requires HasHouse(hs, id)
    ensures HouseIndex(hs + [h], id) == HouseIndex(hs, id)
  {
    if hs[0].id != id {
      assert (hs + [h])[1..] == hs[1..] + [h];
      AppendKeepsIndex(hs[1..], h, id);
    }
  }

  /** Creates the default house `name` with the next free id. */
  method CreateHouse(s: Store, name: string)
    requires s.Valid()
    modifies s`houses, s`nextHouseId
    ensures s.Valid()
    ensures s.houses == old(s.houses) + [DefaultHouse(old(s.nextHouseId), name)]
    ensures s.nextHouseId == old(s.nextHouseId) + 1
  {
    var h := DefaultHouse(s.nextHouseId, name);
    forall v | v in s.profiles && s.profiles[v].house.Some?
      ensures HasHouse(s.houses + [h], s.profiles[v].house.value)
    {
      AppendKeepsIndex(s.houses, h, s.profiles[v].house.value);
    }
    s.houses := s.houses + [h];
    s.nextHouseId := s.nextHouseId + 1;
  }

  /**
   * `ensure_houses_exist`: `get_or_create` for each of the four house names
   * in turn, stopping at a name two houses share; `ok` tells whether it got
   * through all four.
   */
  method EnsureHousesExist(s: Store) returns (ok: bool)
    requires s.Valid()
    modifies s`houses, s`nextHouseId
    ensures s.Valid()
    ensures var st := EnsureAll(Setup(old(s.houses), old(s.nextHouseId), false), HouseNames);
            s.houses == st.houses && s.nextHouseId == st.nextId && ok == !st.failed
  {
    ghost var init := Setup(s.houses, s.nextHouseId, false);
    for i := 0 to |HouseNames|
      invariant s.Valid()
      invariant EnsureAll(init, HouseNames[..i]) == Setup(s.houses, s.nextHouseId, false)
    {
      var name := HouseNames[i];
      assert HouseNames[..i + 1][..i] == HouseNames[..i];
      var n := Count(s.houses, Named(name));
      if n == 0 {
        CreateHouse(s, name);
      } else if n >= 2 {
        var failed := Setup(s.houses, s.nextHouseId, true);
        assert EnsureAll(init, HouseNames[..i + 1]) == failed;
        EnsureAllSplit(init, HouseNames[..i + 1], HouseNames[i + 1..]);
        assert HouseNames[..i + 1] + HouseNames[i + 1..] == HouseNames;
        FailedStays(failed, HouseNames[i + 1..]);
        return false;
      }
    }
    assert HouseNames[..|HouseNames|] == HouseNames;
    return true;
  }
}
