/**
 * The rows of the tables the rule engine reads and writes (the Django models
 * of fitness/models.py), and the `Store` that holds them all.
 */
module Tables {
  import opened Wrappers
  import opened Seqs

  type UserId = nat
  type HouseId = nat
  /** A calendar date, as a day number. */
  type Day = int
  /** A point in time, in whole seconds. */
  type Seconds = int

  datatype House = House(id: HouseId, name: string, mascot: string, color: string,
                         points: int, confettiShown: bool, description: string, theme: string)

  /** The parts of `UserProfile` the rules read or write. */
  datatype Profile = Profile(house: Option<HouseId>, streakCount: nat, botPersona: string,
                             lastStreakMilestone: nat)

  datatype Activity = Activity(user: UserId, activityType: string, durationMinutes: nat, date: Day)

  /** A challenge of a house; `canonicalActivity` is the optional normalised type tag. */
  datatype HouseChallenge = HouseChallenge(house: HouseId, description: string, xp: nat,
                                           canonicalActivity: Option<string>)

  datatype HouseBadge = HouseBadge(id: nat, house: HouseId, name: string)
  datatype UserBadge = UserBadge(user: UserId, badge: nat)

  datatype Reward = Reward(id: nat, name: string, unlockPoints: nat, unlockStreak: nat,
                           unlockChallenges: nat)
  datatype UserReward = UserReward(user: UserId, reward: nat)

  /** A user's attempt at a challenge: open while `completedAt` is `None`. */
  datatype AcceptedChallenge = AcceptedChallenge(user: UserId, challengeDescription: string,
                                                 xpPoints: nat, acceptedAt: Seconds,
                                                 completedAt: Option<Seconds>)

  datatype FriendStatus = Pending | Accepted | Declined
  datatype FriendRequest = FriendRequest(id: nat, fromUser: UserId, toUser: UserId, status: FriendStatus)
  /** A friendship, stored once per pair with the smaller id first. */
  datatype Friendship = Friendship(user1: UserId, user2: UserId)

  datatype Sender = UserSender | BotSender
  datatype ChatEntry = ChatEntry(user: UserId, sender: Sender, message: string,
                                 timestamp: Seconds, contextType: string)

  datatype ChallengeSuggestion = ChallengeSuggestion(id: nat, user: UserId, house: HouseId,
                                                     description: string, reviewed: bool,
                                                     approved: bool)

  /** The default profile `create_user_profile` makes for a new user. */
  const NewProfile := Profile(None, 0, "arnold", 0)

  /** Houses are kept in primary-key order. */
  predicate HousesOrdered(hs: seq<House>, nextId: nat) {
    (forall i, j :: 0 <= i < j < |hs| ==> hs[i].id < hs[j].id)
    && (forall i :: 0 <= i < |hs| ==> hs[i].id < nextId)
  }

  /** The position of the house with primary key `id`. */
  function HouseIndex(hs: seq<House>, id: HouseId): (r: Option<nat>)
    ensures r.Some? ==> r.value < |hs| && hs[r.value].id == id
    ensures r.None? ==> forall i :: 0 <= i < |hs| ==> hs[i].id != id
  {
    if hs == [] then None
    else if hs[0].id == id then Some(0)
    else match HouseIndex(hs[1..], id)
      case Some(i) => Some(i + 1)
      case None => None
  }

  predicate HasHouse(hs: seq<House>, id: HouseId) {
    HouseIndex(hs, id).Some?
  }

  /** Every profile's house (a nullable foreign key) refers to an existing house. */
  predicate ProfilesHaveHouses(profiles: map<UserId, Profile>, hs: seq<House>) {
    forall u :: u in profiles && profiles[u].house.Some? ==> HasHouse(hs, profiles[u].house.value)
  }

  /** The points of the user's house, 0 when the user has no house. */
  function HousePointsOf(profiles: map<UserId, Profile>, hs: seq<House>, u: UserId): int {
    if u !in profiles || profiles[u].house.None? then 0
    else match HouseIndex(hs, profiles[u].house.value)
      case Some(i) => hs[i].points
      case None => 0
  }

  /** `hs` with `delta` added to the points of house `id` only. */
  function AddPoints(hs: seq<House>, id: HouseId, delta: int): (r: seq<House>)
    ensures |r| == |hs|
    ensures forall i :: 0 <= i < |hs| ==>
      r[i] == if hs[i].id == id then hs[i].(points := hs[i].points + delta) else hs[i]
  {
    seq(|hs|, i requires 0 <= i < |hs| => if hs[i].id == id then hs[i].(points := hs[i].points + delta) else hs[i])
  }

  /** No row occurs twice: the `unique_together` constraint of a grant table. */
  predicate NoDuplicates<T(==)>(s: seq<T>) {
    forall i, j :: 0 <= i < j < |s| ==> s[i] != s[j]
  }

  predicate BadgeIdsUnique(bs: seq<HouseBadge>) {
    forall i, j :: 0 <= i < j < |bs| ==> bs[i].id != bs[j].id
  }

  predicate RewardIdsUnique(rs: seq<Reward>) {
    forall i, j :: 0 <= i < j < |rs| ==> rs[i].id != rs[j].id
  }

  /** Friend requests: unique ids below the next id, never to oneself, one per (from, to) pair. */
  predicate RequestsWellFormed(rs: seq<FriendRequest>, nextId: nat) {
    (forall i :: 0 <= i < |rs| ==> rs[i].id < nextId && rs[i].fromUser != rs[i].toUser)
    && (forall i, j :: 0 <= i < j < |rs| ==>
          rs[i].id != rs[j].id && (rs[i].fromUser, rs[i].toUser) != (rs[j].fromUser, rs[j].toUser))
  }

  /** Friendships: each pair once, smaller id first. */
  predicate FriendshipsNormalised(fs: seq<Friendship>) {
    (forall i :: 0 <= i < |fs| ==> fs[i].user1 < fs[i].user2)
    && NoDuplicates(fs)
  }

  /** The database: one field per table the rules touch. */
  class Store {
    var usernames: map<UserId, string>
    var profiles: map<UserId, Profile>
    var nextUserId: nat
    var houses: seq<House>
    var nextHouseId: nat
    var challenges: seq<HouseChallenge>
    var badges: seq<HouseBadge>
    var userBadges: seq<UserBadge>
    var rewards: seq<Reward>
    var userRewards: seq<UserReward>
    var activities: seq<Activity>
    var accepted: seq<AcceptedChallenge>
    var friendRequests: seq<FriendRequest>
    var nextRequestId: nat
    var friendships: seq<Friendship>
    var chat: seq<ChatEntry>
    var suggestions: seq<ChallengeSuggestion>

    /** The integrity constraints the schema and the handlers maintain. */
    ghost predicate Valid()
      reads this`usernames, this`profiles, this`nextUserId, this`houses, this`nextHouseId
      reads this`badges, this`userBadges, this`rewards, this`userRewards
      reads this`friendRequests, this`nextRequestId, this`friendships
    {
      usernames.Keys == profiles.Keys
      && 0 < nextUserId && (forall u :: u in profiles ==> 0 < u < nextUserId)
      && HousesOrdered(houses, nextHouseId)
      && ProfilesHaveHouses(profiles, houses)
      && BadgeIdsUnique(badges) && NoDuplicates(userBadges)
      && RewardIdsUnique(rewards) && NoDuplicates(userRewards)
      && RequestsWellFormed(friendRequests, nextRequestId)
      && FriendshipsNormalised(friendships)
    }

    /** An empty database. */
    constructor ()
      ensures Valid()
      ensures usernames == map[] && profiles == map[] && houses == [] && challenges == []
      ensures badges == [] && userBadges == [] && rewards == [] && userRewards == []
      ensures activities == [] && accepted == [] && friendRequests == [] && friendships == []
      ensures chat == [] && suggestions == []
    {
      usernames, profiles, nextUserId := map[], map[], 1;
      houses, nextHouseId := [], 1;
      challenges, badges, userBadges, rewards, userRewards := [], [], [], [], [];
      activities, accepted := [], [];
      friendRequests, nextRequestId, friendships := [], 1, [];
      chat, suggestions := [], [];
    }

    /**
     * Creating a user creates its profile (the `create_user_profile` signal):
     * a fresh id with the default profile, and nothing else changes.
     */
    method CreateUser(name: string) returns (u: UserId)
      requires Valid()
      modifies this`usernames, this`profiles, this`nextUserId
      ensures Valid()
      ensures u !in old(profiles) && u > 0
      ensures profiles == old(profiles)[u := NewProfile]
      ensures usernames == old(usernames)[u := name]
    {
      u := nextUserId;
      usernames := usernames[u := name];
      profiles := profiles[u := NewProfile];
      nextUserId := nextUserId + 1;
    }
  }
}
