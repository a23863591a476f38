/**
 * Friend requests and friendships (`send_friend_request`,
 * `respond_friend_request` and `list_friends` in fitness/views.py).
 */
module FriendViews {
  import opened Wrappers
  import opened Seqs
  import opened Tables

  datatype SendOutcome =
    | RequestSent
    /** No target id (missing or 0), or the sender's own id: the 400 response. */
    | InvalidUser
    | UserNotFound
    | AlreadySent

  /** Selects the requests from `from` to `to`. */
  function Between(from: UserId, to: UserId): FriendRequest -> bool {
    (r: FriendRequest) => r.fromUser == from && r.toUser == to
  }

  /**
   * `send_friend_request`: `to` is the posted id, 0 when absent. Sending to
   * nobody or to oneself is refused, so is an unknown id, and so is a second
   * request for the same (from, to) pair; otherwise a pending request is stored.
   */
  method SendFriendRequest(s: Store, from: UserId, to: int) returns (res: SendOutcome)
    requires s.Valid() && from in s.profiles
    modifies s`friendRequests, s`nextRequestId
    ensures s.Valid()
    ensures res == InvalidUser <==> to == 0 || to == from
    ensures res == UserNotFound <==> to != 0 && to != from && (to < 0 || to !in s.usernames)
    ensures res == AlreadySent <==> to != 0 && to != from && to >= 0 && to in s.usernames
                                    && Count(old(s.friendRequests), Between(from, to)) > 0
    ensures res != RequestSent ==> s.friendRequests == old(s.friendRequests)
    ensures res == RequestSent ==>
              s.friendRequests == old(s.friendRequests) + [FriendRequest(old(s.nextRequestId), from, to, Pending)]
  {
    if to == 0 || to == from {
      return InvalidUser;
    }
    if to < 0 || to !in s.usernames {
      return UserNotFound;
    }
    if Count(s.friendRequests, Between(from, to)) > 0 {
      return AlreadySent;
    }
    FilterMembers(s.friendRequests, Between(from, to));
    s.friendRequests := s.friendRequests + [FriendRequest(s.nextRequestId, from, to, Pending)];
    s.nextRequestId := s.nextRequestId + 1;
    res := RequestSent;
  }

  datatype RespondOutcome = Responded | RequestNotFound

  /** The position of the first request with id `id` addressed to `me`. */
  function FindRequest(rs: seq<FriendRequest>, id: int, me: UserId): (r: Option<nat>)
    ensures r.Some? ==> r.value < |rs| && rs[r.value].id == id && rs[r.value].toUser == me
    ensures r.None? ==> forall k :: 0 <= k < |rs| ==> !(rs[k].id == id && rs[k].toUser == me)
  {
    if rs == [] then None
    else if rs[0].id == id && rs[0].toUser == me then Some(0)
    else match FindRequest(rs[1..], id, me)
      case Some(i) => Some(i + 1)
      case None => None
  }

  /** The friendship row for two users: the smaller id first. */
  function Pair(a: UserId, b: UserId): Friendship {
    if a <= b then Friendship(a, b) else Friendship(b, a)
  }

  /** `Friendship.objects.get_or_create(user1=min, user2=max)`. */
  function AddFriendship(fs: seq<Friendship>, f: Friendship): seq<Friendship> {
    if f in fs then fs else fs + [f]
  }

  /**
   * `respond_friend_request`: a request is looked up by id among those
   * addressed to `me`; none means the 404 response. Accepting marks it
   * accepted and stores the friendship once, smaller id first; any other
   * action marks it declined.
   */
  method RespondFriendRequest(s: Store, me: UserId, id: int, accept: bool) returns (res: RespondOutcome)
    requires s.Valid()
    modifies s`friendRequests, s`friendships
    ensures s.Valid()
    ensures res == RequestNotFound <==> FindRequest(old(s.friendRequests), id, me).None?
    ensures res == RequestNotFound ==> unchanged(s`friendRequests, s`friendships)
    ensures res == Responded ==>
      var i := FindRequest(old(s.friendRequests), id, me).value;
      var r := old(s.friendRequests)[i];
      && s.friendRequests == old(s.friendRequests)[i := r.(status := if accept then Accepted else Declined)]
      && s.friendships == (if accept then AddFriendship(old(s.friendships), Pair(r.fromUser, r.toUser))
                           else old(s.friendships))
  {
    var found := FindRequest(s.friendRequests, id, me);
    if found.None? {
      return RequestNotFound;
    }
    var i := found.value;
    var r := s.friendRequests[i];
    if accept {
      s.friendRequests := s.friendRequests[i := r.(status := Accepted)];
      var f := Pair(r.fromUser, r.toUser);
      if f !in s.friendships {
        s.friendships := s.friendships + [f];
      }
    } else {
      s.friendRequests := s.friendRequests[i := r.(status := Declined)];
    }
    res := Responded;
  }

  /** `list_friends`: the other user of every friendship that includes `me`. */
  function FriendsOf(fs: seq<Friendship>, me: UserId): set<UserId> {
    (set i | 0 <= i < |fs| && fs[i].user1 == me :: fs[i].user2)
    + (set i | 0 <= i < |fs| && fs[i].user2 == me :: fs[i].user1)
  }

  /** Friendship is symmetric: each pair is listed on both sides. */
  lemma FriendsSymmetric(fs: seq<Friendship>, a: UserId, b: UserId)
    ensures b in FriendsOf(fs, a) <==> a in FriendsOf(fs, b)
  {
    if b in FriendsOf(fs, a) {
      var i :| 0 <= i < |fs| && ((fs[i].user1 == a && fs[i].user2 == b) || (fs[i].user2 == a && fs[i].user1 == b));
      assert a in FriendsOf(fs, b);
    }
    if a in FriendsOf(fs, b) {
      var i :| 0 <= i < |fs| && ((fs[i].user1 == b && fs[i].user2 == a) || (fs[i].user2 == b && fs[i].user1 == a));
      assert b in FriendsOf(fs, a);
    }
  }

  /** After an acceptance the two users list each other as friends. */
  lemma AcceptMakesFriends(fs: seq<Friendship>, a: UserId, b: UserId)
    ensures b in FriendsOf(AddFriendship(fs, Pair(a, b)), a)
    ensures a in FriendsOf(AddFriendship(fs, Pair(a, b)), b)
  {
    var fs' := AddFriendship(fs, Pair(a, b));
    assert Pair(a, b) in fs';
    var i :| 0 <= i < |fs'| && fs'[i] == Pair(a, b);
    if a <= b {
      assert fs'[i].user1 == a && fs'[i].user2 == b;
    } else {
      assert fs'[i].user1 == b && fs'[i].user2 == a;
    }
  }

  /**
   * Normalised friendships store each unordered pair once: two rows naming
   * the same two users, in either order, are the same row.
   */
  lemma PairStoredOnce(fs: seq<Friendship>, i: nat, j: nat)
    requires FriendshipsNormalised(fs) && i < |fs| && j < |fs|
    requires {fs[i].user1, fs[i].user2} == {fs[j].user1, fs[j].user2}
    ensures i == j
  {
    assert fs[i].user1 in {fs[j].user1, fs[j].user2};
    assert fs[i].user2 in {fs[j].user1, fs[j].user2};
    assert fs[i] == fs[j];
  }

  /** Adding a friendship the get-or-create way keeps the table normalised. */
  lemma AddFriendshipNormalised(fs: seq<Friendship>, a: UserId, b: UserId)
    requires FriendshipsNormalised(fs) && a != b
    ensures FriendshipsNormalised(AddFriendship(fs, Pair(a, b)))
  {
  }
}
