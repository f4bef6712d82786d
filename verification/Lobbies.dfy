// server/src/lobby.c: the ready queue in a shifting array, rated matchmaking, and
// the room and challenge slot tables.
module Lobbies {
  import opened Xiangqi
  import opened Decimals

  const MAX_READY := 100
  const MAX_ROOMS := 50
  const MAX_CHALLENGES := 100

  datatype Player = Player(id: int, name: string, rating: int, since: int)

  datatype Room = Room(id: string, code: string, host: int, guest: int, password: string,
                       rated: bool, occupied: bool, createdAt: int)

  datatype Challenge = Challenge(id: string, from: int, to: int, rated: bool, status: int,
                                 createdAt: int, expiresAt: int)

  const NO_PLAYER := Player(0, "", 0, 0)
  const NO_ROOM := Room("", "", 0, 0, "", false, false, 0)
  const NO_CHALLENGE := Challenge("", 0, 0, false, 0, 0, 0)

  // ----- The ready queue on values -----

  ghost predicate Distinct(q: seq<Player>) {
    forall i, j :: 0 <= i < j < |q| ==> q[i].id != q[j].id
  }

  // q without the user, order kept.
  function Without(q: seq<Player>, user: int): seq<Player> {
    if q == [] then []
    else
      var n := |q| - 1;
      Without(q[..n], user) + if q[n].id == user then [] else [q[n]]
  }

  function IndexOf(q: seq<Player>, user: int): (i: nat)
    ensures i <= |q|
    ensures i < |q| ==> q[i].id == user
    ensures forall j :: 0 <= j < i ==> q[j].id != user
  {
    if q == [] || q[0].id == user then 0 else 1 + IndexOf(q[1..], user)
  }

  lemma IndexIs(q: seq<Player>, user: int, i: nat)
    requires i <= |q| && (i < |q| ==> q[i].id == user) && forall j :: 0 <= j < i ==> q[j].id != user
    ensures IndexOf(q, user) == i
  {
  }

  function Ready(q: seq<Player>, p: Player): seq<Player> {
    var i := IndexOf(q, p.id);
    if i < |q| then q[i := q[i].(rating := p.rating, since := p.since)]
    else if |q| < MAX_READY then q + [p]
    else q
  }

  // The one shift of lobby_remove_player.
  function Shifted(q: seq<Player>, user: int): seq<Player> {
    var i := IndexOf(q, user);
    if i < |q| then q[..i] + q[i + 1..] else q
  }

  function Gap(p: Player, rating: int): nat {
    Abs(p.rating - rating)
  }

  // q[k] may be paired with the user.
  predicate Qualifies(q: seq<Player>, k: nat, user: int, rating: int, tolerance: int)
    requires k < |q|
  {
    q[k].id != user && Gap(q[k], rating) <= tolerance
  }

  // Among the first n, k is the earliest of the nearest qualifying players.
  ghost predicate IsBest(q: seq<Player>, n: nat, k: nat, user: int, rating: int, tolerance: int) {
    && k < n <= |q| && Qualifies(q, k, user, rating, tolerance)
    && forall j :: 0 <= j < n && Qualifies(q, j, user, rating, tolerance) ==>
         Gap(q[k], rating) <= Gap(q[j], rating) && (j < k ==> Gap(q[k], rating) < Gap(q[j], rating))
  }

  lemma BestIsUnique(q: seq<Player>, n: nat, k: nat, l: nat, user: int, rating: int, tolerance: int)
    requires IsBest(q, n, k, user, rating, tolerance) && IsBest(q, n, l, user, rating, tolerance)
    ensures k == l
  {
  }

  // Shifting one entry out of a duplicate-free queue is filtering the user out.
  lemma ShiftedIsWithout(q: seq<Player>, user: int)
    requires Distinct(q)
    ensures Shifted(q, user) == Without(q, user)
  {
    var i := IndexOf(q, user);
    if i < |q| {
      CutOut(q, q[..i], q[i], q[i + 1..], user);
    } else {
      WithoutAll(q, user);
    }
  }

  // r is q without entry i.
  lemma CutStaysDistinct(q: seq<Player>, i: nat, r: seq<Player>)
    requires Distinct(q) && i < |q| == |r| + 1 && forall j :: 0 <= j < |q| ==> q[j].id > 0
    requires forall k :: 0 <= k < |r| ==> r[k] == q[if k < i then k else k + 1]
    ensures Distinct(r) && (forall k :: 0 <= k < |r| ==> r[k].id > 0) && r == q[..i] + q[i + 1..]
  {
  }

  lemma CutOut(q: seq<Player>, a: seq<Player>, p: Player, b: seq<Player>, user: int)
    requires q == a + [p] + b && p.id == user
    requires (forall i :: 0 <= i < |a| ==> a[i].id != user) && forall i :: 0 <= i < |b| ==> b[i].id != user
    ensures Without(q, user) == a + b
  {
    WithoutAll(a, user);
    WithoutAll(b, user);
    WithoutOne(p, user);
    WithoutSplit(a, [p], user);
    WithoutSplit(a + [p], b, user);
  }

  lemma WithoutOne(p: Player, user: int)
    ensures Without([p], user) == if p.id == user then [] else [p]
  {
    assert [p][..0] == [];
  }

  lemma {:induction false} WithoutAll(q: seq<Player>, user: int)
    requires forall i :: 0 <= i < |q| ==> q[i].id != user
    ensures Without(q, user) == q
  {
    if q != [] {
      WithoutAll(q[..|q| - 1], user);
    }
  }

  lemma {:induction false} WithoutSplit(a: seq<Player>, b: seq<Player>, user: int)
    ensures Without(a + b, user) == Without(a, user) + Without(b, user)
  {
    if b == [] {
      assert a + b == a;
    } else {
      assert (a + b)[..|a + b| - 1] == a + b[..|b| - 1];
      WithoutSplit(a, b[..|b| - 1], user);
    }
  }

  // ----- Rooms and challenges on values -----

  function FindRoom(rooms: seq<Room>, code: string): (i: nat)
    ensures i <= |rooms|
    ensures i < |rooms| ==> rooms[i].occupied && rooms[i].code == code
    ensures forall j :: 0 <= j < i ==> !(rooms[j].occupied && rooms[j].code == code)
  {
    if rooms == [] || (rooms[0].occupied && rooms[0].code == code) then 0 else 1 + FindRoom(rooms[1..], code)
  }

  function FreeRoom(rooms: seq<Room>): (i: nat)
    ensures i <= |rooms|
    ensures i < |rooms| ==> !rooms[i].occupied
    ensures forall j :: 0 <= j < i ==> rooms[j].occupied
  {
    if rooms == [] || !rooms[0].occupied then 0 else 1 + FreeRoom(rooms[1..])
  }

  function Clip63(s: string): string {
    if |s| <= 63 then s else s[..63]
  }

  // lobby_create_room writes neither the guest nor, without a password, the password.
  function CreateRoom(rooms: seq<Room>, host: int, code: string, password: Option<string>, rated: bool, now: nat)
    : (seq<Room>, bool)
  {
    var i := FreeRoom(rooms);
    if i == |rooms| then (rooms, false)
    else
      var r := rooms[i].(id := "room_" + Dec(i) + "_" + Dec(now), code := code, host := host,
                         rated := rated, occupied := true, createdAt := now);
      (rooms[i := if password.Some? then r.(password := Clip63(password.value)) else r], true)
  }

  function JoinRoom(rooms: seq<Room>, code: string, password: Option<string>, user: int): (seq<Room>, bool) {
    var i := FindRoom(rooms, code);
    if i == |rooms| then (rooms, false)
    else if rooms[i].password != "" && password != Some(rooms[i].password) then (rooms, false)
    else if rooms[i].guest != 0 then (rooms, false)
    else (rooms[i := rooms[i].(guest := user)], true)
  }

  function CloseRoom(rooms: seq<Room>, code: string, user: int): (seq<Room>, bool) {
    var i := FindRoom(rooms, code);
    if i == |rooms| || rooms[i].host != user then (rooms, false) else (rooms[i := NO_ROOM], true)
  }

  function LeaveRoom(rooms: seq<Room>, code: string, user: int): (seq<Room>, bool) {
    var i := FindRoom(rooms, code);
    if i == |rooms| then (rooms, false)
    else if rooms[i].guest == user then (rooms[i := rooms[i].(guest := 0)], true)
    else if rooms[i].host == user then (rooms[i := NO_ROOM], true)
    else (rooms, false)
  }

  // Room i is the one the code stands for: the first occupied one that has it.
  ghost predicate FirstWith(rooms: seq<Room>, code: string, i: int) {
    && 0 <= i < |rooms| && rooms[i].occupied && rooms[i].code == code
    && forall j :: 0 <= j < i ==> !(rooms[j].occupied && rooms[j].code == code)
  }

  // rooms' is rooms with that room, if there is one and it is changed, made r.
  ghost predicate OnlyThatRoom(rooms: seq<Room>, rooms': seq<Room>, code: string, changed: bool, r: Room -> Room) {
    && |rooms'| == |rooms|
    && forall i :: 0 <= i < |rooms| ==>
         rooms'[i] == if changed && FirstWith(rooms, code, i) then r(rooms[i]) else rooms[i]
  }

  // Joining takes the password, if one is set, and an empty guest seat; nothing but
  // that seat changes.
  lemma JoinIsGuarded(rooms: seq<Room>, code: string, password: Option<string>, user: int)
    ensures var (rooms', ok) := JoinRoom(rooms, code, password, user);
            && (ok <==> exists i :: FirstWith(rooms, code, i) && rooms[i].guest == 0
                                    && (rooms[i].password == "" || password == Some(rooms[i].password)))
            && OnlyThatRoom(rooms, rooms', code, ok, (r: Room) => r.(guest := user))
  {
    TheRoom(rooms, code);
  }

  // Only the host closes a room, and it is cleared.
  lemma CloseIsGuarded(rooms: seq<Room>, code: string, user: int)
    ensures var (rooms', ok) := CloseRoom(rooms, code, user);
            && (ok <==> exists i :: FirstWith(rooms, code, i) && rooms[i].host == user)
            && OnlyThatRoom(rooms, rooms', code, ok, (r: Room) => NO_ROOM)
  {
    TheRoom(rooms, code);
  }

  // Guest and host may leave: the guest's seat is emptied, without the host the room is
  // cleared.  Who is both leaves as the guest.
  lemma LeaveIsGuarded(rooms: seq<Room>, code: string, user: int)
    ensures var (rooms', ok) := LeaveRoom(rooms, code, user);
            && (ok <==> exists i :: FirstWith(rooms, code, i) && (rooms[i].guest == user || rooms[i].host == user))
            && OnlyThatRoom(rooms, rooms', code, ok, (r: Room) => if r.guest == user then r.(guest := 0) else NO_ROOM)
  {
    TheRoom(rooms, code);
  }

  lemma TheRoom(rooms: seq<Room>, code: string)
    ensures forall i :: FirstWith(rooms, code, i) <==> i == FindRoom(rooms, code) < |rooms|
  {
  }

  function CleanRoom(r: Room, user: int): Room {
    if !r.occupied then r
    else if r.host == user then NO_ROOM
    else if r.guest == user then r.(guest := 0)
    else r
  }

  function CleanRooms(rooms: seq<Room>, user: int): (r: seq<Room>)
    ensures |r| == |rooms| && forall i :: 0 <= i < |rooms| ==> r[i] == CleanRoom(rooms[i], user)
  {
    seq(|rooms|, i requires 0 <= i < |rooms| => CleanRoom(rooms[i], user))
  }

  function FindChallenge(cs: seq<Challenge>, id: string): (i: nat)
    ensures i <= |cs|
    ensures i < |cs| ==> cs[i].id == id
    ensures forall j :: 0 <= j < i ==> cs[j].id != id
  {
    if cs == [] || cs[0].id == id then 0 else 1 + FindChallenge(cs[1..], id)
  }

  function CreateChallenge(cs: seq<Challenge>, from: int, to: int, rated: bool, now: nat): (seq<Challenge>, bool) {
    var i := FindChallenge(cs, "");
    if i == |cs| then (cs, false)
    else (cs[i := Challenge("ch_" + Dec(i) + "_" + Dec(now), from, to, rated, 0, now, now + 60)], true)
  }

  function AcceptChallenge(cs: seq<Challenge>, id: string, user: int, now: int): (seq<Challenge>, bool) {
    var i := FindChallenge(cs, id);
    if i == |cs| || cs[i].to != user || now > cs[i].expiresAt then (cs, false)
    else (cs[i := cs[i].(status := 1)], true)
  }

  // The first slot with the id is addressed to the user and has not expired.
  ghost predicate MayAccept(cs: seq<Challenge>, id: string, user: int, now: int) {
    exists i :: 0 <= i < |cs| && (forall j :: 0 <= j < i ==> cs[j].id != id)
                && cs[i].id == id && cs[i].to == user && now <= cs[i].expiresAt
  }

  // cs' is cs with at most the status of challenge id changed, to accepted.
  ghost predicate OnlyAccepts(cs: seq<Challenge>, cs': seq<Challenge>, id: string) {
    && |cs'| == |cs|
    && forall i :: 0 <= i < |cs| ==> cs'[i] == cs[i] || (cs[i].id == id && cs'[i] == cs[i].(status := 1))
  }

  lemma AcceptIsGuarded(cs: seq<Challenge>, id: string, user: int, now: int)
    ensures var (cs', ok) := AcceptChallenge(cs, id, user, now);
            && (ok <==> MayAccept(cs, id, user, now))
            && (if ok then OnlyAccepts(cs, cs', id) && cs'[FindChallenge(cs, id)].status == 1 else cs' == cs)
  {
    if MayAccept(cs, id, user, now) {
      var i :| 0 <= i < |cs| && (forall j :: 0 <= j < i ==> cs[j].id != id)
               && cs[i].id == id && cs[i].to == user && now <= cs[i].expiresAt;
      assert FindChallenge(cs, id) == i;
    }
  }

  function DeclineChallenge(cs: seq<Challenge>, id: string, user: int): (seq<Challenge>, bool) {
    var i := FindChallenge(cs, id);
    if i == |cs| || cs[i].to != user then (cs, false) else (cs[i := NO_CHALLENGE], true)
  }

  function ExpireChallenges(cs: seq<Challenge>, now: int): (r: seq<Challenge>)
    ensures |r| == |cs|
    ensures forall i :: 0 <= i < |cs| ==>
              r[i] == if cs[i].id != "" && now > cs[i].expiresAt then NO_CHALLENGE else cs[i]
  {
    seq(|cs|, i requires 0 <= i < |cs| => if cs[i].id != "" && now > cs[i].expiresAt then NO_CHALLENGE else cs[i])
  }

  // ----- The lobby object -----

  class Lobby {
    const readyPlayers: array<Player>
    var readyCount: nat
    const rooms: array<Room>
    const challenges: array<Challenge>

    ghost predicate Valid()
      reads this, readyPlayers
    {
      && readyPlayers.Length == MAX_READY && rooms.Length == MAX_ROOMS && challenges.Length == MAX_CHALLENGES
      && readyCount <= MAX_READY
      && Distinct(readyPlayers[..readyCount])
      && forall i :: 0 <= i < readyCount ==> readyPlayers[i].id > 0
    }

    ghost function Queue(): seq<Player>
      requires Valid()
      reads this, readyPlayers
    {
      readyPlayers[..readyCount]
    }

    constructor ()
      ensures Valid() && Queue() == [] && rooms.Length == 50 && challenges.Length == 100
      ensures forall i :: 0 <= i < MAX_ROOMS ==> rooms[i] == NO_ROOM
      ensures forall i :: 0 <= i < MAX_CHALLENGES ==> challenges[i] == NO_CHALLENGE
    {
      readyPlayers := new Player[MAX_READY](_ => NO_PLAYER);
      rooms := new Room[MAX_ROOMS](_ => NO_ROOM);
      challenges := new Challenge[MAX_CHALLENGES](_ => NO_CHALLENGE);
      readyCount := 0;
    }

    method SetReady(p: Player, ready: bool)
      requires Valid() && p.id > 0
      modifies this, readyPlayers
      ensures Valid()
      ensures Queue() == if ready then Ready(old(Queue()), p) else Without(old(Queue()), p.id)
    {
      if !ready {
        RemovePlayer(p.id);
        return;
      }
      var i := 0;
      while i < readyCount
        invariant 0 <= i <= readyCount
        invariant forall j :: 0 <= j < i ==> readyPlayers[j].id != p.id
      {
        if readyPlayers[i].id == p.id {
          IndexIs(Queue(), p.id, i);
          readyPlayers[i] := readyPlayers[i].(rating := p.rating, since := p.since);
          assert Queue() == Ready(old(Queue()), p);
          return;
        }
        i := i + 1;
      }
      IndexIs(Queue(), p.id, readyCount);
      if readyCount < MAX_READY {
        readyPlayers[readyCount] := p;
        readyCount := readyCount + 1;
        assert Queue() == old(Queue()) + [p];
      }
    }

    method RemovePlayer(user: int)
      requires Valid()
      modifies this, readyPlayers
      ensures Valid()
      ensures Queue() == Without(old(Queue()), user)
    {
      ghost var q := Queue();
      var i := FindPlayer(user);
      if i < readyCount {
        ShiftDown(i, q);
        ghost var r := readyPlayers[..readyCount];
        CutStaysDistinct(q, i, r);
        assert forall k :: 0 <= k < readyCount ==> readyPlayers[k] == r[k];
      }
      ShiftedIsWithout(q, user);
    }

    method FindPlayer(user: int) returns (i: nat)
      requires Valid()
      ensures i == IndexOf(Queue(), user)
    {
      i := 0;
      while i < readyCount && readyPlayers[i].id != user
        invariant 0 <= i <= readyCount
        invariant forall j :: 0 <= j < i ==> readyPlayers[j].id != user
      {
        i := i + 1;
      }
      IndexIs(Queue(), user, i);
    }

    // readyPlayers[j] = readyPlayers[j + 1] from i on.
    method ShiftDown(i: nat, ghost q: seq<Player>)
      requires readyPlayers.Length == MAX_READY && i < readyCount <= MAX_READY && readyPlayers[..readyCount] == q
      modifies this`readyCount, readyPlayers
      ensures readyCount == |q| - 1
      ensures forall k :: 0 <= k < readyCount ==> readyPlayers[k] == q[if k < i then k else k + 1]
    {
      assert forall k :: 0 <= k < readyCount ==> q[k] == readyPlayers[k];
      var j := i;
      while j < readyCount - 1
        invariant i <= j <= readyCount - 1 && readyCount == |q|
        invariant forall k :: 0 <= k < i ==> readyPlayers[k] == q[k]
        invariant forall k :: i <= k < j ==> readyPlayers[k] == q[k + 1]
        invariant forall k :: j < k < readyCount ==> readyPlayers[k] == q[k]
      {
        readyPlayers[j] := readyPlayers[j + 1];
        j := j + 1;
      }
      readyCount := readyCount - 1;
    }

    // Returns the opponent: the earliest of the nearest; both leave the queue.
    method FindRatedMatch(user: int, rating: int, tolerance: int) returns (opponent: Option<int>)
      requires Valid()
      modifies this, readyPlayers
      ensures Valid()
      ensures opponent.None? <==>
                forall k :: 0 <= k < |old(Queue())| ==> !Qualifies(old(Queue()), k, user, rating, tolerance)
      ensures opponent.None? ==> Queue() == old(Queue())
      ensures opponent.Some? ==>
                exists k: nat :: IsBest(old(Queue()), |old(Queue())|, k, user, rating, tolerance)
                                 && old(Queue())[k].id == opponent.value
      ensures opponent.Some? ==> Queue() == Without(Without(old(Queue()), user), opponent.value)
    {
      ghost var q := Queue();
      var best, bestDiff := -1, tolerance + 1;
      ghost var k := 0;
      for i := 0 to readyCount
        invariant Queue() == q
        invariant best == -1 ==> bestDiff == tolerance + 1
                                 && forall j :: 0 <= j < i ==> !Qualifies(q, j, user, rating, tolerance)
        invariant best != -1 ==> k < i && best == q[k].id && IsBest(q, i, k, user, rating, tolerance)
                                 && bestDiff == Gap(q[k], rating)
      {
        assert q[i] == readyPlayers[i];
        if readyPlayers[i].id != user {
          var diff := Abs(readyPlayers[i].rating - rating);
          if diff <= tolerance && diff < bestDiff {
            bestDiff := diff;
            best := readyPlayers[i].id;
            k := i;
          }
        }
      }
      if best != -1 {
        RemovePlayer(user);
        RemovePlayer(best);
        return Some(best);
      }
      return None;
    }

    method FindRandomMatch(user: int) returns (opponent: Option<int>)
      requires Valid()
      modifies this, readyPlayers
      ensures Valid()
      ensures opponent.None? <==> forall k :: 0 <= k < |old(Queue())| ==> old(Queue())[k].id == user
      ensures opponent.None? ==> Queue() == old(Queue())
      ensures opponent.Some? ==> exists k :: 0 <= k < |old(Queue())| && old(Queue())[k].id == opponent.value != user
                                             && forall j :: 0 <= j < k ==> old(Queue())[j].id == user
      ensures opponent.Some? ==> Queue() == Without(Without(old(Queue()), user), opponent.value)
    {
      ghost var q := Queue();
      for i := 0 to readyCount
        invariant Queue() == q && forall j :: 0 <= j < i ==> q[j].id == user
      {
        if readyPlayers[i].id != user {
          var found := readyPlayers[i].id;
          assert q[i].id == found;
          RemovePlayer(user);
          RemovePlayer(found);
          return Some(found);
        }
      }
      return None;
    }

    // ----- Rooms -----

    method FindRoomSlot(code: string) returns (i: nat)
      requires rooms.Length == MAX_ROOMS
      ensures i == FindRoom(rooms[..], code)
    {
      i := 0;
      while i < MAX_ROOMS && !(rooms[i].occupied && rooms[i].code == code)
        invariant 0 <= i <= MAX_ROOMS
        invariant forall j :: 0 <= j < i ==> !(rooms[j].occupied && rooms[j].code == code)
      {
        i := i + 1;
      }
    }

    method NewRoom(host: int, code: string, password: Option<string>, rated: bool, now: nat) returns (ok: bool)
      requires rooms.Length == MAX_ROOMS
      modifies rooms
      ensures (rooms[..], ok) == CreateRoom(old(rooms[..]), host, code, password, rated, now)
    {
      var i := 0;
      while i < MAX_ROOMS && rooms[i].occupied
        invariant 0 <= i <= MAX_ROOMS
        invariant forall j :: 0 <= j < i ==> rooms[j].occupied
      {
        i := i + 1;
      }
      assert FreeRoom(rooms[..]) == i;
      if i == MAX_ROOMS {
        return false;
      }
      var r := rooms[i].(id := "room_" + Dec(i) + "_" + Dec(now), code := code, host := host);
      if password.Some? {
        r := r.(password := Clip63(password.value));
      }
      rooms[i] := r.(rated := rated, occupied := true, createdAt := now);
      return true;
    }

    method Join(code: string, password: Option<string>, user: int) returns (ok: bool)
      requires rooms.Length == MAX_ROOMS
      modifies rooms
      ensures (rooms[..], ok) == JoinRoom(old(rooms[..]), code, password, user)
    {
      var i := FindRoomSlot(code);
      if i == MAX_ROOMS {
        return false;
      }
      if rooms[i].password != "" {
        if password.None? || password.value != rooms[i].password {
          return false;
        }
      }
      if rooms[i].guest != 0 {
        return false;
      }
      rooms[i] := rooms[i].(guest := user);
      return true;
    }

    method Close(code: string, user: int) returns (ok: bool)
      requires rooms.Length == MAX_ROOMS
      modifies rooms
      ensures (rooms[..], ok) == CloseRoom(old(rooms[..]), code, user)
    {
      var i := FindRoomSlot(code);
      if i == MAX_ROOMS || rooms[i].host != user {
        return false;
      }
      rooms[i] := NO_ROOM;
      return true;
    }

    method Leave(code: string, user: int) returns (ok: bool)
      requires rooms.Length == MAX_ROOMS
      modifies rooms
      ensures (rooms[..], ok) == LeaveRoom(old(rooms[..]), code, user)
    {
      var i := FindRoomSlot(code);
      if i == MAX_ROOMS {
        return false;
      }
      if rooms[i].guest == user {
        rooms[i] := rooms[i].(guest := 0);
        return true;
      }
      if rooms[i].host == user {
        rooms[i] := NO_ROOM;
        return true;
      }
      return false;
    }

    method CleanupRoomsForUser(user: int)
      requires rooms.Length == MAX_ROOMS
      modifies rooms
      ensures rooms[..] == CleanRooms(old(rooms[..]), user)
    {
      for i := 0 to MAX_ROOMS
        invariant forall j :: 0 <= j < i ==> rooms[j] == CleanRoom(old(rooms[j]), user)
        invariant forall j :: i <= j < MAX_ROOMS ==> rooms[j] == old(rooms[j])
      {
        if rooms[i].occupied {
          if rooms[i].host == user {
            rooms[i] := NO_ROOM;
          } else if rooms[i].guest == user {
            rooms[i] := rooms[i].(guest := 0);
          }
        }
      }
    }

    // The lobby part of client_disconnect.
    method Disconnect(user: int)
      requires Valid() && user > 0
      modifies this, readyPlayers, rooms
      ensures Valid() && Queue() == Without(old(Queue()), user)
      ensures rooms[..] == CleanRooms(old(rooms[..]), user)
      ensures forall k :: 0 <= k < |Queue()| ==> Queue()[k].id != user
      ensures forall i :: 0 <= i < MAX_ROOMS && rooms[i].occupied ==> rooms[i].host != user && rooms[i].guest != user
    {
      WithoutForgets(Queue(), user);
      RemovePlayer(user);
      CleanupRoomsForUser(user);
      assert forall i :: 0 <= i < MAX_ROOMS ==> rooms[i] == rooms[..][i];
    }

    // ----- Challenges -----

    method FindChallengeSlot(id: string) returns (i: nat)
      requires challenges.Length == MAX_CHALLENGES
      ensures i == FindChallenge(challenges[..], id)
    {
      i := 0;
      while i < MAX_CHALLENGES && challenges[i].id != id
        invariant 0 <= i <= MAX_CHALLENGES
        invariant forall j :: 0 <= j < i ==> challenges[j].id != id
      {
        i := i + 1;
      }
    }

    method NewChallenge(from: int, to: int, rated: bool, now: nat) returns (ok: bool)
      requires challenges.Length == MAX_CHALLENGES
      modifies challenges
      ensures (challenges[..], ok) == CreateChallenge(old(challenges[..]), from, to, rated, now)
    {
      var i := FindChallengeSlot("");
      if i == MAX_CHALLENGES {
        return false;
      }
      challenges[i] := Challenge("ch_" + Dec(i) + "_" + Dec(now), from, to, rated, 0, now, now + 60);
      return true;
    }

    method Accept(id: string, user: int, now: int) returns (ok: bool)
      requires challenges.Length == MAX_CHALLENGES
      modifies challenges
      ensures (challenges[..], ok) == AcceptChallenge(old(challenges[..]), id, user, now)
      ensures ok <==> MayAccept(old(challenges[..]), id, user, now)
      ensures OnlyAccepts(old(challenges[..]), challenges[..], id)
    {
      AcceptIsGuarded(challenges[..], id, user, now);
      var i := FindChallengeSlot(id);
      if i == MAX_CHALLENGES || challenges[i].to != user || now > challenges[i].expiresAt {
        return false;
      }
      challenges[i] := challenges[i].(status := 1);
      return true;
    }

    method Decline(id: string, user: int) returns (ok: bool)
      requires challenges.Length == MAX_CHALLENGES
      modifies challenges
      ensures (challenges[..], ok) == DeclineChallenge(old(challenges[..]), id, user)
    {
      var i := FindChallengeSlot(id);
      if i == MAX_CHALLENGES || challenges[i].to != user {
        return false;
      }
      challenges[i] := challenges[i].(status := 2);
      challenges[i] := NO_CHALLENGE;
      assert challenges[..] == old(challenges[..])[i := NO_CHALLENGE];
      return true;
    }

    method CleanupExpiredChallenges(now: int)
      requires challenges.Length == MAX_CHALLENGES
      modifies challenges
      ensures challenges[..] == ExpireChallenges(old(challenges[..]), now)
    {
      ghost var before := challenges[..];
      for i := 0 to MAX_CHALLENGES
        invariant forall j :: 0 <= j < i ==> challenges[j] == ExpireChallenges(before, now)[j]
        invariant forall j :: i <= j < MAX_CHALLENGES ==> challenges[j] == before[j]
      {
        if challenges[i].id != "" && now > challenges[i].expiresAt {
          challenges[i] := NO_CHALLENGE;
        }
      }
    }
  }

  lemma {:induction false} WithoutForgets(q: seq<Player>, user: int)
    ensures forall k :: 0 <= k < |Without(q, user)| ==> Without(q, user)[k].id != user
  {
    if q != [] {
      WithoutForgets(q[..|q| - 1], user);
    }
  }

  // ----- Slots over whole runs -----

  datatype Slots = Slots(rooms: seq<Room>, challenges: seq<Challenge>)

  datatype SlotOp =
    | OpenRoom(host: int, code: string, password: Option<string>, rated: bool, now: nat)
    | JoinOp(code: string, password: Option<string>, user: int)
    | CloseOp(code: string, user: int)
    | LeaveOp(code: string, user: int)
    | CleanOp(user: int)
    | ChallengeOp(from: int, to: int, rated: bool, now: nat)
    | AcceptOp(id: string, user: int, at: int)
    | DeclineOp(id: string, user: int)
    | ExpireOp(at: int)

  function ApplySlot(s: Slots, op: SlotOp): Slots {
    match op
    case OpenRoom(host, code, password, rated, now) =>
      s.(rooms := CreateRoom(s.rooms, host, code, password, rated, now).0)
    case JoinOp(code, password, user) => s.(rooms := JoinRoom(s.rooms, code, password, user).0)
    case CloseOp(code, user) => s.(rooms := CloseRoom(s.rooms, code, user).0)
    case LeaveOp(code, user) => s.(rooms := LeaveRoom(s.rooms, code, user).0)
    case CleanOp(user) => s.(rooms := CleanRooms(s.rooms, user))
    case ChallengeOp(from, to, rated, now) => s.(challenges := CreateChallenge(s.challenges, from, to, rated, now).0)
    case AcceptOp(id, user, at) => s.(challenges := AcceptChallenge(s.challenges, id, user, at).0)
    case DeclineOp(id, user) => s.(challenges := DeclineChallenge(s.challenges, id, user).0)
    case ExpireOp(at) => s.(challenges := ExpireChallenges(s.challenges, at))
  }

  function RunSlots(s: Slots, ops: seq<SlotOp>): Slots {
    if ops == [] then s else ApplySlot(RunSlots(s, ops[..|ops| - 1]), ops[|ops| - 1])
  }

  // A free slot is entirely zero.
  ghost predicate FreeIsZero(s: Slots) {
    && (forall i :: 0 <= i < |s.rooms| && !s.rooms[i].occupied ==> s.rooms[i] == NO_ROOM)
    && (forall i :: 0 <= i < |s.challenges| && s.challenges[i].id == "" ==> s.challenges[i] == NO_CHALLENGE)
  }

  // Session ids are positive, so nobody accepts a free challenge slot.
  predicate PositiveUser(op: SlotOp) {
    op.AcceptOp? ==> op.user > 0
  }

  lemma StepKeepsFreeZero(s: Slots, op: SlotOp)
    requires FreeIsZero(s) && PositiveUser(op)
    ensures FreeIsZero(ApplySlot(s, op))
  {
  }

  lemma {:induction false} RunKeepsFreeZero(s: Slots, ops: seq<SlotOp>)
    requires FreeIsZero(s) && forall op :: op in ops ==> PositiveUser(op)
    ensures FreeIsZero(RunSlots(s, ops))
  {
    if ops != [] {
      var n := |ops| - 1;
      assert ops[n] in ops && forall op :: op in ops[..n] ==> op in ops;
      RunKeepsFreeZero(s, ops[..n]);
      StepKeepsFreeZero(RunSlots(s, ops[..n]), ops[n]);
    }
  }

  // After any run, a new room is exactly what was asked for: no inherited guest,
  // and no inherited password when none was given.
  lemma NewRoomIsClean(s: Slots, ops: seq<SlotOp>, host: int, code: string, password: Option<string>, rated: bool,
                       now: nat)
    requires FreeIsZero(s) && forall op :: op in ops ==> PositiveUser(op)
    ensures var before := RunSlots(s, ops).rooms;
            var i, (after, ok) := FreeRoom(before), CreateRoom(before, host, code, password, rated, now);
            && (ok <==> exists j :: 0 <= j < |before| && !before[j].occupied)
            && (ok ==> after[i] == Room("room_" + Dec(i) + "_" + Dec(now), code, host, 0,
                                        if password.Some? then Clip63(password.value) else "", rated, true, now))
  {
    RunKeepsFreeZero(s, ops);
  }

  // ----- What one call undoes -----

  lemma FoundFirst(rooms: seq<Room>, code: string, i: nat)
    requires i < |rooms| && rooms[i].occupied && rooms[i].code == code
    requires forall j :: 0 <= j < i ==> !(rooms[j].occupied && rooms[j].code == code)
    ensures FindRoom(rooms, code) == i
  {
  }

  // A guest who joins and leaves again leaves every room as it was.
  lemma JoinThenLeave(rooms: seq<Room>, code: string, password: Option<string>, user: int)
    requires user != 0
    ensures var (joined, ok) := JoinRoom(rooms, code, password, user);
            ok ==> LeaveRoom(joined, code, user) == (rooms, true)
  {
    var i := FindRoom(rooms, code);
    var (joined, ok) := JoinRoom(rooms, code, password, user);
    if ok {
      FoundFirst(joined, code, i);
      assert joined[i := joined[i].(guest := 0)] == rooms;
    }
  }

  // A room that is opened under an unused code and closed by its host was never there.
  lemma OpenThenClose(s: Slots, host: int, code: string, password: Option<string>, rated: bool, now: nat)
    requires FreeIsZero(s) && FindRoom(s.rooms, code) == |s.rooms|
    ensures var (made, ok) := CreateRoom(s.rooms, host, code, password, rated, now);
            ok ==> CloseRoom(made, code, host) == (s.rooms, true)
  {
    var i := FreeRoom(s.rooms);
    var (made, ok) := CreateRoom(s.rooms, host, code, password, rated, now);
    if ok {
      FoundFirst(made, code, i);
      assert made[i := NO_ROOM] == s.rooms;
    }
  }

  // A challenge under an unused id that is declined by its addressee was never there;
  // nobody else can decline it.
  lemma ChallengeThenDecline(s: Slots, from: int, to: int, rated: bool, now: nat, id: string, user: int)
    requires FreeIsZero(s) && id == "ch_" + Dec(FindChallenge(s.challenges, "")) + "_" + Dec(now)
    requires FindChallenge(s.challenges, id) == |s.challenges|
    ensures var (made, ok) := CreateChallenge(s.challenges, from, to, rated, now);
            ok ==> DeclineChallenge(made, id, user) == if user == to then (s.challenges, true) else (made, false)
  {
    var i := FindChallenge(s.challenges, "");
    var (made, ok) := CreateChallenge(s.challenges, from, to, rated, now);
    if ok {
      MadeIsFound(s, from, to, rated, now, id);
      assert made[i := NO_CHALLENGE] == s.challenges;
    }
  }

  lemma MadeIsFound(s: Slots, from: int, to: int, rated: bool, now: nat, id: string)
    requires id == "ch_" + Dec(FindChallenge(s.challenges, "")) + "_" + Dec(now)
    requires FindChallenge(s.challenges, id) == |s.challenges|
    ensures var i, r := FindChallenge(s.challenges, ""), CreateChallenge(s.challenges, from, to, rated, now);
            r.1 ==> i < |r.0| && r.0[i].id == id && FindChallenge(r.0, id) == i
  {
    var i := FindChallenge(s.challenges, "");
    var (made, ok) := CreateChallenge(s.challenges, from, to, rated, now);
    if ok {
      assert forall j :: 0 <= j < i ==> made[j].id != id;
      assert made[i].id == id;
    }
  }

  // It can be accepted by its addressee alone, for sixty seconds, and while it can it
  // is not swept away; accepting it twice is accepting it once.
  lemma ChallengeThenAccept(s: Slots, from: int, to: int, rated: bool, now: nat, id: string, user: int, at: int)
    requires id == "ch_" + Dec(FindChallenge(s.challenges, "")) + "_" + Dec(now)
    requires FindChallenge(s.challenges, id) == |s.challenges|
    requires CreateChallenge(s.challenges, from, to, rated, now).1
    ensures var made := CreateChallenge(s.challenges, from, to, rated, now).0;
            var (after, ok) := AcceptChallenge(made, id, user, at);
            && (ok <==> user == to && at <= now + 60)
            && (ok ==> AcceptChallenge(after, id, user, at) == (after, true))
            && (ok ==> AcceptChallenge(ExpireChallenges(made, at), id, user, at).1)
  {
    var made, i := CreateChallenge(s.challenges, from, to, rated, now).0, FindChallenge(s.challenges, "");
    MadeIsFound(s, from, to, rated, now, id);
    var (after, ok) := AcceptChallenge(made, id, user, at);
    if ok {
      assert forall j :: 0 <= j < i ==> after[j].id == made[j].id;
      assert FindChallenge(after, id) == i && after[i := after[i].(status := 1)] == after;
      var swept := ExpireChallenges(made, at);
      assert id[0] == 'c';
      assert forall j :: 0 <= j < i ==> swept[j] in {made[j], NO_CHALLENGE};
      assert FindChallenge(swept, id) == i;
    }
  }
}
