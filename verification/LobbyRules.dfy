// What calls to the lobby mean for each other: who is found once he is ready, who gets
// into a room, what a disconnect leaves behind, and what a challenge keeps.
module LobbyRules {
  import opened Xiangqi
  import opened Decimals
  import opened Lobbies

  // ----- The ready queue -----

  predicate Queued(q: seq<Player>, user: int) {
    exists k :: 0 <= k < |q| && q[k].id == user
  }

  lemma IndexOfQueued(q: seq<Player>, user: int)
    ensures Queued(q, user) <==> IndexOf(q, user) < |q|
  {
    var i := IndexOf(q, user);
    assert i < |q| ==> q[i].id == user;
  }

  // Whoever says he is ready is in the queue afterwards, unless it is full and he was
  // not in it: as he was, with his new rating and time, or else as the last.  Nobody
  // else is touched.
  lemma ReadyIsQueued(q: seq<Player>, p: Player)
    requires Distinct(q) && |q| <= MAX_READY
    ensures var q' := Ready(q, p);
            && Distinct(q') && |q'| <= MAX_READY && Without(q', p.id) == Without(q, p.id)
            && (Queued(q', p.id) <==> Queued(q, p.id) || |q| < 100)
            && (forall k :: 0 <= k < |q'| && q'[k].id == p.id ==> q'[k].rating == p.rating && q'[k].since == p.since)
            && (Queued(q, p.id) ==>
                  |q'| == |q| && forall k :: 0 <= k < |q| ==> q'[k].id == q[k].id && q'[k].name == q[k].name)
            && (!Queued(q, p.id) ==> q' == if |q| < 100 then q + [p] else q)
  {
    IndexOfQueued(q, p.id);
    var i := IndexOf(q, p.id);
    if i < |q| {
      var x := q[i].(rating := p.rating, since := p.since);
      WithoutUpdated(q, i, x, p.id);
      assert q[i := x][i].id == p.id;
    } else if |q| < MAX_READY {
      WithoutLast(q, p);
      assert (q + [p])[|q|].id == p.id;
    }
  }

  lemma WithoutLast(q: seq<Player>, p: Player)
    ensures Without(q + [p], p.id) == Without(q, p.id)
  {
    assert (q + [p])[..|q|] == q;
    assert Without(q, p.id) + [] == Without(q, p.id);
  }

  lemma {:induction false} WithoutUpdated(q: seq<Player>, i: nat, x: Player, user: int)
    requires i < |q| && q[i].id == user && x.id == user
    ensures Without(q[i := x], user) == Without(q, user)
  {
    var n := |q| - 1;
    if i < n {
      assert q[i := x][..n] == q[..n][i := x];
      WithoutUpdated(q[..n], i, x, user);
    } else {
      assert q[i := x][..n] == q[..n];
    }
  }

  // So somebody who looks for an opponent within a tolerance finds one, if another
  // player that near has just said he is ready and is in the queue.
  lemma ReadyIsFound(q: seq<Player>, p: Player, user: int, rating: int, tolerance: int)
    requires Distinct(q) && |q| <= MAX_READY && (Queued(q, p.id) || |q| < MAX_READY)
    requires user != p.id && Gap(p, rating) <= tolerance
    ensures var q' := Ready(q, p); exists k :: 0 <= k < |q'| && Qualifies(q', k, user, rating, tolerance)
  {
    ReadyIsQueued(q, p);
    QueuedIsFound(Ready(q, p), p, user, rating, tolerance);
  }

  lemma QueuedIsFound(q: seq<Player>, p: Player, user: int, rating: int, tolerance: int)
    requires Queued(q, p.id) && user != p.id && Gap(p, rating) <= tolerance
    requires forall k :: 0 <= k < |q| && q[k].id == p.id ==> q[k].rating == p.rating
    ensures exists k :: 0 <= k < |q| && Qualifies(q, k, user, rating, tolerance)
  {
    var k :| 0 <= k < |q| && q[k].id == p.id;
    assert Qualifies(q, k, user, rating, tolerance);
  }

  // The opponent found is as near as any: nobody who may be paired is rated strictly
  // between him and his mirror image around the rating looked for, and of those just as
  // near he has waited longest.
  lemma BestIsNearest(q: seq<Player>, k: nat, user: int, rating: int, tolerance: int)
    requires IsBest(q, |q|, k, user, rating, tolerance)
    ensures rating - tolerance <= q[k].rating <= rating + tolerance && q[k].id != user
    ensures forall j :: 0 <= j < |q| && q[j].id != user && rating - tolerance <= q[j].rating <= rating + tolerance ==>
              var (low, high) := if q[k].rating <= rating then (q[k].rating, 2 * rating - q[k].rating)
                                 else (2 * rating - q[k].rating, q[k].rating);
              !(low < q[j].rating < high) && (q[j].rating in {low, high} ==> k <= j)
  {
    forall j | 0 <= j < |q| && q[j].id != user && rating - tolerance <= q[j].rating <= rating + tolerance
      ensures Qualifies(q, j, user, rating, tolerance)
    {
    }
  }

  // ----- Rooms -----

  // A room just opened takes its first guest exactly with the password it was opened
  // with; one of more than 63 characters was cut, and then the whole does not fit.
  lemma OpenThenJoin(s: Slots, host: int, code: string, password: Option<string>, rated: bool, now: nat,
                     given: Option<string>, user: int)
    requires FreeIsZero(s) && FindRoom(s.rooms, code) == |s.rooms|
    requires CreateRoom(s.rooms, host, code, password, rated, now).1
    ensures var made := CreateRoom(s.rooms, host, code, password, rated, now).0;
            var (joined, ok) := JoinRoom(made, code, given, user);
            && (ok <==> password.None? || password.value == ""
                        || (given.Some? && given.value == Clip63(password.value)))
            && (given == password && password.Some? ==> (ok <==> |password.value| <= 63))
            && (ok ==> var i := FindRoom(joined, code);
                       i < |joined| && joined[i].host == host && joined[i].guest == user && joined[i].rated == rated)
  {
    var i, made := FreeRoom(s.rooms), CreateRoom(s.rooms, host, code, password, rated, now).0;
    FoundFirst(made, code, i);
    var joined := JoinRoom(made, code, given, user).0;
    FoundFirst(joined, code, i);
  }

  // A second guest does not get in, and does not disturb the first.
  lemma OneGuest(rooms: seq<Room>, code: string, a: Option<string>, b: Option<string>, user: int, other: int)
    requires user != 0 && JoinRoom(rooms, code, a, user).1
    ensures var joined := JoinRoom(rooms, code, a, user).0; JoinRoom(joined, code, b, other) == (joined, false)
  {
    var joined := JoinRoom(rooms, code, a, user).0;
    FoundFirst(joined, code, FindRoom(rooms, code));
  }

  // To the room a code stands for, a disconnect of the user does what his leaving it
  // does, unless he is both its host and its guest: then leaving only empties the
  // guest's seat, and the disconnect clears the room.
  lemma DisconnectIsLeaving(rooms: seq<Room>, code: string, user: int, i: nat)
    requires FirstWith(rooms, code, i)
    ensures CleanRooms(rooms, user)[i] == LeaveRoom(rooms, code, user).0[i] <==>
              !(rooms[i].host == user && rooms[i].guest == user)
  {
    assert FindRoom(rooms, code) == i;
  }

  // So when a guest disconnects, the host's room stands and takes the next guest.
  lemma HostKeepsHisRoom(rooms: seq<Room>, code: string, password: Option<string>, user: int, other: int, i: nat)
    requires FirstWith(rooms, code, i) && rooms[i].host != user && rooms[i].guest == user != 0
    requires rooms[i].password == "" || password == Some(rooms[i].password)
    ensures var cleaned := CleanRooms(rooms, user);
            && cleaned[i].occupied && cleaned[i].host == rooms[i].host && cleaned[i].rated == rooms[i].rated
            && JoinRoom(cleaned, code, password, other).1
            && JoinRoom(cleaned, code, password, other).0[i] == rooms[i].(guest := other)
  {
    FoundFirst(CleanRooms(rooms, user), code, i);
  }

  // ----- Challenges -----

  // An accepted challenge is between the two it was made for, on the terms it was made
  // on, and is the only one that changed.
  lemma ChallengeKeepsItsTerms(s: Slots, from: int, to: int, rated: bool, now: nat, id: string, at: int)
    requires id == "ch_" + Dec(FindChallenge(s.challenges, "")) + "_" + Dec(now)
    requires FindChallenge(s.challenges, id) == |s.challenges| && at <= now + 60
    requires CreateChallenge(s.challenges, from, to, rated, now).1
    ensures var made := CreateChallenge(s.challenges, from, to, rated, now).0;
            var (after, ok) := AcceptChallenge(made, id, to, at);
            var i := FindChallenge(s.challenges, "");
            && ok && |after| == |s.challenges|
            && after[i].id == id && after[i].from == from && after[i].to == to && after[i].rated == rated
            && made[i].status == 0 && after[i].status == 1
            && forall j :: 0 <= j < |after| && j != i ==> after[j] == s.challenges[j]
  {
    MadeIsFound(s, from, to, rated, now, id);
  }
}
