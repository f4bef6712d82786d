// The server's match table and the handlers that change it:
// server/src/match.c, server/src/handlers/handlers_match.c and the timeout
// block of server_run.  `State` and the functions over it say what each call
// does; the class performs the calls on the fixed array, in the source's order.
module Servers {
  import opened Xiangqi
  import opened Matches
  import opened Ratings
  import opened Decimals

  datatype User = User(rating: int, wins: int, losses: int, draws: int)

  datatype TimeoutInfo = TimeoutInfo(id: string, result: string, red: int, black: int)

  // settled lists, in order, the ids whose settlement block ran.
  datatype State = State(
    matches: seq<MatchRec>, count: nat, pending: seq<TimeoutInfo>, users: map<int, User>, settled: seq<string>)

  datatype Reply = Rejected(why: string) | Accepted(opponent: int, from: Sq, to: Sq)

  function MatchId(n: nat, now: nat): string {
    "match_" + Dec(n) + "_" + Dec(now)
  }

  // match_get: the first slot with this id, |ms| if there is none.
  function Find(ms: seq<MatchRec>, id: string): (i: nat)
    ensures i <= |ms|
    ensures i < |ms| ==> ms[i].id == id
    ensures forall j :: 0 <= j < i ==> ms[j].id != id
  {
    if ms == [] then 0
    else if ms[0].id == id then 0
    else 1 + Find(ms[1..], id)
  }

  predicate IsFree(m: MatchRec) {
    !m.active && m.id == ""
  }

  function FirstFree(ms: seq<MatchRec>): (i: nat)
    ensures i <= |ms|
    ensures i < |ms| ==> IsFree(ms[i])
    ensures forall j :: 0 <= j < i ==> !IsFree(ms[j])
  {
    if ms == [] then 0
    else if IsFree(ms[0]) then 0
    else 1 + FirstFree(ms[1..])
  }

  function Fresh(id: string, red: int, black: int, rated: bool, timeMs: int, now: int): MatchRec {
    MatchRec(id, red, black, "red", [], rated, timeMs, timeMs, now, now, true, "ongoing", "")
  }

  // ----- What each call does -----

  function Create(s: State, red: int, black: int, rated: bool, timeMs: int, now: nat): (State, Option<string>)
  {
    var i := FirstFree(s.matches);
    if s.count >= MAX_MATCHES || i == |s.matches| then (s, None)
    else
      var id := MatchId(s.count + 1, now);
      (s.(matches := s.matches[i := Fresh(id, red, black, rated, timeMs, now)], count := s.count + 1), Some(id))
  }

  // handle_move once the match is found; the three times are the three readings of the clock.
  function PlayOn(m: MatchRec, user: int, from: Sq, to: Sq, t1: int, t2: int, t3: int): (MatchRec, Reply) {
    if (|m.moves| % 2 == 0) != (m.red == user) then (m, Rejected("Not your turn"))
    else
      var charged := UpdateTimer(m, t1);
      if Expired(charged, t2) then (charged, Rejected("Time expired"))
      else
        match AddMove(charged, Logged(charged, from, to, t2), t3)
        case None => (charged, Rejected("Failed to add move"))
        case Some(m') => (m', Accepted(if m.red == user then m.black else m.red, from, to))
  }

  function Move(s: State, user: int, id: string, from: Sq, to: Sq, t1: int, t2: int, t3: int): (State, Reply) {
    var i := Find(s.matches, id);
    if i == |s.matches| then (s, Rejected("Match not found"))
    else
      var (m, reply) := PlayOn(s.matches[i], user, from, to, t1, t2, t3);
      (s.(matches := s.matches[i := m]), reply)
  }

  // The record handle_move writes: coordinates go through char fields.
  function Logged(m: MatchRec, from: Sq, to: Sq, now: int): MoveRec {
    MoveRec(Sq(Char8(from.row), Char8(from.col)), Sq(Char8(to.row), Char8(to.col)), now, m.redMs, m.blackMs)
  }

  // The users after a settled result: ratings, then the counters of the three legal results.
  function Settle(pow10: real -> real, users: map<int, User>, m: MatchRec, result: string): map<int, User>
    requires Positive(pow10)
  {
    if !m.rated || m.red !in users || m.black !in users then users
    else
      var u1, u2 := users[m.red], users[m.black];
      var change := Calculate(pow10, u1.rating, u2.rating, result, DEFAULT_K_FACTOR);
      var (v1, v2) := Tally(u1, u2, result);
      users[m.red := v1.(rating := u1.rating + change.red)][m.black := v2.(rating := u2.rating + change.black)]
  }

  function Tally(red: User, black: User, result: string): (User, User) {
    if result == "red_win" then (red.(wins := red.wins + 1), black.(losses := black.losses + 1))
    else if result == "black_win" then (red.(losses := red.losses + 1), black.(wins := black.wins + 1))
    else if result == "draw" then (red.(draws := red.draws + 1), black.(draws := black.draws + 1))
    else (red, black)
  }

  // match_end, the rating block and db_save_match, for a match that is still active.
  function Finish(pow10: real -> real, s: State, id: string, result: string, reason: string): State
    requires Positive(pow10)
  {
    var i := Find(s.matches, id);
    if i == |s.matches| || !s.matches[i].active then s
    else
      var m := s.matches[i];
      s.(matches := s.matches[i := End(m, result, reason)], users := Settle(pow10, s.users, m, result),
         settled := s.settled + [id])
  }

  function ResignResult(s: State, user: int, id: string): string {
    var i := Find(s.matches, id);
    if i < |s.matches| && user == s.matches[i].red then "black_win" else "red_win"
  }

  // The rollback after a failed match_found notification: ended, never settled.
  function Abort(s: State, id: string): State {
    var i := Find(s.matches, id);
    if i == |s.matches| then s else s.(matches := s.matches[i := End(s.matches[i], "aborted", "notify_failed")])
  }

  function InfoOf(m: MatchRec): TimeoutInfo {
    TimeoutInfo(m.id, if m.turn == "red" then "black_win" else "red_win", m.red, m.black)
  }

  // The timeouts a sweep finds, in slot order.
  function Expiries(ms: seq<MatchRec>, now: int): (r: seq<TimeoutInfo>)
    ensures |r| <= |ms|
  {
    if ms == [] then []
    else
      var last := ms[|ms| - 1];
      Expiries(ms[..|ms| - 1], now) + if Expired(last, now) then [InfoOf(last)] else []
  }

  function Swept(ms: seq<MatchRec>, now: int): (r: seq<MatchRec>)
    ensures |r| == |ms| && forall i :: 0 <= i < |ms| ==> r[i] == SweepOne(ms[i], now)
  {
    seq(|ms|, i requires 0 <= i < |ms| => SweepOne(ms[i], now))
  }

  const DRAIN_LIMIT := 100
  const PENALTY := 25

  function Floor100(rating: int): int {
    if rating < 100 then 100 else rating
  }

  // db_update_user_rating and db_update_user_stats: no effect on an unknown user.
  function Overwrite(users: map<int, User>, id: int, u: User): map<int, User> {
    if id in users then users[id := u] else users
  }

  // server_run's settlement of one timeout.
  function SettleTimeout(pow10: real -> real, users: map<int, User>, t: TimeoutInfo): map<int, User>
    requires Positive(pow10)
  {
    var r1 := if t.red in users then users[t.red].rating else 1500;
    var r2 := if t.black in users then users[t.black].rating else 1500;
    var change := Calculate(pow10, r1, r2, t.result, DEFAULT_K_FACTOR);
    var redWon := t.result == "red_win";
    var newRed := Floor100(r1 + change.red - if redWon then 0 else PENALTY);
    var newBlack := Floor100(r2 + change.black - if redWon then PENALTY else 0);
    var users1 := Overwrite(users, t.red, if redWon then User(newRed, 1, 0, 0) else User(newRed, 0, 1, 0));
    Overwrite(users1, t.black, if redWon then User(newBlack, 0, 1, 0) else User(newBlack, 1, 0, 0))
  }

  function SettleTimeouts(pow10: real -> real, s: State, ts: seq<TimeoutInfo>): (r: State)
    requires Positive(pow10)
    ensures r.matches == s.matches && r.count == s.count && r.pending == s.pending
    ensures r.settled == s.settled + TimeoutIds(ts)
  {
    if ts == [] then s
    else
      var last := ts[|ts| - 1];
      var r := SettleTimeouts(pow10, s, ts[..|ts| - 1]);
      assert TimeoutIds(ts) == TimeoutIds(ts[..|ts| - 1]) + [last.id];
      r.(users := SettleTimeout(pow10, r.users, last), settled := r.settled + [last.id])
  }

  function TimeoutIds(ts: seq<TimeoutInfo>): seq<string> {
    seq(|ts|, i requires 0 <= i < |ts| => ts[i].id)
  }

  // The first `limit` entries; the rest is lost.
  function Drained(ts: seq<TimeoutInfo>, limit: nat): seq<TimeoutInfo> {
    if |ts| <= limit then ts else ts[..limit]
  }

  // One timeout round of server_run: sweep, drain, settle what was drained.
  function Sweep(pow10: real -> real, s: State, now: int): State
    requires Positive(pow10)
  {
    var found := Capped(s.pending + Expiries(s.matches, now));
    SettleTimeouts(pow10, s.(matches := Swept(s.matches, now), pending := []), Drained(found, DRAIN_LIMIT))
  }

  function Capped(ts: seq<TimeoutInfo>): seq<TimeoutInfo> {
    if |ts| <= MAX_MATCHES then ts else ts[..MAX_MATCHES]
  }

  // ----- The server object -----

  class MatchServer {
    const matches: array<MatchRec>
    var count: nat
    var pending: seq<TimeoutInfo>
    var users: map<int, User>
    var settled: seq<string>

    ghost predicate Valid()
      reads this, matches
    {
      matches.Length == MAX_MATCHES && |pending| <= MAX_MATCHES
    }

    function View(): State
      reads this, matches
    {
      State(matches[..], count, pending, users, settled)
    }

    constructor (users: map<int, User>)
      ensures Valid() && fresh(matches)
      ensures View() == State(seq(MAX_MATCHES, _ => FREE), 0, [], users, [])
    {
      matches := new MatchRec[MAX_MATCHES](_ => FREE);
      count, pending, settled := 0, [], [];
      this.users := users;
    }

    method MatchCreate(red: int, black: int, rated: bool, timeMs: int, now: nat) returns (id: Option<string>)
      requires Valid()
      modifies this`count, matches
      ensures Valid()
      ensures (View(), id) == Create(old(View()), red, black, rated, timeMs, now)
    {
      if count >= MAX_MATCHES {
        return None;
      }
      var slot := -1;
      var i := 0;
      while i < MAX_MATCHES
        invariant 0 <= i <= MAX_MATCHES && slot == -1
        invariant forall j :: 0 <= j < i ==> !IsFree(matches[j])
      {
        if !matches[i].active && matches[i].id == "" {
          slot := i;
          break;
        }
        i := i + 1;
      }
      if slot == -1 {
        return None;
      }
      count := count + 1;
      var newId := MatchId(count, now);
      matches[slot] := Fresh(newId, red, black, rated, timeMs, now);
      return Some(newId);
    }

    method MatchGet(id: string) returns (i: nat)
      requires Valid()
      ensures i == Find(matches[..], id)
    {
      i := 0;
      while i < MAX_MATCHES
        invariant 0 <= i <= MAX_MATCHES
        invariant forall j :: 0 <= j < i ==> matches[j].id != id
      {
        if matches[i].id == id {
          break;
        }
        i := i + 1;
      }
    }

    method HandleMove(user: int, id: string, from: Sq, to: Sq, t1: int, t2: int, t3: int) returns (reply: Reply)
      requires Valid()
      modifies matches
      ensures Valid()
      ensures (View(), reply) == Move(old(View()), user, id, from, to, t1, t2, t3)
    {
      var i := MatchGet(id);
      if i == MAX_MATCHES {
        return Rejected("Match not found");
      }
      var isRedTurn := |matches[i].moves| % 2 == 0;
      var isRedPlayer := matches[i].red == user;
      if isRedTurn != isRedPlayer {
        assert matches[..][i := matches[i]] == matches[..];
        return Rejected("Not your turn");
      }
      matches[i] := UpdateTimer(matches[i], t1);
      if Expired(matches[i], t2) {
        return Rejected("Time expired");
      }
      var added := AddMove(matches[i], Logged(matches[i], from, to, t2), t3);
      if added.None? {
        return Rejected("Failed to add move");
      }
      matches[i] := added.value;
      assert matches[..] == old(matches[..])[i := added.value];
      var opponent := if matches[i].red == user then matches[i].black else matches[i].red;
      return Accepted(opponent, from, to);
    }

    // match_end, then the rating block, then db_save_match: shared by the three handlers.
    method FinishMatch(pow10: real -> real, i: nat, result: string, reason: string)
      requires Valid() && i < MAX_MATCHES && matches[i].active && Positive(pow10)
      requires i == Find(matches[..], matches[i].id)
      modifies this`users, this`settled, matches
      ensures Valid()
      ensures View() == Finish(pow10, old(View()), old(matches[i].id), result, reason)
    {
      var m := matches[i];
      matches[i] := End(matches[i], result, reason);
      if m.rated && m.red in users && m.black in users {
        var u1, u2 := users[m.red], users[m.black];
        var change := Calculate(pow10, u1.rating, u2.rating, result, DEFAULT_K_FACTOR);
        var newRed, newBlack := u1.rating + change.red, u2.rating + change.black;
        if result == "red_win" {
          u1, u2 := u1.(wins := u1.wins + 1), u2.(losses := u2.losses + 1);
        } else if result == "black_win" {
          u1, u2 := u1.(losses := u1.losses + 1), u2.(wins := u2.wins + 1);
        } else if result == "draw" {
          u1, u2 := u1.(draws := u1.draws + 1), u2.(draws := u2.draws + 1);
        }
        users := users[m.red := u1.(rating := newRed)];
        users := users[m.black := u2.(rating := newBlack)];
      }
      settled := settled + [m.id];
    }

    method HandleResign(pow10: real -> real, user: int, id: string) returns (ok: bool)
      requires Valid() && Positive(pow10)
      modifies this`users, this`settled, matches
      ensures Valid()
      ensures View() == Finish(pow10, old(View()), id, ResignResult(old(View()), user, id), "resign")
      ensures ok == (old(View()) != View())
    {
      var i := MatchGet(id);
      if i == MAX_MATCHES || !matches[i].active {
        return false;
      }
      var result := if user == matches[i].red then "black_win" else "red_win";
      FinishMatch(pow10, i, result, "resign");
      return true;
    }

    method HandleDrawResponse(pow10: real -> real, id: string, accept: bool)
      requires Valid() && Positive(pow10)
      modifies this`users, this`settled, matches
      ensures Valid()
      ensures View() == if accept then Finish(pow10, old(View()), id, "draw", "agreement") else old(View())
    {
      if accept {
        var i := MatchGet(id);
        if i == MAX_MATCHES || !matches[i].active {
          return;
        }
        FinishMatch(pow10, i, "draw", "agreement");
      }
    }

    method HandleGameOver(pow10: real -> real, id: string, result: string, reason: Option<string>)
      requires Valid() && Positive(pow10)
      modifies this`users, this`settled, matches
      ensures Valid()
      ensures View() == Finish(pow10, old(View()), id, result, if reason.Some? then reason.value else "game_over")
    {
      var i := MatchGet(id);
      if i == MAX_MATCHES {
        return;
      }
      if matches[i].active {
        FinishMatch(pow10, i, result, if reason.Some? then reason.value else "game_over");
      }
    }

    method MatchEndAborted(id: string)
      requires Valid()
      modifies matches
      ensures Valid()
      ensures View() == Abort(old(View()), id)
    {
      var i := MatchGet(id);
      if i < MAX_MATCHES {
        matches[i] := End(matches[i], "aborted", "notify_failed");
      }
    }

    method MatchCheckAllTimeouts(now: int)
      requires Valid()
      modifies this`pending, matches
      ensures Valid()
      ensures View() == old(View()).(matches := Swept(old(matches[..]), now),
                                     pending := Capped(old(pending) + Expiries(old(matches[..]), now)))
    {
      ghost var before := matches[..];
      for i := 0 to MAX_MATCHES
        invariant Valid()
        invariant matches[..] == Swept(before[..i], now) + before[i..]
        invariant pending == Capped(old(pending) + Expiries(before[..i], now))
      {
        assert matches[i] == matches[..][i] == before[i];
        SweepSlot(i, now);
        CappedPush(old(pending) + Expiries(before[..i], now), before[i], now);
        SweptStep(before, i, now);
        ExpiriesStep(old(pending), before, i, now);
      }
      assert before[..MAX_MATCHES] == before;
    }

    // The loop body.
    method SweepSlot(i: nat, now: int)
      requires Valid() && i < MAX_MATCHES
      modifies this`pending, matches
      ensures Valid()
      ensures matches[..] == old(matches[..])[i := SweepOne(old(matches[i]), now)]
      ensures pending == if Expired(old(matches[i]), now) && |old(pending)| < MAX_MATCHES
                         then old(pending) + [InfoOf(old(matches[i]))] else old(pending)
    {
      if matches[i].active {
        if Expired(matches[i], now) {
          var winner := if matches[i].turn == "red" then "black_win" else "red_win";
          matches[i] := End(matches[i], winner, "timeout");
          if |pending| < MAX_MATCHES {
            pending := pending + [TimeoutInfo(matches[i].id, winner, matches[i].red, matches[i].black)];
          }
        }
      }
    }

    static lemma SweptStep(ms: seq<MatchRec>, i: nat, now: int)
      requires i < |ms|
      ensures (Swept(ms[..i], now) + ms[i..])[i := SweepOne(ms[i], now)] == Swept(ms[..i + 1], now) + ms[i + 1..]
    {
    }

    static lemma ExpiriesStep(ts: seq<TimeoutInfo>, ms: seq<MatchRec>, i: nat, now: int)
      requires i < |ms|
      ensures ts + Expiries(ms[..i + 1], now)
           == ts + Expiries(ms[..i], now) + if Expired(ms[i], now) then [InfoOf(ms[i])] else []
    {
      assert ms[..i + 1][..i] == ms[..i];
    }

    static lemma CappedPush(ts: seq<TimeoutInfo>, m: MatchRec, now: int)
      ensures Capped(ts + if Expired(m, now) then [InfoOf(m)] else [])
           == if Expired(m, now) && |Capped(ts)| < MAX_MATCHES then Capped(ts) + [InfoOf(m)] else Capped(ts)
    {
    }

    method MatchGetPendingTimeouts(maxCount: nat) returns (timeouts: seq<TimeoutInfo>)
      requires Valid()
      modifies this`pending
      ensures Valid() && View() == old(View()).(pending := [])
      ensures timeouts == Drained(old(pending), maxCount)
    {
      var n := if |pending| < maxCount then |pending| else maxCount;
      timeouts := [];
      for i := 0 to n
        invariant timeouts == pending[..i]
      {
        timeouts := timeouts + [pending[i]];
      }
      pending := [];
    }

    method TimeoutRound(pow10: real -> real, now: int)
      requires Valid() && Positive(pow10)
      modifies this`pending, this`users, this`settled, matches
      ensures Valid()
      ensures View() == Sweep(pow10, old(View()), now)
    {
      MatchCheckAllTimeouts(now);
      var timeouts := MatchGetPendingTimeouts(DRAIN_LIMIT);
      ghost var s := View();
      for i := 0 to |timeouts|
        invariant Valid()
        invariant View() == SettleTimeouts(pow10, s, timeouts[..i])
      {
        assert timeouts[..i + 1][..i] == timeouts[..i];
        users := SettleTimeout(pow10, users, timeouts[i]);
        settled := settled + [timeouts[i].id];
      }
      assert timeouts[..|timeouts|] == timeouts;
    }
  }
}
