// Who moves, who loses and who pays: what the match handlers mean for the two players.
module Outcomes {
  import opened Xiangqi
  import opened Matches
  import opened Ratings
  import opened Servers
  import opened Lifecycle
  import opened Conservation

  // ----- Who moves -----

  // In a match just made between two users, Red's move is taken and Black's is
  // refused, until the clock runs out.
  lemma RedMovesFirst(s: State, red: int, black: int, rated: bool, timeMs: int, now: nat,
                      from: Sq, to: Sq, t1: int, t2: int, t3: int)
    requires Inv(s) && s.count < MAX_MATCHES && 0 <= timeMs <= FULL_CLOCK
    requires now <= t1 <= t2 <= now + MAX_GAP
    ensures var (s', id) := Servers.Create(s, red, black, rated, timeMs, now);
            && id.Some? && Find(s'.matches, id.value) == s.count
            && (Servers.Move(s', black, id.value, from, to, t1, t2, t3) == (s', Rejected("Not your turn"))
                <==> red != black)
            && (Servers.Move(s', red, id.value, from, to, t1, t2, t3).1.Accepted? <==> 1000 * (t2 - now) < timeMs)
  {
    CreateSucceeds(s, red, black, rated, timeMs, now);
    CreateStep(s, red, black, rated, timeMs, now);
    var (s', id) := Servers.Create(s, red, black, rated, timeMs, now);
    OneSlot(s', s.count);
    FirstMoveOf(s'.matches[s.count], from, to, t1, t2, t3);
    assert s'.matches[s.count := s'.matches[s.count]] == s'.matches;
  }

  lemma FirstMoveOf(m: MatchRec, from: Sq, to: Sq, t1: int, t2: int, t3: int)
    requires m.active && m.moves == [] && m.turn == "red" && ClocksInRange(m)
    requires m.lastMoveAt <= t1 <= t2 <= m.lastMoveAt + MAX_GAP
    ensures m.red != m.black ==> PlayOn(m, m.black, from, to, t1, t2, t3) == (m, Rejected("Not your turn"))
    ensures PlayOn(m, m.red, from, to, t1, t2, t3).1 != Rejected("Not your turn")
    ensures PlayOn(m, m.red, from, to, t1, t2, t3).1.Accepted? <==> 1000 * (t2 - m.lastMoveAt) < m.redMs
  {
    OneChargeIsInvisible(m, t1, t2);
    LazyChargeMeaning(m, t2);
  }

  // After an accepted move the other side may move, the mover may not, and the
  // other side has ten minutes, whatever was left on either clock.
  lemma TheOtherSideIsNext(m: MatchRec, user: int, from: Sq, to: Sq, t1: int, t2: int, t3: int, now: int)
    requires m.red != m.black && user in {m.red, m.black} && m.turn == (if |m.moves| % 2 == 0 then "red" else "black")
    requires t3 <= now <= t3 + MAX_GAP
    ensures var (m', reply) := PlayOn(m, user, from, to, t1, t2, t3);
            reply.Accepted? ==>
              && reply.opponent in {m.red, m.black} && reply.opponent != user
              && IsCorrectTurn(m', reply.opponent) && !IsCorrectTurn(m', user)
              && (Expired(m', now) <==> now - t3 >= 600)
  {
    GapFits(now - t3);
  }

  // ----- What a move is charged -----

  // An accepted move is logged at its time with the clocks as both players saw them
  // when it came in, and then both have ten minutes again.  A refusal for the clock or
  // for space charges the same and leaves the log; one for the turn changes nothing.
  lemma MoveIsCharged(m: MatchRec, user: int, from: Sq, to: Sq, t1: int, t2: int, t3: int)
    ensures var (m', reply) := PlayOn(m, user, from, to, t1, t2, t3);
            match reply
            case Accepted(_, _, _) =>
              && m.active && |m'.moves| == |m.moves| + 1 && m'.moves[..|m.moves|] == m.moves
              && (m'.moves[|m.moves|].redMs, m'.moves[|m.moves|].blackMs) == TimerView(m, t1)
              && m'.moves[|m.moves|].at == t2 && m'.lastMoveAt == t3
              && m'.redMs == m'.blackMs == 600000 && m'.active
            case Rejected(why) =>
              && m'.moves == m.moves && m'.turn == m.turn && m'.active == m.active
              && (why == "Not your turn" ==> m' == m)
              && (why != "Not your turn" ==>
                    (m'.redMs, m'.blackMs) == TimerView(m, t1) && (m.active ==> m'.lastMoveAt == t1))
  {
  }

  // Exactly which moves are accepted: those of the user whose turn the log's length
  // says it is, in a match that is on, while the mover's clock lasts and the log has
  // fewer than 300 moves.
  lemma AcceptedExactly(m: MatchRec, user: int, from: Sq, to: Sq, t1: int, t2: int, t3: int)
    requires ClocksInRange(m) && m.lastMoveAt <= t1 <= t2 <= m.lastMoveAt + MAX_GAP
    ensures PlayOn(m, user, from, to, t1, t2, t3).1.Accepted? <==>
              && m.active && (m.red == user <==> |m.moves| % 2 == 0) && |m.moves| < 300
              && 1000 * (t2 - m.lastMoveAt) < if m.turn == "red" then m.redMs else m.blackMs
  {
    OneChargeIsInvisible(m, t1, t2);
    if m.active {
      LazyChargeMeaning(m, t2);
    }
  }

  // x survives a signed char.
  predicate FitsChar(x: int) {
    -128 <= x <= 127
  }

  // The log has the squares of an accepted move exactly if every coordinate fits a
  // signed char, which the server does not test.
  lemma SquaresAreLoggedExactly(m: MatchRec, user: int, from: Sq, to: Sq, t1: int, t2: int, t3: int)
    requires PlayOn(m, user, from, to, t1, t2, t3).1.Accepted?
    ensures var m' := PlayOn(m, user, from, to, t1, t2, t3).0;
            && |m'.moves| == |m.moves| + 1
            && ((m'.moves[|m.moves|].from == from && m'.moves[|m.moves|].to == to) <==>
                FitsChar(from.row) && FitsChar(from.col) && FitsChar(to.row) && FitsChar(to.col))
  {
    MoveIsCharged(m, user, from, to, t1, t2, t3);
    CharIsExact(from.row);
    CharIsExact(from.col);
    CharIsExact(to.row);
    CharIsExact(to.col);
  }

  lemma CharIsExact(x: int)
    ensures Char8(x) == x <==> FitsChar(x)
  {
  }

  // So a clock that ran out while nobody looked is found empty, and stays so.
  lemma SpentClockIsEmptied(m: MatchRec, user: int, from: Sq, to: Sq, t1: int, t2: int, t3: int)
    requires m.active && ClocksInRange(m) && (|m.moves| % 2 == 0) == (m.red == user)
    requires m.lastMoveAt <= t1 <= t2 <= m.lastMoveAt + MAX_GAP
    requires (if m.turn == "red" then m.redMs else m.blackMs) <= 1000 * (t1 - m.lastMoveAt)
    ensures var (m', reply) := PlayOn(m, user, from, to, t1, t2, t3);
            && reply == Rejected("Time expired") && m'.lastMoveAt == t1
            && (if m.turn == "red" then m'.redMs == 0 && m'.blackMs == m.blackMs
                else m'.blackMs == 0 && m'.redMs == m.redMs)
  {
    LazyChargeMeaning(m, t1);
    LazyChargeMeaning(m, t2);
    OneChargeIsInvisible(m, t1, t2);
    MoveIsCharged(m, user, from, to, t1, t2, t3);
  }

  // ----- How an ending is recorded -----

  lemma ClipKeepsThePrefix(s: string, n: nat)
    ensures Clip(s, n) <= s && |Clip(s, n)| == if |s| < n then |s| else n
  {
  }

  // A resignation, an accepted draw or a reported end.
  predicate IsEnding(op: Op) {
    op.Resign? || (op.DrawResponse? && op.accept) || op.GameOver?
  }

  function ResultOf(m: MatchRec, op: Op): string
    requires IsEnding(op)
  {
    match op
    case Resign(user, _) => if user == m.red then "black_win" else "red_win"
    case DrawResponse(_, _) => "draw"
    case GameOver(_, result, _) => result
    case _ => ""
  }

  // The match is over with its result, its log, clocks and players stand, every other
  // match stands, and its id is settled.
  lemma EndingIsRecorded(pow10: real -> real, s: State, op: Op)
    requires Positive(pow10) && IsEnding(op) && Find(s.matches, op.id) < |s.matches|
    requires s.matches[Find(s.matches, op.id)].active
    ensures var s', i := Apply(pow10, s, op), Find(s.matches, op.id);
            var m, result := s.matches[i], ResultOf(s.matches[i], op);
            && |s'.matches| == |s.matches|
            && (forall j :: 0 <= j < |s.matches| && j != i ==> s'.matches[j] == s.matches[j])
            && !s'.matches[i].active && s'.matches[i].result == Clip(result, 15)
            && s'.matches[i].(active := true, result := m.result, endReason := m.endReason) == m
            && (op.Resign? ==> s'.matches[i].endReason == "resign")
            && (op.DrawResponse? ==> s'.matches[i].endReason == "agreement")
            && (op.GameOver? ==>
                  s'.matches[i].endReason == Clip(if op.reason.Some? then op.reason.value else "game_over", 31))
            && s'.settled == s.settled + [op.id] && s'.users == Settle(pow10, s.users, m, result)
            && s'.count == s.count && s'.pending == s.pending
  {
  }

  // Only the first ending counts: whatever comes after it for the same match is void.
  lemma FirstEndingCounts(pow10: real -> real, s: State, op: Op, later: Op)
    requires Positive(pow10) && IsEnding(op) && IsEnding(later) && later.id == op.id
    ensures var s' := Apply(pow10, s, op); Apply(pow10, s', later) == s'
  {
    var s', i := Apply(pow10, s, op), Find(s.matches, op.id);
    if i < |s.matches| {
      if s.matches[i].active {
        EndingIsRecorded(pow10, s, op);
      }
      FoundAgain(s.matches, s'.matches, op.id);
    } else {
      assert s' == s;
    }
  }

  lemma {:induction false} FoundAgain(ms: seq<MatchRec>, ms': seq<MatchRec>, id: string)
    requires |ms'| == |ms| && forall j :: 0 <= j < |ms| ==> ms'[j].id == ms[j].id
    ensures Find(ms', id) == Find(ms, id)
  {
    if ms != [] && ms[0].id != id {
      FoundAgain(ms[1..], ms'[1..], id);
    }
  }

  // A rollback ends the match without result or payment, and no move or ending is
  // taken afterwards.
  lemma AbortedIsOver(pow10: real -> real, s: State, id: string, op: Op)
    requires Positive(pow10) && Find(s.matches, id) < |s.matches| && (IsEnding(op) || op.Play?) && op.id == id
    ensures var s', i := Apply(pow10, s, Op.Abort(id)), Find(s.matches, id);
            && !s'.matches[i].active && s'.matches[i].result == "aborted"
            && s'.users == s.users && s'.settled == s.settled
            && (IsEnding(op) ==> Apply(pow10, s', op) == s')
            && (op.Play? ==> !Servers.Move(s', op.user, id, op.from, op.to, op.t1, op.t2, op.t3).1.Accepted?)
  {
    FoundAgain(s.matches, Apply(pow10, s, Op.Abort(id)).matches, id);
  }

  // A round closes exactly the matches that ran out of time, for the side not to move,
  // which is what it queues for settlement.
  lemma TimedOutIsLost(pow10: real -> real, s: State, now: int, i: nat)
    requires Positive(pow10) && i < |s.matches|
    ensures var m, m' := s.matches[i], Apply(pow10, s, Op.TimeoutRound(now)).matches[i];
            && (!Expired(m, now) ==> m' == m)
            && (Expired(m, now) ==>
                  && !m'.active && m'.endReason == "timeout" && m'.result == InfoOf(m).result
                  && m'.result == (if m.turn == "red" then "black_win" else "red_win")
                  && m'.moves == m.moves && m'.id == m.id && m'.red == m.red && m'.black == m.black)
  {
  }

  // ----- Who loses and who pays -----

  function Other(m: MatchRec, user: int): int {
    if user == m.red then m.black else m.red
  }

  // The server takes whoever is not Red for Black.
  function Resigner(m: MatchRec, user: int): int {
    if user == m.red then m.red else m.black
  }

  // Between two users, whoever sends the resignation of a rated match: Red loses if it
  // was Red's, Black otherwise.  The loss is counted, the loser gains no points, the
  // winner wins what is lost, and nobody else is touched.
  lemma ResigningNeverPays(pow10: real -> real, s: State, user: int, id: string)
    requires Positive(pow10) && Find(s.matches, id) < |s.matches|
    requires var m := s.matches[Find(s.matches, id)]; m.active && Rewards(s.users, m) && m.red != m.black
    ensures var m, users' := s.matches[Find(s.matches, id)], Apply(pow10, s, Op.Resign(user, id)).users;
            var loser := Resigner(m, user);
            var rival := Other(m, loser);
            && loser in s.users && rival in s.users && loser != rival && users'.Keys == s.users.Keys
            && users'[loser].rating <= s.users[loser].rating
            && users'[loser].rating - s.users[loser].rating == s.users[rival].rating - users'[rival].rating
            && users'[loser] == s.users[loser].(rating := users'[loser].rating, losses := s.users[loser].losses + 1)
            && users'[rival] == s.users[rival].(rating := users'[rival].rating, wins := s.users[rival].wins + 1)
            && forall k :: k in s.users && k != loser && k != rival ==> users'[k] == s.users[k]
  {
    var m := s.matches[Find(s.matches, id)];
    ChangesCancel(pow10, s.users[m.red].rating, s.users[m.black].rating, ResignResult(s, user, id), DEFAULT_K_FACTOR);
  }

  // Exactly when the loss is the sender's own: when he plays in the match.  A third
  // user's resignation leaves him as he is and Black with the loss.
  lemma ResigningIsOnesOwnExactly(pow10: real -> real, s: State, user: int, id: string)
    requires Positive(pow10) && Find(s.matches, id) < |s.matches| && user in s.users
    requires var m := s.matches[Find(s.matches, id)]; m.active && Rewards(s.users, m) && m.red != m.black
    ensures var m, users' := s.matches[Find(s.matches, id)], Apply(pow10, s, Op.Resign(user, id)).users;
            && user in users' && m.black in users'
            && (users'[user].losses == s.users[user].losses + 1 <==> user in {m.red, m.black})
            && (user !in {m.red, m.black} ==>
                  users'[user] == s.users[user] && users'[m.black].losses == s.users[m.black].losses + 1)
  {
    ResigningNeverPays(pow10, s, user, id);
  }

  // Exactly when resigning pays the sender: when he was matched with himself.
  lemma ResigningPaysExactly(pow10: real -> real, s: State, user: int, id: string)
    requires Exponential(pow10) && Find(s.matches, id) < |s.matches| && user in s.users
    requires var m := s.matches[Find(s.matches, id)]; m.active && Rewards(s.users, m)
    ensures var m, users' := s.matches[Find(s.matches, id)], Apply(pow10, s, Op.Resign(user, id)).users;
            user in users' && (users'[user].rating > s.users[user].rating <==> m.red == m.black == user)
  {
    var m := s.matches[Find(s.matches, id)];
    if m.red != m.black {
      ResigningNeverPays(pow10, s, user, id);
    } else if user == m.red {
      EqualsShareTheStake(pow10, s.users[user].rating, "black_win");
    }
  }

  // An agreed draw of a rated match between two users counts as one for both, moves
  // points only from the higher rated to the lower, and touches nobody else; a refusal
  // changes nothing.
  lemma DrawIsShared(pow10: real -> real, s: State, id: string)
    requires Exponential(pow10) && Find(s.matches, id) < |s.matches|
    requires var m := s.matches[Find(s.matches, id)]; m.active && Rewards(s.users, m) && m.red != m.black
    ensures Apply(pow10, s, Op.DrawResponse(id, false)) == s
    ensures var m, users' := s.matches[Find(s.matches, id)], Apply(pow10, s, Op.DrawResponse(id, true)).users;
            var red, black := s.users[m.red], s.users[m.black];
            && users'.Keys == s.users.Keys
            && users'[m.red] == red.(rating := users'[m.red].rating, draws := red.draws + 1)
            && users'[m.black] == black.(rating := users'[m.black].rating, draws := black.draws + 1)
            && users'[m.red].rating - red.rating == black.rating - users'[m.black].rating
            && (red.rating <= black.rating ==> users'[m.red].rating >= red.rating)
            && forall k :: k in s.users && k !in {m.red, m.black} ==> users'[k] == s.users[k]
  {
    var m := s.matches[Find(s.matches, id)];
    ChangesCancel(pow10, s.users[m.red].rating, s.users[m.black].rating, "draw", DEFAULT_K_FACTOR);
    if s.users[m.red].rating <= s.users[m.black].rating {
      DrawPaysTheWeaker(pow10, s.users[m.red].rating, s.users[m.black].rating, DEFAULT_K_FACTOR);
    }
  }

  // Between two users a timeout is settled against the side to move: it loses at
  // least the penalty, down to the floor of 100, and its record becomes one loss; the
  // other side loses nothing and its record becomes one win; nobody else is touched.
  lemma TimeoutPunishesTheMover(pow10: real -> real, users: map<int, User>, m: MatchRec)
    requires Positive(pow10) && m.red in users && m.black in users && m.red != m.black
    ensures var users' := SettleTimeout(pow10, users, InfoOf(m));
            var mover := if m.turn == "red" then m.red else m.black;
            var rival := Other(m, mover);
            && mover in users' && rival in users'
            && users'[mover].rating <= Floor100(users[mover].rating - PENALTY)
            && users'[rival].rating >= users[rival].rating
            && users'[mover] == User(users'[mover].rating, 0, 1, 0)
            && users'[rival] == User(users'[rival].rating, 1, 0, 0)
            && users'.Keys == users.Keys && forall k :: k in users && k != mover && k != rival ==> users'[k] == users[k]
  {
    ChangesCancel(pow10, users[m.red].rating, users[m.black].rating, InfoOf(m).result, DEFAULT_K_FACTOR);
  }

  // A user matched with himself keeps what Black is given, so running out of time as
  // Red leaves him with a win, and costs him the penalty only where the floor of 100
  // says so anyway.
  lemma SelfTimeout(pow10: real -> real, users: map<int, User>, m: MatchRec)
    requires Exponential(pow10) && m.red in users && m.red == m.black
    ensures var users', before := SettleTimeout(pow10, users, InfoOf(m)), users[m.red].rating;
            && m.red in users'
            && users'[m.red].rating == Floor100(before + if m.turn == "red" then 16 else -41)
            && (users'[m.red].rating <= Floor100(before - PENALTY) <==> m.turn != "red" || before <= 84)
            && users'[m.red] == (if m.turn == "red" then User(users'[m.red].rating, 1, 0, 0)
                                 else User(users'[m.red].rating, 0, 1, 0))
            && users'.Keys == users.Keys && forall k :: k in users && k != m.red ==> users'[k] == users[k]
  {
    EqualsShareTheStake(pow10, users[m.red].rating, InfoOf(m).result);
  }

  // What the round drains.
  function DrainedAt(s: State, now: int): seq<TimeoutInfo> {
    Drained(Capped(s.pending + Expiries(s.matches, now)), DRAIN_LIMIT)
  }

  // A player the server does not know counts as one rated 1500, and is not stored.
  lemma UnknownCountsAs1500(pow10: real -> real, users: map<int, User>, t: TimeoutInfo, stranger: User)
    requires Positive(pow10) && t.red != t.black && stranger.rating == 1500
    ensures t.red !in users && t.black in users ==>
              var users' := SettleTimeout(pow10, users, t);
              t.red !in users' && users'[t.black] == SettleTimeout(pow10, users[t.red := stranger], t)[t.black]
    ensures t.black !in users && t.red in users ==>
              var users' := SettleTimeout(pow10, users, t);
              t.black !in users' && users'[t.red] == SettleTimeout(pow10, users[t.black := stranger], t)[t.red]
  {
  }

  lemma {:induction false} RoundKeepsUsers(pow10: real -> real, s: State, ts: seq<TimeoutInfo>)
    requires Positive(pow10)
    ensures SettleTimeouts(pow10, s, ts).users.Keys == s.users.Keys
  {
    if ts != [] {
      RoundKeepsUsers(pow10, s, ts[..|ts| - 1]);
    }
  }

  // No operation adds or removes a user, in any run.
  lemma {:induction false} RunKeepsUsers(pow10: real -> real, s: State, ops: seq<Op>)
    requires Positive(pow10)
    ensures Run(pow10, s, ops).users.Keys == s.users.Keys
    decreases |ops|
  {
    if ops != [] {
      StepKeepsUsers(pow10, s, ops[0]);
      RunKeepsUsers(pow10, Apply(pow10, s, ops[0]), ops[1..]);
    }
  }

  lemma StepKeepsUsers(pow10: real -> real, s: State, op: Op)
    requires Positive(pow10)
    ensures Apply(pow10, s, op).users.Keys == s.users.Keys
  {
    if op.TimeoutRound? {
      RoundKeepsUsers(pow10, s.(matches := Swept(s.matches, op.now), pending := []), DrainedAt(s, op.now));
    }
  }

  // ----- A whole round -----

  predicate Concerns(t: TimeoutInfo, user: int) {
    user == t.red || user == t.black
  }

  predicate SameRow(a: map<int, User>, b: map<int, User>, user: int) {
    (user in a <==> user in b) && (user in a ==> a[user] == b[user])
  }

  lemma SettleSparesOthers(pow10: real -> real, users: map<int, User>, t: TimeoutInfo, user: int)
    requires Positive(pow10) && !Concerns(t, user)
    ensures SameRow(SettleTimeout(pow10, users, t), users, user)
  {
  }

  // The last timeout of a round is settled on what the ones before it leave.
  lemma LastStep(pow10: real -> real, s: State, ts: seq<TimeoutInfo>)
    requires Positive(pow10) && ts != []
    ensures var n := |ts| - 1;
            SettleTimeouts(pow10, s, ts).users
            == SettleTimeout(pow10, SettleTimeouts(pow10, s, ts[..n]).users, ts[n])
  {
  }

  // A round leaves alone whom none of its timeouts concerns.
  lemma {:induction false} RoundSparesOthers(pow10: real -> real, s: State, ts: seq<TimeoutInfo>, user: int)
    requires Positive(pow10) && forall k :: 0 <= k < |ts| ==> !Concerns(ts[k], user)
    ensures SameRow(SettleTimeouts(pow10, s, ts).users, s.users, user)
  {
    if ts != [] {
      var n := |ts| - 1;
      forall k | 0 <= k < n ensures !Concerns(ts[..n][k], user) {
        assert !Concerns(ts[k], user);
      }
      RoundSparesOthers(pow10, s, ts[..n], user);
      LastStep(pow10, s, ts);
      SettleSparesOthers(pow10, SettleTimeouts(pow10, s, ts[..n]).users, ts[n], user);
    }
  }

  // The j-th timeout is the only one of the round that concerns its players.
  predicate Alone(ts: seq<TimeoutInfo>, j: nat) {
    && j < |ts|
    && forall k :: 0 <= k < |ts| && k != j ==> !Concerns(ts[k], ts[j].red) && !Concerns(ts[k], ts[j].black)
  }

  // It is settled as if there were no other.
  lemma {:induction false} RoundSettlesEach(pow10: real -> real, s: State, ts: seq<TimeoutInfo>, j: nat, user: int)
    requires Positive(pow10) && Alone(ts, j) && Concerns(ts[j], user)
    ensures SameRow(SettleTimeouts(pow10, s, ts).users, SettleTimeout(pow10, s.users, ts[j]), user)
  {
    var n := |ts| - 1;
    LastStep(pow10, s, ts);
    if j == n {
      LastIsSettled(pow10, s, ts, user);
    } else {
      AloneBefore(ts, j);
      RoundSettlesEach(pow10, s, ts[..n], j, user);
      assert !Concerns(ts[n], ts[j].red) && !Concerns(ts[n], ts[j].black);
      SettleSparesOthers(pow10, SettleTimeouts(pow10, s, ts[..n]).users, ts[n], user);
    }
  }

  lemma AloneBefore(ts: seq<TimeoutInfo>, j: nat)
    requires Alone(ts, j) && j < |ts| - 1
    ensures Alone(ts[..|ts| - 1], j)
  {
    var n := |ts| - 1;
    forall k | 0 <= k < n && k != j ensures !Concerns(ts[..n][k], ts[j].red) && !Concerns(ts[..n][k], ts[j].black) {
      assert !Concerns(ts[k], ts[j].red);
    }
  }

  lemma LastIsSettled(pow10: real -> real, s: State, ts: seq<TimeoutInfo>, user: int)
    requires Positive(pow10) && ts != [] && Alone(ts, |ts| - 1) && Concerns(ts[|ts| - 1], user)
    ensures SameRow(SettleTimeouts(pow10, s, ts).users, SettleTimeout(pow10, s.users, ts[|ts| - 1]), user)
  {
    var n := |ts| - 1;
    forall k | 0 <= k < n ensures !Concerns(ts[..n][k], ts[n].red) && !Concerns(ts[..n][k], ts[n].black) {
      assert !Concerns(ts[k], ts[n].red);
    }
    LastStep(pow10, s, ts);
    RoundSparesOthers(pow10, s, ts[..n], ts[n].red);
    RoundSparesOthers(pow10, s, ts[..n], ts[n].black);
    SameRows(pow10, SettleTimeouts(pow10, s, ts[..n]).users, s.users, ts[n], user);
  }

  // A settlement looks at the rows of the two players only.
  lemma SameRows(pow10: real -> real, users: map<int, User>, others: map<int, User>, t: TimeoutInfo, user: int)
    requires Positive(pow10) && SameRow(users, others, t.red) && SameRow(users, others, t.black) && Concerns(t, user)
    ensures SameRow(SettleTimeout(pow10, users, t), SettleTimeout(pow10, others, t), user)
  {
  }

  // Whoever lets his time run out against another known user, in the only match of the
  // round that concerns the two, is left with one loss and at least the penalty less;
  // his opponent with one win and no fewer points.
  lemma RoundPunishesTheMover(pow10: real -> real, s: State, now: int, i: nat, j: nat)
    requires Positive(pow10) && i < |s.matches| && Alone(DrainedAt(s, now), j)
    requires DrainedAt(s, now)[j] == InfoOf(s.matches[i])
    requires var m := s.matches[i]; m.red != m.black && m.red in s.users && m.black in s.users
    ensures var m, users' := s.matches[i], Apply(pow10, s, Op.TimeoutRound(now)).users;
            var mover := if m.turn == "red" then m.red else m.black;
            var rival := Other(m, mover);
            && mover in users' && rival in users'
            && users'[mover] == User(users'[mover].rating, 0, 1, 0)
            && users'[rival] == User(users'[rival].rating, 1, 0, 0)
            && users'[mover].rating <= Floor100(s.users[mover].rating - PENALTY)
            && users'[rival].rating >= s.users[rival].rating
  {
    var m, ts := s.matches[i], DrainedAt(s, now);
    var swept := s.(matches := Swept(s.matches, now), pending := []);
    TimeoutPunishesTheMover(pow10, s.users, m);
    RoundSettlesEach(pow10, swept, ts, j, m.red);
    RoundSettlesEach(pow10, swept, ts, j, m.black);
  }
}
