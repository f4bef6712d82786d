// From the server's match_create and the two match_found messages to the world in which
// the runs of two clients begin.
module Pairing {
  import opened Xiangqi
  import opened Games
  import opened Networks
  import opened Matches
  import opened Ratings
  import opened Servers
  import opened Logs
  import opened Replicas
  import opened Agreement
  import opened Patience
  import opened Lifecycle
  import opened Outcomes
  import Safety

  // Whatever the controller did before: it is online in a new game with Red to move and
  // nothing selected, and it may move exactly if it plays Red.
  lemma FoundStartsAfresh(start: Game, c: Net, color: Color)
    requires start.turn == Red && start.cur == None && start.status
    ensures var c' := NetMatchFound(start, c, color);
            && c'.online && c'.color == Some(color) && (c'.myTurn <==> color == Red)
            && c'.game.p == start.p && c'.game.kings == start.kings && c'.game.turn == Red
            && c'.game.cur == None && c'.game.status
            && c'.waits == c.waits && c'.game.events == c.game.events
  {
  }

  // So of two clients that try the same first move only Red's sends it.
  lemma OnlyRedAsksFirst(start: Game, c: Net, color: Color, f: Sq, t: Sq)
    requires start.turn == Red && start.cur == None && Playable(start, f, t)
    ensures var selected := NetClick(NetMatchFound(start, c, color), f);
            && selected.1 == None && NetOk(selected.0)
            && NetClick(selected.0, t).1 == if color == Red then Some(Request(f, t)) else None
  {
  }

  // The record the server makes and two controllers that have just been told of it.
  ghost function Paired(s: State, red: int, black: int, rated: bool, timeMs: int, now: nat, r: Net, b: Net): World
    requires s.count < |Servers.Create(s, red, black, rated, timeMs, now).0.matches|
  {
    var s', start := Servers.Create(s, red, black, rated, timeMs, now).0, Safety.Opened();
    World(Duo(Side(NetMatchFound(start, r, Red), [], [], [], 0), Side(NetMatchFound(start, b, Black), [], [], [], 0)),
          s'.matches[s.count], [], s'.users)
  }

  // Neither has emitted or asked anything yet.
  predicate Unused(c: Net) {
    c.game.events == [] && c.waits == []
  }

  lemma CreatedRecord(s: State, red: int, black: int, rated: bool, timeMs: int, now: nat)
    requires Lifecycle.Inv(s) && s.count < MAX_MATCHES
    ensures var s' := Servers.Create(s, red, black, rated, timeMs, now).0;
            && s.count < |s'.matches| && s'.users == s.users
            && var m := s'.matches[s.count];
               m.red == red && m.black == black && m.active && m.moves == [] && m.rated == rated
               && m.redMs == m.blackMs == timeMs && m.lastMoveAt == m.startedAt == now && m.turn == "red"
               && m.result == "ongoing" && m.endReason == ""
               && m.id == MatchId(s.count + 1, now)
  {
    CreateSucceeds(s, red, black, rated, timeMs, now);
  }

  // Every match the server makes for two different users begins such a world.
  lemma FoundIsMatched(s: State, red: int, black: int, rated: bool, timeMs: int, now: nat, r: Net, b: Net)
    requires Lifecycle.Inv(s) && s.count < MAX_MATCHES && red != black && Unused(r) && Unused(b)
    ensures s.count < |Servers.Create(s, red, black, rated, timeMs, now).0.matches|
    ensures Matched(Safety.Opened(), Paired(s, red, black, rated, timeMs, now, r, b))
  {
    CreatedRecord(s, red, black, rated, timeMs, now);
    OpenedIsQuiet();
  }

  lemma OpenedIsQuiet()
    ensures Safety.Opened().events == [] && Safety.Opened().(events := []) == Safety.Opened()
  {
  }

  // From the making of a match on: patient players' boards agree with the server's log
  // whenever nothing is in transit, until the end is announced.
  lemma PairedPlayersAgree(pow10: real -> real, s: State, red: int, black: int, rated: bool, timeMs: int, now: nat,
                           r: Net, b: Net, steps: seq<Replicas.Step>)
    requires Positive(pow10) && Lifecycle.Inv(s) && s.count < MAX_MATCHES && red != black && Unused(r) && Unused(b)
    requires s.count < |Servers.Create(s, red, black, rated, timeMs, now).0.matches|
    requires AllPatient(pow10, Paired(s, red, black, rated, timeMs, now, r, b), steps)
    requires var w := Agreement.Run(pow10, Paired(s, red, black, rated, timeMs, now, r, b), steps);
             Quiescent(w) && !Announced(w)
    ensures var w := Agreement.Run(pow10, Paired(s, red, black, rated, timeMs, now, r, b), steps);
            var final := Fold(Safety.Opened(), w.rec.moves);
            && LogOk(Safety.Opened(), w.rec.moves)
            && Shows(w.side.red.net, final) && Shows(w.side.black.net, final)
            && (w.side.black.net.myTurn <==> !w.side.red.net.myTurn)
  {
    FoundIsMatched(s, red, black, rated, timeMs, now, r, b);
    PatientPlayersAgree(pow10, Paired(s, red, black, rated, timeMs, now, r, b), steps);
  }

  // ----- The endings of such a world are the server's -----

  // What the handlers make of the slot and of the users is what the world makes of its
  // record and its rows.
  lemma EndingIsTheServers(pow10: real -> real, s: State, op: Op, w: World)
    requires Positive(pow10) && IsEnding(op) && Find(s.matches, op.id) < |s.matches|
    requires w.rec == s.matches[Find(s.matches, op.id)] && w.rec.active && w.users == s.users
    ensures var s', i := Apply(pow10, s, op), Find(s.matches, op.id);
            var result := ResultOf(w.rec, op);
            var e := if op.GameOver? then ByReport(result, if op.reason.Some? then op.reason.value else "game_over")
                     else ByServer(result, if op.Resign? then "resign" else "agreement");
            Close(pow10, w, e).rec == s'.matches[i] && Close(pow10, w, e).users == s'.users
  {
  }

  lemma TimeoutIsTheServers(pow10: real -> real, m: MatchRec, now: int, w: World)
    requires Positive(pow10) && w.rec == m && Expired(m, now)
    ensures var e := ByTimeout(InfoOf(m).result);
            Close(pow10, w, e).rec == SweepOne(m, now)
            && Close(pow10, w, e).users == SettleTimeout(pow10, w.users, InfoOf(m))
    ensures Close(pow10, w, Lost(InfoOf(m).result)).rec == SweepOne(m, now)
            && Close(pow10, w, Lost(InfoOf(m).result)).users == w.users
  {
  }
}
