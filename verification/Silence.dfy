// When an online client sends no move request, whatever is clicked: out of turn, after
// its own accepted move, after a refusal for the turn, and after the end of the match.
module Silence {
  import opened Xiangqi
  import opened Games
  import opened Networks
  import opened Logs
  import opened Playing

  // The client after any clicks, and what they sent.
  ghost function ClickAll(c: Net, clicks: seq<Sq>): (r: (Net, seq<Request>))
    requires NetOk(c)
    ensures NetOk(r.0)
  {
    if clicks == [] then (c, [])
    else
      var (before, sent) := ClickAll(c, clicks[..|clicks| - 1]);
      var (after, request) := NetClick(before, clicks[|clicks| - 1]);
      (after, if request.Some? then sent + [request.value] else sent)
  }

  // Out of turn nothing is sent, and nothing but the selection changes.
  lemma {:induction false} OutOfTurnIsSilent(c: Net, clicks: seq<Sq>)
    requires NetOk(c) && c.online && !c.myTurn
    ensures var (c', sent) := ClickAll(c, clicks);
            sent == [] && c'.(game := c.game) == c && c'.game.(cur := None) == c.game.(cur := None)
  {
    if clicks != [] {
      OutOfTurnIsSilent(c, clicks[..|clicks| - 1]);
    }
  }

  // Offline nothing is sent either; the game is played here.
  lemma {:induction false} OfflineIsSilent(c: Net, clicks: seq<Sq>)
    requires NetOk(c) && !c.online
    ensures var (c', sent) := ClickAll(c, clicks);
            sent == [] && !c'.online && c'.myTurn == c.myTurn && c'.waits == c.waits
  {
    if clicks != [] {
      OfflineIsSilent(c, clicks[..|clicks| - 1]);
    }
  }

  // The clicks of an offline client are those of a game on one screen.
  lemma {:induction false} OfflineIsLocal(c: Net, clicks: seq<Sq>)
    requires NetOk(c) && !c.online && OwnSelection(c.game)
    ensures var (c', sent) := ClickAll(c, clicks);
            OwnSelection(c'.game) && c' == c.(game := ClickHere(c.game, clicks))
  {
    if clicks != [] {
      OfflineIsLocal(c, clicks[..|clicks| - 1]);
    }
  }

  ghost function ClickHere(g: Game, clicks: seq<Sq>): (g': Game)
    requires SelectionOk(g)
    ensures SelectionOk(g')
  {
    if clicks == [] then g else AfterClick(ClickHere(g, clicks[..|clicks| - 1]), clicks[|clicks| - 1])
  }

  // An awaited request that is refused because it is not the client's turn silences it,
  // with its board as it was; one refused for another reason does not take the turn.
  lemma RefusalSilences(c: Net, why: string, clicks: seq<Sq>)
    requires NetOk(c) && c.online && c.waits != [] && c.waits[0].alive
    ensures var c' := NetRead(c, Err(why)).0;
            && c'.game == c.game && c'.online
            && (why == "Not your turn" ==> !c'.myTurn && ClickAll(c', clicks).1 == [])
            && (why != "Not your turn" ==> c'.myTurn == c.myTurn)
  {
    var c' := NetRead(c, Err(why)).0;
    if why == "Not your turn" {
      OutOfTurnIsSilent(c', clicks);
    }
  }

  // So does its own accepted move, until the opponent's comes.
  lemma OwnMoveSilences(c: Net, clicks: seq<Sq>, f: Sq, t: Sq)
    requires NetOk(c) && c.online && c.waits != [] && c.waits[0].alive && c.game.cur.Some?
    ensures var c' := NetRead(c, Ok).0;
            && !c'.myTurn && ClickAll(c', clicks).1 == []
            && var c'' := NetRead(ClickAll(c', clicks).0, OpponentMove(f, t)).0;
               c''.myTurn <==> f in c'.game.p
  {
    OutOfTurnIsSilent(NetRead(c, Ok).0, clicks);
  }

  // An accepted move that finds no man selected changes neither board nor turn, and the
  // client may ask again.
  lemma AcceptedWithoutSelection(c: Net)
    requires NetOk(c) && c.waits != [] && c.game.cur == None
    ensures NetRead(c, Ok) == (c.(waits := c.waits[1..]), [])
  {
  }

  // Online the client reports exactly the game that a message ended, once and for its
  // winner; offline it reports nothing.
  lemma EndIsReported(c: Net, m: Message)
    requires NetOk(c) && c.game.status
    ensures var (c', sent) := NetRead(c, m);
            && (!c.online ==> sent == [])
            && (c.online ==> sent == if c'.game.status then [] else [FinalReport(c'.game)])
  {
    if m.Ok? && c.waits != [] && c.waits[0].alive && c.game.cur.Some? {
      ExecuteReports(c.game, c.waits[0].to);
    } else if m.OpponentMove? && m.from in c.game.p {
      ExecuteReports(c.game.(turn := c.game.p[m.from].color, cur := Some(m.from)), m.to);
    }
  }

  // The end of the match silences the client for good.
  lemma EndSilences(c: Net, clicks: seq<Sq>)
    requires NetOk(c)
    ensures var c' := NetRead(c, GameEnd).0;
            && c'.game == c.game && !c'.online && !c'.myTurn
            && ClickAll(c', clicks).1 == [] && !ClickAll(c', clicks).0.online && !ClickAll(c', clicks).0.myTurn
  {
    OfflineIsSilent(NetRead(c, GameEnd).0, clicks);
  }
}
