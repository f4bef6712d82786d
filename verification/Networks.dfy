// client/src/core/networkGameController.js on values: what clicks and server
// messages make of one online client.
module Networks {
  import opened Xiangqi
  import opened Games

  datatype Request = Request(from: Sq, to: Sq) | Report(result: string, reason: string)

  datatype Message = Ok | Err(why: string) | OpponentMove(from: Sq, to: Sq) | GameEnd

  // A move request in flight; alive until it is answered or its ten seconds are over.
  datatype Wait = Wait(from: Sq, to: Sq, alive: bool)

  // waits lists the requests in flight in the order sent, which is that of the answers.
  datatype Net = Net(game: Game, color: Option<Color>, online: bool, myTurn: bool, waits: seq<Wait>)

  ghost predicate NetOk(c: Net) {
    SelectionOk(c.game)
  }

  // A click, whatever is in flight; the second result is the request it sends.
  ghost function NetClick(c: Net, s: Sq): (Net, Option<Request>)
    requires NetOk(c)
  {
    if !Accepts(c.game, s) then (c.(game := Selected(c.game, s)), None)
    else if c.online && !c.myTurn then (c, None)
    else if !Friendly(c.game.p, c.game.turn, c.game.cur.value) then (c, None)
    else if c.online then
      (c.(waits := c.waits + [Wait(c.game.cur.value, s, true)]), Some(Request(c.game.cur.value, s)))
    else (c.(game := Execute(c.game, s)), None)
  }

  // The answer to the oldest request in flight.  One that was given up is ignored.  An
  // accepted move is played by whatever piece is selected now; when none is, playing
  // it fails and nothing else happens.
  ghost function NetAnswer(c: Net, m: Message): Net
    requires NetOk(c) && (m.Ok? || m.Err?)
  {
    if c.waits == [] then c
    else
      var w, c1 := c.waits[0], c.(waits := c.waits[1..]);
      if !w.alive then c1
      else if m.Err? then c1.(myTurn := c.myTurn && m.why != "Not your turn")
      else if c.game.cur.None? then c1
      else c1.(game := Execute(c.game, w.to), myTurn := false)
  }

  // The ten seconds of request i are over.
  function NetTimeout(c: Net, i: nat): Net {
    if i < |c.waits| then c.(waits := c.waits[i := c.waits[i].(alive := false)]) else c
  }

  // Plays f to t whoever's turn it is; nothing happens if f is empty.
  ghost function Force(g: Game, f: Sq, t: Sq): Game {
    if f in g.p then Execute(g.(turn := g.p[f].color, cur := Some(f)), t) else g
  }

  ghost function NetOpponentMove(c: Net, f: Sq, t: Sq): Net {
    if f in c.game.p then c.(game := Force(c.game, f, t), myTurn := true) else c
  }

  function NetGameEnd(c: Net): Net {
    c.(online := false, myTurn := false)
  }

  // handleMatchFound on a controller with a board on screen.
  function NetMatchFound(start: Game, c: Net, color: Color): Net {
    c.(game := start.(events := c.game.events), color := Some(color), online := true, myTurn := color == Red)
  }

  // ----- Reporting the end of the game -----

  function ReportOf(e: Event): Request
    requires e.GameOver?
  {
    Report(if e.winner == Red then "red_win" else "black_win",
           if e.reason == Checkmate then "checkmate" else "stalemate")
  }

  // What the game-over listener sends once the n-th event is out.
  function ReportsSince(events: seq<Event>, n: nat, online: bool): seq<Request> {
    if online && n < |events| && events[n].GameOver? then [ReportOf(events[n])] else []
  }

  // One message from the server; the second result is what the client sends back.
  ghost function NetRead(c: Net, m: Message): (Net, seq<Request>)
    requires NetOk(c)
  {
    var c' :=
      if m.GameEnd? then NetGameEnd(c)
      else if m.OpponentMove? then NetOpponentMove(c, m.from, m.to)
      else NetAnswer(c, m);
    (c', ReportsSince(c'.game.events, |c.game.events|, c.online))
  }
}
