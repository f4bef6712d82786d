// The turn machine of client/src/core/gameController.js on values: what one
// click, one resignation or one reset makes of the game a controller shows.
module Games {
  import opened Xiangqi

  datatype Reason = Checkmate | Stalemate

  datatype Event =
    | MoveMade(from: Sq, to: Sq, color: Color)
    | GameOver(winner: Color, reason: Reason)

  // cur is the square of the selected piece; events is what was emitted so far.
  datatype Game = Game(p: Placement, kings: Kings, turn: Color, status: bool, cur: Option<Sq>, events: seq<Event>)

  datatype Input = Click(at: Sq) | Resign | Reset

  ghost function Verdict(p: Placement, kings: Kings, toMove: Color): (over: seq<Event>)
    ensures over == [] <==> HasLegal(p, kings, toMove)
    ensures over != [] ==> |over| == 1 && over[0].GameOver? && over[0].winner == toMove.Other()
    ensures over != [] ==> (over[0].reason == Checkmate <==> InDanger(p, kings, toMove))
  {
    if HasLegal(p, kings, toMove) then []
    else [GameOver(toMove.Other(), if InDanger(p, kings, toMove) then Checkmate else Stalemate)]
  }

  predicate SelectionOk(g: Game) {
    g.cur.Some? ==> g.cur.value in g.p
  }

  // The selected piece goes to t and the turn passes.
  function Moved(g: Game, t: Sq): Game
    requires g.cur.Some? && SelectionOk(g)
  {
    var m := g.p[g.cur.value];
    g.(p := Shift(g.p, m, g.cur.value, t), kings := KingsAfter(g.kings, m, t), turn := g.turn.Other(), cur := None)
  }

  // checkGameStatus: the side now to move may have lost.
  ghost function Judged(g: Game): Game {
    var over := Verdict(g.p, g.kings, g.turn);
    g.(status := g.status && over == [], events := g.events + over)
  }

  // executeMove.
  ghost function Execute(g: Game, t: Sq): Game
    requires g.cur.Some? && SelectionOk(g)
  {
    var after := Judged(Moved(g, t));
    after.(events := after.events + [MoveMade(g.cur.value, t, g.turn)])
  }

  // A click that does not move: it selects, deselects, reselects or does nothing.
  function Reselect(g: Game, s: Sq): Game {
    if Friendly(g.p, g.turn, s) then g.(cur := Some(s)) else g
  }

  // The selected piece may go to s.
  ghost predicate Accepts(g: Game, s: Sq)
    requires SelectionOk(g)
  {
    && g.status && g.cur.Some? && g.cur.value != s
    && Legal(g.p, g.kings, g.cur.value, s)
  }

  // What a click leaves behind when it is not accepted as a move.
  function Selected(g: Game, s: Sq): Game {
    if !g.status then g
    else if g.cur.Some? && g.cur.value == s then g.(cur := None)
    else Reselect(g, s)
  }

  ghost function AfterClick(g: Game, s: Sq): Game
    requires SelectionOk(g)
  {
    if Accepts(g, s) then Execute(g, s) else Selected(g, s)
  }

  ghost function Step(start: Game, g: Game, i: Input): (g': Game)
    requires SelectionOk(g)
  {
    match i
    case Click(s) => AfterClick(g, s)
    case Resign => g.(status := false)
    case Reset => start.(events := g.events)
  }

  ghost function Run(start: Game, inputs: seq<Input>): (g: Game)
    requires start.cur == None
    ensures SelectionOk(g)
  {
    if inputs == [] then start
    else Step(start, Run(start, inputs[..|inputs| - 1]), inputs[|inputs| - 1])
  }
}
