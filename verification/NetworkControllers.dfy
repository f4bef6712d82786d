// client/src/core/networkGameController.js: the controller of an online game.
// The JavaScript class extends GameController; here it owns one.  The await in
// executeMove splits it: sending, and then OnAnswer when the response comes or
// OnTimeout when it does not; the suspended calls are the list `waits`.
module NetworkControllers {
  import opened Xiangqi
  import opened Boards
  import opened Games
  import opened Networks
  import opened Controllers

  class NetworkGameController {
    const base: GameController
    var matchId: string
    var myColor: Option<Color>
    var isOnlineMode: bool
    var isMyTurn: bool
    var waits: seq<Wait>

    ghost predicate Valid()
      reads this, base, base.chessboard, base.chessboard.board,
            Men(base.chessboard.board), Tables(base.chessboard.board)
    {
      && base.Valid()
      && forall w :: w in waits ==> OnBoard(w.to)
    }

    ghost function View(): (c: Net)
      requires Valid()
      reads this, base, base.chessboard, base.chessboard.board,
            Men(base.chessboard.board), Tables(base.chessboard.board)
      ensures NetOk(c)
    {
      Net(base.View(), myColor, isOnlineMode, isMyTurn, waits)
    }

    constructor (initialPosition: seq<PieceInfo>)
      requires forall x :: x in initialPosition ==> OnBoard(x.At())
      ensures Valid() && View() == Net(Start(initialPosition), None, false, false, [])
      ensures base.initialPosition == initialPosition
    {
      base := new GameController(initialPosition);
      matchId, myColor, isOnlineMode, isMyTurn, waits := "", None, false, false, [];
    }

    method HandleMatchFound(id: string, color: Color)
      requires Valid()
      modifies this, base.chessboard
      ensures Valid() && matchId == id
      ensures View() == NetMatchFound(Start(base.initialPosition), old(View()), color)
    {
      matchId := id;
      myColor := Some(color);
      isOnlineMode := true;
      isMyTurn := color == Red;
      base.Reset();
    }

    // One click, whatever is in flight; returns the move request it sends.
    method HandleBoardClick(row: int, col: int) returns (request: Option<Request>)
      requires Valid() && OnBoard(Sq(row, col))
      modifies this, base, base.chessboard, base.chessboard.board,
               Men(base.chessboard.board), Tables(base.chessboard.board)
      ensures Valid()
      ensures (View(), request) == NetClick(old(View()), Sq(row, col))
    {
      var res := base.DecideClick(row, col);
      request := None;
      if res {
        request := ExecuteMove(row, col);
      }
    }

    method ExecuteMove(row: int, col: int) returns (request: Option<Request>)
      requires Valid() && OnBoard(Sq(row, col)) && base.chessboard.curPiece != null
      modifies this, base, base.chessboard, base.chessboard.board,
               Men(base.chessboard.board), Tables(base.chessboard.board)
      ensures Valid()
      ensures var c, f := old(View()), old(View()).game.cur.value;
              var s := Sq(row, col);
              (View(), request) ==
              if (c.online && !c.myTurn) || !Friendly(c.game.p, c.game.turn, f) then (c, None)
              else if c.online then (c.(waits := c.waits + [Wait(f, s, true)]), Some(Request(f, s)))
              else (c.(game := Execute(c.game, s)), None)
    {
      var from := base.chessboard.curPiece.At();
      if isOnlineMode && !isMyTurn {
        return None;
      }
      var isValid := base.ValidateMove(from);
      if !isValid {
        return None;
      }
      if isOnlineMode {
        Suspend(Wait(from, Sq(row, col), true));
        return Some(Request(from, Sq(row, col)));
      }
      base.ExecuteMove(row, col);
      return None;
    }

    method Suspend(w: Wait)
      requires Valid() && OnBoard(w.to)
      modifies this`waits
      ensures Valid() && View() == old(View()).(waits := old(waits) + [w])
    {
      waits := waits + [w];
      assert Coherent(base.chessboard.board);
    }

    // The response to the oldest request in flight; returns what the game-over
    // listener reports.  A request that was given up is no longer looked up.
    method OnAnswer(m: Message) returns (reports: seq<Request>)
      requires Valid() && (m.Ok? || m.Err?)
      modifies this, base, base.chessboard, base.chessboard.board,
               Men(base.chessboard.board), Tables(base.chessboard.board)
      ensures Valid()
      ensures (View(), reports) == NetRead(old(View()), m)
    {
      var n := |base.events|;
      if waits != [] {
        var w := Resume();
        if w.alive {
          if m.Ok? {
            OnAccepted(w.to);
          } else if m.why == "Not your turn" {
            SetMyTurn(false);
          }
        }
      }
      reports := ReportsSince(base.events, n, isOnlineMode);
    }

    // Without a selected piece playing the move throws, which is caught.
    method OnAccepted(to: Sq)
      requires Valid() && OnBoard(to)
      modifies this, base, base.chessboard, base.chessboard.board,
               Men(base.chessboard.board), Tables(base.chessboard.board)
      ensures Valid() && isOnlineMode == old(isOnlineMode)
      ensures var c := old(View());
              View() == if c.game.cur.None? then c else c.(game := Execute(c.game, to), myTurn := false)
    {
      if base.chessboard.curPiece != null {
        base.ExecuteMove(to.row, to.col);
        SetMyTurn(false);
      }
    }

    method Resume() returns (w: Wait)
      requires Valid() && waits != []
      modifies this`waits
      ensures Valid() && w == old(waits[0]) && OnBoard(w.to)
      ensures View() == old(View()).(waits := old(waits[1..]))
    {
      w := waits[0];
      waits := waits[1..];
      assert Coherent(base.chessboard.board);
    }

    // Rejected by its timer: the suspended call ends and changes nothing.
    method OnTimeout(i: nat)
      requires Valid()
      modifies this`waits
      ensures Valid() && View() == NetTimeout(old(View()), i)
    {
      if i < |waits| {
        waits := waits[i := waits[i].(alive := false)];
      }
      assert Coherent(base.chessboard.board);
    }

    method SetMyTurn(mine: bool)
      requires Valid()
      modifies this`isMyTurn
      ensures Valid() && View() == old(View()).(myTurn := mine)
    {
      isMyTurn := mine;
      assert Coherent(base.chessboard.board);
    }

    // An opponent's move, whether or not a request is in flight; returns what the
    // game-over listener reports.
    method HandleOpponentMove(from: Sq, to: Sq) returns (reports: seq<Request>)
      requires Valid() && OnBoard(to)
      modifies this, base, base.chessboard, base.chessboard.board,
               Men(base.chessboard.board), Tables(base.chessboard.board)
      ensures Valid()
      ensures (View(), reports) == NetRead(old(View()), OpponentMove(from, to))
    {
      var n := |base.events|;
      var found := AdoptPiece(from);
      if found {
        base.ExecuteMove(to.row, to.col);
        SetMyTurn(true);
      }
      reports := ReportsSince(base.events, n, isOnlineMode);
    }

    // Makes the piece on `from` the selected one and the turn its colour's.
    method AdoptPiece(from: Sq) returns (found: bool)
      requires Valid()
      modifies base.chessboard`turn, base.chessboard`curPiece
      ensures Valid() && found == (from in old(View()).game.p)
      ensures var g := old(View()).game;
              base.View() == if found then g.(turn := g.p[from].color, cur := Some(from)) else g
    {
      if from.row < 0 || from.row > 9 || from.col < 0 || from.col > 8 {
        return false;
      }
      var piece := base.chessboard.board[from.row, from.col];
      if piece == null {
        return false;
      }
      base.chessboard.turn := piece.color;
      base.chessboard.curPiece := piece;
      assert piece.At() == from;
      return true;
    }

    method HandleGameEnd()
      requires Valid()
      modifies this`isOnlineMode, this`isMyTurn
      ensures Valid()
      ensures (View(), []) == NetRead(old(View()), GameEnd)
    {
      isOnlineMode := false;
      isMyTurn := false;
      assert Coherent(base.chessboard.board);
    }
  }
}
