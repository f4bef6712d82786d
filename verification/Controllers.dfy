// client/src/core/gameController.js: the controller object that owns a board.
// Drawing calls are left out; emitted events are appended to `events`.
module Controllers {
  import opened Xiangqi
  import opened Boards
  import opened Games

  class GameController {
    const chessboard: Board
    const initialPosition: seq<PieceInfo>
    var events: seq<Event>

    ghost predicate Valid()
      reads this, chessboard, chessboard.board, Men(chessboard.board), Tables(chessboard.board)
    {
      && chessboard.Valid()
      && (forall x :: x in initialPosition ==> OnBoard(x.At()))
      && (chessboard.curPiece != null ==>
            chessboard.curPiece in Men(chessboard.board) && OnBoard(chessboard.curPiece.At())
            && chessboard.board[chessboard.curPiece.row, chessboard.curPiece.col] == chessboard.curPiece)
    }

    // The game this controller shows.
    ghost function View(): (g: Game)
      requires Valid()
      reads this, chessboard, chessboard.board, Men(chessboard.board), Tables(chessboard.board)
      ensures SelectionOk(g)
    {
      Game(chessboard.Placed(), chessboard.kingPos, chessboard.turn, chessboard.status,
           if chessboard.curPiece == null then None else Some(chessboard.curPiece.At()), events)
    }

    constructor (initialPosition: seq<PieceInfo>)
      requires forall x :: x in initialPosition ==> OnBoard(x.At())
      ensures Valid() && fresh(chessboard) && fresh(chessboard.board)
      ensures this.initialPosition == initialPosition
      ensures View() == Start(initialPosition)
    {
      this.initialPosition := initialPosition;
      chessboard := new Board();
      events := [];
      new;
      chessboard.InitBoard(initialPosition);
    }

    method Reset()
      requires Valid()
      modifies chessboard
      ensures Valid() && fresh(chessboard.board) && fresh(Men(chessboard.board)) && chessboard.turnCnt == 0
      ensures View() == Step(Start(initialPosition), old(View()), Input.Reset)
    {
      chessboard.InitBoard(initialPosition);
      chessboard.turn := Red;
      chessboard.status := true;
      chessboard.curPiece := null;
      chessboard.turnCnt := 0;
    }

    method HandleResign()
      requires Valid()
      modifies chessboard`status
      ensures Valid()
      ensures View() == Step(Start(initialPosition), old(View()), Input.Resign)
    {
      chessboard.status := false;
    }

    method HandleBoardClick(row: int, col: int)
      requires Valid() && OnBoard(Sq(row, col))
      modifies this, chessboard, chessboard.board, Men(chessboard.board), Tables(chessboard.board)
      ensures Valid()
      ensures View() == Step(Start(initialPosition), old(View()), Click(Sq(row, col)))
    {
      var res := DecideClick(row, col);
      if res {
        ExecuteMove(row, col);
      }
    }

    // Everything handleBoardClick does short of calling executeMove, which the
    // network controller overrides; the result says whether it calls it.
    method DecideClick(row: int, col: int) returns (res: bool)
      requires Valid() && OnBoard(Sq(row, col))
      modifies chessboard`curPiece, Tables(chessboard.board)
      ensures Valid()
      ensures res == Accepts(old(View()), Sq(row, col))
      ensures View() == if res then old(View()) else Selected(old(View()), Sq(row, col))
    {
      if !chessboard.status {
        return false;
      }
      if chessboard.curPiece == null {
        var piece := chessboard.board[row, col];
        if piece != null && piece.color == chessboard.turn {
          chessboard.curPiece := piece;
        }
        return false;
      }
      if chessboard.curPiece.row == row && chessboard.curPiece.col == col {
        chessboard.curPiece := null;
        return false;
      }
      res := chessboard.MovePiece(chessboard.curPiece, row, col);
      if !res {
        var targetPiece := chessboard.board[row, col];
        if targetPiece != null && targetPiece.color == chessboard.turn {
          chessboard.curPiece := targetPiece;
        }
      }
    }

    method ExecuteMove(newRow: int, newCol: int)
      requires Valid() && chessboard.curPiece != null && OnBoard(Sq(newRow, newCol))
      modifies this, chessboard, chessboard.board, chessboard.curPiece, Tables(chessboard.board)
      ensures Valid() && chessboard.board == old(chessboard.board)
      ensures View() == Execute(old(View()), Sq(newRow, newCol))
    {
      var curRow, curCol := chessboard.curPiece.row, chessboard.curPiece.col;
      var moveInfo := MoveMade(Sq(curRow, curCol), Sq(newRow, newCol), chessboard.turn);
      Relocate(newRow, newCol);
      CheckGameStatus();
      Emit(moveInfo);
    }

    method Emit(e: Event)
      requires Valid()
      modifies this`events
      ensures Valid() && View() == old(View()).(events := old(events) + [e])
    {
      events := events + [e];
      assert Coherent(chessboard.board);
    }

    // The square, coordinate, cache and turn updates of executeMove.
    method Relocate(newRow: int, newCol: int)
      requires Valid() && chessboard.curPiece != null && OnBoard(Sq(newRow, newCol))
      modifies chessboard, chessboard.board, chessboard.curPiece
      ensures Valid() && chessboard.board == old(chessboard.board)
      ensures Tables(chessboard.board) <= old(Tables(chessboard.board))
      ensures View() == Moved(old(View()), Sq(newRow, newCol))
    {
      chessboard.Relocate(chessboard.curPiece, newRow, newCol);
      chessboard.UpdateKingCache(chessboard.curPiece, newRow, newCol);
      SwitchTurn();
      chessboard.curPiece := null;
    }

    // The look-ahead agrees with what the board shows once the move is made.
    method LookAheadThenMove(newRow: int, newCol: int) returns (foreseen: bool, actual: bool)
      requires Valid() && chessboard.curPiece != null && OnBoard(Sq(newRow, newCol))
      modifies this, chessboard, chessboard.board, chessboard.curPiece, Tables(chessboard.board)
      ensures foreseen == actual
    {
      var color := chessboard.curPiece.color;
      foreseen := chessboard.IsSuicideMove(chessboard.curPiece, newRow, newCol);
      Relocate(newRow, newCol);
      actual := chessboard.IsKingInDanger(color, chessboard.board, None);
    }

    // validateMove: pieces define no canMove, so only presence and colour are tested.
    method ValidateMove(from: Sq) returns (ok: bool)
      requires Valid() && OnBoard(from)
      ensures ok == Friendly(chessboard.Placed(), chessboard.turn, from)
    {
      var piece := chessboard.board[from.row, from.col];
      return piece != null && piece.color == chessboard.turn;
    }

    method SwitchTurn()
      modifies chessboard`turn
      ensures chessboard.turn == old(chessboard.turn).Other()
    {
      chessboard.turn := if chessboard.turn == Red then Black else Red;
    }

    method CheckGameStatus()
      requires Valid()
      modifies this`events, chessboard`status, Tables(chessboard.board)
      ensures Valid()
      ensures View() == Judged(old(View()))
    {
      var isCheck := chessboard.IsKingInDanger(chessboard.turn, chessboard.board, None);
      var winner := chessboard.CheckWinner();
      if winner.Some? {
        chessboard.status := false;
        Emit(GameOver(winner.value, if isCheck then Checkmate else Stalemate));
      }
    }
  }

  function Start(initialPosition: seq<PieceInfo>): Game {
    Game(PlaceAll(initialPosition), KingsOf(initialPosition), Red, true, None, [])
  }
}
