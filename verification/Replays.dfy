// The other two places that apply a move list: the spectator's catch-up loop
// (client/src/pages/game/spectateManager.js) and the replay page
// (client/src/pages/replay.js).  Neither maintains the general caches; what they
// show is the placement.
module Replays {
  import opened Xiangqi
  import opened Boards
  import opened Games
  import opened Matches
  import opened Opening
  import Controllers
  import Networks
  import Logs
  import Safety

  // One entry of the move list the server prints.
  datatype Entry = Entry(from: Sq, to: Sq)

  // ----- Spectator -----

  // Placement, side to move and number of moves applied.
  datatype Seen = Seen(p: Placement, turn: Color, turnCnt: int)

  predicate IsValidMove(move: Entry) {
    OnBoard(move.from) && OnBoard(move.to)
  }

  function SpectateStep(v: Seen, move: Entry): Seen {
    if !IsValidMove(move) || move.from !in v.p then v
    else Seen(Shift(v.p, v.p[move.from], move.from, move.to), v.turn.Other(), v.turnCnt + 1)
  }

  function Spectate(v: Seen, moves: seq<Entry>): Seen {
    if moves == [] then v
    else SpectateStep(Spectate(v, moves[..|moves| - 1]), moves[|moves| - 1])
  }

  class SpectateManager {
    const controller: Controllers.GameController

    constructor (controller: Controllers.GameController)
      ensures this.controller == controller
    {
      this.controller := controller;
    }

    ghost function View(): Seen
      requires controller.Valid()
      reads controller, controller.chessboard, controller.chessboard.board,
            Men(controller.chessboard.board), Tables(controller.chessboard.board)
    {
      Seen(controller.chessboard.Placed(), controller.chessboard.turn, controller.chessboard.turnCnt)
    }

    // The board is set up afresh, then every listed move is applied.
    method JoinSpectate(moves: seq<Entry>)
      requires controller.Valid()
      modifies controller.chessboard
      ensures controller.Valid()
      ensures View() == Spectate(Seen(PlaceAll(controller.initialPosition), Red, 0), moves)
    {
      controller.Reset();
      ghost var start := View();
      for i := 0 to |moves|
        invariant controller.Valid() && controller.chessboard.curPiece == null
        invariant fresh(controller.chessboard.board) && fresh(Men(controller.chessboard.board))
        invariant View() == Spectate(start, moves[..i])
      {
        assert moves[..i + 1][..i] == moves[..i];
        CatchUpOne(moves[i]);
      }
      assert moves[..|moves|] == moves;
    }

    // The loop body.
    method CatchUpOne(move: Entry)
      requires controller.Valid() && controller.chessboard.curPiece == null
      modifies controller.chessboard`turn, controller.chessboard`turnCnt,
               controller.chessboard.board, Men(controller.chessboard.board)
      ensures controller.Valid() && controller.chessboard.curPiece == null
      ensures Men(controller.chessboard.board) <= old(Men(controller.chessboard.board))
      ensures View() == SpectateStep(old(View()), move)
    {
      if !IsValidMove(move) {
        return;
      }
      var board := controller.chessboard;
      var piece := board.board[move.from.row, move.from.col];
      if piece != null {
        assert piece.At() == move.from;
        board.Relocate(piece, move.to.row, move.to.col);
        board.turn := if board.turn == Red then Black else Red;
        board.turnCnt := board.turnCnt + 1;
      }
    }
  }

  // ----- Replay -----

  // Rows 0..9 exist; a column key that does not is simply not found, and an
  // assignment to one creates it.  A missing row throws, and the move is skipped.
  function ReplayStep(p: Placement, move: Entry): Placement {
    if 0 <= move.from.row <= 9 && move.from in p && 0 <= move.to.row <= 9
    then p[move.to := p[move.from]] - {move.from}
    else p
  }

  function Replay(p: Placement, moves: seq<Entry>): Placement {
    if moves == [] then p
    else ReplayStep(Replay(p, moves[..|moves| - 1]), moves[|moves| - 1])
  }

  function Clamp(index: int, n: nat): int {
    if index < -1 then -1 else if index >= n then n - 1 else index
  }

  datatype Nav = First | Prev | Next | Last | Go(index: int)

  // The index each control leads to, in a list of n moves.
  function Navigate(i: int, n: nat, nav: Nav): int {
    match nav
    case First => -1
    case Prev => Clamp(i - 1, n)
    case Next => Clamp(i + 1, n)
    case Last => n - 1
    case Go(k) => Clamp(k, n)
  }

  function NavigateAll(i: int, n: nat, navs: seq<Nav>): int {
    if navs == [] then i else Navigate(NavigateAll(i, n, navs[..|navs| - 1]), n, navs[|navs| - 1])
  }

  class ReplayPage {
    const moves: seq<Entry>
    var board: Placement
    var currentMoveIndex: int

    // The page shows the opening followed by the first currentMoveIndex + 1 moves.
    ghost predicate Valid()
      reads this
    {
      && -1 <= currentMoveIndex < |moves|
      && board == Replay(PlaceAll(ReplayOpening()), moves[..currentMoveIndex + 1])
    }

    constructor (moves: seq<Entry>)
      ensures Valid() && currentMoveIndex == -1 && this.moves == moves
    {
      this.moves := moves;
      board := PlaceAll(ReplayOpening());
      currentMoveIndex := -1;
    }

    method GoToMove(index: int)
      modifies this
      ensures Valid() && currentMoveIndex == Clamp(index, |moves|)
    {
      var target := index;
      if target < -1 {
        target := -1;
      }
      if target >= |moves| {
        target := |moves| - 1;
      }
      board := PlaceAll(ReplayOpening());
      var i := 0;
      while i <= target && i < |moves|
        invariant 0 <= i <= target + 1
        invariant board == Replay(PlaceAll(ReplayOpening()), moves[..i])
      {
        var move := moves[i];
        assert moves[..i + 1][..i] == moves[..i];
        if 0 <= move.from.row <= 9 && move.from in board {
          if 0 <= move.to.row <= 9 {
            board := board[move.to := board[move.from]];
            board := board - {move.from};
          }
        }
        i := i + 1;
      }
      currentMoveIndex := target;
    }

    method GoToFirst()
      modifies this
      ensures Valid() && currentMoveIndex == -1
    {
      GoToMove(-1);
    }

    method GoToPrev()
      requires Valid()
      modifies this
      ensures Valid() && currentMoveIndex == Clamp(old(currentMoveIndex) - 1, |moves|)
    {
      if currentMoveIndex >= 0 {
        GoToMove(currentMoveIndex - 1);
      }
    }

    method GoToNext()
      requires Valid()
      modifies this
      ensures Valid() && currentMoveIndex == Clamp(old(currentMoveIndex) + 1, |moves|)
    {
      if currentMoveIndex < |moves| - 1 {
        GoToMove(currentMoveIndex + 1);
      }
    }

    method GoToLast()
      modifies this
      ensures Valid() && currentMoveIndex == |moves| - 1
    {
      GoToMove(|moves| - 1);
    }

    // Whatever controls are used, the page shows the prefix of the index they lead to.
    method Use(navs: seq<Nav>)
      requires Valid()
      modifies this
      ensures Valid() && currentMoveIndex == NavigateAll(old(currentMoveIndex), |moves|, navs)
    {
      for i := 0 to |navs|
        invariant Valid() && currentMoveIndex == NavigateAll(old(currentMoveIndex), |moves|, navs[..i])
      {
        assert navs[..i + 1][..i] == navs[..i];
        match navs[i] {
          case First => GoToFirst();
          case Prev => GoToPrev();
          case Next => GoToNext();
          case Last => GoToLast();
          case Go(k) => GoToMove(k);
        }
      }
      assert navs[..|navs|] == navs;
    }
  }

  // ----- Navigation -----

  // Stepping forward k times from the start is the same as jumping there.
  lemma {:induction false} SteppingIsJumping(n: nat, k: nat)
    ensures NavigateAll(-1, n, seq(k, _ => Next)) == Navigate(-1, n, Go(k - 1))
  {
    if k > 0 {
      SteppingIsJumping(n, k - 1);
      assert seq(k, _ => Next)[..k - 1] == seq(k - 1, _ => Next);
    }
  }

  lemma NextThenPrev(i: int, n: nat)
    requires -1 <= i < n
    ensures NavigateAll(i, n, [Next, Prev]) == i <==> i < n - 1 || n == 0
  {
    assert [Next, Prev][..1] == [Next] && [Next][..0] == [];
    assert NavigateAll(i, n, [Next]) == Navigate(i, n, Next);
  }

  // Stepping often enough reaches either end, from anywhere.
  lemma {:induction false} SteppingEnds(i: int, n: nat, k: nat)
    requires -1 <= i < n || i == -1
    ensures k >= i + 1 ==> NavigateAll(i, n, seq(k, _ => Prev)) == Navigate(i, n, First)
    ensures k >= n - 1 - i ==> NavigateAll(i, n, seq(k, _ => Next)) == Navigate(i, n, Last)
  {
    Stepped(i, n, k);
  }

  lemma {:induction false} Stepped(i: int, n: nat, k: nat)
    requires -1 <= i < n || i == -1
    ensures NavigateAll(i, n, seq(k, _ => Prev)) == if k > i then -1 else i - k
    ensures NavigateAll(i, n, seq(k, _ => Next)) == if i + k >= n then n - 1 else i + k
  {
    if k > 0 {
      Stepped(i, n, k - 1);
      assert seq(k, _ => Prev)[..k - 1] == seq(k - 1, _ => Prev);
      assert seq(k, _ => Next)[..k - 1] == seq(k - 1, _ => Next);
    }
  }

  // ----- Entries that cannot be applied -----

  lemma {:induction false} SpectateSplit(v: Seen, a: seq<Entry>, b: seq<Entry>)
    ensures Spectate(v, a + b) == Spectate(Spectate(v, a), b)
  {
    if b == [] {
      assert a + b == a;
    } else {
      assert (a + b)[..|a + b| - 1] == a + b[..|b| - 1];
      SpectateSplit(v, a, b[..|b| - 1]);
    }
  }

  // An entry with a square off the board, or from an empty one, might as well not be in
  // the list; every other moves a man, passes the turn and is counted.
  lemma SpectatorSkipsExactly(v: Seen, a: seq<Entry>, e: Entry, b: seq<Entry>)
    ensures var seen := Spectate(v, a);
            Spectate(v, a + [e]) == seen <==> !OnBoard(e.from) || !OnBoard(e.to) || e.from !in seen.p
    ensures Spectate(v, a + [e]) == Spectate(v, a) ==> Spectate(v, a + [e] + b) == Spectate(v, a + b)
    ensures var seen, seen' := Spectate(v, a), Spectate(v, a + [e]);
            seen' != seen ==> seen'.turnCnt == seen.turnCnt + 1 && seen'.turn == seen.turn.Other()
  {
    SpectateSplit(v, a, [e]);
    SpectateSplit(v, a + [e], b);
    SpectateSplit(v, a, b);
    assert [e][..0] == [];
  }

  // The replay page skips by rows only: a man sent to a column that does not exist goes
  // where the page does not draw him.
  lemma ReplaySkipsByRow(p: Placement, e: Entry)
    requires forall s :: s in p ==> OnBoard(s)
    ensures (e.from !in p || !(0 <= e.to.row <= 9)) ==> ReplayStep(p, e) == p
    ensures e.from in p && 0 <= e.to.row <= 9 && e.to != e.from ==>
              e.from !in ReplayStep(p, e) && e.to in ReplayStep(p, e) && ReplayStep(p, e)[e.to] == p[e.from]
    ensures e.from in p && e.to == e.from ==> ReplayStep(p, e) == p - {e.from}
  {
  }

  // ----- The three appliers -----

  // The move list the server prints for its log.
  function Printed(log: seq<MoveRec>): (moves: seq<Entry>)
    ensures |moves| == |log| && forall i :: 0 <= i < |log| ==> moves[i] == Entry(log[i].from, log[i].to)
  {
    seq(|log|, i requires 0 <= i < |log| => Entry(log[i].from, log[i].to))
  }

  // On the board, the spectator's step is the live one for every move.
  lemma SpectatorStepIsLive(g: Game, turn: Color, n: int, move: Entry)
    requires IsValidMove(move)
    ensures SpectateStep(Seen(g.p, turn, n), move).p == Networks.Force(g, move.from, move.to).p
  {
  }

  // Replay writes the target before it clears the origin, so it agrees with the
  // live board exactly when the two differ.
  lemma ReplayStepIsLive(p: Placement, move: Entry)
    requires IsValidMove(move) && move.from in p
    ensures ReplayStep(p, move) == Shift(p, p[move.from], move.from, move.to) <==> move.from != move.to
  {
    assert move.to in Shift(p, p[move.from], move.from, move.to);
  }

  // For every legally played game and every prefix of it, the live clients, the
  // spectator's catch-up and the replay page show the same placement.
  lemma {:induction false} AppliersAgree(log: seq<MoveRec>, n: nat)
    requires Logs.LogOk(Safety.Opened(), log) && n <= |log|
    ensures var live := Logs.Fold(Safety.Opened(), log[..n]);
            var seen := Spectate(Seen(PlaceAll(OpeningPosition()), Red, 0), Printed(log)[..n]);
            && seen == Seen(live.p, live.turn, n)
            && Replay(PlaceAll(ReplayOpening()), Printed(log)[..n]) == live.p
  {
    if n == 0 {
      ListingsAgree();
    } else {
      AppliersAgree(log, n - 1);
      var moves := Printed(log);
      assert moves[..n][..n - 1] == moves[..n - 1];
      assert Logs.EntryOk(Safety.Opened(), log, n - 1);
      Logs.FoldStep(Safety.Opened(), log, n - 1);
      Logs.ForceTurn(Logs.Fold(Safety.Opened(), log[..n - 1]), log[n - 1].from, log[n - 1].to);
      ReplayStepIsLive(Logs.Fold(Safety.Opened(), log[..n - 1]).p, moves[n - 1]);
    }
  }
}
