// client/src/core/board.js: the mutable board, its cached general positions,
// the clone-and-simulate self-check test and the exhaustive searches.
module Boards {
  import opened Xiangqi
  import opened Pieces

  ghost function Men(g: Grid): set<ChessPiece>
    reads g
  {
    set i, j | 0 <= i < g.Length0 && 0 <= j < g.Length1 && g[i, j] != null :: g[i, j]
  }

  ghost function Tables(g: Grid): set<array<Offset>>
    reads g
  {
    set i, j | 0 <= i < g.Length0 && 0 <= j < g.Length1 && g[i, j] != null :: g[i, j].dir
  }

  // Every piece on the grid knows the square it stands on.
  ghost predicate Coherent(g: Grid)
    reads g, Men(g), Tables(g)
  {
    && Sized(g)
    && forall i, j :: 0 <= i <= 9 && 0 <= j <= 8 && g[i, j] != null ==>
         g[i, j].row == i && g[i, j].col == j && g[i, j].Shaped()
  }

  // Scan order of the nested loops.
  predicate Before(s: Sq, i: int, j: int) {
    s.row < i || (s.row == i && s.col < j)
  }

  // s holds an enemy of c that reaches k.
  ghost predicate Attacker(p: Placement, c: Color, s: Sq, k: Sq) {
    s in p && p[s].color == c.Other() && Reaches(p, p[s], s, k)
  }

  // f holds a man of c that has a legal move.
  ghost predicate Mover(p: Placement, kings: Kings, c: Color, f: Sq) {
    f in p && p[f].color == c && CanMove(p, kings, f)
  }

  // f has a legal target among the first n squares of row r.
  ghost predicate LegalInRow(p: Placement, kings: Kings, f: Sq, r: int, n: int) {
    exists c :: 0 <= c < n && Legal(p, kings, f, Sq(r, c))
  }

  lemma OneMoreColumn(p: Placement, kings: Kings, f: Sq, r: int, n: nat)
    ensures LegalInRow(p, kings, f, r, n + 1) <==> LegalInRow(p, kings, f, r, n) || Legal(p, kings, f, Sq(r, n))
  {
  }

  // One row of a starting position: type, colour, row, column.
  datatype PieceInfo = PieceInfo(kind: Kind, color: Color, row: int, col: int) {
    function At(): Sq {
      Sq(row, col)
    }
  }

  function PlaceAll(situation: seq<PieceInfo>): (p: Placement)
    ensures forall s :: s in p ==> exists x :: x in situation && s == x.At() && p[s] == Man(x.kind, x.color)
  {
    if situation == [] then map[] else
      var last := situation[|situation| - 1];
      PlaceAll(situation[..|situation| - 1])[last.At() := Man(last.kind, last.color)]
  }

  function KingsOf(situation: seq<PieceInfo>): Kings {
    if situation == [] then map[] else
      var last := situation[|situation| - 1];
      KingsAfter(KingsOf(situation[..|situation| - 1]), Man(last.kind, last.color), last.At())
  }

  lemma {:induction false} CachedIsListed(situation: seq<PieceInfo>, c: Color) returns (x: PieceInfo)
    requires c in KingsOf(situation)
    ensures x in situation && x.kind == General && x.color == c && KingsOf(situation)[c] == x.At()
  {
    x := situation[|situation| - 1];
    if x.kind != General || x.color != c {
      x := CachedIsListed(situation[..|situation| - 1], c);
    }
  }

  lemma {:induction false} ListedIsPlaced(situation: seq<PieceInfo>, x: PieceInfo)
    requires x in situation
    ensures x.At() in PlaceAll(situation)
    ensures x.kind == General ==> x.color in KingsOf(situation)
  {
    var n := |situation| - 1;
    if x != situation[n] {
      assert x in situation[..n];
      ListedIsPlaced(situation[..n], x);
    }
  }

  class Board {
    var board: Grid
    var turn: Color
    var status: bool
    var curPiece: ChessPiece?
    var turnCnt: int
    var kingPos: Kings

    ghost predicate Valid()
      reads this, board, Men(board), Tables(board)
    {
      Coherent(board) && forall c :: c in kingPos ==> OnBoard(kingPos[c])
    }

    ghost function Placed(): Placement
      requires Sized(board)
      reads this, board
    {
      Place(board)
    }

    method CopyBoard(original: Grid) returns (copy: Grid)
      requires Sized(original)
      ensures Sized(copy) && fresh(copy)
      ensures forall i, j :: 0 <= i <= 9 && 0 <= j <= 8 ==> copy[i, j] == original[i, j]
    {
      copy := new ChessPiece?[10, 9];
      for i := 0 to 10
        invariant forall r, c :: 0 <= r < i && 0 <= c <= 8 ==> copy[r, c] == original[r, c]
      {
        for j := 0 to 9
          invariant forall r, c :: 0 <= r < i && 0 <= c <= 8 ==> copy[r, c] == original[r, c]
          invariant forall c :: 0 <= c < j ==> copy[i, c] == original[i, c]
        {
          copy[i, j] := original[i, j];
        }
      }
    }

    method IsKingInDanger(color: Color, boardState: Grid, kingPosOverride: Option<Sq>) returns (danger: bool)
      requires Coherent(boardState)
      requires forall c :: c in kingPos ==> OnBoard(kingPos[c])
      requires kingPosOverride.Some? ==> OnBoard(kingPosOverride.value)
      modifies Tables(boardState)
      ensures Coherent(boardState)
      ensures danger <==>
        if kingPosOverride.Some? then Attacked(Place(boardState), color, kingPosOverride.value)
        else InDanger(Place(boardState), kingPos, color)
    {
      if kingPosOverride.None? && color !in kingPos {
        return true;
      }
      var k := if kingPosOverride.Some? then kingPosOverride.value else kingPos[color];
      danger := AnyAttacker(color, k, boardState);
    }

    // The nested loops of isKingInDanger.
    method AnyAttacker(color: Color, k: Sq, g: Grid) returns (danger: bool)
      requires Coherent(g) && OnBoard(k)
      modifies Tables(g)
      ensures Coherent(g)
      ensures danger <==> Attacked(Place(g), color, k)
    {
      ghost var p := Place(g);
      ghost var tables := Tables(g);
      for i := 0 to 10
        invariant Coherent(g)
        invariant forall s :: Attacker(p, color, s, k) ==> !Before(s, i, 0)
      {
        for j := 0 to 9
          invariant Coherent(g)
          invariant forall s :: Attacker(p, color, s, k) ==> !Before(s, i, j)
        {
          var hit := IsAttacker(color, i, j, k, g);
          if hit {
            assert Attacker(p, color, Sq(i, j), k);
            return true;
          }
        }
      }
      forall s | s in p ensures !Attacker(p, color, s, k) {
        assert Before(s, 10, 0);
      }
      return false;
    }

    method IsAttacker(color: Color, i: int, j: int, k: Sq, g: Grid) returns (hit: bool)
      requires Coherent(g) && OnBoard(k) && OnBoard(Sq(i, j))
      modifies Tables(g)
      ensures Coherent(g)
      ensures hit <==> Attacker(Place(g), color, Sq(i, j), k)
    {
      var enemyColor := if color == Red then Black else Red;
      var enemy := g[i, j];
      hit := false;
      if enemy != null && enemy.color == enemyColor {
        assert enemy.dir in Tables(g);
        hit := enemy.ValidateMove(k.row, k.col, g);
      }
    }

    // ----- Setting up -----

    constructor ()
      ensures Sized(board) && fresh(board)
      ensures turn == Red && status && curPiece == null && turnCnt == 0 && kingPos == map[]
    {
      board := new ChessPiece?[10, 9]((_, _) => null);
      turn, status, curPiece, turnCnt, kingPos := Red, true, null, 0, map[];
    }

    method InitBoard(situation: seq<PieceInfo>)
      requires forall x :: x in situation ==> OnBoard(x.At())
      modifies this`board, this`kingPos
      ensures Valid() && fresh(board) && fresh(Men(board))
      ensures Placed() == PlaceAll(situation)
      ensures kingPos == KingsOf(situation)
    {
      board := new ChessPiece?[10, 9]((_, _) => null);
      kingPos := map[];
      for n := 0 to |situation|
        invariant Valid() && fresh(board) && fresh(Men(board))
        invariant Placed() == PlaceAll(situation[..n]) && kingPos == KingsOf(situation[..n])
      {
        assert situation[..n + 1][..n] == situation[..n];
        PlacePiece(situation[n]);
      }
      assert situation[..|situation|] == situation;
    }

    method PlacePiece(pieceInfo: PieceInfo)
      requires Valid() && OnBoard(pieceInfo.At())
      modifies this`kingPos, board
      ensures Valid() && fresh(Men(board) - old(Men(board)))
      ensures Placed() == old(Placed())[pieceInfo.At() := Man(pieceInfo.kind, pieceInfo.color)]
      ensures kingPos == KingsAfter(old(kingPos), Man(pieceInfo.kind, pieceInfo.color), pieceInfo.At())
    {
      var piece := new ChessPiece(pieceInfo.color, pieceInfo.kind, pieceInfo.col, pieceInfo.row);
      Put(piece);
      if pieceInfo.kind == General {
        kingPos := kingPos[pieceInfo.color := pieceInfo.At()];
      }
    }

    // Writes a piece to the square it believes to stand on.
    method Put(piece: ChessPiece)
      requires Valid() && OnBoard(piece.At()) && piece.Shaped()
      modifies board
      ensures Valid() && Men(board) <= old(Men(board)) + {piece}
      ensures Placed() == old(Placed())[piece.At() := piece.AsMan()]
    {
      ghost var p := Placed();
      board[piece.row, piece.col] := piece;
      WrittenGrid(board, p, piece.AsMan(), piece.At(), piece.At());
    }

    method UpdateKingCache(piece: ChessPiece, newRow: int, newCol: int)
      modifies this`kingPos
      ensures kingPos == KingsAfter(old(kingPos), piece.AsMan(), Sq(newRow, newCol))
    {
      if piece.kind == General {
        kingPos := kingPos[piece.color := Sq(newRow, newCol)];
      }
    }

    // The two square writes of a move, then the piece's own coordinates.
    method Relocate(piece: ChessPiece, newRow: int, newCol: int)
      requires Valid() && OnBoard(piece.At()) && OnBoard(Sq(newRow, newCol))
      requires board[piece.row, piece.col] == piece
      modifies board, piece
      ensures Valid() && Tables(board) <= old(Tables(board)) && Men(board) <= old(Men(board))
      ensures Placed() == Shift(old(Placed()), piece.AsMan(), old(piece.At()), Sq(newRow, newCol))
    {
      ghost var f, p := piece.At(), Placed();
      WriteSquares(piece, newRow, newCol);
      WrittenGrid(board, p, piece.AsMan(), f, Sq(newRow, newCol));
    }

    method WriteSquares(piece: ChessPiece, newRow: int, newCol: int)
      requires Sized(board) && OnBoard(piece.At()) && OnBoard(Sq(newRow, newCol))
      modifies board, piece`row, piece`col
      ensures board[newRow, newCol] == piece && piece.At() == Sq(newRow, newCol)
      ensures old(piece.At()) != piece.At() ==> board[old(piece.row), old(piece.col)] == null
      ensures forall i, j :: 0 <= i <= 9 && 0 <= j <= 8 && Sq(i, j) != old(piece.At()) && Sq(i, j) != piece.At() ==>
                board[i, j] == old(board[i, j])
    {
      var curRow, curCol := piece.row, piece.col;
      board[curRow, curCol] := null;
      board[newRow, newCol] := piece;
      piece.row := newRow;
      piece.col := newCol;
    }

    lemma WrittenGrid(g: Grid, p: Placement, m: Man, f: Sq, t: Sq)
      requires Sized(g) && OnBoard(f) && OnBoard(t) && forall s :: s in p ==> OnBoard(s)
      requires g[t.row, t.col] != null && g[t.row, t.col].AsMan() == m
      requires f != t ==> g[f.row, f.col] == null
      requires forall i, j :: 0 <= i <= 9 && 0 <= j <= 8 && Sq(i, j) != f && Sq(i, j) != t ==>
                 (g[i, j] != null <==> Sq(i, j) in p) && (g[i, j] != null ==> g[i, j].AsMan() == p[Sq(i, j)])
      ensures Place(g) == Shift(p, m, f, t)
    {
      forall s | OnBoard(s) ensures s in Place(g) <==> s in Shift(p, m, f, t) {
        assert s == Sq(s.row, s.col);
      }
    }

    // ----- The self-check test -----

    // The copied grid with the clone on its new square.
    method Simulate(piece: ChessPiece, newRow: int, newCol: int) returns (temp: Grid)
      requires Valid() && OnBoard(piece.At()) && piece.Shaped() && OnBoard(Sq(newRow, newCol))
      ensures fresh(temp) && Coherent(temp)
      ensures Tables(temp) <= Tables(board) + {piece.dir}
      ensures Place(temp) == Shift(Placed(), piece.AsMan(), piece.At(), Sq(newRow, newCol))
    {
      temp := CopyBoard(board);
      var oldRow, oldCol := piece.row, piece.col;
      var clonePiece := new ChessPiece.Clone(piece);
      clonePiece.row := newRow;
      clonePiece.col := newCol;
      temp[oldRow, oldCol] := null;
      temp[newRow, newCol] := clonePiece;
      MovedGrid(board, temp, clonePiece, piece.At());
    }

    // A grid that differs from g in the two squares of a move, whose moved piece knows its new square.
    lemma MovedGrid(g: Grid, temp: Grid, moved: ChessPiece, f: Sq)
      requires Coherent(g) && Sized(temp) && OnBoard(f) && OnBoard(moved.At()) && moved.Shaped()
      requires forall i, j :: 0 <= i <= 9 && 0 <= j <= 8 ==>
                 temp[i, j] == if Sq(i, j) == moved.At() then moved else if Sq(i, j) == f then null else g[i, j]
      ensures Coherent(temp)
      ensures Tables(temp) <= Tables(g) + {moved.dir}
      ensures Place(temp) == Shift(Place(g), moved.AsMan(), f, moved.At())
    {
      var p := Shift(Place(g), moved.AsMan(), f, moved.At());
      forall s | OnBoard(s) ensures s in Place(temp) <==> s in p {
        assert temp[s.row, s.col] != null <==> s in p;
      }
      forall s | s in p ensures Place(temp)[s] == p[s] {
      }
    }

    method IsSuicideMove(piece: ChessPiece, newRow: int, newCol: int) returns (suicide: bool)
      requires Valid() && OnBoard(piece.At()) && piece.Shaped() && OnBoard(Sq(newRow, newCol))
      modifies Tables(board), piece.dir
      ensures Valid() && piece.Shaped()
      ensures suicide <==> Suicide(Placed(), kingPos, piece.AsMan(), piece.At(), Sq(newRow, newCol))
    {
      var temp := Simulate(piece, newRow, newCol);
      var simKingPos := if piece.color in kingPos then Some(kingPos[piece.color]) else None;
      if piece.kind == General {
        simKingPos := Some(Sq(newRow, newCol));
      }
      label before:
      suicide := IsKingInDanger(piece.color, temp, simKingPos);
      forall q: ChessPiece | q in Men(board) + {piece} ensures q.Shaped() {
        if q.dir in old@before(Tables(temp)) {
          var i, j :| 0 <= i <= 9 && 0 <= j <= 8 && temp[i, j] != null && temp[i, j].dir == q.dir;
          assert temp[i, j].Shaped();
        }
      }
    }

    method MovePiece(piece: ChessPiece, newRow: int, newCol: int) returns (ok: bool)
      requires Valid() && OnBoard(piece.At())
      modifies Tables(board)
      ensures Valid()
      ensures ok <==> board[piece.row, piece.col] == piece && Legal(Placed(), kingPos, piece.At(), Sq(newRow, newCol))
    {
      if newRow < 0 || newRow > 9 || newCol < 0 || newCol > 8 {
        return false;
      }
      if board[piece.row, piece.col] != piece {
        return false;
      }
      assert piece.dir in Tables(board);
      var valid := piece.ValidateMove(newRow, newCol, board);
      if !valid {
        return false;
      }
      var suicide := IsSuicideMove(piece, newRow, newCol);
      if suicide {
        return false;
      }
      return true;
    }

    // ----- The exhaustive search -----

    // The body of the four nested loops.
    method IsLegalTarget(piece: ChessPiece, r: int, c: int) returns (legal: bool)
      requires Valid() && OnBoard(piece.At()) && board[piece.row, piece.col] == piece && OnBoard(Sq(r, c))
      modifies Tables(board)
      ensures Valid() && Placed() == old(Placed())
      ensures legal <==> Legal(Placed(), kingPos, piece.At(), Sq(r, c))
    {
      assert piece.dir in Tables(board);
      legal := false;
      var valid := piece.ValidateMove(r, c, board);
      if valid {
        var suicide := IsSuicideMove(piece, r, c);
        if !suicide {
          legal := true;
        }
      }
    }

    // The innermost loop: the targets of one piece in one row.
    method HasValidMoveIntoRow(piece: ChessPiece, r: int) returns (found: bool)
      requires Valid() && OnBoard(piece.At()) && board[piece.row, piece.col] == piece && 0 <= r <= 9
      modifies Tables(board)
      ensures Valid() && Placed() == old(Placed())
      ensures found <==> LegalInRow(Placed(), kingPos, piece.At(), r, 9)
    {
      ghost var p, f := Placed(), piece.At();
      for c := 0 to 9
        invariant Valid() && Placed() == p
        invariant !LegalInRow(p, kingPos, f, r, c)
      {
        OneMoreColumn(p, kingPos, f, r, c);
        found := IsLegalTarget(piece, r, c);
        if found {
          return;
        }
      }
      found := false;
    }

    // The two inner loops: every target of one piece.
    method HasValidMoveFrom(piece: ChessPiece) returns (found: bool)
      requires Valid() && OnBoard(piece.At()) && board[piece.row, piece.col] == piece
      modifies Tables(board)
      ensures Valid() && Placed() == old(Placed())
      ensures found <==> CanMove(Placed(), kingPos, piece.At())
    {
      ghost var p, f := Placed(), piece.At();
      for r := 0 to 10
        invariant Valid() && Placed() == p
        invariant forall t :: Legal(p, kingPos, f, t) ==> r <= t.row
      {
        found := HasValidMoveIntoRow(piece, r);
        if found {
          return;
        }
        assert forall t :: Legal(p, kingPos, f, t) ==> t == Sq(t.row, t.col);
      }
      found := false;
    }

    method HasValidMoves(color: Color) returns (found: bool)
      requires Valid()
      modifies Tables(board)
      ensures Valid()
      ensures found <==> HasLegal(Placed(), kingPos, color)
    {
      ghost var p := Placed();
      for i := 0 to 10
        invariant Valid() && Placed() == p
        invariant forall f :: Mover(p, kingPos, color, f) ==> !Before(f, i, 0)
      {
        for j := 0 to 9
          invariant Valid() && Placed() == p
          invariant forall f :: Mover(p, kingPos, color, f) ==> !Before(f, i, j)
        {
          found := IsMover(color, i, j);
          if found {
            assert Mover(p, kingPos, color, Sq(i, j));
            return;
          }
        }
      }
      forall f | f in p ensures !Mover(p, kingPos, color, f) {
        assert Before(f, 10, 0);
      }
      found := false;
    }

    // The body of the two outer loops.
    method IsMover(color: Color, i: int, j: int) returns (found: bool)
      requires Valid() && OnBoard(Sq(i, j))
      modifies Tables(board)
      ensures Valid() && Placed() == old(Placed())
      ensures found <==> Mover(Placed(), kingPos, color, Sq(i, j))
    {
      var piece := board[i, j];
      found := false;
      if piece != null && piece.color == color {
        assert Sq(i, j) == piece.At();
        found := HasValidMoveFrom(piece);
      }
    }

    // The opponent of the side to move, when that side has no legal move.
    method CheckWinner() returns (winner: Option<Color>)
      requires Valid()
      modifies Tables(board)
      ensures Valid()
      ensures winner == if HasLegal(Placed(), kingPos, turn) then None else Some(turn.Other())
    {
      var any := HasValidMoves(turn);
      if !any {
        return Some(if turn == Red then Black else Red);
      }
      return None;
    }
  }
}
