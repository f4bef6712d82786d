// The starting position, as client/src/core/config.js lists it and as
// client/src/pages/replay.js lists it again in another order.
module Opening {
  import opened Xiangqi
  import opened Boards

  function BackRankKind(col: int): Kind {
    if col == 0 || col == 8 then Chariot
    else if col == 1 || col == 7 then Horse
    else if col == 2 || col == 6 then Elephant
    else if col == 4 then General
    else Advisor
  }

  function BackRank(c: Color, row: int): seq<PieceInfo> {
    seq(9, col => PieceInfo(BackRankKind(col), c, row, col))
  }

  function Cannons(c: Color, row: int): seq<PieceInfo> {
    seq(2, i => PieceInfo(Cannon, c, row, 6 * i + 1))
  }

  function Pawns(c: Color, row: int): seq<PieceInfo> {
    seq(5, i => PieceInfo(Pawn, c, row, 2 * i))
  }

  // OPENING_POSITION of config.js after parsePosition.
  function OpeningPosition(): seq<PieceInfo> {
    BackRank(Red, 9) + Cannons(Red, 7) + Pawns(Red, 6) + Pawns(Black, 3) + Cannons(Black, 2) + BackRank(Black, 0)
  }

  // OPENING_POSITION of replay.js.
  function ReplayOpening(): seq<PieceInfo> {
    BackRank(Red, 9) + Cannons(Red, 7) + Pawns(Red, 6) + BackRank(Black, 0) + Cannons(Black, 2) + Pawns(Black, 3)
  }

  // The same position read square by square.
  function OpeningMan(s: Sq): Option<Man> {
    var c := if s.row <= 4 then Black else Red;
    var rank := if s.row <= 4 then s.row else 9 - s.row;
    if !OnBoard(s) then None
    else if rank == 0 then Some(Man(BackRankKind(s.col), c))
    else if rank == 2 && (s.col == 1 || s.col == 7) then Some(Man(Cannon, c))
    else if rank == 3 && s.col % 2 == 0 then Some(Man(Pawn, c))
    else None
  }

  // The opening as a diagram, Red's men in capitals.
  const DIAGRAM := [
    "rheagaehr",
    ".........",
    ".c.....c.",
    "p.p.p.p.p",
    ".........",
    ".........",
    "P.P.P.P.P",
    ".C.....C.",
    ".........",
    "RHEAGAEHR"]

  function Drawn(c: char): Option<Man> {
    match c
    case 'R' => Some(Man(Chariot, Red)) case 'r' => Some(Man(Chariot, Black))
    case 'H' => Some(Man(Horse, Red)) case 'h' => Some(Man(Horse, Black))
    case 'E' => Some(Man(Elephant, Red)) case 'e' => Some(Man(Elephant, Black))
    case 'A' => Some(Man(Advisor, Red)) case 'a' => Some(Man(Advisor, Black))
    case 'G' => Some(Man(General, Red)) case 'g' => Some(Man(General, Black))
    case 'C' => Some(Man(Cannon, Red)) case 'c' => Some(Man(Cannon, Black))
    case 'P' => Some(Man(Pawn, Red)) case 'p' => Some(Man(Pawn, Black))
    case _ => None
  }

  lemma OpeningIsTheDiagram(s: Sq)
    requires OnBoard(s)
    ensures |DIAGRAM| == 10 && |DIAGRAM[s.row]| == 9 && OpeningMan(s) == Drawn(DIAGRAM[s.row][s.col])
  {
  }

  ghost predicate Agrees(x: PieceInfo) {
    OpeningMan(x.At()) == Some(Man(x.kind, x.color))
  }

  // The listing has exactly the men of OpeningMan.
  ghost predicate IsOpening(situation: seq<PieceInfo>) {
    && (forall x :: x in situation ==> Agrees(x))
    && (forall x :: Agrees(x) ==> x in situation)
  }

  lemma OneSide(c: Color)
    ensures var (back, guns, front) := if c == Red then (9, 7, 6) else (0, 2, 3);
            forall x: PieceInfo :: x.color == c ==>
              (Agrees(x) <==> x in BackRank(c, back) || x in Cannons(c, guns) || x in Pawns(c, front))
  {
    var (back, guns, front) := if c == Red then (9, 7, 6) else (0, 2, 3);
    forall x: PieceInfo | x.color == c && Agrees(x)
      ensures x in BackRank(c, back) || x in Cannons(c, guns) || x in Pawns(c, front)
    {
      if x.row == back {
        assert x == BackRank(c, back)[x.col];
      } else if x.row == guns {
        assert x == Cannons(c, guns)[(x.col - 1) / 6];
      } else {
        assert x == Pawns(c, front)[x.col / 2];
      }
    }
  }

  lemma BothAreTheOpening()
    ensures IsOpening(OpeningPosition()) && IsOpening(ReplayOpening())
  {
    OneSide(Red);
    OneSide(Black);
    forall x: PieceInfo
      ensures x in OpeningPosition() <==> x in ReplayOpening()
      ensures Agrees(x) <==> x in OpeningPosition()
    {
    }
  }

  lemma OpeningSquare(situation: seq<PieceInfo>, s: Sq)
    requires IsOpening(situation)
    ensures s in PlaceAll(situation) <==> OpeningMan(s).Some?
    ensures s in PlaceAll(situation) ==> OpeningMan(s) == Some(PlaceAll(situation)[s])
  {
    if OpeningMan(s).Some? {
      var m := OpeningMan(s).value;
      var x := PieceInfo(m.kind, m.color, s.row, s.col);
      assert Agrees(x);
      ListedIsPlaced(situation, x);
    }
  }

  lemma OpeningSquares(situation: seq<PieceInfo>)
    requires IsOpening(situation)
    ensures forall s :: s in PlaceAll(situation) <==> OpeningMan(s).Some?
    ensures forall s :: s in PlaceAll(situation) ==> OpeningMan(s) == Some(PlaceAll(situation)[s])
  {
    forall s
      ensures s in PlaceAll(situation) <==> OpeningMan(s).Some?
      ensures s in PlaceAll(situation) ==> OpeningMan(s) == Some(PlaceAll(situation)[s])
    {
      OpeningSquare(situation, s);
    }
  }

  ghost predicate AtHome(kings: Kings) {
    forall c: Color :: c in kings && kings[c] == Sq(if c == Red then 9 else 0, 4)
  }

  lemma OpeningKing(situation: seq<PieceInfo>, c: Color)
    requires IsOpening(situation)
    ensures c in KingsOf(situation) && KingsOf(situation)[c] == Sq(if c == Red then 9 else 0, 4)
  {
    ListedIsPlaced(situation, ListedGeneral(situation, c));
    CachedAgrees(situation, c);
  }

  function ListedGeneral(situation: seq<PieceInfo>, c: Color): (x: PieceInfo)
    requires IsOpening(situation)
    ensures x in situation && x.kind == General && x.color == c
  {
    var x := PieceInfo(General, c, if c == Red then 9 else 0, 4);
    assert Agrees(x);
    x
  }

  lemma CachedAgrees(situation: seq<PieceInfo>, c: Color)
    requires IsOpening(situation) && c in KingsOf(situation)
    ensures KingsOf(situation)[c] == Sq(if c == Red then 9 else 0, 4)
  {
    var y := CachedIsListed(situation, c);
    assert Agrees(y);
  }

  // Where the caches point.
  lemma OpeningKings(situation: seq<PieceInfo>)
    requires IsOpening(situation)
    ensures AtHome(KingsOf(situation))
  {
    forall c: Color ensures c in KingsOf(situation) && KingsOf(situation)[c] == Sq(if c == Red then 9 else 0, 4) {
      OpeningKing(situation, c);
    }
  }

  // The two listings set up the same board and the same caches.
  lemma ListingsAgree()
    ensures PlaceAll(OpeningPosition()) == PlaceAll(ReplayOpening())
    ensures KingsOf(OpeningPosition()) == KingsOf(ReplayOpening())
  {
    BothAreTheOpening();
    SamePlacement(OpeningPosition(), ReplayOpening());
  }

  lemma SamePlacement(a: seq<PieceInfo>, b: seq<PieceInfo>)
    requires IsOpening(a) && IsOpening(b)
    ensures PlaceAll(a) == PlaceAll(b) && KingsOf(a) == KingsOf(b)
  {
    OpeningSquares(a);
    OpeningSquares(b);
    OpeningKings(a);
    OpeningKings(b);
  }
}
