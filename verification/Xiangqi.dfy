// The rules of Xiangqi as the client states them, on values: a placement is a
// map from occupied squares to (kind, colour).  Nothing here mentions objects,
// loops or offset tables; Pieces.dfy and Boards.dfy are proved against it.
module Xiangqi {
  datatype Option<+T> = None | Some(value: T)

  datatype Color = Red | Black {
    function Other(): Color {
      if this == Red then Black else Red
    }
  }

  datatype Kind = Chariot | Horse | Elephant | Advisor | General | Cannon | Pawn

  datatype Man = Man(kind: Kind, color: Color)

  // Row 0 is Black's back rank, row 9 is Red's.
  datatype Sq = Sq(row: int, col: int)

  type Placement = map<Sq, Man>

  predicate OnBoard(s: Sq) {
    0 <= s.row <= 9 && 0 <= s.col <= 8
  }

  function Squares(): (all: set<Sq>)
    ensures forall s :: s in all <==> OnBoard(s)
  {
    set r, c | 0 <= r <= 9 && 0 <= c <= 8 :: Sq(r, c)
  }

  // ----- Geometry -----

  predicate SameLine(f: Sq, t: Sq) {
    f.row == t.row || f.col == t.col
  }

  // s lies strictly between f and t on a common row or column.
  predicate Between(f: Sq, s: Sq, t: Sq) {
    || (f.row == s.row == t.row && (f.col < s.col < t.col || t.col < s.col < f.col))
    || (f.col == s.col == t.col && (f.row < s.row < t.row || t.row < s.row < f.row))
  }

  ghost predicate Clear(p: Placement, f: Sq, t: Sq) {
    forall s :: s in p ==> !Between(f, s, t)
  }

  // s is the one occupied square between f and t.
  ghost predicate OnlyScreen(p: Placement, f: Sq, t: Sq, s: Sq) {
    s in p && Between(f, s, t) && forall r :: r in p && Between(f, r, t) ==> r == s
  }

  ghost predicate OneScreen(p: Placement, f: Sq, t: Sq) {
    exists s :: OnlyScreen(p, f, t, s)
  }

  function Abs(x: int): nat {
    if x < 0 then -x else x
  }

  // The half of the board that colour c's elephants may not leave.
  predicate HomeHalf(c: Color, s: Sq) {
    if c == Red then 5 <= s.row <= 9 else 0 <= s.row <= 4
  }

  predicate Palace(c: Color, s: Sq) {
    3 <= s.col <= 5 && if c == Red then 7 <= s.row <= 9 else 0 <= s.row <= 2
  }

  // ----- One rule for each kind -----

  predicate HorseRule(p: Placement, f: Sq, t: Sq) {
    var dr, dc := t.row - f.row, t.col - f.col;
    || (Abs(dr) == 2 && Abs(dc) == 1 && Sq(f.row + dr / 2, f.col) !in p)
    || (Abs(dr) == 1 && Abs(dc) == 2 && Sq(f.row, f.col + dc / 2) !in p)
  }

  predicate ElephantRule(p: Placement, c: Color, f: Sq, t: Sq) {
    var dr, dc := t.row - f.row, t.col - f.col;
    HomeHalf(c, t) && Abs(dr) == 2 && Abs(dc) == 2 && Sq(f.row + dr / 2, f.col + dc / 2) !in p
  }

  predicate AdvisorRule(c: Color, f: Sq, t: Sq) {
    Palace(c, t) && Abs(t.row - f.row) == 1 && Abs(t.col - f.col) == 1
  }

  // The direction in which colour c's pawns advance.
  function Ahead(c: Color): int {
    if c == Red then -1 else 1
  }

  predicate Crossed(c: Color, s: Sq) {
    if c == Red then s.row <= 4 else s.row >= 5
  }

  predicate PawnRule(c: Color, f: Sq, t: Sq) {
    || (t.col == f.col && t.row == f.row + Ahead(c))
    || (Crossed(c, f) && t.row == f.row && Abs(t.col - f.col) == 1)
  }

  // A step is refused only from the palace edge it would leave by.
  predicate GeneralStep(c: Color, f: Sq, t: Sq) {
    var dr, dc := t.row - f.row, t.col - f.col;
    var (top, bottom) := if c == Black then (0, 2) else (7, 9);
    || (dr == 0 && dc == -1 && f.col != 3)
    || (dr == 0 && dc == 1 && f.col != 5)
    || (dc == 0 && dr == -1 && f.row != top)
    || (dc == 0 && dr == 1 && f.row != bottom)
  }

  // The flying general: the first man met on the column ahead is a general.
  ghost predicate Flying(p: Placement, c: Color, f: Sq, t: Sq) {
    && t.col == f.col
    && (if c == Black then t.row > f.row else t.row < f.row)
    && t in p && p[t].kind == General
    && Clear(p, f, t)
  }

  predicate Friendly(p: Placement, c: Color, t: Sq) {
    t in p && p[t].color == c
  }

  // A man m standing on f may go to t, king safety aside.
  ghost predicate Reaches(p: Placement, m: Man, f: Sq, t: Sq) {
    && !Friendly(p, m.color, t)
    && match m.kind
       case Chariot => f != t && SameLine(f, t) && Clear(p, f, t)
       case Cannon => SameLine(f, t) && (if t in p then OneScreen(p, f, t) else Clear(p, f, t))
       case Horse => HorseRule(p, f, t)
       case Elephant => ElephantRule(p, m.color, f, t)
       case Advisor => AdvisorRule(m.color, f, t)
       case Pawn => PawnRule(m.color, f, t)
       case General => GeneralStep(m.color, f, t) || Flying(p, m.color, f, t)
  }

  // ----- King safety and legality -----

  // Where each side believes its general to be; a missing colour is the source's null.
  type Kings = map<Color, Sq>

  ghost predicate Attacked(p: Placement, c: Color, k: Sq) {
    exists s :: s in p && p[s].color == c.Other() && Reaches(p, p[s], s, k)
  }

  ghost predicate InDanger(p: Placement, kings: Kings, c: Color) {
    c in kings ==> Attacked(p, c, kings[c])
  }

  function Shift(p: Placement, m: Man, f: Sq, t: Sq): Placement {
    (p - {f})[t := m]
  }

  function KingsAfter(kings: Kings, m: Man, t: Sq): Kings {
    if m.kind == General then kings[m.color := t] else kings
  }

  ghost predicate Suicide(p: Placement, kings: Kings, m: Man, f: Sq, t: Sq) {
    InDanger(Shift(p, m, f, t), KingsAfter(kings, m, t), m.color)
  }

  ghost predicate Legal(p: Placement, kings: Kings, f: Sq, t: Sq) {
    && f in p && OnBoard(t)
    && Reaches(p, p[f], f, t)
    && !Suicide(p, kings, p[f], f, t)
  }

  ghost predicate CanMove(p: Placement, kings: Kings, f: Sq) {
    exists t :: Legal(p, kings, f, t)
  }

  ghost predicate HasLegal(p: Placement, kings: Kings, c: Color) {
    exists f :: f in p && p[f].color == c && CanMove(p, kings, f)
  }
}
