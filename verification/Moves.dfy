// What each kind of man may do, said a second time without its rule: by single steps,
// by the squares it passes, and by distances from its side's home.
module Moves {
  import opened Xiangqi
  import Safety

  function Rows(f: Sq, t: Sq): nat {
    Abs(t.row - f.row)
  }

  function Cols(f: Sq, t: Sq): nat {
    Abs(t.col - f.col)
  }

  function SquaredDistance(f: Sq, t: Sq): nat {
    Rows(f, t) * Rows(f, t) + Cols(f, t) * Cols(f, t)
  }

  // One step along a row or column, one along a diagonal.
  predicate Straight(f: Sq, t: Sq) {
    Rows(f, t) + Cols(f, t) == 1
  }

  predicate Diagonal(f: Sq, t: Sq) {
    Rows(f, t) == Cols(f, t) == 1
  }

  // How far s is from c's back rank.
  function FromHome(c: Color, s: Sq): nat {
    Abs(s.row - if c == Red then 9 else 0)
  }

  // The middle of c's palace.
  function Centre(c: Color): Sq {
    Sq(if c == Red then 8 else 1, 4)
  }

  predicate InPalace(c: Color, s: Sq) {
    s == Centre(c) || Straight(Centre(c), s) || Diagonal(Centre(c), s)
  }

  // ----- Men that step -----

  // A horse passes an empty square straight beside it and goes on diagonally, away
  // from where it stood.
  predicate Leg(p: Placement, f: Sq, l: Sq, t: Sq) {
    Straight(f, l) && l !in p && Diagonal(l, t)
  }

  lemma HorsePassesItsLeg(p: Placement, c: Color, f: Sq, t: Sq)
    ensures Reaches(p, Man(Horse, c), f, t) <==>
              !Friendly(p, c, t) && SquaredDistance(f, t) == 5 && exists l :: Leg(p, f, l, t)
  {
    FiveSquared(Rows(f, t), Cols(f, t));
    if SquaredDistance(f, t) == 5 {
      var dr, dc := t.row - f.row, t.col - f.col;
      var l := if Rows(f, t) == 2 then Sq(f.row + dr / 2, f.col) else Sq(f.row, f.col + dc / 2);
      assert Straight(f, l) && Diagonal(l, t);
      assert forall k :: Straight(f, k) && Diagonal(k, t) ==> k == l;
      assert Leg(p, f, l, t) <==> l !in p;
    }
  }

  lemma FiveSquared(a: nat, b: nat)
    ensures a * a + b * b == 5 <==> (a == 1 && b == 2) || (a == 2 && b == 1)
  {
    if a >= 3 {
      AtLeastNine(a);
    }
    if b >= 3 {
      AtLeastNine(b);
    }
  }

  lemma AtLeastNine(a: nat)
    requires a >= 3
    ensures a * a >= 9
  {
    assert a * a >= 3 * a;
  }

  // An elephant passes the eye, goes on just as far in the same direction, and stays
  // within five ranks of home.
  predicate Eye(p: Placement, f: Sq, e: Sq, t: Sq) {
    Diagonal(f, e) && e !in p && t == Sq(2 * e.row - f.row, 2 * e.col - f.col)
  }

  lemma ElephantPassesTheEye(p: Placement, c: Color, f: Sq, t: Sq)
    requires OnBoard(t)
    ensures Reaches(p, Man(Elephant, c), f, t) <==>
              !Friendly(p, c, t) && FromHome(c, t) <= 4 && exists e :: Eye(p, f, e, t)
  {
    var dr, dc := t.row - f.row, t.col - f.col;
    if Abs(dr) == 2 && Abs(dc) == 2 {
      var e := Sq(f.row + dr / 2, f.col + dc / 2);
      assert forall k :: Eye(p, f, k, t) ==> k == e;
      assert Eye(p, f, e, t) <==> e !in p;
    }
  }

  lemma PalaceIsAroundItsCentre(c: Color, s: Sq)
    ensures Palace(c, s) <==> InPalace(c, s)
  {
  }

  lemma AdvisorKeepsToThePalace(p: Placement, c: Color, f: Sq, t: Sq)
    ensures Reaches(p, Man(Advisor, c), f, t) <==> !Friendly(p, c, t) && Diagonal(f, t) && InPalace(c, t)
  {
    PalaceIsAroundItsCentre(c, t);
  }

  // A pawn takes one straight step that does not lead home, and sideways only from the
  // sixth rank on.
  lemma PawnNeverTurnsHome(p: Placement, c: Color, f: Sq, t: Sq)
    requires OnBoard(f) && OnBoard(t)
    ensures Reaches(p, Man(Pawn, c), f, t) <==>
              && !Friendly(p, c, t) && Straight(f, t) && FromHome(c, t) >= FromHome(c, f)
              && (FromHome(c, t) == FromHome(c, f) ==> FromHome(c, f) >= 5)
  {
  }

  // Nothing stands strictly between two squares of a column.
  ghost predicate OpenColumn(p: Placement, f: Sq, t: Sq) {
    f.col == t.col && forall r :: f.row < r < t.row || t.row < r < f.row ==> Sq(r, f.col) !in p
  }

  lemma OpenColumnIsClear(p: Placement, f: Sq, t: Sq)
    ensures OpenColumn(p, f, t) <==> f.col == t.col && Clear(p, f, t)
  {
    if f.col == t.col && Clear(p, f, t) {
      forall r | f.row < r < t.row || t.row < r < f.row ensures Sq(r, f.col) !in p {
        assert Between(f, Sq(r, f.col), t);
      }
    }
  }

  lemma StepsInThePalace(c: Color, f: Sq, t: Sq)
    requires Palace(c, f)
    ensures GeneralStep(c, f, t) <==> Straight(f, t) && Palace(c, t)
  {
  }

  // From a palace the other general lies ahead.
  lemma FliesAhead(p: Placement, c: Color, f: Sq, t: Sq)
    requires Palace(c, f) && (t in p && p[t].kind == General ==> p[t].color != c && Palace(c.Other(), t))
    ensures Flying(p, c, f, t) <==> t in p && p[t].kind == General && OpenColumn(p, f, t)
  {
    OpenColumnIsClear(p, f, t);
  }

  // A general in its palace takes one straight step within it, or takes the other
  // general along an open column.
  lemma GeneralStepsOrFlies(p: Placement, c: Color, f: Sq, t: Sq)
    requires Safety.Confined(p) && f in p && p[f] == Man(General, c)
    ensures Reaches(p, Man(General, c), f, t) <==>
              && !Friendly(p, c, t)
              && ((Straight(f, t) && InPalace(c, t)) || (t in p && p[t].kind == General && OpenColumn(p, f, t)))
  {
    assert Safety.Point(p[f], f) && (t in p ==> Safety.Point(p[t], t));
    if !Friendly(p, c, t) {
      StepsInThePalace(c, f, t);
      PalaceIsAroundItsCentre(c, t);
      FliesAhead(p, c, f, t);
    }
  }

  // ----- Men that run -----

  datatype Direction = North | South | West | East

  // n steps from f.
  function Along(f: Sq, d: Direction, n: nat): Sq {
    match d
    case North => Sq(f.row - n, f.col)
    case South => Sq(f.row + n, f.col)
    case West => Sq(f.row, f.col - n)
    case East => Sq(f.row, f.col + n)
  }

  // t is n steps away, the first n - 1 of them over empty squares.
  ghost predicate Runs(p: Placement, f: Sq, d: Direction, n: nat, t: Sq) {
    n > 0 && t == Along(f, d, n) && forall k: nat :: 0 < k < n ==> Along(f, d, k) !in p
  }

  // The same with one man jumped at step m.
  ghost predicate Jumps(p: Placement, f: Sq, d: Direction, m: nat, n: nat, t: Sq) {
    && 0 < m < n && t == Along(f, d, n) && Along(f, d, m) in p
    && forall k: nat :: 0 < k < n && k != m ==> Along(f, d, k) !in p
  }

  function Toward(f: Sq, t: Sq): (r: (Direction, nat))
    requires SameLine(f, t)
    ensures t == Along(f, r.0, r.1) && (f != t ==> r.1 > 0)
  {
    if t.col == f.col then
      if t.row < f.row then (North, f.row - t.row) else (South, t.row - f.row)
    else
      if t.col < f.col then (West, f.col - t.col) else (East, t.col - f.col)
  }

  // The squares between f and its n-th square in direction d are the steps before it.
  lemma BetweenAlong(f: Sq, d: Direction, n: nat, s: Sq)
    ensures Between(f, s, Along(f, d, n)) <==> exists k: nat :: 0 < k < n && s == Along(f, d, k)
  {
    if Between(f, s, Along(f, d, n)) {
      var k: nat := Rows(f, s) + Cols(f, s);
      assert s == Along(f, d, k) && 0 < k < n;
    }
  }

  lemma ClearIsRun(p: Placement, f: Sq, d: Direction, n: nat)
    requires n > 0
    ensures Clear(p, f, Along(f, d, n)) <==> Runs(p, f, d, n, Along(f, d, n))
  {
    forall s ensures Between(f, s, Along(f, d, n)) <==> exists k: nat :: 0 < k < n && s == Along(f, d, k) {
      BetweenAlong(f, d, n, s);
    }
  }

  lemma OneWay(f: Sq, d: Direction, n: nat, e: Direction, m: nat)
    requires n > 0 && Along(f, d, n) == Along(f, e, m)
    ensures d == e && n == m
  {
  }

  lemma ChariotRuns(p: Placement, c: Color, f: Sq, t: Sq)
    ensures Reaches(p, Man(Chariot, c), f, t) <==> !Friendly(p, c, t) && exists d, n :: Runs(p, f, d, n, t)
  {
    if f != t && SameLine(f, t) {
      var (d, n) := Toward(f, t);
      ClearIsRun(p, f, d, n);
      forall e, m | Runs(p, f, e, m, t) ensures e == d && m == n {
        OneWay(f, e, m, d, n);
      }
    }
  }

  // A cannon runs to an empty square and jumps exactly one man to take.
  lemma CannonRunsOrJumps(p: Placement, c: Color, f: Sq, t: Sq)
    requires f in p && p[f].color == c
    ensures Reaches(p, Man(Cannon, c), f, t) <==>
              !Friendly(p, c, t) && if t in p then exists d, m, n :: Jumps(p, f, d, m, n, t)
                                    else exists d, n :: Runs(p, f, d, n, t)
  {
    if f != t && SameLine(f, t) {
      var (d, n) := Toward(f, t);
      ClearIsRun(p, f, d, n);
      ScreenIsJump(p, f, d, n);
      forall e, m | Runs(p, f, e, m, t) ensures e == d && m == n {
        OneWay(f, e, m, d, n);
      }
      forall e, k, m | Jumps(p, f, e, k, m, t) ensures e == d && m == n {
        OneWay(f, e, m, d, n);
      }
    }
  }

  lemma ScreenIsJump(p: Placement, f: Sq, d: Direction, n: nat)
    requires n > 0
    ensures OneScreen(p, f, Along(f, d, n)) <==> exists m :: Jumps(p, f, d, m, n, Along(f, d, n))
  {
    var t := Along(f, d, n);
    forall s ensures Between(f, s, t) <==> exists k: nat :: 0 < k < n && s == Along(f, d, k) {
      BetweenAlong(f, d, n, s);
    }
    if OneScreen(p, f, t) {
      var s :| OnlyScreen(p, f, t, s);
      var m: nat :| 0 < m < n && s == Along(f, d, m);
      forall k: nat | 0 < k < n && k != m ensures Along(f, d, k) !in p {
        assert Between(f, Along(f, d, k), t) && Along(f, d, k) != s;
      }
      assert Jumps(p, f, d, m, n, t);
    }
    if m :| Jumps(p, f, d, m, n, t) {
      assert OnlyScreen(p, f, t, Along(f, d, m));
    }
  }
}
