// client/src/pieces: the piece objects.  The class hierarchy is one class that
// dispatches on `kind`.  A general's offset table is an array because
// validateMove overwrites its last slot, and because a clone shares it with the
// piece it was cloned from; the other tables are never written and are constants.
module Pieces {
  import opened Xiangqi

  type Offset = (int, int)

  const DIAGONALS: seq<Offset> := [(1, 1), (1, -1), (-1, 1), (-1, -1)]
  const EYES: seq<Offset> := [(2, 2), (2, -2), (-2, 2), (-2, -2)]
  const JUMPS: seq<Offset> := [(2, 1), (2, -1), (-2, 1), (-2, -1), (1, 2), (-1, 2), (1, -2), (-1, -2)]
  const STEPS: seq<Offset> := [(1, 0), (-1, 0), (0, 1), (0, -1)]

  // The chariot's four rays: down, up, right, left, nearest square first.
  function Ray(d: int): (r: seq<Offset>)
    requires 0 <= d < 4
    ensures |r| == if d < 2 then 9 else 8
    ensures forall i :: 0 <= i < |r| ==> r[i] == RayAt(d, i)
  {
    seq(if d < 2 then 9 else 8, i => RayAt(d, i))
  }

  function RayAt(d: int, i: int): Offset {
    if d == 0 then (i + 1, 0) else if d == 1 then (-(i + 1), 0) else if d == 2 then (0, i + 1) else (0, -(i + 1))
  }

  type Grid = array2<ChessPiece?>

  predicate Sized(g: Grid) {
    g.Length0 == 10 && g.Length1 == 9
  }

  // The placement a grid shows, whatever the pieces' own coordinates say.
  ghost function Place(g: Grid): Placement
    requires Sized(g)
    reads g
  {
    map s: Sq | s in Squares() && g[s.row, s.col] != null :: g[s.row, s.col].AsMan()
  }

  class ChessPiece {
    const kind: Kind
    const color: Color
    var row: int
    var col: int
    const dir: array<Offset>

    constructor (color: Color, kind: Kind, col: int, row: int)
      ensures this.kind == kind && this.color == color && this.row == row && this.col == col
      ensures Shaped() && fresh(dir)
    {
      this.kind, this.color, this.row, this.col := kind, color, row, col;
      var d := new Offset[5](_ => (0, 0));
      d[0], d[1], d[2], d[3] := STEPS[0], STEPS[1], STEPS[2], STEPS[3];
      this.dir := d;
    }

    // Object.assign: every field is copied, so the table is shared.
    constructor Clone(piece: ChessPiece)
      ensures kind == piece.kind && color == piece.color && row == piece.row && col == piece.col
      ensures dir == piece.dir
    {
      kind, color, row, col, dir := piece.kind, piece.color, piece.row, piece.col, piece.dir;
    }

    function AsMan(): Man {
      Man(kind, color)
    }

    function At(): Sq
      reads this
    {
      Sq(row, col)
    }

    // The first four slots of the table are the orthogonal steps; the fifth is scratch.
    ghost predicate Shaped()
      reads dir
    {
      dir.Length == 5 && dir[..4] == STEPS
    }

    // ----- ChessPiece.js -----

    predicate IsFriendly(newRow: int, newCol: int, g: Grid)
      requires Sized(g) && OnBoard(Sq(newRow, newCol))
      reads g
      ensures IsFriendly(newRow, newCol, g) <==> Friendly(Place(g), color, Sq(newRow, newCol))
    {
      g[newRow, newCol] != null && g[newRow, newCol].color == color
    }

    predicate CheckMove(newRow: int, newCol: int, valid: seq<Offset>, g: Grid)
      requires Sized(g) && OnBoard(Sq(newRow, newCol))
      reads this, g
    {
      !IsFriendly(newRow, newCol, g) && (newRow - row, newCol - col) in valid
    }

    // ----- Advisor.js, Elephant.js, Horse.js, Pawn.js -----

    predicate AdvisorMove(newRow: int, newCol: int, g: Grid)
      requires Sized(g) && OnBoard(Sq(newRow, newCol)) && kind == Advisor
      reads this, g
      ensures AdvisorMove(newRow, newCol, g) <==> Reaches(Place(g), AsMan(), At(), Sq(newRow, newCol))
    {
      var valid :=
        if 3 <= newCol <= 5 then
          (if color == Red && 7 <= newRow <= 9 then DIAGONALS else []) +
          (if color == Black && 0 <= newRow <= 2 then DIAGONALS else [])
        else [];
      CheckMove(newRow, newCol, valid, g)
    }

    predicate ElephantMove(newRow: int, newCol: int, g: Grid)
      requires Sized(g) && OnBoard(At()) && OnBoard(Sq(newRow, newCol)) && kind == Elephant
      reads this, g
      ensures ElephantMove(newRow, newCol, g) <==> Reaches(Place(g), AsMan(), At(), Sq(newRow, newCol))
    {
      var valid :=
        if color == Red && 5 <= newRow <= 9 then EYES
        else if color == Black && 0 <= newRow <= 4 then EYES
        else [];
      CheckMove(newRow, newCol, valid, g) &&
      var midRow := row + (newRow - row) / 2;
      var midCol := col + (newCol - col) / 2;
      g[midRow, midCol] == null
    }

    predicate HorseMove(newRow: int, newCol: int, g: Grid)
      requires Sized(g) && OnBoard(At()) && OnBoard(Sq(newRow, newCol)) && kind == Horse
      reads this, g
      ensures HorseMove(newRow, newCol, g) <==> Reaches(Place(g), AsMan(), At(), Sq(newRow, newCol))
    {
      CheckMove(newRow, newCol, JUMPS, g) &&
      var rowChange := newRow - row;
      var colChange := newCol - col;
      var legRow := if Abs(rowChange) == 2 then row + rowChange / 2 else row;
      var legCol := if Abs(colChange) == 2 then col + colChange / 2 else col;
      g[legRow, legCol] == null
    }

    predicate PawnMove(newRow: int, newCol: int, g: Grid)
      requires Sized(g) && OnBoard(Sq(newRow, newCol)) && kind == Pawn
      reads this, g
      ensures PawnMove(newRow, newCol, g) <==> Reaches(Place(g), AsMan(), At(), Sq(newRow, newCol))
    {
      var valid :=
        if color == Red then
          if row <= 4 then [STEPS[1], STEPS[2], STEPS[3]] else [STEPS[1]]
        else
          if row >= 5 then [STEPS[0], STEPS[2], STEPS[3]] else [STEPS[0]];
      CheckMove(newRow, newCol, valid, g)
    }

    // ----- Chariot.js -----

    // The i-th square of ray d.
    function Along(d: int, i: int): Sq
      requires 0 <= d < 4 && 0 <= i < |Ray(d)|
      reads this
    {
      Sq(row + Ray(d)[i].0, col + Ray(d)[i].1)
    }

    // What the scan of ray d must return: the index of the last square that can
    // be entered, -1 if there is none.
    ghost predicate IsLimit(d: int, limit: int, p: Placement)
      requires 0 <= d < 4
      reads this
    {
      && -1 <= limit < |Ray(d)|
      && forall i :: 0 <= i < |Ray(d)| ==>
           (i <= limit <==> OnBoard(Along(d, i)) && forall j :: 0 <= j < i ==> Along(d, j) !in p)
    }

    method RowLimit(up: bool, g: Grid) returns (limit: int)
      requires Sized(g) && OnBoard(At())
      ensures IsLimit(if up then 1 else 0, limit, Place(g))
    {
      var dirRow := if up then 1 else 0;
      limit := -1;
      for i := 0 to 9
        invariant limit == i - 1
        invariant forall j :: 0 <= j < i ==> OnBoard(Along(dirRow, j)) && Along(dirRow, j) !in Place(g)
      {
        var newRow := row + Ray(dirRow)[i].0;
        if newRow < 0 || newRow > 9 {
          break;
        }
        limit := limit + 1;
        assert Along(dirRow, i) == Sq(newRow, col);
        if g[newRow, col] != null {
          break;
        }
      }
    }

    method ColLimit(right: bool, g: Grid) returns (limit: int)
      requires Sized(g) && OnBoard(At())
      ensures IsLimit(if right then 2 else 3, limit, Place(g))
    {
      var dirCol := if right then 2 else 3;
      limit := -1;
      for i := 0 to 8
        invariant limit == i - 1
        invariant forall j :: 0 <= j < i ==> OnBoard(Along(dirCol, j)) && Along(dirCol, j) !in Place(g)
      {
        var newCol := col + Ray(dirCol)[i].1;
        if newCol < 0 || newCol > 8 {
          break;
        }
        limit := limit + 1;
        assert Along(dirCol, i) == Sq(row, newCol);
        if g[row, newCol] != null {
          break;
        }
      }
    }

    // Appends the first `limit + 1` offsets of ray d.
    method PushRay(valid: seq<Offset>, d: int, limit: int) returns (r: seq<Offset>)
      requires 0 <= d < 4 && -1 <= limit < |Ray(d)|
      ensures r == valid + Ray(d)[..limit + 1]
    {
      r := valid;
      for i := 0 to limit + 1
        invariant r == valid + Ray(d)[..i]
      {
        r := r + [Ray(d)[i]];
      }
    }

    // Along an open ray, "every earlier table square is empty" is "the path is clear".
    lemma RayIsClear(d: int, i: int, p: Placement)
      requires 0 <= d < 4 && 0 <= i < |Ray(d)|
      ensures (forall j :: 0 <= j < i ==> Along(d, j) !in p) <==> Clear(p, At(), Along(d, i))
    {
      var t := Along(d, i);
      if Clear(p, At(), t) {
        forall j | 0 <= j < i ensures Along(d, j) !in p {
          assert Between(At(), Along(d, j), t);
        }
      } else {
        var s :| s in p && Between(At(), s, t);
        var j := Abs(s.row - row) + Abs(s.col - col) - 1;
        assert Along(d, j) == s;
      }
    }

    lemma OffsetIsOnRay(t: Sq) returns (d: int, i: int)
      requires OnBoard(At()) && OnBoard(t) && t != At() && SameLine(At(), t)
      ensures 0 <= d < 4 && 0 <= i < |Ray(d)| && Along(d, i) == t
    {
      if t.col == col {
        if t.row > row { d, i := 0, t.row - row - 1; } else { d, i := 1, row - t.row - 1; }
      } else {
        if t.col > col { d, i := 2, t.col - col - 1; } else { d, i := 3, col - t.col - 1; }
      }
    }

    // t is one of the first n squares of ray d.
    ghost predicate OnRay(d: int, n: int, t: Sq)
      requires 0 <= d < 4
      reads this
    {
      exists i :: 0 <= i < n && i < |Ray(d)| && Along(d, i) == t
    }

    // t is one of the squares within the four limits.
    ghost predicate WithinLimits(limits: seq<int>, t: Sq)
      requires |limits| == 4
      reads this
    {
      exists d :: 0 <= d < 4 && OnRay(d, limits[d] + 1, t)
    }

    // The four scans together are the declarative rule.
    lemma RaysAreTheRule(p: Placement, t: Sq, limits: seq<int>)
      requires OnBoard(At()) && OnBoard(t)
      requires |limits| == 4 && forall d :: 0 <= d < 4 ==> IsLimit(d, limits[d], p)
      ensures WithinLimits(limits, t) <==> (t != At() && SameLine(At(), t) && Clear(p, At(), t))
    {
      if t != At() && SameLine(At(), t) && Clear(p, At(), t) {
        var d, i := OffsetIsOnRay(t);
        RayIsClear(d, i, p);
        assert i <= limits[d];
      }
      if WithinLimits(limits, t) {
        var d :| 0 <= d < 4 && OnRay(d, limits[d] + 1, t);
        var i :| 0 <= i <= limits[d] && i < |Ray(d)| && Along(d, i) == t;
        RayIsClear(d, i, p);
      }
    }

    static ghost predicate Bounded(limits: seq<int>) {
      && |limits| == 4
      && -1 <= limits[0] < 9 && -1 <= limits[1] < 9
      && -1 <= limits[2] < 8 && -1 <= limits[3] < 8
    }

    static ghost function Pushed(limits: seq<int>): seq<Offset>
      requires Bounded(limits)
    {
      Ray(1)[..limits[1] + 1] + Ray(0)[..limits[0] + 1] + Ray(2)[..limits[2] + 1] + Ray(3)[..limits[3] + 1]
    }

    // All squares the rays list, as offsets in the order the source pushes them.
    method RayOffsets(g: Grid) returns (valid: seq<Offset>, ghost limits: seq<int>)
      requires Sized(g) && OnBoard(At())
      ensures Bounded(limits) && forall d :: 0 <= d < 4 ==> IsLimit(d, limits[d], Place(g))
      ensures valid == Pushed(limits)
    {
      valid := [];
      var up := RowLimit(true, g);
      valid := PushRay(valid, 1, up);
      var down := RowLimit(false, g);
      valid := PushRay(valid, 0, down);
      var right := ColLimit(true, g);
      valid := PushRay(valid, 2, right);
      var left := ColLimit(false, g);
      valid := PushRay(valid, 3, left);
      limits := [down, up, right, left];
    }

    lemma OneRayLookup(d: int, n: nat, t: Sq)
      requires 0 <= d < 4 && n <= |Ray(d)|
      ensures (t.row - row, t.col - col) in Ray(d)[..n] <==> OnRay(d, n, t)
    {
      var o := (t.row - row, t.col - col);
      if OnRay(d, n, t) {
        var i :| 0 <= i < n && i < |Ray(d)| && Along(d, i) == t;
        assert Ray(d)[..n][i] == o;
      }
      if o in Ray(d)[..n] {
        var i :| 0 <= i < n && Ray(d)[..n][i] == o;
        assert Along(d, i) == t;
      }
    }

    static lemma InConcatenation<T>(x: T, a: seq<T>, b: seq<T>, c: seq<T>, d: seq<T>)
      ensures x in a + b + c + d <==> x in a || x in b || x in c || x in d
    {
    }

    static lemma PushedIsFourRays(o: Offset, limits: seq<int>)
      requires Bounded(limits)
      ensures o in Pushed(limits) <==> o in Ray(1)[..limits[1] + 1] || o in Ray(0)[..limits[0] + 1]
                                       || o in Ray(2)[..limits[2] + 1] || o in Ray(3)[..limits[3] + 1]
    {
      InConcatenation(o, Ray(1)[..limits[1] + 1], Ray(0)[..limits[0] + 1],
                      Ray(2)[..limits[2] + 1], Ray(3)[..limits[3] + 1]);
    }

    lemma TableLookup(limits: seq<int>, t: Sq)
      requires Bounded(limits)
      ensures (t.row - row, t.col - col) in Pushed(limits) <==> WithinLimits(limits, t)
    {
      PushedIsFourRays((t.row - row, t.col - col), limits);
      OneRayLookup(0, limits[0] + 1, t);
      OneRayLookup(1, limits[1] + 1, t);
      OneRayLookup(2, limits[2] + 1, t);
      OneRayLookup(3, limits[3] + 1, t);
    }

    // The offsets of exactly the squares an open ray reaches.
    method OpenOffsets(g: Grid) returns (valid: seq<Offset>)
      requires Sized(g) && OnBoard(At())
      ensures forall t :: OnBoard(t) ==>
                ((t.row - row, t.col - col) in valid <==> t != At() && SameLine(At(), t) && Clear(Place(g), At(), t))
    {
      ghost var limits;
      valid, limits := RayOffsets(g);
      forall t | OnBoard(t)
        ensures (t.row - row, t.col - col) in valid <==> t != At() && SameLine(At(), t) && Clear(Place(g), At(), t)
      {
        RaysAreTheRule(Place(g), t, limits);
        TableLookup(limits, t);
      }
    }

    method ChariotMove(newRow: int, newCol: int, g: Grid) returns (ok: bool)
      requires Sized(g) && OnBoard(At()) && OnBoard(Sq(newRow, newCol)) && kind == Chariot
      ensures ok <==> Reaches(Place(g), AsMan(), At(), Sq(newRow, newCol))
    {
      var valid := OpenOffsets(g);
      ok := CheckMove(newRow, newCol, valid, g);
    }

    // ----- Cannon.js -----

    static ghost function Screens(p: Placement, f: Sq, t: Sq): set<Sq> {
      set s | s in p && Between(f, s, t)
    }

    method RowObstacles(newCol: int, g: Grid) returns (obstacles: int)
      requires Sized(g) && OnBoard(At()) && 0 <= newCol <= 8
      ensures obstacles == |Screens(Place(g), At(), Sq(row, newCol))|
    {
      ghost var p, t := Place(g), Sq(row, newCol);
      ghost var seen: set<Sq> := {};
      obstacles := 0;
      var start := (if col < newCol then col else newCol) + 1;
      var end := if col < newCol then newCol else col;
      var c := start;
      while c < end
        invariant start <= c && (c <= end || c == start)
        invariant forall s :: s in seen <==> s in p && Between(At(), s, t) && s.col < c
        invariant |seen| == obstacles
      {
        assert Between(At(), Sq(row, c), t);
        if g[row, c] != null {
          obstacles := obstacles + 1;
          seen := seen + {Sq(row, c)};
        }
        c := c + 1;
      }
      assert seen == Screens(p, At(), t);
    }

    method ColObstacles(newRow: int, g: Grid) returns (obstacles: int)
      requires Sized(g) && OnBoard(At()) && 0 <= newRow <= 9
      ensures obstacles == |Screens(Place(g), At(), Sq(newRow, col))|
    {
      ghost var p, t := Place(g), Sq(newRow, col);
      ghost var seen: set<Sq> := {};
      obstacles := 0;
      var start := (if row < newRow then row else newRow) + 1;
      var end := if row < newRow then newRow else row;
      var r := start;
      while r < end
        invariant start <= r && (r <= end || r == start)
        invariant forall s :: s in seen <==> s in p && Between(At(), s, t) && s.row < r
        invariant |seen| == obstacles
      {
        assert Between(At(), Sq(r, col), t);
        if g[r, col] != null {
          obstacles := obstacles + 1;
          seen := seen + {Sq(r, col)};
        }
        r := r + 1;
      }
      assert seen == Screens(p, At(), t);
    }

    method CannonMove(newRow: int, newCol: int, g: Grid) returns (ok: bool)
      requires Sized(g) && OnBoard(At()) && OnBoard(Sq(newRow, newCol)) && kind == Cannon
      ensures ok <==> Reaches(Place(g), AsMan(), At(), Sq(newRow, newCol))
    {
      if IsFriendly(newRow, newCol, g) {
        return false;
      }
      if row != newRow && col != newCol {
        return false;
      }
      var obstacles;
      if row == newRow {
        obstacles := RowObstacles(newCol, g);
      } else {
        obstacles := ColObstacles(newRow, g);
      }
      CannonByCount(Place(g), AsMan(), At(), Sq(newRow, newCol));
      if g[newRow, newCol] == null {
        ok := obstacles == 0;
      } else {
        ok := obstacles == 1;
      }
    }

    static lemma CountsScreens(p: Placement, f: Sq, t: Sq)
      ensures |Screens(p, f, t)| == 0 <==> Clear(p, f, t)
      ensures |Screens(p, f, t)| == 1 <==> OneScreen(p, f, t)
    {
      var seen := Screens(p, f, t);
      if Clear(p, f, t) {
        assert seen == {};
      } else {
        var s :| s in p && Between(f, s, t);
        assert s in seen;
      }
      if |seen| == 1 {
        var s :| s in seen;
        assert |seen - {s}| == 0;
        forall r | r in p && Between(f, r, t) ensures r == s {
          assert r !in seen - {s};
        }
        assert OnlyScreen(p, f, t, s);
      }
      if OneScreen(p, f, t) {
        var s :| OnlyScreen(p, f, t, s);
        assert seen == {s};
      }
    }

    static lemma CannonByCount(p: Placement, m: Man, f: Sq, t: Sq)
      requires m.kind == Cannon
      ensures Reaches(p, m, f, t)
         <==> !Friendly(p, m.color, t) && SameLine(f, t) && |Screens(p, f, t)| == if t in p then 1 else 0
    {
      CountsScreens(p, f, t);
    }

    // On an empty square a cannon moves like a chariot; what one captures the other cannot.
    static lemma CannonAndChariot(p: Placement, c: Color, f: Sq, t: Sq)
      requires f in p
      ensures t !in p ==> (Reaches(p, Man(Cannon, c), f, t) <==> Reaches(p, Man(Chariot, c), f, t))
      ensures t in p ==> !(Reaches(p, Man(Cannon, c), f, t) && Reaches(p, Man(Chariot, c), f, t))
      ensures t in p && Reaches(p, Man(Cannon, c), f, t) ==> |Screens(p, f, t)| == 1
    {
      CountsScreens(p, f, t);
    }

    // ----- General.js -----

    method FindColTgt(c: Color, g: Grid) returns (tgt: Option<Offset>)
      requires Sized(g) && OnBoard(At())
      ensures tgt.Some? ==> tgt.value.1 == 0 && Flying(Place(g), c, At(), Sq(row + tgt.value.0, col))
      ensures tgt.None? ==> forall t :: OnBoard(t) ==> !Flying(Place(g), c, At(), t)
    {
      tgt := None;
      ghost var p := Place(g);
      if c == Black {
        var i := row + 1;
        while i <= 9
          invariant row + 1 <= i <= 10
          invariant forall s :: s in p && s.col == col && row < s.row ==> i <= s.row
        {
          if g[i, col] != null {
            assert Sq(i, col) in p;
            if g[i, col].kind == General {
              tgt := Some((i - row, 0));
            }
            break;
          }
          i := i + 1;
        }
        assert tgt.None? && i <= 9 ==> forall t: Sq :: t.col == col && t.row > i ==> Between(At(), Sq(i, col), t);
      } else {
        var i := row - 1;
        while i >= 0
          invariant -1 <= i <= row - 1
          invariant forall s :: s in p && s.col == col && s.row < row ==> s.row <= i
        {
          if g[i, col] != null {
            assert Sq(i, col) in p;
            if g[i, col].kind == General {
              tgt := Some((i - row, 0));
            }
            break;
          }
          i := i - 1;
        }
        assert tgt.None? && i >= 0 ==> forall t: Sq :: t.col == col && t.row < i ==> Between(At(), Sq(i, col), t);
      }
    }

    // The steps the palace edges leave open, in the order the source pushes them.
    method PalaceSteps() returns (valid: seq<Offset>)
      requires Shaped()
      ensures forall t: Sq :: (t.row - row, t.col - col) in valid <==> GeneralStep(color, At(), t)
    {
      assert forall i :: 0 <= i < 4 ==> dir[i] == dir[..4][i];
      valid := [];
      if col != 3 {
        valid := valid + [dir[3]];
      }
      if col != 5 {
        valid := valid + [dir[2]];
      }
      if color == Black {
        if row != 0 {
          valid := valid + [dir[1]];
        }
        if row != 2 {
          valid := valid + [dir[0]];
        }
      } else {
        if row != 7 {
          valid := valid + [dir[1]];
        }
        if row != 9 {
          valid := valid + [dir[0]];
        }
      }
    }

    method GeneralMove(newRow: int, newCol: int, g: Grid) returns (ok: bool)
      requires Sized(g) && OnBoard(At()) && OnBoard(Sq(newRow, newCol)) && kind == General && Shaped()
      modifies dir
      ensures Shaped()
      ensures ok <==> Reaches(Place(g), AsMan(), At(), Sq(newRow, newCol))
    {
      var steps := PalaceSteps();
      var valid := steps;
      var tgt := FindColTgt(color, g);
      ghost var p, t := Place(g), Sq(newRow, newCol);
      if tgt.Some? {
        valid := valid + [tgt.value];
        OneFlyingTarget(p, color, At(), Sq(row + tgt.value.0, col));
        dir[4] := tgt.value;
      } else {
        dir[4] := (0, 0);
      }
      assert Place(g) == p;
      assert (newRow - row, newCol - col) in steps <==> GeneralStep(color, At(), t);
      ok := CheckMove(newRow, newCol, valid, g);
    }

    static lemma OneFlyingTarget(p: Placement, c: Color, f: Sq, t: Sq)
      requires Flying(p, c, f, t)
      ensures forall t' :: Flying(p, c, f, t') ==> t' == t
    {
      forall t' | Flying(p, c, f, t') ensures t' == t {
        assert !Between(f, t, t') && !Between(f, t', t);
      }
    }

    // ----- The dispatch a JavaScript call makes on the prototype -----

    method ValidateMove(newRow: int, newCol: int, g: Grid) returns (ok: bool)
      requires Sized(g) && OnBoard(At()) && OnBoard(Sq(newRow, newCol)) && Shaped()
      modifies dir
      ensures Shaped()
      ensures ok <==> Reaches(Place(g), AsMan(), At(), Sq(newRow, newCol))
    {
      match kind {
        case Chariot => ok := ChariotMove(newRow, newCol, g);
        case Cannon => ok := CannonMove(newRow, newCol, g);
        case General => ok := GeneralMove(newRow, newCol, g);
        case Horse => ok := HorseMove(newRow, newCol, g);
        case Elephant => ok := ElephantMove(newRow, newCol, g);
        case Advisor => ok := AdvisorMove(newRow, newCol, g);
        case Pawn => ok := PawnMove(newRow, newCol, g);
      }
    }
  }
}
