// What every run of the turn machine keeps, from the opening position through
// any sequence of clicks, resignations and resets.
module Safety {
  import opened Xiangqi
  import opened Games
  import opened Opening
  import Controllers

  // ----- The invariant -----

  // Distance from colour c's own back rank.
  function Rank(c: Color, s: Sq): int {
    if c == Red then 9 - s.row else s.row
  }

  predicate ElephantPoint(c: Color, s: Sq) {
    var rank := Rank(c, s);
    || ((rank == 0 || rank == 4) && (s.col == 2 || s.col == 6))
    || (rank == 2 && (s.col == 0 || s.col == 4 || s.col == 8))
  }

  predicate AdvisorPoint(c: Color, s: Sq) {
    var rank := Rank(c, s);
    || ((rank == 0 || rank == 2) && (s.col == 3 || s.col == 5))
    || (rank == 1 && s.col == 4)
  }

  // Never behind its starting rank, and on a starting file until it has crossed.
  predicate PawnPoint(c: Color, s: Sq) {
    Rank(c, s) >= 3 && (Rank(c, s) <= 4 ==> s.col % 2 == 0)
  }

  predicate Point(m: Man, s: Sq) {
    && OnBoard(s)
    && match m.kind
       case General => Palace(m.color, s)
       case Elephant => ElephantPoint(m.color, s)
       case Advisor => AdvisorPoint(m.color, s)
       case Pawn => PawnPoint(m.color, s)
       case _ => true
  }

  ghost predicate Confined(p: Placement) {
    forall s :: s in p ==> Point(p[s], s)
  }

  // k is the square of c's one and only general.
  ghost predicate OneGeneral(p: Placement, c: Color, k: Sq) {
    k in p && p[k] == Man(General, c) && forall s :: s in p && p[s] == Man(General, c) ==> s == k
  }

  ghost predicate KingsOk(p: Placement, kings: Kings) {
    forall c: Color :: c in kings && OneGeneral(p, c, kings[c])
  }

  ghost predicate Inv(g: Game) {
    && Confined(g.p)
    && KingsOk(g.p, g.kings)
    && !InDanger(g.p, g.kings, g.turn.Other())
    && (g.cur.Some? ==> Friendly(g.p, g.turn, g.cur.value))
    && (g.status ==> HasLegal(g.p, g.kings, g.turn))
  }

  // ----- One move -----

  // Short of the flying capture, no rule takes a man off its points.
  lemma RulesConfine(p: Placement, m: Man, f: Sq, t: Sq)
    requires Point(m, f) && OnBoard(t) && Reaches(p, m, f, t) && !(m.kind == General && Flying(p, m.color, f, t))
    ensures Point(m, t)
  {
  }

  // A move that is legal while the opponent is not in danger takes no general.
  lemma NoGeneralTaken(g: Game, f: Sq, t: Sq)
    requires Inv(g) && f in g.p && g.p[f].color == g.turn && Legal(g.p, g.kings, f, t)
    ensures t in g.p ==> g.p[t].kind != General && g.p[t].color == g.turn.Other()
  {
    assert OneGeneral(g.p, g.turn.Other(), g.kings[g.turn.Other()]);
  }

  lemma ShiftKeepsGenerals(p: Placement, kings: Kings, f: Sq, t: Sq)
    requires KingsOk(p, kings) && f in p && (t in p ==> p[t].kind != General)
    ensures KingsOk(Shift(p, p[f], f, t), KingsAfter(kings, p[f], t))
  {
    var p', kings' := Shift(p, p[f], f, t), KingsAfter(kings, p[f], t);
    forall c: Color ensures OneGeneral(p', c, kings'[c]) {
      assert OneGeneral(p, c, kings[c]);
    }
  }

  lemma MoveKeepsInv(g: Game, t: Sq)
    requires Inv(g) && Accepts(g, t)
    ensures Inv(Execute(g, t))
  {
    var f := g.cur.value;
    var g' := Execute(g, t);
    NoGeneralTaken(g, f, t);
    ShiftKeepsGenerals(g.p, g.kings, f, t);
    RulesConfine(g.p, g.p[f], f, t);
    assert !Suicide(g.p, g.kings, g.p[f], f, t);
    assert g'.turn.Other() == g.turn;
  }

  lemma StepKeepsInv(start: Game, g: Game, i: Input)
    requires Inv(start) && Inv(g)
    ensures Inv(Step(start, g, i))
  {
    if i.Click? && Accepts(g, i.at) {
      MoveKeepsInv(g, i.at);
    }
  }

  // ----- The opening -----

  // From home squares nothing of colour c's enemy reaches its general, nor does a pawn
  // on an edge file.
  lemma NobodyAttacksAtHome(p: Placement, c: Color, k: Sq)
    requires k == Sq(if c == Red then 9 else 0, 4)
    requires forall s :: s in p && p[s].color == c.Other() ==>
               OpeningMan(s) == Some(p[s]) || (p[s].kind == Pawn && s.col == 0)
    requires Sq(3, 4) in p
    ensures !Attacked(p, c, k)
  {
    forall s | s in p && p[s].color == c.Other() ensures !Reaches(p, p[s], s, k) {
      assert Between(Sq(if c == Red then 0 else 9, 4), Sq(3, 4), k);
    }
  }

  function Opened(): Game {
    Controllers.Start(OpeningPosition())
  }

  lemma OpeningInv()
    ensures Inv(Opened())
  {
    BothAreTheOpening();
    OpeningSquares(OpeningPosition());
    OpeningKings(OpeningPosition());
    HomeInv(Opened());
  }

  lemma HomeInv(g: Game)
    requires forall s :: s in g.p <==> OpeningMan(s).Some?
    requires forall s :: s in g.p ==> OpeningMan(s) == Some(g.p[s])
    requires AtHome(g.kings) && g.turn == Red && g.cur == None
    ensures Inv(g)
  {
    NobodyAttacksAtHome(g.p, Black, Sq(0, 4));
    FirstMove(g.p, g.kings);
    HomeGenerals(g.p, g.kings);
    HomeConfined(g.p);
  }

  lemma HomeConfined(p: Placement)
    requires forall s :: s in p ==> OpeningMan(s) == Some(p[s])
    ensures Confined(p)
  {
  }

  lemma HomeGenerals(p: Placement, kings: Kings)
    requires forall s :: s in p <==> OpeningMan(s).Some?
    requires forall s :: s in p ==> OpeningMan(s) == Some(p[s])
    requires AtHome(kings)
    ensures KingsOk(p, kings)
  {
    forall c: Color ensures c in kings && OneGeneral(p, c, kings[c]) {
      assert OpeningMan(kings[c]) == Some(Man(General, c));
    }
  }

  // Red can open with the pawn on its left edge.
  lemma EdgePawnMayOpen(p: Placement, kings: Kings)
    requires forall s :: s in p <==> OpeningMan(s).Some?
    requires forall s :: s in p ==> OpeningMan(s) == Some(p[s])
    requires Red in kings && kings[Red] == Sq(9, 4)
    ensures Legal(p, kings, Sq(6, 0), Sq(5, 0))
  {
    var f, t := Sq(6, 0), Sq(5, 0);
    NobodyAttacksAtHome(Shift(p, p[f], f, t), Red, Sq(9, 4));
  }

  lemma FirstMove(p: Placement, kings: Kings)
    requires forall s :: s in p <==> OpeningMan(s).Some?
    requires forall s :: s in p ==> OpeningMan(s) == Some(p[s])
    requires Red in kings && kings[Red] == Sq(9, 4)
    ensures HasLegal(p, kings, Red)
  {
    EdgePawnMayOpen(p, kings);
    assert CanMove(p, kings, Sq(6, 0));
  }

  // ----- Whole runs -----

  lemma {:induction false} RunKeepsInv(start: Game, inputs: seq<Input>)
    requires start.cur == None && Inv(start)
    ensures Inv(Run(start, inputs))
  {
    if inputs != [] {
      var n := |inputs| - 1;
      RunKeepsInv(start, inputs[..n]);
      StepKeepsInv(start, Run(start, inputs[..n]), inputs[n]);
    }
  }

  // The main theorem: whatever is clicked, no move that is accepted takes a general.
  lemma NoAcceptedMoveTakesAGeneral(inputs: seq<Input>, t: Sq)
    requires Accepts(Run(Opened(), inputs), t)
    ensures var g := Run(Opened(), inputs); t in g.p ==> g.p[t].kind != General
  {
    OpeningInv();
    RunKeepsInv(Opened(), inputs);
    var g := Run(Opened(), inputs);
    NoGeneralTaken(g, g.cur.value, t);
  }

  // ----- The generals never face each other -----

  ghost predicate Facing(p: Placement, kings: Kings)
    requires Red in kings && Black in kings
  {
    kings[Red].col == kings[Black].col && Clear(p, kings[Red], kings[Black])
  }

  // Facing generals attack each other, whichever side is to move.
  lemma FacingIsAttack(p: Placement, kings: Kings, c: Color)
    requires KingsOk(p, kings) && Confined(p) && Facing(p, kings)
    ensures Attacked(p, c, kings[c])
  {
    var mine, theirs := kings[c.Other()], kings[c];
    assert OneGeneral(p, c, theirs) && OneGeneral(p, c.Other(), mine);
    assert forall s :: Between(mine, s, theirs) <==> Between(theirs, s, mine);
    assert Clear(p, mine, theirs);
    assert Flying(p, c.Other(), mine, theirs);
    assert Reaches(p, p[mine], mine, theirs);
  }

  lemma GeneralsNeverFace(inputs: seq<Input>)
    ensures var g := Run(Opened(), inputs); KingsOk(g.p, g.kings) && !Facing(g.p, g.kings)
  {
    OpeningInv();
    RunKeepsInv(Opened(), inputs);
    var g := Run(Opened(), inputs);
    if Facing(g.p, g.kings) {
      FacingIsAttack(g.p, g.kings, g.turn.Other());
    }
  }

  // The flying capture is generated but never played: a general only ever steps.
  lemma GeneralsOnlyStep(inputs: seq<Input>, t: Sq)
    requires var g := Run(Opened(), inputs); Accepts(g, t) && g.p[g.cur.value].kind == General
    ensures var g := Run(Opened(), inputs); GeneralStep(g.turn, g.cur.value, t) && Palace(g.turn, t)
  {
    OpeningInv();
    RunKeepsInv(Opened(), inputs);
    var g := Run(Opened(), inputs);
    NoGeneralTaken(g, g.cur.value, t);
    RulesConfine(g.p, g.p[g.cur.value], g.cur.value, t);
  }

  // ----- Pawns -----

  // A pawn of either side gains a rank, or has crossed and keeps its rank.
  lemma PawnsNeverRetreat(p: Placement, c: Color, f: Sq, t: Sq)
    requires Reaches(p, Man(Pawn, c), f, t) && OnBoard(f)
    ensures Rank(c, t) == Rank(c, f) + 1 || Rank(c, t) == Rank(c, f) >= 5
    ensures Rank(c, f) <= 4 ==> t.col == f.col
  {
  }

  // ----- Conservation of men -----

  ghost function Where(p: Placement, m: Man): set<Sq> {
    set s | s in p && p[s] == m
  }

  ghost function Count(p: Placement, m: Man): nat {
    |Where(p, m)|
  }

  // How many men equal to m input i takes off the board.
  ghost function TakenBy(g: Game, i: Input, m: Man): nat
    requires SelectionOk(g)
  {
    if i.Click? && Accepts(g, i.at) && i.at in g.p && g.p[i.at] == m then 1 else 0
  }

  // How many were taken since the last reset.
  ghost function Taken(start: Game, inputs: seq<Input>, m: Man): nat
    requires start.cur == None
  {
    if inputs == [] || inputs[|inputs| - 1] == Reset then 0
    else
      var n := |inputs| - 1;
      Taken(start, inputs[..n], m) + TakenBy(Run(start, inputs[..n]), inputs[n], m)
  }

  lemma ShiftCounts(p: Placement, f: Sq, t: Sq, m: Man)
    requires f in p && !Friendly(p, p[f].color, t)
    ensures Count(Shift(p, p[f], f, t), m) + (if t in p && p[t] == m then 1 else 0) == Count(p, m)
  {
    var before, after := Where(p, m), Where(Shift(p, p[f], f, t), m);
    if m == p[f] {
      assert after == before - {f} + {t};
    } else if t in p && p[t] == m {
      assert after == before - {t};
    } else {
      assert after == before;
    }
  }

  // Men on the board and men taken always add up to the men of the opening.
  lemma {:induction false} MenAreConserved(start: Game, inputs: seq<Input>, m: Man)
    requires start.cur == None
    ensures Count(Run(start, inputs).p, m) + Taken(start, inputs, m) == Count(start.p, m)
  {
    if inputs != [] {
      var n := |inputs| - 1;
      MenAreConserved(start, inputs[..n], m);
      var g := Run(start, inputs[..n]);
      if inputs[n].Click? && Accepts(g, inputs[n].at) {
        ShiftCounts(g.p, g.cur.value, inputs[n].at, m);
      }
    }
  }
}
