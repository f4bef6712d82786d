// The rules do not know left from right, nor Red from Black: rotating the board
// by half a turn while swapping colours, or mirroring it, maps every verdict and
// every run of the turn machine to the corresponding one.
module Symmetry {
  import opened Xiangqi
  import opened Games
  import opened Opening
  import opened Boards
  import Controllers

  datatype Sym = Rotate | Mirror {
    function On(s: Sq): Sq {
      if Rotate? then Sq(9 - s.row, 8 - s.col) else Sq(s.row, 8 - s.col)
    }

    function Dye(c: Color): Color {
      if Rotate? then c.Other() else c
    }

    function Dress(m: Man): Man {
      Man(m.kind, Dye(m.color))
    }

    function OfPlacement(p: Placement): Placement {
      map s | s in p :: On(s) := Dress(p[s])
    }

    function OfKings(kings: Kings): Kings {
      map c | c in kings :: Dye(c) := On(kings[c])
    }

    function OfEvent(e: Event): Event {
      match e
      case MoveMade(f, t, c) => MoveMade(On(f), On(t), Dye(c))
      case GameOver(w, why) => GameOver(Dye(w), why)
    }

    function OfEvents(es: seq<Event>): seq<Event> {
      seq(|es|, i requires 0 <= i < |es| => OfEvent(es[i]))
    }

    function OfGame(g: Game): Game {
      Game(OfPlacement(g.p), OfKings(g.kings), Dye(g.turn), g.status,
           if g.cur.Some? then Some(On(g.cur.value)) else None, OfEvents(g.events))
    }

    function OfInput(i: Input): Input {
      if i.Click? then Click(On(i.at)) else i
    }

    function OfInputs(inputs: seq<Input>): seq<Input> {
      seq(|inputs|, i requires 0 <= i < |inputs| => OfInput(inputs[i]))
    }
  }

  // ----- Geometry -----

  lemma OnTwice(y: Sym, s: Sq)
    ensures y.On(y.On(s)) == s && (OnBoard(y.On(s)) <==> OnBoard(s))
  {
  }

  lemma BetweenImage(y: Sym, f: Sq, s: Sq, t: Sq)
    ensures Between(y.On(f), y.On(s), y.On(t)) <==> Between(f, s, t)
  {
  }

  // Looking up the image of a square in the image of a placement.
  lemma ImageAt(y: Sym, p: Placement, s: Sq)
    ensures y.On(s) in y.OfPlacement(p) <==> s in p
    ensures s in p ==> y.OfPlacement(p)[y.On(s)] == y.Dress(p[s])
  {
    if y.On(s) in y.OfPlacement(p) {
      var s' :| s' in p && y.On(s') == y.On(s);
      OnTwice(y, s');
      OnTwice(y, s);
    }
  }

  lemma ClearImage(y: Sym, p: Placement, f: Sq, t: Sq)
    ensures Clear(y.OfPlacement(p), y.On(f), y.On(t)) <==> Clear(p, f, t)
  {
    var q := y.OfPlacement(p);
    if Clear(p, f, t) {
      forall s | s in q ensures !Between(y.On(f), s, y.On(t)) {
        var s' :| s' in p && y.On(s') == s;
        BetweenImage(y, f, s', t);
      }
    }
    if Clear(q, y.On(f), y.On(t)) {
      forall s | s in p ensures !Between(f, s, t) {
        assert y.On(s) in q;
        BetweenImage(y, f, s, t);
      }
    }
  }

  lemma OnlyScreenImage(y: Sym, p: Placement, f: Sq, t: Sq, s: Sq)
    ensures OnlyScreen(y.OfPlacement(p), y.On(f), y.On(t), y.On(s)) <==> OnlyScreen(p, f, t, s)
  {
    var q := y.OfPlacement(p);
    ImageAt(y, p, s);
    BetweenImage(y, f, s, t);
    if OnlyScreen(p, f, t, s) {
      forall r | r in q && Between(y.On(f), r, y.On(t)) ensures r == y.On(s) {
        var r' :| r' in p && y.On(r') == r;
        BetweenImage(y, f, r', t);
      }
    }
    if OnlyScreen(q, y.On(f), y.On(t), y.On(s)) {
      forall r | r in p && Between(f, r, t) ensures r == s {
        assert y.On(r) in q;
        BetweenImage(y, f, r, t);
        OnTwice(y, r);
        OnTwice(y, s);
      }
    }
  }

  lemma OneScreenImage(y: Sym, p: Placement, f: Sq, t: Sq)
    ensures OneScreen(y.OfPlacement(p), y.On(f), y.On(t)) <==> OneScreen(p, f, t)
  {
    var q := y.OfPlacement(p);
    if OneScreen(p, f, t) {
      var s :| OnlyScreen(p, f, t, s);
      OnlyScreenImage(y, p, f, t, s);
    }
    if OneScreen(q, y.On(f), y.On(t)) {
      var s :| OnlyScreen(q, y.On(f), y.On(t), s);
      OnTwice(y, s);
      OnlyScreenImage(y, p, f, t, y.On(s));
    }
  }

  // ----- The rules -----

  lemma FlyingImage(y: Sym, p: Placement, c: Color, f: Sq, t: Sq)
    ensures Flying(y.OfPlacement(p), y.Dye(c), y.On(f), y.On(t)) <==> Flying(p, c, f, t)
  {
    ImageAt(y, p, t);
    ClearImage(y, p, f, t);
  }

  lemma HorseImage(y: Sym, p: Placement, f: Sq, t: Sq)
    ensures HorseRule(y.OfPlacement(p), y.On(f), y.On(t)) <==> HorseRule(p, f, t)
  {
    ImageAt(y, p, Sq(f.row + (t.row - f.row) / 2, f.col));
    ImageAt(y, p, Sq(f.row, f.col + (t.col - f.col) / 2));
  }

  function Eye(f: Sq, t: Sq): Sq {
    Sq(f.row + (t.row - f.row) / 2, f.col + (t.col - f.col) / 2)
  }

  lemma EyeImage(y: Sym, f: Sq, t: Sq)
    requires Abs(t.row - f.row) == 2 && Abs(t.col - f.col) == 2
    ensures y.On(Eye(f, t)) == Eye(y.On(f), y.On(t))
  {
  }

  lemma ElephantImage(y: Sym, p: Placement, c: Color, f: Sq, t: Sq)
    ensures ElephantRule(y.OfPlacement(p), y.Dye(c), y.On(f), y.On(t)) <==> ElephantRule(p, c, f, t)
  {
    assert HomeHalf(y.Dye(c), y.On(t)) <==> HomeHalf(c, t);
    if Abs(t.row - f.row) == 2 && Abs(t.col - f.col) == 2 {
      EyeImage(y, f, t);
      ImageAt(y, p, Eye(f, t));
    }
  }

  lemma StepsImage(y: Sym, c: Color, f: Sq, t: Sq)
    ensures AdvisorRule(y.Dye(c), y.On(f), y.On(t)) <==> AdvisorRule(c, f, t)
    ensures PawnRule(y.Dye(c), y.On(f), y.On(t)) <==> PawnRule(c, f, t)
    ensures GeneralStep(y.Dye(c), y.On(f), y.On(t)) <==> GeneralStep(c, f, t)
  {
  }

  // Every piece's rule.
  lemma ReachesImage(y: Sym, p: Placement, m: Man, f: Sq, t: Sq)
    ensures Reaches(y.OfPlacement(p), y.Dress(m), y.On(f), y.On(t)) <==> Reaches(p, m, f, t)
  {
    ImageAt(y, p, t);
    StepsImage(y, m.color, f, t);
    if m.kind == Chariot || m.kind == Cannon {
      ClearImage(y, p, f, t);
      OneScreenImage(y, p, f, t);
    } else if m.kind == General {
      FlyingImage(y, p, m.color, f, t);
    } else {
      HorseImage(y, p, f, t);
      ElephantImage(y, p, m.color, f, t);
    }
  }

  lemma AttackedImage(y: Sym, p: Placement, c: Color, k: Sq)
    ensures Attacked(y.OfPlacement(p), y.Dye(c), y.On(k)) <==> Attacked(p, c, k)
  {
    var q := y.OfPlacement(p);
    if Attacked(p, c, k) {
      var s :| s in p && p[s].color == c.Other() && Reaches(p, p[s], s, k);
      ImageAt(y, p, s);
      ReachesImage(y, p, p[s], s, k);
    }
    if Attacked(q, y.Dye(c), y.On(k)) {
      var s :| s in q && q[s].color == y.Dye(c).Other() && Reaches(q, q[s], s, y.On(k));
      var s' :| s' in p && y.On(s') == s;
      ImageAt(y, p, s');
      ReachesImage(y, p, p[s'], s', k);
    }
  }

  lemma InDangerImage(y: Sym, p: Placement, kings: Kings, c: Color)
    ensures InDanger(y.OfPlacement(p), y.OfKings(kings), y.Dye(c)) <==> InDanger(p, kings, c)
  {
    if c in kings {
      AttackedImage(y, p, c, kings[c]);
    }
  }

  lemma ShiftImage(y: Sym, p: Placement, m: Man, f: Sq, t: Sq)
    ensures y.OfPlacement(Shift(p, m, f, t)) == Shift(y.OfPlacement(p), y.Dress(m), y.On(f), y.On(t))
  {
    var a, b := y.OfPlacement(Shift(p, m, f, t)), Shift(y.OfPlacement(p), y.Dress(m), y.On(f), y.On(t));
    forall s ensures (s in a <==> s in b) && (s in a ==> a[s] == b[s]) {
      var r := y.On(s);
      OnTwice(y, s);
      OnTwice(y, f);
      OnTwice(y, t);
      ImageAt(y, Shift(p, m, f, t), r);
      ImageAt(y, p, r);
    }
  }

  lemma KingsAfterImage(y: Sym, kings: Kings, m: Man, t: Sq)
    ensures y.OfKings(KingsAfter(kings, m, t)) == KingsAfter(y.OfKings(kings), y.Dress(m), y.On(t))
  {
  }

  lemma LegalImage(y: Sym, p: Placement, kings: Kings, f: Sq, t: Sq)
    ensures Legal(y.OfPlacement(p), y.OfKings(kings), y.On(f), y.On(t)) <==> Legal(p, kings, f, t)
  {
    ImageAt(y, p, f);
    OnTwice(y, t);
    if f in p {
      ReachesImage(y, p, p[f], f, t);
      ShiftImage(y, p, p[f], f, t);
      KingsAfterImage(y, kings, p[f], t);
      InDangerImage(y, Shift(p, p[f], f, t), KingsAfter(kings, p[f], t), p[f].color);
    }
  }

  lemma CanMoveImage(y: Sym, p: Placement, kings: Kings, f: Sq)
    requires CanMove(p, kings, f)
    ensures CanMove(y.OfPlacement(p), y.OfKings(kings), y.On(f))
  {
    var t :| Legal(p, kings, f, t);
    LegalImage(y, p, kings, f, t);
  }

  lemma CanMovePreimage(y: Sym, p: Placement, kings: Kings, f: Sq)
    requires CanMove(y.OfPlacement(p), y.OfKings(kings), y.On(f))
    ensures CanMove(p, kings, f)
  {
    var t :| Legal(y.OfPlacement(p), y.OfKings(kings), y.On(f), t);
    OnTwice(y, t);
    LegalImage(y, p, kings, f, y.On(t));
  }

  lemma HasLegalForward(y: Sym, p: Placement, kings: Kings, c: Color)
    requires HasLegal(p, kings, c)
    ensures HasLegal(y.OfPlacement(p), y.OfKings(kings), y.Dye(c))
  {
    var f :| f in p && p[f].color == c && CanMove(p, kings, f);
    ImageAt(y, p, f);
    CanMoveImage(y, p, kings, f);
    HasLegalBy(y.OfPlacement(p), y.OfKings(kings), y.Dye(c), y.On(f));
  }

  lemma DyeIsInjective(y: Sym, a: Color, b: Color)
    requires y.Dye(a) == y.Dye(b)
    ensures a == b
  {
  }

  lemma HasLegalBy(p: Placement, kings: Kings, c: Color, f: Sq)
    requires f in p && p[f].color == c && CanMove(p, kings, f)
    ensures HasLegal(p, kings, c)
  {
  }

  lemma HasLegalBackward(y: Sym, p: Placement, kings: Kings, c: Color)
    requires HasLegal(y.OfPlacement(p), y.OfKings(kings), y.Dye(c))
    ensures HasLegal(p, kings, c)
  {
    var q := y.OfPlacement(p);
    var f :| f in q && q[f].color == y.Dye(c) && CanMove(q, y.OfKings(kings), f);
    var s := y.On(f);
    OnTwice(y, f);
    ImageAt(y, p, s);
    assert q[f] == y.Dress(p[s]);
    DyeIsInjective(y, p[s].color, c);
    CanMovePreimage(y, p, kings, s);
    HasLegalBy(p, kings, c, s);
  }

  lemma HasLegalImage(y: Sym, p: Placement, kings: Kings, c: Color)
    ensures HasLegal(y.OfPlacement(p), y.OfKings(kings), y.Dye(c)) <==> HasLegal(p, kings, c)
  {
    if HasLegal(p, kings, c) {
      HasLegalForward(y, p, kings, c);
    }
    if HasLegal(y.OfPlacement(p), y.OfKings(kings), y.Dye(c)) {
      HasLegalBackward(y, p, kings, c);
    }
  }

  // ----- The turn machine -----

  lemma VerdictImage(y: Sym, p: Placement, kings: Kings, c: Color)
    ensures Verdict(y.OfPlacement(p), y.OfKings(kings), y.Dye(c)) == y.OfEvents(Verdict(p, kings, c))
  {
    HasLegalImage(y, p, kings, c);
    InDangerImage(y, p, kings, c);
  }

  lemma EventsImage(y: Sym, a: seq<Event>, b: seq<Event>)
    ensures y.OfEvents(a + b) == y.OfEvents(a) + y.OfEvents(b)
  {
  }

  lemma SelectionImage(y: Sym, g: Game)
    requires SelectionOk(g)
    ensures SelectionOk(y.OfGame(g))
  {
    if g.cur.Some? {
      ImageAt(y, g.p, g.cur.value);
    }
  }

  lemma ExecuteImage(y: Sym, g: Game, t: Sq)
    requires g.cur.Some? && SelectionOk(g) && SelectionOk(y.OfGame(g))
    ensures y.OfGame(Execute(g, t)) == Execute(y.OfGame(g), y.On(t))
  {
    MovedImage(y, g, t);
    JudgedImage(y, Moved(g, t));
    EventImage(y, Judged(Moved(g, t)), MoveMade(g.cur.value, t, g.turn));
  }

  lemma EventImage(y: Sym, g: Game, e: Event)
    ensures y.OfGame(g.(events := g.events + [e])) == y.OfGame(g).(events := y.OfGame(g).events + [y.OfEvent(e)])
  {
    EventsImage(y, g.events, [e]);
  }

  lemma JudgedImage(y: Sym, g: Game)
    ensures y.OfGame(Judged(g)) == Judged(y.OfGame(g))
  {
    VerdictImage(y, g.p, g.kings, g.turn);
    EventsImage(y, g.events, Verdict(g.p, g.kings, g.turn));
  }

  lemma MovedImage(y: Sym, g: Game, t: Sq)
    requires g.cur.Some? && SelectionOk(g) && SelectionOk(y.OfGame(g))
    ensures y.OfGame(Moved(g, t)) == Moved(y.OfGame(g), y.On(t))
  {
    var f := g.cur.value;
    ImageAt(y, g.p, f);
    ShiftImage(y, g.p, g.p[f], f, t);
    KingsAfterImage(y, g.kings, g.p[f], t);
  }

  lemma AcceptsImage(y: Sym, g: Game, s: Sq)
    requires SelectionOk(g) && SelectionOk(y.OfGame(g))
    ensures Accepts(y.OfGame(g), y.On(s)) <==> Accepts(g, s)
  {
    if g.cur.Some? {
      OnTwice(y, g.cur.value);
      OnTwice(y, s);
      LegalImage(y, g.p, g.kings, g.cur.value, s);
    }
  }

  lemma SelectedImage(y: Sym, g: Game, s: Sq)
    ensures y.OfGame(Selected(g, s)) == Selected(y.OfGame(g), y.On(s))
  {
    ImageAt(y, g.p, s);
    if g.cur.Some? {
      OnTwice(y, g.cur.value);
      OnTwice(y, s);
    }
  }

  lemma StepImage(y: Sym, start: Game, g: Game, i: Input)
    requires SelectionOk(g) && start.cur == None && SelectionOk(y.OfGame(g))
    ensures y.OfGame(Step(start, g, i)) == Step(y.OfGame(start), y.OfGame(g), y.OfInput(i))
  {
    if i.Click? {
      AcceptsImage(y, g, i.at);
      if Accepts(g, i.at) {
        ExecuteImage(y, g, i.at);
      } else {
        SelectedImage(y, g, i.at);
      }
    }
  }

  // The image of a run is the run of the images.
  lemma {:induction false} RunImage(y: Sym, start: Game, inputs: seq<Input>)
    requires start.cur == None
    ensures y.OfGame(Run(start, inputs)) == Run(y.OfGame(start), y.OfInputs(inputs))
  {
    if inputs != [] {
      var n := |inputs| - 1;
      RunImage(y, start, inputs[..n]);
      assert y.OfInputs(inputs)[..n] == y.OfInputs(inputs[..n]);
      SelectionImage(y, Run(start, inputs[..n]));
      StepImage(y, start, Run(start, inputs[..n]), inputs[n]);
    }
  }

  lemma MirroredMan(s: Sq)
    ensures OpeningMan(Mirror.On(s)) == OpeningMan(s)
  {
  }

  // What stands on s, if anything.
  function Look(p: Placement, s: Sq): Option<Man> {
    if s in p then Some(p[s]) else None
  }

  lemma SamePlacement(p: Placement, q: Placement)
    requires forall s :: Look(p, s) == Look(q, s)
    ensures p == q
  {
    assert forall s :: (s in p <==> Look(p, s).Some?) && (s in q <==> Look(q, s).Some?);
  }

  lemma SquareMirrored(p: Placement, s: Sq)
    requires Look(p, s) == OpeningMan(s) && Look(p, Mirror.On(s)) == OpeningMan(Mirror.On(s))
    ensures Look(Mirror.OfPlacement(p), s) == Look(p, s)
  {
    OnTwice(Mirror, s);
    ImageAt(Mirror, p, Mirror.On(s));
    MirroredMan(s);
  }

  lemma PlacementMirrored(p: Placement)
    requires forall s :: Look(p, s) == OpeningMan(s)
    ensures Mirror.OfPlacement(p) == p
  {
    forall s ensures Look(Mirror.OfPlacement(p), s) == Look(p, s) {
      SquareMirrored(p, s);
    }
    SamePlacement(Mirror.OfPlacement(p), p);
  }

  lemma StartMirrored()
    ensures Mirror.OfPlacement(PlaceAll(OpeningPosition())) == PlaceAll(OpeningPosition())
    ensures Mirror.OfKings(KingsOf(OpeningPosition())) == KingsOf(OpeningPosition())
  {
    forall s ensures Look(PlaceAll(OpeningPosition()), s) == OpeningMan(s) {
      BothAreTheOpening();
      OpeningSquare(OpeningPosition(), s);
    }
    PlacementMirrored(PlaceAll(OpeningPosition()));
    assert AtHome(KingsOf(OpeningPosition())) by {
      BothAreTheOpening();
      OpeningKings(OpeningPosition());
    }
    KingsMirrored(KingsOf(OpeningPosition()));
  }

  lemma KingsMirrored(kings: Kings)
    requires AtHome(kings)
    ensures Mirror.OfKings(kings) == kings
  {
  }

  lemma FixedGame(g: Game)
    requires Mirror.OfPlacement(g.p) == g.p && Mirror.OfKings(g.kings) == g.kings && g.cur == None && g.events == []
    ensures Mirror.OfGame(g) == g
  {
  }

  // The opening is its own mirror image, so mirrored clicks play the mirrored game.
  lemma MirroredGame(inputs: seq<Input>)
    ensures var start := Controllers.Start(OpeningPosition());
            Mirror.OfGame(Run(start, inputs)) == Run(start, Mirror.OfInputs(inputs))
  {
    var start := Controllers.Start(OpeningPosition());
    StartMirrored();
    FixedGame(start);
    RunImage(Mirror, start, inputs);
  }
}
