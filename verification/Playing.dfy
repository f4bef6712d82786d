// What a run of clicks, resignations and resets means to the player: which moves can be
// played, what stops the game, what starts it again, and what the events tell.
module Playing {
  import opened Xiangqi
  import opened Games

  // ----- Every legal move can be played, and nothing else -----

  // The selected man is one of the side to move.
  predicate OwnSelection(g: Game) {
    g.cur.Some? ==> Friendly(g.p, g.turn, g.cur.value)
  }

  // Whatever was selected: clicking a man of the side to move, unless it is selected
  // already, and then a square plays that move exactly if it is legal, and otherwise
  // moves nothing.
  lemma TwoClicksPlayExactly(g: Game, f: Sq, t: Sq)
    requires OwnSelection(g) && g.status && Friendly(g.p, g.turn, f) && g.cur != Some(f)
    ensures SelectionOk(AfterClick(g, f)) && AfterClick(g, f) == g.(cur := Some(f))
    ensures var g' := AfterClick(AfterClick(g, f), t);
            && (f != t && Legal(g.p, g.kings, f, t) ==>
                  g' == Execute(g.(cur := Some(f)), t) && g'.turn == g.turn.Other())
            && (f == t || !Legal(g.p, g.kings, f, t) ==> g'.(cur := None) == g.(cur := None))
  {
  }

  // A click on the selected man drops the selection; one on an empty or enemy square
  // that is no legal target leaves everything as it was.
  lemma OtherClicks(g: Game, s: Sq)
    requires SelectionOk(g) && g.status
    ensures g.cur == Some(s) ==> AfterClick(g, s) == g.(cur := None)
    ensures !Friendly(g.p, g.turn, s) && g.cur != Some(s) && (g.cur.Some? ==> !Legal(g.p, g.kings, g.cur.value, s)) ==>
              AfterClick(g, s) == g
  {
  }

  // ----- What stops the game and what starts it again -----

  lemma RunSplit(start: Game, a: seq<Input>, i: Input)
    requires start.cur == None
    ensures Run(start, a + [i]) == Step(start, Run(start, a), i)
  {
    assert (a + [i])[..|a|] == a;
  }

  // After a resignation no click and no second resignation changes anything, until the
  // game is reset.
  lemma {:induction false} StoppedGameStands(start: Game, a: seq<Input>, b: seq<Input>)
    requires start.cur == None && Reset !in b
    ensures Run(start, a + [Resign] + b) == Run(start, a).(status := false)
  {
    if b == [] {
      assert a + [Resign] + b == a + [Resign];
      RunSplit(start, a, Resign);
    } else {
      var n := |b| - 1;
      assert a + [Resign] + b == a + [Resign] + b[..n] + [b[n]] && b[n] in b;
      assert Reset !in b[..n];
      StoppedGameStands(start, a, b[..n]);
      RunSplit(start, a + [Resign] + b[..n], b[n]);
    }
  }

  // After a reset the game is played as if for the first time, with Red to move.
  lemma {:induction false} ResetStartsAfresh(start: Game, a: seq<Input>, b: seq<Input>)
    requires start.cur == None && start.events == []
    ensures Run(start, a + [Reset] + b) == Run(start, b).(events := Run(start, a).events + Run(start, b).events)
  {
    if b == [] {
      assert a + [Reset] + b == a + [Reset];
      RunSplit(start, a, Reset);
    } else {
      var n := |b| - 1;
      assert a + [Reset] + b == a + [Reset] + b[..n] + [b[n]] && b == b[..n] + [b[n]];
      ResetStartsAfresh(start, a, b[..n]);
      RunSplit(start, a + [Reset] + b[..n], b[n]);
      RunSplit(start, b[..n], b[n]);
      StepWithOlderEvents(start, Run(start, b[..n]), Run(start, a).events, b[n]);
    }
  }

  lemma StepWithOlderEvents(start: Game, g: Game, older: seq<Event>, i: Input)
    requires SelectionOk(g) && start.cur == None && start.events == []
    ensures Step(start, g.(events := older + g.events), i)
         == Step(start, g, i).(events := older + Step(start, g, i).events)
  {
    var h := g.(events := older + g.events);
    if i.Click? && Accepts(g, i.at) {
      ExecuteEvents(g, i.at);
      ExecuteEvents(h, i.at);
      assert Moved(h, i.at) == Moved(g, i.at).(events := h.events);
      assert older + g.events + NewEvents(g, i.at) == older + (g.events + NewEvents(g, i.at));
    }
  }

  // What one move emits: the end of the game, if this is it, and then the move.
  ghost function NewEvents(g: Game, t: Sq): seq<Event>
    requires g.cur.Some? && SelectionOk(g)
  {
    var m := Moved(g, t);
    Verdict(m.p, m.kings, m.turn) + [MoveMade(g.cur.value, t, g.turn)]
  }

  lemma ExecuteEvents(g: Game, t: Sq)
    requires g.cur.Some? && SelectionOk(g)
    ensures Execute(g, t).events == g.events + NewEvents(g, t)
  {
    var m := Moved(g, t);
    assert g.events + Verdict(m.p, m.kings, m.turn) + [MoveMade(g.cur.value, t, g.turn)] == g.events + NewEvents(g, t);
  }

  // ----- What the events tell -----

  // The game as somebody follows it who only hears the events: the moves, in order, and
  // whether the game is over.
  datatype Heard = Heard(p: Placement, turn: Color, over: bool, sound: bool)

  // sound: every move told was made by a man of the side to move that stood there.
  function Hear(h: Heard, e: Event): Heard {
    match e
    case GameOver(winner, _) => h.(over := true, sound := h.sound && winner == h.turn)
    case MoveMade(f, t, c) =>
      if f in h.p && h.p[f].color == c == h.turn
      then h.(p := (h.p - {f})[t := h.p[f]], turn := if c == Red then Black else Red)
      else h.(sound := false)
  }

  function HearAll(h: Heard, events: seq<Event>): Heard {
    if events == [] then h else Hear(HearAll(h, events[..|events| - 1]), events[|events| - 1])
  }

  lemma {:induction false} HearMore(h: Heard, a: seq<Event>, b: seq<Event>)
    ensures HearAll(h, a + b) == HearAll(HearAll(h, a), b)
  {
    if b == [] {
      assert a + b == a;
    } else {
      assert (a + b)[..|a + b| - 1] == a + b[..|b| - 1];
      HearMore(h, a, b[..|b| - 1]);
    }
  }

  lemma HearMove(g: Game, h: Heard, t: Sq)
    requires SelectionOk(g) && g.cur.Some? && g.p[g.cur.value].color == g.turn
    requires h == Heard(g.p, g.turn, !g.status, true)
    ensures var g' := Execute(g, t); HearAll(h, NewEvents(g, t)) == Heard(g'.p, g'.turn, !g'.status, true)
  {
    var m := Moved(g, t);
    var over, e := Verdict(m.p, m.kings, m.turn), MoveMade(g.cur.value, t, g.turn);
    HearMore(h, over, [e]);
    assert [e][..0] == [] && HearAll(HearAll(h, over), [e]) == Hear(HearAll(h, over), e);
    if over != [] {
      assert over[..0] == [] && HearAll(h, over) == Hear(h, over[0]);
    }
  }

  ghost predicate Tells(h: Heard, g: Game) {
    HearAll(h, g.events) == Heard(g.p, g.turn, !g.status, true)
  }

  lemma ClickTells(h: Heard, g: Game, s: Sq)
    requires OwnSelection(g) && Tells(h, g)
    ensures OwnSelection(AfterClick(g, s)) && Tells(h, AfterClick(g, s))
  {
    if Accepts(g, s) {
      ExecuteEvents(g, s);
      HearMore(h, g.events, NewEvents(g, s));
      HearMove(g, Heard(g.p, g.turn, !g.status, true), s);
    }
  }

  // Without resignation and reset the events tell the whole game: position, side to
  // move, and the end for the side that made the last move.
  lemma {:induction false} EventsTellTheGame(start: Game, inputs: seq<Input>)
    requires start.cur == None && start.events == [] && start.status
    requires forall i :: i in inputs ==> i.Click?
    ensures Tells(Heard(start.p, start.turn, false, true), Run(start, inputs)) && OwnSelection(Run(start, inputs))
  {
    if inputs != [] {
      var n := |inputs| - 1;
      assert inputs[n] in inputs && forall i :: i in inputs[..n] ==> i in inputs;
      EventsTellTheGame(start, inputs[..n]);
      ClickTells(Heard(start.p, start.turn, false, true), Run(start, inputs[..n]), inputs[n].at);
    }
  }

  // ----- A side without its general -----

  // A side with no general, on the board or in the cache, has no legal move and has
  // lost by checkmate.
  lemma WithoutGeneralLost(p: Placement, kings: Kings, c: Color)
    requires c !in kings && forall s :: s in p && p[s].kind == General ==> p[s].color != c
    ensures InDanger(p, kings, c) && Verdict(p, kings, c) == [GameOver(c.Other(), Checkmate)]
  {
  }
}
