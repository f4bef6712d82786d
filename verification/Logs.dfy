// The move log the server keeps, and the game it leads to.
module Logs {
  import opened Xiangqi
  import opened Games
  import opened Networks
  import opened Matches
  import Safety

  // ----- The log and its meaning -----

  // The game after the logged moves.
  ghost function Fold(start: Game, log: seq<MoveRec>): Game {
    if log == [] then start
    else
      var last := log[|log| - 1];
      Force(Fold(start, log[..|log| - 1]), last.from, last.to)
  }

  // Who makes the n-th move.
  function Mover(n: nat): Color {
    if n % 2 == 0 then Red else Black
  }

  // f to t is a legal move of the side to move in g.
  ghost predicate Playable(g: Game, f: Sq, t: Sq) {
    Friendly(g.p, g.turn, f) && OnBoard(f) && f != t && Legal(g.p, g.kings, f, t) && g.status
  }

  // Entry j of the log was playable where it was made.
  ghost predicate EntryOk(start: Game, log: seq<MoveRec>, j: nat) {
    j < |log| && Playable(Fold(start, log[..j]), log[j].from, log[j].to)
  }

  ghost predicate LogOk(start: Game, log: seq<MoveRec>) {
    forall j :: 0 <= j < |log| ==> EntryOk(start, log, j)
  }

  // The one report the end of game g gives rise to.
  ghost function FinalReport(g: Game): Request {
    Report(if g.turn == Black then "red_win" else "black_win",
           if InDanger(g.p, g.kings, g.turn) then "checkmate" else "stalemate")
  }

  // Board, caches, turn, status and events; not the selection.
  predicate Shows(net: Net, g: Game) {
    net.game.(cur := None) == g.(cur := None)
  }

  // ----- Facts about the log -----

  lemma FoldStep(start: Game, log: seq<MoveRec>, n: nat)
    requires n < |log|
    ensures Fold(start, log[..n + 1]) == Force(Fold(start, log[..n]), log[n].from, log[n].to)
  {
    assert log[..n + 1][..n] == log[..n];
  }

  lemma ForceTurn(g: Game, f: Sq, t: Sq)
    requires Playable(g, f, t)
    ensures Force(g, f, t).turn == g.turn.Other() && Force(g, f, t).cur == None
  {
  }

  lemma FoldTurnStep(start: Game, log: seq<MoveRec>, n: nat)
    requires n < |log| && EntryOk(start, log, n) && Fold(start, log[..n]).turn == Mover(n)
    ensures Fold(start, log[..n + 1]).turn == Mover(n + 1) && Fold(start, log[..n + 1]).cur == None
  {
    FoldStep(start, log, n);
    ForceTurn(Fold(start, log[..n]), log[n].from, log[n].to);
  }

  // The turn of the fold is the parity of the log.
  lemma {:induction false} FoldTurn(start: Game, log: seq<MoveRec>, n: nat)
    requires start.turn == Red && start.cur == None && LogOk(start, log) && n <= |log|
    ensures Fold(start, log[..n]).turn == Mover(n) && Fold(start, log[..n]).cur == None
  {
    if n == 0 {
      assert log[..0] == [];
    } else {
      FoldTurn(start, log, n - 1);
      assert EntryOk(start, log, n - 1);
      FoldTurnStep(start, log, n - 1);
    }
  }

  // A playable move keeps the rules' invariant: it is an accepted click.
  lemma ForceIsSafe(g: Game, f: Sq, t: Sq)
    requires Safety.Inv(g) && Playable(g, f, t)
    ensures Safety.Inv(Force(g, f, t))
  {
    var h := g.(cur := Some(f));
    assert Safety.Inv(h);
    Safety.MoveKeepsInv(h, t);
    assert g.(turn := g.p[f].color, cur := Some(f)) == h;
  }

  lemma FoldIsSafeStep(start: Game, log: seq<MoveRec>, n: nat)
    requires n < |log| && EntryOk(start, log, n) && Safety.Inv(Fold(start, log[..n]))
    ensures Safety.Inv(Fold(start, log[..n + 1]))
  {
    FoldStep(start, log, n);
    ForceIsSafe(Fold(start, log[..n]), log[n].from, log[n].to);
  }

  lemma {:induction false} FoldIsSafe(start: Game, log: seq<MoveRec>, n: nat)
    requires Safety.Inv(start) && LogOk(start, log) && n <= |log|
    ensures Safety.Inv(Fold(start, log[..n]))
  {
    if n == 0 {
      assert log[..0] == [];
    } else {
      FoldIsSafe(start, log, n - 1);
      assert EntryOk(start, log, n - 1);
      FoldIsSafeStep(start, log, n - 1);
    }
  }

  lemma LogGrows(start: Game, log: seq<MoveRec>, entry: MoveRec)
    requires LogOk(start, log) && Playable(Fold(start, log), entry.from, entry.to)
    ensures LogOk(start, log + [entry])
    ensures forall n :: 0 <= n <= |log| ==> (log + [entry])[..n] == log[..n]
  {
    var log' := log + [entry];
    forall j | 0 <= j < |log'| ensures EntryOk(start, log', j) {
      assert log'[..j] == log[..j];
      if j == |log| {
        assert log[..j] == log;
      } else {
        assert EntryOk(start, log, j);
      }
    }
  }

  // Playing the last move of a game brings out exactly its report.
  lemma ExecuteReports(g: Game, t: Sq)
    requires g.cur.Some? && SelectionOk(g) && g.status
    ensures var g' := Execute(g, t);
            ReportsSince(g'.events, |g.events|, true) == if g'.status then [] else [FinalReport(g')]
  {
    var after := Moved(g, t);
    assert after.events == g.events;
    var over := Verdict(after.p, after.kings, after.turn);
    var e := Execute(g, t).events;
    assert e == g.events + over + [MoveMade(g.cur.value, t, g.turn)];
    assert e[|g.events|] == if over == [] then MoveMade(g.cur.value, t, g.turn) else over[0];
  }

  // Only the last entry can end the game.
  lemma OnlyTheLastEnds(start: Game, log: seq<MoveRec>, n: nat)
    requires LogOk(start, log) && n <= |log|
    ensures n < |log| ==> Fold(start, log[..n]).status
  {
    if n < |log| {
      assert EntryOk(start, log, n);
    }
  }

  // Applying entry n on a board that shows the entries before it.
  lemma ApplyEntry(start: Game, g: Game, log: seq<MoveRec>, n: nat)
    requires LogOk(start, log) && n < |log| && g.(cur := None) == Fold(start, log[..n]).(cur := None)
    ensures var g' := Force(g, log[n].from, log[n].to);
            && g' == Fold(start, log[..n + 1]) && g'.cur == None && log[n].from in g.p
            && ReportsSince(g'.events, |g.events|, true) == if g'.status then [] else [FinalReport(g')]
  {
    FoldStep(start, log, n);
    assert EntryOk(start, log, n);
    var f, t := log[n].from, log[n].to;
    var h := g.(turn := g.p[f].color, cur := Some(f));
    assert Fold(start, log[..n]).(turn := g.p[f].color, cur := Some(f)) == h;
    ExecuteReports(h, t);
  }

  lemma OverHasNoMove(start: Game, log: seq<MoveRec>)
    requires start.status && LogOk(start, log) && !Fold(start, log).status
    ensures var g := Fold(start, log); !HasLegal(g.p, g.kings, g.turn)
  {
    assert log != [];
    var n := |log| - 1;
    assert EntryOk(start, log, n);
    assert log[..n + 1] == log;
    FoldStep(start, log, n);
  }
}
