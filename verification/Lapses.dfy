// Runs of two honest players that part the boards or spoil the log, for every legal
// opening of the game.
module Lapses {
  import opened Xiangqi
  import opened Games
  import opened Networks
  import opened Matches
  import opened Ratings
  import opened Servers
  import opened Opening
  import opened Logs
  import opened Replicas
  import opened Agreement
  import opened Following
  import Safety

  // ----- Runs -----

  lemma {:induction false} RunSplits(pow10: real -> real, g: Game, w: World, a: seq<Step>, b: seq<Step>)
    requires Positive(pow10)
    ensures Agreement.Run(pow10, w, a + b) == Agreement.Run(pow10, Agreement.Run(pow10, w, a), b)
    ensures AllCareful(pow10, g, w, a + b) <==>
              AllCareful(pow10, g, w, a) && AllCareful(pow10, g, Agreement.Run(pow10, w, a), b)
    decreases |a|
  {
    if a == [] {
      assert a + b == b;
    } else {
      assert (a + b)[1..] == a[1..] + b;
      RunSplits(pow10, g, Next(pow10, w, a[0]), a[1..], b);
    }
  }

  // steps is a careful run from w to w'.
  ghost predicate Leads(pow10: real -> real, g: Game, w: World, steps: seq<Step>, w': World)
    requires Positive(pow10)
  {
    Agreement.Run(pow10, w, steps) == w' && AllCareful(pow10, g, w, steps)
  }

  // One more careful step.
  lemma LeadsOn(pow10: real -> real, g: Game, w: World, steps: seq<Step>, w': World, step: Step, w'': World)
    requires Positive(pow10) && Leads(pow10, g, w, steps, w') && Careful(g, w', step) && Next(pow10, w', step) == w''
    ensures Leads(pow10, g, w, steps + [step], w'')
  {
    RunSplits(pow10, g, w, steps, [step]);
    assert [step][1..] == [];
  }

  // And a last one that need not be.
  lemma RunsOn(pow10: real -> real, g: Game, w: World, steps: seq<Step>, w': World, step: Step)
    requires Positive(pow10) && Leads(pow10, g, w, steps, w')
    ensures Agreement.Run(pow10, w, steps + [step]) == Next(pow10, w', step)
  {
    RunSplits(pow10, g, w, steps, [step]);
    assert [step][1..] == [];
  }

  // ----- The first move, asked for -----

  // A match whose clocks are full and were reset just now.
  predicate Ready(m: MatchRec, now: int) {
    && m.active && m.red != m.black && |m.moves| < MAX_MOVES
    && m.turn == (if Mover(|m.moves|) == Red then "red" else "black")
    && m.redMs == m.blackMs == FULL_CLOCK && m.lastMoveAt == now
  }

  // From g, a match just made, with f to t a legal first move.
  ghost predicate Opens(g: Game, w: World, now: int, f: Sq, t: Sq) {
    && g.turn == Red && g.cur == None && Playable(g, f, t) && Matched(g, w) && Ready(w.rec, now)
  }

  // Red's client once the man on f is selected.
  function Asking(g: Game, f: Sq, waits: seq<Wait>): Net {
    Net(g.(cur := Some(f)), Some(Red), true, true, waits)
  }

  // Red's half of the world when n requests for the first move are on their way.
  function Sent(net: Net, n: nat, f: Sq, t: Sq): Side {
    Side(net, seq(n, _ => Request(f, t)), seq(n, _ => 0), [], 0)
  }

  function Awaited(n: nat, f: Sq, t: Sq): seq<Wait> {
    seq(n, _ => Wait(f, t, true))
  }

  lemma SelectsTheMan(g: Game, w: World, now: int, f: Sq, t: Sq)
    requires Opens(g, w, now, f, t)
    ensures NetsOk(w) && ClickSide(w.side.red, f) == Sent(Asking(g, f, Awaited(0, f, t)), 0, f, t)
  {
  }

  lemma AsksAgain(g: Game, w: World, now: int, f: Sq, t: Sq, n: nat)
    requires Opens(g, w, now, f, t)
    ensures var s := Sent(Asking(g, f, Awaited(n, f, t)), n, f, t);
            NetOk(s.net) && ClickSide(s, t) == Sent(Asking(g, f, Awaited(n + 1, f, t)), n + 1, f, t)
  {
    assert Awaited(n, f, t) + [Wait(f, t, true)] == Awaited(n + 1, f, t);
    assert seq(n, _ => Request(f, t)) + [Request(f, t)] == seq(n + 1, _ => Request(f, t));
    assert seq(n, _ => 0) + [0] == seq(n + 1, _ => 0);
  }

  // One click selects the man, every further one asks for the move once.
  function Clicks(n: nat, f: Sq, t: Sq): seq<Step> {
    if n == 0 then [UserClick(Red, f)] else Clicks(n - 1, f, t) + [UserClick(Red, t)]
  }

  ghost function AfterClicks(g: Game, w: World, n: nat, f: Sq, t: Sq): World {
    w.(side := Duo(Sent(Asking(g, f, Awaited(n, f, t)), n, f, t), w.side.black))
  }

  lemma {:induction false} ClicksAsk(pow10: real -> real, g: Game, w: World, now: int, f: Sq, t: Sq, n: nat)
    requires Positive(pow10) && Opens(g, w, now, f, t)
    ensures Leads(pow10, g, w, Clicks(n, f, t), AfterClicks(g, w, n, f, t))
  {
    if n == 0 {
      SelectsTheMan(g, w, now, f, t);
      assert Leads(pow10, g, w, [], w);
      LeadsOn(pow10, g, w, [], w, UserClick(Red, f), AfterClicks(g, w, 0, f, t));
      assert [] + [UserClick(Red, f)] == [UserClick(Red, f)];
    } else {
      ClicksAsk(pow10, g, w, now, f, t, n - 1);
      AsksAgain(g, w, now, f, t, n - 1);
      LeadsOn(pow10, g, w, Clicks(n - 1, f, t), AfterClicks(g, w, n - 1, f, t), UserClick(Red, t),
              AfterClicks(g, w, n, f, t));
    }
  }

  // The record once the server has taken one more move.
  function Taken(m: MatchRec, now: int, f: Sq, t: Sq): MatchRec {
    m.(moves := m.moves + [MoveRec(f, t, now, FULL_CLOCK, FULL_CLOCK)],
       turn := if Mover(|m.moves|) == Red then "black" else "red")
  }

  lemma MoveIsTaken(m: MatchRec, now: int, c: Color, f: Sq, t: Sq)
    requires Ready(m, now) && Mover(|m.moves|) == c && OnBoard(f) && OnBoard(t)
    ensures PlayOn(m, UserOf(m, c), f, t, now, now, now) == (Taken(m, now, f, t), Accepted(UserOf(m, c.Other()), f, t))
    ensures |m.moves| + 1 < MAX_MOVES ==> Ready(Taken(m, now, f, t), now)
  {
    assert UpdateTimer(m, now) == m && Logged(m, f, t, now) == MoveRec(f, t, now, FULL_CLOCK, FULL_CLOCK);
  }

  // The server takes the first of n requests, whatever became of Red's client meanwhile.
  ghost function AfterTaking(w: World, now: int, net: Net, n: nat, f: Sq, t: Sq): World
    requires n > 0
  {
    World(Duo(Sent(net, n - 1, f, t).(down := [Ok]), w.side.black.(down := [OpponentMove(f, t)])),
          Taken(w.rec, now, f, t), [], w.users)
  }

  lemma TakesOne(net: Net, n: nat, f: Sq, t: Sq)
    requires n > 0
    ensures var s := Sent(net, n, f, t);
            s.up[0] == Request(f, t) && s.made[0] == 0 && TakeUp(s) == Sent(net, n - 1, f, t)
  {
    var s := Sent(net, n, f, t);
    assert s.up[1..] == seq(n - 1, _ => Request(f, t)) && s.made[1..] == seq(n - 1, _ => 0);
  }

  lemma ServerTakes(pow10: real -> real, g: Game, w: World, now: int, net: Net, n: nat, f: Sq, t: Sq)
    requires Positive(pow10) && Opens(g, w, now, f, t) && NetOk(net) && n > 0
    ensures var w1, step := w.(side := w.side.With(Red, Sent(net, n, f, t))), ServerRead(Red, now, now, now);
            Careful(g, w1, step) && Next(pow10, w1, step) == AfterTaking(w, now, net, n, f, t)
  {
    MoveIsTaken(w.rec, now, Red, f, t);
    assert Fold(g, w.rec.moves) == g;
    TakesOne(net, n, f, t);
    var w1 := w.(side := w.side.With(Red, Sent(net, n - 1, f, t)));
    assert ServeMove(w1, Red, Request(f, t), now, now, now) == AfterTaking(w, now, net, n, f, t) by {
      assert [] + [Ok] == [Ok] && [] + [OpponentMove(f, t)] == [OpponentMove(f, t)];
    }
  }

  // Black sees the move.
  ghost function AfterShowing(g: Game, w: World, now: int, net: Net, n: nat, f: Sq, t: Sq): World
    requires n > 0
  {
    var log := Taken(w.rec, now, f, t).moves;
    var black := Side(HasApplied(g, w.side.black.net, log, 0, true, []), SentAfter(g, log, 0), [], [], 1);
    AfterTaking(w, now, net, n, f, t).(side := Duo(Sent(net, n - 1, f, t).(down := [Ok]), black))
  }

  lemma OneEntry(g: Game, f: Sq, t: Sq, log: seq<MoveRec>)
    requires Playable(g, f, t) && |log| == 1 && log[0].from == f && log[0].to == t
    ensures LogOk(g, log) && log[..0] == [] && log[..1] == log && Fold(g, log) == Force(g, f, t)
  {
    assert EntryOk(g, log, 0);
  }

  lemma BlackSees(pow10: real -> real, g: Game, w: World, now: int, net: Net, n: nat, f: Sq, t: Sq)
    requires Positive(pow10) && Opens(g, w, now, f, t) && NetOk(net) && n > 0
    ensures var w1, step := AfterTaking(w, now, net, n, f, t), ClientRead(Black);
            Careful(g, w1, step) && Next(pow10, w1, step) == AfterShowing(g, w, now, net, n, f, t)
  {
    var w1 := AfterTaking(w, now, net, n, f, t);
    OneEntry(g, f, t, w1.rec.moves);
    OpponentMoveIsEntry(g, w.side.black.net, w1.rec.moves, 0);
    assert [OpponentMove(f, t)][1..] == [];
    assert [] + SentAfter(g, w1.rec.moves, 0) == SentAfter(g, w1.rec.moves, 0);
  }

  // ----- One lapse parts the boards -----

  // While Red waits he selects another of his men or deselects the one he moved, or
  // the answer takes longer than ten seconds.
  predicate IsLapse(g: Game, step: Step) {
    || (step.UserClick? && step.who == Red && Friendly(g.p, Red, step.at))
    || step == RequestTimeout(Red, 0)
  }

  ghost function Lapsed(g: Game, f: Sq, t: Sq, step: Step): Net
    requires IsLapse(g, step)
  {
    if step.RequestTimeout? then Asking(g, f, [Wait(f, t, false)])
    else Asking(g, f, [Wait(f, t, true)]).(game := if step.at == f then g else g.(cur := Some(step.at)))
  }

  lemma LapseEffect(g: Game, w: World, now: int, f: Sq, t: Sq, step: Step)
    requires Opens(g, w, now, f, t) && IsLapse(g, step)
    ensures var net, w1 := Lapsed(g, f, t, step), AfterClicks(g, w, 1, f, t);
            NetOk(net) && !Heeds(net) && NetsOk(w1)
            && (step.UserClick? ==> ClickSide(w1.side.red, step.at) == Sent(net, 1, f, t))
            && (step.RequestTimeout? ==> w1.side.red.(net := NetTimeout(w1.side.red.net, 0)) == Sent(net, 1, f, t))
  {
    assert Awaited(1, f, t) == [Wait(f, t, true)];
    assert [Wait(f, t, true)][0 := Wait(f, t, false)] == [Wait(f, t, false)];
  }

  // Up to the answer the run is careful.
  function UpToAnswer(now: int, f: Sq, t: Sq, step: Step): seq<Step> {
    Clicks(1, f, t) + [step] + [ServerRead(Red, now, now, now)] + [ClientRead(Black)]
  }

  lemma CarefulSoFar(pow10: real -> real, g: Game, w: World, now: int, f: Sq, t: Sq, step: Step)
    requires Positive(pow10) && Opens(g, w, now, f, t) && IsLapse(g, step)
    ensures NetOk(Lapsed(g, f, t, step))
    ensures Leads(pow10, g, w, UpToAnswer(now, f, t, step), AfterShowing(g, w, now, Lapsed(g, f, t, step), 1, f, t))
  {
    var net := Lapsed(g, f, t, step);
    var w1, steps := w.(side := w.side.With(Red, Sent(net, 1, f, t))), Clicks(1, f, t);
    LapseEffect(g, w, now, f, t, step);
    ClicksAsk(pow10, g, w, now, f, t, 1);
    LeadsOn(pow10, g, w, steps, AfterClicks(g, w, 1, f, t), step, w1);
    steps := steps + [step];
    ServerTakes(pow10, g, w, now, net, 1, f, t);
    LeadsOn(pow10, g, w, steps, w1, ServerRead(Red, now, now, now), AfterTaking(w, now, net, 1, f, t));
    steps := steps + [ServerRead(Red, now, now, now)];
    BlackSees(pow10, g, w, now, net, 1, f, t);
    LeadsOn(pow10, g, w, steps, AfterTaking(w, now, net, 1, f, t), ClientRead(Black),
            AfterShowing(g, w, now, net, 1, f, t));
  }

  // The log has the move and Black's board shows it; Red's does not, and nothing that
  // could change this is on its way to either client.
  ghost predicate Parted(g: Game, w: World, f: Sq, t: Sq) {
    var red, black, log := w.side.red, w.side.black, w.rec.moves;
    && w.rec.active && |log| == 1 && LogOk(g, log) && log[0].from == f && log[0].to == t
    && red.down == black.down == []
    && Shows(black.net, Fold(g, log)) && !Shows(red.net, Fold(g, log))
  }

  // Red reads the answer.
  lemma RedReads(pow10: real -> real, g: Game, w: World, now: int, net: Net, f: Sq, t: Sq)
    requires Positive(pow10) && Opens(g, w, now, f, t) && NetOk(net)
    ensures var w5 := AfterShowing(g, w, now, net, 1, f, t);
            var w6 := Next(pow10, w5, ClientRead(Red));
            && w6.side.black == w5.side.black && w6.rec == w5.rec && w6.side.red.down == []
            && w6.side.red.net == NetAnswer(net, Ok)
  {
    var w5 := AfterShowing(g, w, now, net, 1, f, t);
    OneEntryIsShown(g, w.side.black.net, w5.rec.moves, f, t);
    assert [Ok][1..] == [] && NetsOk(w5);
  }

  lemma RedMisses(pow10: real -> real, g: Game, w: World, now: int, net: Net, f: Sq, t: Sq)
    requires Positive(pow10) && Opens(g, w, now, f, t) && NetOk(net) && net.game.(cur := None) == g
    requires |net.waits| == 1 && net.waits[0].from == f && net.waits[0].to == t && !Heeds(net)
    ensures Parted(g, Next(pow10, AfterShowing(g, w, now, net, 1, f, t), ClientRead(Red)), f, t)
  {
    var w5 := AfterShowing(g, w, now, net, 1, f, t);
    OneEntry(g, f, t, w5.rec.moves);
    OneEntryIsShown(g, w.side.black.net, w5.rec.moves, f, t);
    RedReads(pow10, g, w, now, net, f, t);
    AnswerShows(g, net, w5.rec.moves, 0);
  }

  lemma OneEntryIsShown(g: Game, net: Net, log: seq<MoveRec>, f: Sq, t: Sq)
    requires Playable(g, f, t) && |log| == 1 && log[0].from == f && log[0].to == t
    ensures Shows(HasApplied(g, net, log, 0, true, []), Fold(g, log)) && NetOk(HasApplied(g, net, log, 0, true, []))
  {
    OneEntry(g, f, t, log);
  }

  // So it ends for every legal first move and every lapse, and the answer to the move
  // is where it goes wrong: up to there the run is careful.
  lemma ALapsePartsTheBoards(pow10: real -> real, g: Game, w: World, now: int, f: Sq, t: Sq, step: Step)
    requires Positive(pow10) && Opens(g, w, now, f, t) && IsLapse(g, step)
    ensures AllCareful(pow10, g, w, UpToAnswer(now, f, t, step))
    ensures Parted(g, Agreement.Run(pow10, w, UpToAnswer(now, f, t, step) + [ClientRead(Red)]), f, t)
  {
    var net := Lapsed(g, f, t, step);
    CarefulSoFar(pow10, g, w, now, f, t, step);
    RunsOn(pow10, g, w, UpToAnswer(now, f, t, step), AfterShowing(g, w, now, net, 1, f, t), ClientRead(Red));
    LapseEffect(g, w, now, f, t, step);
    RedMisses(pow10, g, w, now, net, f, t);
  }

  // ----- A request sent twice -----

  // Black, who has just seen Red's first move, selects and asks.
  ghost function BlackAsked(w: World, g1: Game, bf: Sq, bt: Sq): World {
    w.(side := w.side.With(Black, Side(Net(g1.(cur := Some(bf)), Some(Black), true, true, [Wait(bf, bt, true)]),
                                       [Request(bf, bt)], [1], [], 1)))
  }

  ghost function BlackSelected(w: World, g1: Game, bf: Sq): World {
    w.(side := w.side.With(Black, Side(Net(g1.(cur := Some(bf)), Some(Black), true, true, []), [], [], [], 1)))
  }

  lemma BlackAsks(pow10: real -> real, w: World, g1: Game, bf: Sq, bt: Sq)
    requires Positive(pow10) && NetOk(w.side.red.net) && g1.turn == Black && g1.cur == None && Playable(g1, bf, bt)
    requires w.side.black == Side(Net(g1, Some(Black), true, true, []), [], [], [], 1)
    ensures Next(pow10, w, UserClick(Black, bf)) == BlackSelected(w, g1, bf)
    ensures Next(pow10, BlackSelected(w, g1, bf), UserClick(Black, bt)) == BlackAsked(w, g1, bf, bt)
  {
    assert [] + [Wait(bf, bt, true)] == [Wait(bf, bt, true)];
    assert [] + [Request(bf, bt)] == [Request(bf, bt)];
    var none: seq<nat> := [];
    assert none + [1] == [1];
  }

  lemma BlackIsTaken(pow10: real -> real, g: Game, w: World, now: int, bf: Sq, bt: Sq) returns (w': World)
    requires Positive(pow10) && NetsOk(w) && Ready(w.rec, now)
    requires |w.rec.moves| == 1 && Playable(Fold(g, w.rec.moves), bf, bt)
    requires w.side.black.up == [Request(bf, bt)] && w.side.black.made == [1]
    ensures Careful(g, w, ServerRead(Black, now, now, now)) && Next(pow10, w, ServerRead(Black, now, now, now)) == w'
    ensures w'.rec == Taken(w.rec, now, bf, bt) && Ready(w'.rec, now) && NetsOk(w') && w'.side.red.up == w.side.red.up
  {
    MoveIsTaken(w.rec, now, Black, bf, bt);
    w' := Next(pow10, w, ServerRead(Black, now, now, now));
  }

  lemma RedIsTakenAgain(pow10: real -> real, w: World, now: int, f: Sq, t: Sq)
    requires Positive(pow10) && NetsOk(w) && Ready(w.rec, now) && |w.rec.moves| == 2 && OnBoard(f) && OnBoard(t)
    requires w.side.red.up == [Request(f, t)]
    ensures Next(pow10, w, ServerRead(Red, now, now, now)).rec == Taken(w.rec, now, f, t)
  {
    MoveIsTaken(w.rec, now, Red, f, t);
  }

  // After a move and any reply its origin holds no man of the mover's.
  lemma NotTwice(g: Game, f: Sq, t: Sq, bf: Sq, bt: Sq, log: seq<MoveRec>)
    requires Playable(g, f, t) && Playable(Force(g, f, t), bf, bt) && |log| == 3
    requires log[0].from == f && log[0].to == t && log[1].from == bf && log[1].to == bt && log[2].from == f
    ensures LogOk(g, log[..2]) && !LogOk(g, log)
  {
    OneEntry(g, f, t, log[..1]);
    assert log[..2][..1] == log[..1] && log[..2] == log[..1] + [log[1]];
    LogGrows(g, log[..1], log[1]);
    FoldStep(g, log, 1);
    assert !EntryOk(g, log, 2);
  }

  // Red clicks his target twice; Black answers before the server reads the second request.
  function TwoRequests(now: int, f: Sq, t: Sq, bf: Sq, bt: Sq): seq<Step> {
    Clicks(2, f, t) + [ServerRead(Red, now, now, now)] + [ClientRead(Black)]
    + [UserClick(Black, bf)] + [UserClick(Black, bt)] + [ServerRead(Black, now, now, now)]
  }

  lemma TwoRequestsInFlight(pow10: real -> real, g: Game, w: World, now: int, f: Sq, t: Sq, bf: Sq, bt: Sq)
    returns (w7: World)
    requires Positive(pow10) && Opens(g, w, now, f, t) && Playable(Force(g, f, t), bf, bt)
    ensures Leads(pow10, g, w, TwoRequests(now, f, t, bf, bt), w7) && NetsOk(w7) && w7.side.red.up == [Request(f, t)]
    ensures w7.rec == Taken(Taken(w.rec, now, f, t), now, bf, bt) && Ready(w7.rec, now)
  {
    var net, steps := Asking(g, f, Awaited(2, f, t)), Clicks(2, f, t);
    ClicksAsk(pow10, g, w, now, f, t, 2);
    var w2, w3 := AfterClicks(g, w, 2, f, t), AfterTaking(w, now, net, 2, f, t);
    var w4 := AfterShowing(g, w, now, net, 2, f, t);
    ServerTakes(pow10, g, w, now, net, 2, f, t);
    LeadsOn(pow10, g, w, steps, w2, ServerRead(Red, now, now, now), w3);
    steps := steps + [ServerRead(Red, now, now, now)];
    BlackSees(pow10, g, w, now, net, 2, f, t);
    LeadsOn(pow10, g, w, steps, w3, ClientRead(Black), w4);
    steps := steps + [ClientRead(Black)];
    var g1 := Force(g, f, t);
    AfterFirst(g, w, now, net, f, t, bf, bt);
    BlackAsks(pow10, w4, g1, bf, bt);
    LeadsOn(pow10, g, w, steps, w4, UserClick(Black, bf), BlackSelected(w4, g1, bf));
    steps := steps + [UserClick(Black, bf)];
    LeadsOn(pow10, g, w, steps, BlackSelected(w4, g1, bf), UserClick(Black, bt), BlackAsked(w4, g1, bf, bt));
    steps := steps + [UserClick(Black, bt)];
    w7 := BlackIsTaken(pow10, g, BlackAsked(w4, g1, bf, bt), now, bf, bt);
    LeadsOn(pow10, g, w, steps, BlackAsked(w4, g1, bf, bt), ServerRead(Black, now, now, now), w7);
  }

  lemma AfterFirst(g: Game, w: World, now: int, net: Net, f: Sq, t: Sq, bf: Sq, bt: Sq)
    requires Opens(g, w, now, f, t) && NetOk(net) && Playable(Force(g, f, t), bf, bt)
    ensures var g1, w4 := Force(g, f, t), AfterShowing(g, w, now, net, 2, f, t);
            && w4.side.black == Side(Net(g1, Some(Black), true, true, []), [], [], [], 1)
            && g1.turn == Black && g1.cur == None && w4.side.red.up == [Request(f, t)] && OnBoard(bt)
            && w4.rec == Taken(w.rec, now, f, t) && Ready(w4.rec, now) && Fold(g, w4.rec.moves) == g1
  {
    OneEntry(g, f, t, Taken(w.rec, now, f, t).moves);
    ForceTurn(g, f, t);
  }

  // For every legal first move and every legal reply: the server takes the second copy
  // of the request as Red's second move, and the log is no longer a legal game.
  lemma ARepeatedRequestBreaksTheLog(pow10: real -> real, g: Game, w: World, now: int, f: Sq, t: Sq, bf: Sq, bt: Sq)
    requires Positive(pow10) && Opens(g, w, now, f, t) && Playable(Force(g, f, t), bf, bt)
    ensures AllCareful(pow10, g, w, TwoRequests(now, f, t, bf, bt))
    ensures var steps := TwoRequests(now, f, t, bf, bt) + [ServerRead(Red, now, now, now)];
            var log := Agreement.Run(pow10, w, steps).rec.moves;
            |log| == 3 && LogOk(g, log[..2]) && !LogOk(g, log)
  {
    var w7 := TwoRequestsInFlight(pow10, g, w, now, f, t, bf, bt);
    RunsOn(pow10, g, w, TwoRequests(now, f, t, bf, bt), w7, ServerRead(Red, now, now, now));
    RedIsTakenAgain(pow10, w7, now, f, t);
    NotTwice(g, f, t, bf, bt, Taken(w7.rec, now, f, t).moves);
  }

  // ----- Such openings exist -----

  // The opening position, set up square by square.
  ghost predicate AtOpening(g: Game) {
    && (forall s :: s in g.p <==> OpeningMan(s).Some?) && (forall s :: s in g.p ==> OpeningMan(s) == Some(g.p[s]))
    && AtHome(g.kings) && g.turn == Red && g.status && g.cur == None
  }

  lemma OpenedIsOpening()
    ensures AtOpening(Safety.Opened())
  {
    BothAreTheOpening();
    OpeningSquares(OpeningPosition());
    OpeningKings(OpeningPosition());
  }

  // Red's and Black's pawns on the left edge may both step ahead.
  lemma EdgePawnsMayOpen(g: Game)
    requires AtOpening(g)
    ensures Playable(g, Sq(6, 0), Sq(5, 0)) && Friendly(g.p, Red, Sq(6, 2))
    ensures Playable(Force(g, Sq(6, 0), Sq(5, 0)), Sq(3, 0), Sq(4, 0))
  {
    Safety.EdgePawnMayOpen(g.p, g.kings);
    var m := Moved(g.(cur := Some(Sq(6, 0))), Sq(5, 0));
    BlackPawnMayAnswer(g, m);
    assert CanMove(m.p, m.kings, Sq(3, 0));
    assert HasLegal(m.p, m.kings, Black);
    assert g.(turn := g.p[Sq(6, 0)].color, cur := Some(Sq(6, 0))) == g.(cur := Some(Sq(6, 0)));
  }

  lemma BlackPawnMayAnswer(g: Game, m: Game)
    requires AtOpening(g) && m == Moved(g.(cur := Some(Sq(6, 0))), Sq(5, 0))
    ensures Legal(m.p, m.kings, Sq(3, 0), Sq(4, 0)) && m.p[Sq(3, 0)].color == Black && m.status
  {
    var f, t := Sq(3, 0), Sq(4, 0);
    Safety.NobodyAttacksAtHome(Shift(m.p, m.p[f], f, t), Black, Sq(0, 4));
  }

  // From the opening, with the pawns on the left edge: selecting the pawn on (6,2)
  // while the move of the one on (6,0) is in flight parts the boards, and clicking
  // (5,0) twice breaks the log.
  lemma TheEdgePawn(pow10: real -> real, w: World, now: int)
    requires Positive(pow10) && Matched(Safety.Opened(), w) && Ready(w.rec, now)
    ensures var steps := UpToAnswer(now, Sq(6, 0), Sq(5, 0), UserClick(Red, Sq(6, 2))) + [ClientRead(Red)];
            Parted(Safety.Opened(), Agreement.Run(pow10, w, steps), Sq(6, 0), Sq(5, 0))
    ensures var steps := TwoRequests(now, Sq(6, 0), Sq(5, 0), Sq(3, 0), Sq(4, 0)) + [ServerRead(Red, now, now, now)];
            !LogOk(Safety.Opened(), Agreement.Run(pow10, w, steps).rec.moves)
  {
    OpenedIsOpening();
    EdgePawnsMayOpen(Safety.Opened());
    ALapsePartsTheBoards(pow10, Safety.Opened(), w, now, Sq(6, 0), Sq(5, 0), UserClick(Red, Sq(6, 2)));
    ARepeatedRequestBreaksTheLog(pow10, Safety.Opened(), w, now, Sq(6, 0), Sq(5, 0), Sq(3, 0), Sq(4, 0));
  }
}
