// The exact conditions under which the boards follow the log: for one answer, for one
// request, and for whole runs.
module Following {
  import opened Xiangqi
  import opened Games
  import opened Networks
  import opened Matches
  import opened Ratings
  import opened Servers
  import opened Logs
  import opened Replicas
  import opened Agreement
  import Safety

  // ----- Exactly when an accepted move is shown -----

  // Entry n of the log empties its origin.
  lemma OriginEmpties(start: Game, log: seq<MoveRec>, n: nat)
    requires LogOk(start, log) && n < |log|
    ensures log[n].from in Fold(start, log[..n]).p && log[n].from !in Fold(start, log[..n + 1]).p
  {
    FoldStep(start, log, n);
    assert EntryOk(start, log, n);
  }

  lemma AnswerShows(start: Game, net: Net, log: seq<MoveRec>, n: nat)
    requires LogOk(start, log) && n < |log| && SelectionOk(net.game) && Shows(net, Fold(start, log[..n]))
    requires net.waits != [] && net.waits[0].from == log[n].from && net.waits[0].to == log[n].to
    ensures Shows(NetAnswer(net, Ok), Fold(start, log[..n + 1])) <==> Heeds(net)
  {
    OriginEmpties(start, log, n);
    if Heeds(net) {
      HeededAnswer(start, net, log, n);
    }
  }

  lemma HeededAnswer(start: Game, net: Net, log: seq<MoveRec>, n: nat)
    requires LogOk(start, log) && n < |log| && SelectionOk(net.game) && Shows(net, Fold(start, log[..n]))
    requires net.waits != [] && net.waits[0] == Wait(log[n].from, log[n].to, true) && net.game.cur == Some(log[n].from)
    ensures Shows(NetAnswer(net, Ok), Fold(start, log[..n + 1]))
  {
    ApplyEntry(start, net.game, log, n);
    assert EntryOk(start, log, n);
    var g := net.game;
    assert g.(turn := g.p[log[n].from].color, cur := Some(log[n].from)) == g;
  }

  lemma AnswerAtHead(start: Game, c: Color, s: Side, h: Hub, k: Mark)
    requires ClientOk(start, c, s, h, k) && s.net.online && s.down != [] && s.down[0].Ok?
    ensures SelectionOk(s.net.game) && s.told < |h.log| && Shows(s.net, Fold(start, h.log[..s.told]))
    ensures s.net.waits != [] && s.net.waits[0].from == h.log[s.told].from && s.net.waits[0].to == h.log[s.told].to
  {
    assert k.core != [] && k.core[0] == s.down[0];
    assert Asked(s.net.waits)[0] == Request(h.log[s.told].from, h.log[s.told].to);
  }

  // The client at the answer to an accepted request.
  lemma AnswerIsShown(start: Game, c: Color, s: Side, h: Hub, k: Mark)
    requires LogOk(start, h.log) && ClientOk(start, c, s, h, k) && s.net.online && s.down != [] && s.down[0].Ok?
    ensures NetOk(s.net) && s.told < |h.log|
    ensures Shows(ReadSide(s).net, Fold(start, h.log[..s.told + 1])) <==> Heeds(s.net)
  {
    AnswerAtHead(start, c, s, h, k);
    AnswerShows(start, s.net, h.log, s.told);
  }

  // When c's next message accepts a request, c's board will show the accepted move if
  // and only if that request is still awaited and its piece is the selected one.
  ghost predicate ShownExactly(start: Game, w: World, c: Color) {
    var s, log := w.side.Of(c), w.rec.moves;
    && NetOk(s.net)
    && (s.net.online && s.down != [] && s.down[0].Ok? ==>
          && s.told < |log|
          && (Shows(ReadSide(s).net, Fold(start, log[..s.told + 1])) <==> Heeds(s.net)))
  }

  lemma ShownInWorld(pow10: real -> real, start: Game, users: map<int, User>, w: World, k: Duo<Mark>, c: Color)
    requires Positive(pow10) && Agreement.Inv(pow10, start, users, w, k)
    ensures ShownExactly(start, w, c)
  {
    var s := w.side.Of(c);
    SidesOf(pow10, start, users, w, k, c);
    SelectionOf(start, c, s, HubOf(w), k.Of(c));
    if s.net.online && s.down != [] && s.down[0].Ok? {
      AnswerIsShown(start, c, s, HubOf(w), k.Of(c));
    }
  }

  // So it is at every moment of every careful run.
  lemma AcceptedMoveShowsExactly(pow10: real -> real, w0: World, steps: seq<Step>, c: Color)
    requires Positive(pow10) && Matched(Safety.Opened(), w0) && AllCareful(pow10, Safety.Opened(), w0, steps)
    ensures ShownExactly(Safety.Opened(), Agreement.Run(pow10, w0, steps), c)
  {
    var k := ReachedIsGood(pow10, w0, steps);
    ShownInWorld(pow10, Safety.Opened(), w0.users, Agreement.Run(pow10, w0, steps), k, c);
  }

  // ----- Exactly when an accepted request keeps the log legal -----

  lemma AcceptedRequestIsLegalExactly(start: Game, log: seq<MoveRec>, entry: MoveRec)
    requires LogOk(start, log)
    ensures LogOk(start, log + [entry]) <==> Playable(Fold(start, log), entry.from, entry.to)
  {
    if Playable(Fold(start, log), entry.from, entry.to) {
      LogGrows(start, log, entry);
    }
    if LogOk(start, log + [entry]) {
      assert EntryOk(start, log + [entry], |log|);
      assert (log + [entry])[..|log|] == log;
    }
  }

  // ----- Careful is exactly what the boards need -----

  // The log is a legal game, and each client that was not told of the end shows what
  // the moves it was told of lead to.
  ghost predicate InStep(start: Game, w: World, c: Color) {
    var s, log := w.side.Of(c), w.rec.moves;
    s.net.online ==> s.told <= |log| && Shows(s.net, Fold(start, log[..s.told]))
  }

  ghost predicate Follows(start: Game, w: World) {
    LogOk(start, w.rec.moves) && InStep(start, w, Red) && InStep(start, w, Black)
  }

  // At every moment of the run.
  ghost predicate AllFollow(pow10: real -> real, start: Game, w: World, steps: seq<Step>)
    requires Positive(pow10)
    decreases |steps|
  {
    Follows(start, w) && (steps == [] || AllFollow(pow10, start, Next(pow10, w, steps[0]), steps[1..]))
  }

  lemma GoodFollows(pow10: real -> real, start: Game, users: map<int, User>, w: World, k: Duo<Mark>)
    requires Positive(pow10) && Agreement.Inv(pow10, start, users, w, k)
    ensures NetsOk(w) && Follows(start, w)
  {
    SidesOf(pow10, start, users, w, k, Red);
    FollowingClient(start, Red, w.side.red, HubOf(w), k.red);
    FollowingClient(start, Black, w.side.black, HubOf(w), k.black);
  }

  // A client that was told of the end is accepted nothing more.
  lemma NoOkOffline(start: Game, c: Color, s: Side, h: Hub, k: Mark)
    requires ClientOk(start, c, s, h, k) && s.down != []
    ensures s.down[0].Ok? ==> s.net.online
  {
  }

  lemma CarelessReadShows(pow10: real -> real, start: Game, users: map<int, User>, w: World, k: Duo<Mark>, c: Color)
    requires Positive(pow10) && Agreement.Inv(pow10, start, users, w, k) && NetsOk(w)
    requires !Careful(start, w, ClientRead(c))
    ensures !InStep(start, Next(pow10, w, ClientRead(c)), c)
  {
    SidesOf(pow10, start, users, w, k, c);
    NoOkOffline(start, c, w.side.Of(c), HubOf(w), k.Of(c));
    ShownInWorld(pow10, start, users, w, k, c);
  }

  lemma CarelessServeShows(pow10: real -> real, start: Game, users: map<int, User>, w: World, k: Duo<Mark>, c: Color,
                           t1: int, t2: int, t3: int)
    requires Positive(pow10) && Agreement.Inv(pow10, start, users, w, k)
    requires !Careful(start, w, ServerRead(c, t1, t2, t3))
    ensures !LogOk(start, Serve(pow10, w, c, t1, t2, t3).rec.moves)
  {
    AcceptedIsOn(w, c, t1, t2, t3);
    HeadIsOnBoard(pow10, start, users, w, k, c);
    var entry := AcceptEffect(pow10, w, c, t1, t2, t3);
    AcceptedRequestIsLegalExactly(start, w.rec.moves, entry);
  }

  lemma CarelessShows(pow10: real -> real, start: Game, users: map<int, User>, w: World, k: Duo<Mark>, step: Step)
    requires Positive(pow10) && Agreement.Inv(pow10, start, users, w, k) && !Careful(start, w, step) && NetsOk(w)
    ensures !Follows(start, Next(pow10, w, step))
  {
    if step.ClientRead? {
      CarelessReadShows(pow10, start, users, w, k, step.who);
      assert step.who == Red || step.who == Black;
    } else {
      CarelessServeShows(pow10, start, users, w, k, step.who, step.t1, step.t2, step.t3);
    }
  }

  lemma {:induction false} CarefulIsFollowing(pow10: real -> real, start: Game, users: map<int, User>, w: World,
                                              steps: seq<Step>)
    requires Positive(pow10) && Safety.Inv(start) && Good(pow10, start, users, w)
    ensures AllCareful(pow10, start, w, steps) <==> AllFollow(pow10, start, w, steps)
    decreases |steps|
  {
    var k :| Agreement.Inv(pow10, start, users, w, k);
    GoodFollows(pow10, start, users, w, k);
    if steps != [] {
      if Careful(start, w, steps[0]) {
        NextKeeps(pow10, start, users, w, k, steps[0]);
        CarefulIsFollowing(pow10, start, users, Next(pow10, w, steps[0]), steps[1..]);
      } else {
        CarelessShows(pow10, start, users, w, k, steps[0]);
      }
    }
  }

  // A run from a new match keeps the log legal and both boards in step with it at every
  // moment if and only if it is careful.
  lemma BoardsFollowExactly(pow10: real -> real, w0: World, steps: seq<Step>)
    requires Positive(pow10) && Matched(Safety.Opened(), w0)
    ensures AllFollow(pow10, Safety.Opened(), w0, steps) <==> AllCareful(pow10, Safety.Opened(), w0, steps)
  {
    Safety.OpeningInv();
    MatchedIsGood(pow10, Safety.Opened(), w0);
    CarefulIsFollowing(pow10, Safety.Opened(), w0.users, w0, steps);
  }
}
