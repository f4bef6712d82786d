// Whole runs of two clients and the server: when the boards agree, how the match
// ends, and what careless clicks, late requests and timers break.
module Agreement {
  import opened Xiangqi
  import opened Games
  import opened Networks
  import opened Matches
  import opened Ratings
  import opened Servers
  import opened Logs
  import opened Replicas
  import Safety

  // ----- The invariant of the world -----

  predicate Announced(w: World) {
    w.ended != [] && !w.ended[0].Lost?
  }

  function HubOf(w: World): Hub {
    Hub(w.rec.moves, w.rec.active, Announced(w))
  }

  // An ended match has one ending, paid once; a report names what the log leads to.
  ghost predicate EndOk(pow10: real -> real, start: Game, users: map<int, User>, w: World)
    requires Positive(pow10)
  {
    if w.rec.active then w.ended == [] && w.users == users
    else
      && |w.ended| == 1 && w.users == Paid(pow10, users, w.rec, w.ended[0])
      && w.rec.result == Clip(w.ended[0].result, 15) && w.rec.endReason == Clip(w.ended[0].Why(), 31)
      && (w.ended[0].ByReport? ==> IsFinal(start, w.rec.moves, w.ended[0]))
  }

  ghost predicate IsFinal(start: Game, log: seq<MoveRec>, e: Ending)
    requires e.ByReport?
  {
    var g := Fold(start, log);
    !g.status && Report(e.result, e.reason) == FinalReport(g)
  }

  ghost predicate Sound(pow10: real -> real, start: Game, users: map<int, User>, w: World)
    requires Positive(pow10)
  {
    LogOk(start, w.rec.moves) && w.rec.red != w.rec.black && EndOk(pow10, start, users, w)
  }

  ghost predicate SideOk(start: Game, w: World, c: Color, k: Mark) {
    ClientOk(start, c, w.side.Of(c), HubOf(w), k)
  }

  ghost predicate Inv(pow10: real -> real, start: Game, users: map<int, User>, w: World, k: Duo<Mark>)
    requires Positive(pow10)
  {
    Sound(pow10, start, users, w) && SideOk(start, w, Red, k.red) && SideOk(start, w, Black, k.black)
  }

  ghost predicate Good(pow10: real -> real, start: Game, users: map<int, User>, w: World)
    requires Positive(pow10)
  {
    exists k :: Inv(pow10, start, users, w, k)
  }

  // Both sides, seen from c's.
  lemma BothSides(pow10: real -> real, start: Game, users: map<int, User>, w: World, c: Color, k: Mark, other: Mark)
    requires Positive(pow10) && Sound(pow10, start, users, w)
    requires SideOk(start, w, c, k) && SideOk(start, w, c.Other(), other)
    ensures Good(pow10, start, users, w)
  {
    assert Inv(pow10, start, users, w, if c == Red then Duo(k, other) else Duo(other, k));
  }

  // The same from the parts of the world.
  lemma PutTogether(pow10: real -> real, start: Game, users: map<int, User>, w: World, c: Color,
                    s: Side, other: Side, h: Hub, k: Mark, k': Mark)
    requires Positive(pow10) && Sound(pow10, start, users, w) && HubOf(w) == h
    requires w.side.Of(c) == s && w.side.Of(c.Other()) == other
    requires ClientOk(start, c, s, h, k) && ClientOk(start, c.Other(), other, h, k')
    ensures Good(pow10, start, users, w)
  {
    BothSides(pow10, start, users, w, c, k, k');
  }

  // The parts of a good world.
  lemma SidesOf(pow10: real -> real, start: Game, users: map<int, User>, w: World, k: Duo<Mark>, c: Color)
    requires Positive(pow10) && Inv(pow10, start, users, w, k)
    ensures Sound(pow10, start, users, w)
    ensures ClientOk(start, c, w.side.Of(c), HubOf(w), k.Of(c))
    ensures ClientOk(start, c.Other(), w.side.Of(c.Other()), HubOf(w), k.Of(c.Other()))
  {
    assert SideOk(start, w, Red, k.red) && SideOk(start, w, Black, k.black);
  }

  // ----- The server's steps -----

  // A refusal says "not your turn" only when it is not; a refused request leaves no
  // trace in log, result or players.
  lemma RefusalFacts(m: MatchRec, c: Color, f: Sq, t: Sq, t1: int, t2: int, t3: int)
    requires m.red != m.black
    ensures var (m', reply) := PlayOn(m, UserOf(m, c), f, t, t1, t2, t3);
            reply.Rejected? ==>
              && (reply.why == "Not your turn" ==> Mover(|m.moves|) != c)
              && SameMatch(m, m') && m'.moves == m.moves
  {
  }

  predicate SamePlayers(m: MatchRec, m': MatchRec) {
    m'.id == m.id && m'.red == m.red && m'.black == m.black && m'.rated == m.rated
  }

  predicate SameMatch(m: MatchRec, m': MatchRec) {
    SamePlayers(m, m') && m'.active == m.active && m'.result == m.result && m'.endReason == m.endReason
  }

  // An accepted request is the mover's, in a match that is on, and logged as sent.
  lemma HonestRequest(m: MatchRec, c: Color, f: Sq, t: Sq, t1: int, t2: int, t3: int)
    requires m.red != m.black && OnBoard(f) && OnBoard(t)
    ensures var (m', reply) := PlayOn(m, UserOf(m, c), f, t, t1, t2, t3);
            reply.Accepted? ==>
              && m.active && Mover(|m.moves|) == c && SameMatch(m, m')
              && reply == Accepted(UserOf(m, c.Other()), f, t)
              && |m'.moves| == |m.moves| + 1 && m'.moves[..|m.moves|] == m.moves
              && m'.moves[|m.moves|].from == f && m'.moves[|m.moves|].to == t
  {
  }

  // The other records the same match gives the same payment.
  lemma PaidAlike(pow10: real -> real, users: map<int, User>, m: MatchRec, m': MatchRec, e: Ending)
    requires Positive(pow10) && SamePlayers(m, m')
    ensures Paid(pow10, users, m', e) == Paid(pow10, users, m, e)
  {
  }

  lemma SoundStays(pow10: real -> real, start: Game, users: map<int, User>, w: World, w': World)
    requires Positive(pow10) && Sound(pow10, start, users, w) && SameMatch(w.rec, w'.rec)
    requires w'.users == w.users && w'.ended == w.ended && LogOk(start, w'.rec.moves)
    requires w'.rec.moves == w.rec.moves || w.rec.active
    ensures Sound(pow10, start, users, w')
  {
    if !w.rec.active {
      PaidAlike(pow10, users, w.rec, w'.rec, w.ended[0]);
    }
  }

  lemma RefuseKeeps(pow10: real -> real, start: Game, users: map<int, User>, w: World, k: Duo<Mark>, c: Color,
                    t1: int, t2: int, t3: int)
    requires Positive(pow10) && Inv(pow10, start, users, w, k)
    requires var s := w.side.Of(c);
             s.up != [] && s.up[0].Request? && !Accepting(w, c, t1, t2, t3)
    ensures Good(pow10, start, users, Serve(pow10, w, c, t1, t2, t3))
  {
    var s, r := w.side.Of(c), w.side.Of(c).up[0];
    var w' := Serve(pow10, w, c, t1, t2, t3);
    var (m, reply) := PlayOn(w.rec, UserOf(w.rec, c), r.from, r.to, t1, t2, t3);
    RefusalFacts(w.rec, c, r.from, r.to, t1, t2, t3);
    assert SideOk(start, w, c, k.Of(c)) && SideOk(start, w, c.Other(), k.Of(c.Other()));
    RefusedKeepsSide(start, c, s, HubOf(w), k.Of(c), reply.why);
    assert w'.side == w.side.With(c, Told(TakeUp(s), Err(reply.why))) && w'.rec == m && HubOf(w') == HubOf(w);
    SoundStays(pow10, start, users, w, w');
    BothSides(pow10, start, users, w', c, MarkAfterRefusal(HubOf(w), reply.why, k.Of(c)), k.Of(c.Other()));
  }

  // A request at the head of a channel names squares of the board.
  lemma HeadIsOnBoard(pow10: real -> real, start: Game, users: map<int, User>, w: World, k: Duo<Mark>, c: Color)
    requires Positive(pow10) && Inv(pow10, start, users, w, k) && w.rec.active
    requires w.side.Of(c).up != [] && w.side.Of(c).up[0].Request?
    ensures OnBoard(w.side.Of(c).up[0].from) && OnBoard(w.side.Of(c).up[0].to)
  {
    assert SideOk(start, w, c, k.Of(c));
    FirstRequest(start, c, w.side.Of(c), HubOf(w), k.Of(c));
  }

  // What an accepted move does to the world.
  lemma AcceptEffect(pow10: real -> real, w: World, c: Color, t1: int, t2: int, t3: int) returns (entry: MoveRec)
    requires Positive(pow10) && w.rec.red != w.rec.black && Accepting(w, c, t1, t2, t3)
    requires var r := w.side.Of(c).up[0]; OnBoard(r.from) && OnBoard(r.to)
    ensures w.rec.active && Mover(|w.rec.moves|) == c && w.side.Of(c).up[0] == Request(entry.from, entry.to)
    ensures var w', o := Serve(pow10, w, c, t1, t2, t3), c.Other();
            && w'.side.Of(c) == Told(TakeUp(w.side.Of(c)), Ok)
            && w'.side.Of(o) == Told(w.side.Of(o), OpponentMove(entry.from, entry.to))
            && SameMatch(w.rec, w'.rec) && w'.rec.moves == w.rec.moves + [entry]
            && w'.ended == w.ended && w'.users == w.users
  {
    var r := w.side.Of(c).up[0];
    HonestRequest(w.rec, c, r.from, r.to, t1, t2, t3);
    var m := PlayOn(w.rec, UserOf(w.rec, c), r.from, r.to, t1, t2, t3).0;
    entry := m.moves[|w.rec.moves|];
  }

  // The record after an accepted, timely move.
  lemma AcceptSound(pow10: real -> real, start: Game, users: map<int, User>, w: World, w': World, entry: MoveRec)
    requires Positive(pow10) && Sound(pow10, start, users, w) && w.rec.active
    requires Playable(Fold(start, w.rec.moves), entry.from, entry.to)
    requires SameMatch(w.rec, w'.rec) && w'.rec.moves == w.rec.moves + [entry]
    requires w'.ended == w.ended && w'.users == w.users
    ensures Sound(pow10, start, users, w') && HubOf(w') == HubOf(w).(log := w.rec.moves + [entry])
  {
    LogGrows(start, w.rec.moves, entry);
    SoundStays(pow10, start, users, w, w');
  }

  lemma AcceptKeeps(pow10: real -> real, start: Game, users: map<int, User>, w: World, k: Duo<Mark>, c: Color,
                    t1: int, t2: int, t3: int)
    requires Positive(pow10) && Inv(pow10, start, users, w, k)
    requires Accepting(w, c, t1, t2, t3) && Careful(start, w, ServerRead(c, t1, t2, t3))
    ensures Good(pow10, start, users, Serve(pow10, w, c, t1, t2, t3))
  {
    var s, other, h := w.side.Of(c), w.side.Of(c.Other()), HubOf(w);
    AcceptedIsOn(w, c, t1, t2, t3);
    HeadIsOnBoard(pow10, start, users, w, k, c);
    SidesOf(pow10, start, users, w, k, c);
    var entry := AcceptEffect(pow10, w, c, t1, t2, t3);
    AcceptSound(pow10, start, users, w, Serve(pow10, w, c, t1, t2, t3), entry);
    TakenKeepsSender(start, c, s, h, k.Of(c), entry);
    TakenKeepsOther(start, c.Other(), other, h, k.Of(c.Other()), entry);
    PutTogether(pow10, start, users, Serve(pow10, w, c, t1, t2, t3), c,
                Told(TakeUp(s), Ok), Told(other, OpponentMove(entry.from, entry.to)), h.(log := h.log + [entry]),
                k.Of(c).(core := k.Of(c).core + [Ok], rest := if k.Of(c).rest == [] then [] else k.Of(c).rest[1..]),
                k.Of(c.Other()).(core := k.Of(c.Other()).core + [OpponentMove(entry.from, entry.to)]));
  }

  lemma AcceptedIsOn(w: World, c: Color, t1: int, t2: int, t3: int)
    requires Accepting(w, c, t1, t2, t3)
    ensures w.rec.active
  {
  }

  // One side through an ending.
  ghost function MarkAfterEnd(e: Ending, k: Mark): Mark {
    if e.Lost? then k else k.(late := [])
  }

  lemma CloseSide(start: Game, c: Color, s: Side, h: Hub, k: Mark, e: Ending)
    requires ClientOk(start, c, s, h, k) && h.active && !h.announced
    ensures ClientOk(start, c, if e.Lost? then s else Told(s, GameEnd),
                     h.(active := false, announced := !e.Lost?), MarkAfterEnd(e, k))
  {
    EndKeepsSide(start, c, s, h, k);
    if !e.Lost? {
      AnnounceKeepsSide(start, c, s, h.(active := false), k);
    }
  }

  // The record and the payment after an ending.
  lemma ClosedIsSound(pow10: real -> real, start: Game, users: map<int, User>, w: World, e: Ending)
    requires Positive(pow10) && Sound(pow10, start, users, w) && w.rec.active
    requires e.ByReport? ==> IsFinal(start, w.rec.moves, e)
    ensures var w' := Close(pow10, w, e);
            Sound(pow10, start, users, w') && HubOf(w') == HubOf(w).(active := false, announced := !e.Lost?)
  {
    var w' := Close(pow10, w, e);
    assert w.ended + [e] == [e];
    PaidAlike(pow10, users, w.rec, w'.rec, e);
  }

  lemma CloseKeeps(pow10: real -> real, start: Game, users: map<int, User>, w: World, k: Duo<Mark>, e: Ending)
    requires Positive(pow10) && Inv(pow10, start, users, w, k)
    requires w.rec.active && e.ByReport? ==> IsFinal(start, w.rec.moves, e)
    ensures Good(pow10, start, users, Close(pow10, w, e))
  {
    if w.rec.active {
      SidesOf(pow10, start, users, w, k, Red);
      CloseSides(pow10, start, users, w, w.side.red, w.side.black, HubOf(w), k.red, k.black, Red, e);
    } else {
      assert Inv(pow10, start, users, w, k);
    }
  }

  lemma CloseSides(pow10: real -> real, start: Game, users: map<int, User>, w: World,
                   s: Side, other: Side, h: Hub, k: Mark, k': Mark, c: Color, e: Ending)
    requires Positive(pow10) && Sound(pow10, start, users, w) && w.rec.active && HubOf(w) == h
    requires e.ByReport? ==> IsFinal(start, w.rec.moves, e)
    requires w.side.Of(c) == s && w.side.Of(c.Other()) == other
    requires ClientOk(start, c, s, h, k) && ClientOk(start, c.Other(), other, h, k')
    ensures Good(pow10, start, users, Close(pow10, w, e))
  {
    ClosedIsSound(pow10, start, users, w, e);
    CloseSide(start, c, s, h, k, e);
    CloseSide(start, c.Other(), other, h, k', e);
    PutTogether(pow10, start, users, Close(pow10, w, e), c,
                if e.Lost? then s else Told(s, GameEnd), if e.Lost? then other else Told(other, GameEnd),
                h.(active := false, announced := !e.Lost?), MarkAfterEnd(e, k), MarkAfterEnd(e, k'));
  }

  lemma ReportKeeps(pow10: real -> real, start: Game, users: map<int, User>, w: World, k: Duo<Mark>, c: Color,
                    t1: int, t2: int, t3: int)
    requires Positive(pow10) && Inv(pow10, start, users, w, k)
    requires w.side.Of(c).up != [] && w.side.Of(c).up[0].Report?
    ensures Good(pow10, start, users, Serve(pow10, w, c, t1, t2, t3))
  {
    var s, o := w.side.Of(c), c.Other();
    var w1 := w.(side := w.side.With(c, TakeUp(s)));
    assert SideOk(start, w, c, k.Of(c)) && SideOk(start, w, o, k.Of(o));
    if w.rec.active {
      WaitingReport(start, c, s, HubOf(w), k.Of(c));
      FinalReportCloses(pow10, start, users, w, k, c);
    } else {
      ReportTakenKeepsSide(start, c, s, HubOf(w), k.Of(c));
      BothSides(pow10, start, users, w1, c, k.Of(c).(reports := []), k.Of(o));
    }
  }

  // One side through the ending it reported.
  lemma ReporterSide(start: Game, c: Color, s: Side, h: Hub, k: Mark)
    requires ClientOk(start, c, s, h, k) && h.active && !h.announced && s.up != [] && s.up[0].Report?
    ensures ClientOk(start, c, Told(TakeUp(s), GameEnd),
                     h.(active := false, announced := true), k.(reports := [], late := []))
  {
    EndKeepsSide(start, c, s, h, k);
    ReportTakenKeepsSide(start, c, s, h.(active := false), k);
    AnnounceKeepsSide(start, c, TakeUp(s), h.(active := false), k.(reports := []));
  }

  // The report that ends the match: it leaves its channel and the end is announced.
  lemma FinalReportCloses(pow10: real -> real, start: Game, users: map<int, User>, w: World, k: Duo<Mark>, c: Color)
    requires Positive(pow10) && Inv(pow10, start, users, w, k) && w.rec.active
    requires !Fold(start, w.rec.moves).status && w.side.Of(c).up == [FinalReport(Fold(start, w.rec.moves))]
    ensures var r, w1 := w.side.Of(c).up[0], w.(side := w.side.With(c, TakeUp(w.side.Of(c))));
            Good(pow10, start, users, Close(pow10, w1, ByReport(r.result, r.reason)))
  {
    var s, other, h, r := w.side.Of(c), w.side.Of(c.Other()), HubOf(w), w.side.Of(c).up[0];
    var e, w1 := ByReport(r.result, r.reason), w.(side := w.side.With(c, TakeUp(s)));
    SidesOf(pow10, start, users, w, k, c);
    ClosedIsSound(pow10, start, users, w1, e);
    ReporterSide(start, c, s, h, k.Of(c));
    CloseSide(start, c.Other(), other, h, k.Of(c.Other()), e);
    PutTogether(pow10, start, users, Close(pow10, w1, e), c, Told(TakeUp(s), GameEnd), Told(other, GameEnd),
                h.(active := false, announced := true),
                k.Of(c).(reports := [], late := []), MarkAfterEnd(e, k.Of(c.Other())));
  }

  // ----- Every careful step keeps the invariant -----

  lemma ServeKeeps(pow10: real -> real, start: Game, users: map<int, User>, w: World, k: Duo<Mark>, c: Color,
                   t1: int, t2: int, t3: int)
    requires Positive(pow10) && Inv(pow10, start, users, w, k) && Careful(start, w, ServerRead(c, t1, t2, t3))
    ensures Good(pow10, start, users, Serve(pow10, w, c, t1, t2, t3))
  {
    if w.side.Of(c).up == [] {
      assert Inv(pow10, start, users, w, k);
    } else if w.side.Of(c).up[0].Report? {
      ReportKeeps(pow10, start, users, w, k, c, t1, t2, t3);
    } else if Accepting(w, c, t1, t2, t3) {
      AcceptKeeps(pow10, start, users, w, k, c, t1, t2, t3);
    } else {
      RefuseKeeps(pow10, start, users, w, k, c, t1, t2, t3);
    }
  }

  // A step of one client alone.
  lemma SideStep(pow10: real -> real, start: Game, users: map<int, User>, w: World, k: Duo<Mark>, c: Color,
                 s: Side, k': Mark)
    requires Positive(pow10) && Inv(pow10, start, users, w, k) && ClientOk(start, c, s, HubOf(w), k')
    ensures Good(pow10, start, users, w.(side := w.side.With(c, s)))
  {
    var w' := w.(side := w.side.With(c, s));
    assert SideOk(start, w, c.Other(), k.Of(c.Other()));
    BothSides(pow10, start, users, w', c, k', k.Of(c.Other()));
  }

  lemma ReadKeeps(pow10: real -> real, start: Game, users: map<int, User>, w: World, k: Duo<Mark>, c: Color)
    requires Positive(pow10) && Inv(pow10, start, users, w, k)
    requires Careful(start, w, ClientRead(c)) && w.side.Of(c).down != []
    ensures NetOk(w.side.Of(c).net) && Good(pow10, start, users, w.(side := w.side.With(c, ReadSide(w.side.Of(c)))))
  {
    SidesOf(pow10, start, users, w, k, c);
    SelectionOf(start, c, w.side.Of(c), HubOf(w), k.Of(c));
    var k' := ReadKeepsSide(start, c, w.side.Of(c), HubOf(w), k.Of(c));
    SideStep(pow10, start, users, w, k, c, ReadSide(w.side.Of(c)), k');
  }

  lemma ClickKeeps(pow10: real -> real, start: Game, users: map<int, User>, w: World, k: Duo<Mark>, c: Color, at: Sq)
    requires Positive(pow10) && Safety.Inv(start) && Inv(pow10, start, users, w, k)
    ensures NetOk(w.side.Of(c).net)
    ensures Good(pow10, start, users, w.(side := w.side.With(c, ClickSide(w.side.Of(c), at))))
  {
    SidesOf(pow10, start, users, w, k, c);
    SelectionOf(start, c, w.side.Of(c), HubOf(w), k.Of(c));
    ClickKeepsSide(start, c, w.side.Of(c), HubOf(w), k.Of(c), at);
    SideStep(pow10, start, users, w, k, c, ClickSide(w.side.Of(c), at), MarkAfterClick(w.side.Of(c), at, k.Of(c)));
  }

  lemma GiveUpKeeps(pow10: real -> real, start: Game, users: map<int, User>, w: World, k: Duo<Mark>, c: Color, i: nat)
    requires Positive(pow10) && Inv(pow10, start, users, w, k)
    ensures Good(pow10, start, users, w.(side := w.side.With(c, w.side.Of(c).(net := NetTimeout(w.side.Of(c).net, i)))))
  {
    SidesOf(pow10, start, users, w, k, c);
    GiveUpKeepsSide(start, c, w.side.Of(c), HubOf(w), k.Of(c), i);
    SideStep(pow10, start, users, w, k, c, w.side.Of(c).(net := NetTimeout(w.side.Of(c).net, i)), k.Of(c));
  }

  lemma NetsStay(pow10: real -> real, start: Game, users: map<int, User>, w: World, k: Duo<Mark>)
    requires Positive(pow10) && Inv(pow10, start, users, w, k)
    ensures NetsOk(w) && Good(pow10, start, users, w)
  {
    SidesOf(pow10, start, users, w, k, Red);
    SelectionOf(start, Red, w.side.red, HubOf(w), k.red);
    SelectionOf(start, Black, w.side.black, HubOf(w), k.black);
  }

  lemma NextKeeps(pow10: real -> real, start: Game, users: map<int, User>, w: World, k: Duo<Mark>, step: Step)
    requires Positive(pow10) && Safety.Inv(start) && Inv(pow10, start, users, w, k) && Careful(start, w, step)
    ensures NetsOk(w) && Good(pow10, start, users, Next(pow10, w, step))
  {
    NetsStay(pow10, start, users, w, k);
    match step
    case UserClick(c, at) => ClickKeeps(pow10, start, users, w, k, c, at);
    case ServerRead(c, t1, t2, t3) => ServeKeeps(pow10, start, users, w, k, c, t1, t2, t3);
    case ClientRead(c) =>
      if w.side.Of(c).down != [] {
        ReadKeeps(pow10, start, users, w, k, c);
      }
    case RequestTimeout(c, i) => GiveUpKeeps(pow10, start, users, w, k, c, i);
    case ServerEnds(e) =>
      if !e.ByReport? {
        CloseKeeps(pow10, start, users, w, k, e);
      }
  }

  // ----- Runs -----

  ghost function Run(pow10: real -> real, w: World, steps: seq<Step>): World
    requires Positive(pow10)
    decreases |steps|
  {
    if steps == [] then w else Run(pow10, Next(pow10, w, steps[0]), steps[1..])
  }

  ghost predicate AllCareful(pow10: real -> real, start: Game, w: World, steps: seq<Step>)
    requires Positive(pow10)
    decreases |steps|
  {
    steps == [] || (Careful(start, w, steps[0]) && AllCareful(pow10, start, Next(pow10, w, steps[0]), steps[1..]))
  }

  lemma {:induction false} RunKeeps(pow10: real -> real, start: Game, users: map<int, User>, w: World, steps: seq<Step>)
    requires Positive(pow10) && Safety.Inv(start) && Good(pow10, start, users, w) && AllCareful(pow10, start, w, steps)
    ensures Good(pow10, start, users, Run(pow10, w, steps))
    decreases |steps|
  {
    if steps != [] {
      var k :| Inv(pow10, start, users, w, k);
      NextKeeps(pow10, start, users, w, k, steps[0]);
      RunKeeps(pow10, start, users, Next(pow10, w, steps[0]), steps[1..]);
    }
  }

  // Two clients that were just matched, and the record the server made for them.
  ghost predicate Matched(start: Game, w: World) {
    && w.side.red == Side(Net(start, Some(Red), true, true, []), [], [], [], 0)
    && w.side.black == Side(Net(start, Some(Black), true, false, []), [], [], [], 0)
    && w.rec.moves == [] && w.rec.red != w.rec.black && w.rec.active && w.ended == []
  }

  lemma MatchedIsGood(pow10: real -> real, start: Game, w: World)
    requires Positive(pow10) && Matched(start, w)
    requires Safety.Inv(start) && start.turn == Red && start.cur == None && start.status
    ensures Good(pow10, start, w.users, w)
  {
    var k := Mark([], [], [], []);
    assert Inv(pow10, start, w.users, w, Duo(k, k));
  }

  lemma ReachedIsGood(pow10: real -> real, w0: World, steps: seq<Step>) returns (k: Duo<Mark>)
    requires Positive(pow10) && Matched(Safety.Opened(), w0) && AllCareful(pow10, Safety.Opened(), w0, steps)
    ensures Safety.Inv(Safety.Opened()) && Inv(pow10, Safety.Opened(), w0.users, Run(pow10, w0, steps), k)
  {
    Safety.OpeningInv();
    MatchedIsGood(pow10, Safety.Opened(), w0);
    RunKeeps(pow10, Safety.Opened(), w0.users, w0, steps);
    k :| Inv(pow10, Safety.Opened(), w0.users, Run(pow10, w0, steps), k);
  }

  // At every moment of a careful run the log is a legal game, and each client that was
  // not told of the end shows what the moves it was told of lead to: it is behind by at
  // most two moves for each request in flight, and one more out of turn.
  lemma ClientsFollowTheLog(pow10: real -> real, w0: World, steps: seq<Step>, c: Color)
    requires Positive(pow10) && Matched(Safety.Opened(), w0) && AllCareful(pow10, Safety.Opened(), w0, steps)
    ensures var w, start := Run(pow10, w0, steps), Safety.Opened();
            var s, log := w.side.Of(c), w.rec.moves;
            && NetsOk(w) && LogOk(start, log)
            && (s.net.online ==>
                  && s.told <= |log| <= s.told + 2 * |s.net.waits| + (if s.net.myTurn then 0 else 1)
                  && Shows(s.net, Fold(start, log[..s.told]))
                  && (s.net.myTurn <==> Mover(s.told) == c))
  {
    var w := Run(pow10, w0, steps);
    var k := ReachedIsGood(pow10, w0, steps);
    SidesOf(pow10, Safety.Opened(), w0.users, w, k, c);
    FollowingClient(Safety.Opened(), c, w.side.Of(c), HubOf(w), k.Of(c));
    SelectionOf(Safety.Opened(), c.Other(), w.side.Of(c.Other()), HubOf(w), k.Of(c.Other()));
  }

  lemma FollowingClient(start: Game, c: Color, s: Side, h: Hub, k: Mark)
    requires ClientOk(start, c, s, h, k)
    ensures NetOk(s.net)
    ensures s.net.online ==>
              && s.told <= |h.log| <= s.told + 2 * |s.net.waits| + (if s.net.myTurn then 0 else 1)
              && Shows(s.net, Fold(start, h.log[..s.told])) && (s.net.myTurn <==> Mover(s.told) == c)
  {
    if s.net.online {
      Behind(c, h.log, s.told, k.core, Asked(s.net.waits), k.rest);
    }
  }

  // How many moves can be on their way.
  lemma {:induction false} Behind(c: Color, log: seq<MoveRec>, n: nat, core: seq<Message>, asked: seq<Request>,
                                  rest: seq<Request>)
    requires CoreOk(c, log, n, core, asked, rest)
    ensures |log| <= n + 2 * |asked| + (if Mover(n) == c then 0 else 1)
    decreases |core|
  {
    if core != [] {
      if core[0].OpponentMove? {
        Behind(c, log, n + 1, core[1..], asked, rest);
      } else {
        Behind(c, log, if core[0].Ok? then n + 1 else n, core[1..], asked[1..], rest);
      }
    }
  }

  lemma SelectionOf(start: Game, c: Color, s: Side, h: Hub, k: Mark)
    requires ClientOk(start, c, s, h, k)
    ensures NetOk(s.net)
  {
  }

  ghost predicate Quiescent(w: World) {
    w.side.red.up == w.side.black.up == [] && w.side.red.down == w.side.black.down == []
  }

  // A client with nothing in transit.
  lemma QuietClient(start: Game, c: Color, s: Side, h: Hub, k: Mark)
    requires start.turn == Red && start.cur == None && LogOk(start, h.log) && ClientOk(start, c, s, h, k)
    requires s.up == [] && s.down == []
    ensures h.active || !Fold(start, h.log).status || !h.announced ==>
              Shows(s.net, Fold(start, h.log)) && s.net.game.turn == Mover(|h.log|)
    ensures !h.announced ==> s.net.online && s.net.waits == [] && (s.net.myTurn <==> Mover(|h.log|) == c)
    ensures h.active ==> Fold(start, h.log).status
  {
    assert h.log[..|h.log|] == h.log;
    FoldTurn(start, h.log, |h.log|);
    if s.net.online {
      assert !h.announced && k.core == [] && s.told == |h.log|;
      assert k.rest == [] && |Asked(s.net.waits)| == 0;
    }
  }

  // After every careful run, whenever nothing is in transit and the end of the match
  // was not announced, or the game is over, both boards are the fold of the server's
  // log, both turns are its parity, and the position is one the rules' invariant covers.
  // Until the announcement exactly one client may move and nothing is awaited.
  lemma ReplicasAgree(pow10: real -> real, w0: World, steps: seq<Step>)
    requires Positive(pow10) && Matched(Safety.Opened(), w0) && AllCareful(pow10, Safety.Opened(), w0, steps)
    requires Quiescent(Run(pow10, w0, steps))
    ensures var w, start := Run(pow10, w0, steps), Safety.Opened();
            var final, red, black := Fold(start, w.rec.moves), w.side.red.net, w.side.black.net;
            && (!Announced(w) || !final.status ==>
                  && Shows(red, final) && Shows(black, final)
                  && red.game.turn == black.game.turn == Mover(|w.rec.moves|))
            && (!Announced(w) ==>
                  && (red.myTurn <==> Mover(|w.rec.moves|) == Red) && (black.myTurn <==> !red.myTurn)
                  && red.waits == black.waits == [])
            && Safety.Inv(final)
  {
    var w, start := Run(pow10, w0, steps), Safety.Opened();
    var k := ReachedIsGood(pow10, w0, steps);
    QuietSide(pow10, start, w0.users, w, k, Red);
    QuietSide(pow10, start, w0.users, w, k, Black);
    LogIsSafe(pow10, start, w0.users, w, k);
  }

  lemma QuietSide(pow10: real -> real, start: Game, users: map<int, User>, w: World, k: Duo<Mark>, c: Color)
    requires Positive(pow10) && start.turn == Red && start.cur == None && Inv(pow10, start, users, w, k) && Quiescent(w)
    ensures var final, net := Fold(start, w.rec.moves), w.side.Of(c).net;
            && (!Announced(w) || !final.status ==> Shows(net, final) && net.game.turn == Mover(|w.rec.moves|))
            && (!Announced(w) ==> (net.myTurn <==> Mover(|w.rec.moves|) == c) && net.waits == [])
  {
    SidesOf(pow10, start, users, w, k, c);
    QuietClient(start, c, w.side.Of(c), HubOf(w), k.Of(c));
  }

  lemma LogIsSafe(pow10: real -> real, start: Game, users: map<int, User>, w: World, k: Duo<Mark>)
    requires Positive(pow10) && Safety.Inv(start) && Inv(pow10, start, users, w, k)
    ensures Safety.Inv(Fold(start, w.rec.moves))
  {
    FoldIsSafe(start, w.rec.moves, |w.rec.moves|);
    assert w.rec.moves[..|w.rec.moves|] == w.rec.moves;
  }

  // ----- The end of the game -----

  // What the log leads to, as the server has to record it.
  ghost function Winner(g: Game): string {
    if g.turn == Black then "red_win" else "black_win"
  }

  // The match is ended and paid for at most once; an ending by report is recorded for
  // the winner that mate or stalemate at the end of the log gives, whichever client's
  // report came first, and the players' rows are settled for that winner; once nothing
  // is in transit a game that is over has ended its match.
  ghost predicate Settled(pow10: real -> real, start: Game, users: map<int, User>, w: World)
    requires Positive(pow10)
  {
    var final := Fold(start, w.rec.moves);
    && |w.ended| <= 1 && (w.rec.active <==> w.ended == []) && (w.rec.active ==> w.users == users)
    && (w.ended != [] && w.ended[0].ByReport? ==>
          && !HasLegal(final.p, final.kings, final.turn)
          && w.rec.result == w.ended[0].result == Winner(final)
          && (w.rec.endReason == "checkmate" <==> InDanger(final.p, final.kings, final.turn))
          && w.users == Settle(pow10, users, w.rec, Winner(final)))
    && (Quiescent(w) && !final.status ==> !w.rec.active)
  }

  lemma GoodIsSettled(pow10: real -> real, start: Game, users: map<int, User>, w: World, k: Duo<Mark>)
    requires Positive(pow10) && start.turn == Red && start.cur == None && start.status && Inv(pow10, start, users, w, k)
    ensures Settled(pow10, start, users, w)
  {
    if w.ended != [] && w.ended[0].ByReport? {
      assert IsFinal(start, w.rec.moves, w.ended[0]);
      OverHasNoMove(start, w.rec.moves);
    }
    if Quiescent(w) {
      SidesOf(pow10, start, users, w, k, Red);
      QuietClient(start, Red, w.side.red, HubOf(w), k.red);
    }
  }

  // So it is at every moment of every careful run.
  lemma MateIsSettledForTheWinner(pow10: real -> real, w0: World, steps: seq<Step>)
    requires Positive(pow10) && Matched(Safety.Opened(), w0) && AllCareful(pow10, Safety.Opened(), w0, steps)
    ensures Settled(pow10, Safety.Opened(), w0.users, Run(pow10, w0, steps))
  {
    var k := ReachedIsGood(pow10, w0, steps);
    GoodIsSettled(pow10, Safety.Opened(), w0.users, Run(pow10, w0, steps), k);
  }

  // What a settlement for a winner is worth: the winner's rating does not fall, and
  // rises by what the loser's falls.
  lemma WinnerIsPaid(pow10: real -> real, users: map<int, User>, m: MatchRec, result: string)
    requires Positive(pow10) && m.rated && m.red in users && m.black in users && m.red != m.black
    requires result in {"red_win", "black_win"}
    ensures var users' := Settle(pow10, users, m, result);
            var (winner, loser) := if result == "red_win" then (m.red, m.black) else (m.black, m.red);
            && winner in users' && loser in users'
            && users'[winner].rating - users[winner].rating == users[loser].rating - users'[loser].rating >= 0
            && users'[winner].wins == users[winner].wins + 1 && users'[loser].losses == users[loser].losses + 1
  {
    ChangesCancel(pow10, users[m.red].rating, users[m.black].rating, result, DEFAULT_K_FACTOR);
  }

  // Unless the server ended the match for a reason of its own, a finished game whose
  // messages have all arrived was ended by a report.
  lemma MateIsReported(pow10: real -> real, w0: World, steps: seq<Step>)
    requires Positive(pow10) && Matched(Safety.Opened(), w0) && AllCareful(pow10, Safety.Opened(), w0, steps)
    requires forall step :: step in steps ==> !step.ServerEnds?
    ensures var w := Run(pow10, w0, steps);
            Quiescent(w) && !Fold(Safety.Opened(), w.rec.moves).status ==> |w.ended| == 1 && w.ended[0].ByReport?
  {
    MateIsSettledForTheWinner(pow10, w0, steps);
    OnlyReports(pow10, w0, steps);
  }

  lemma {:induction false} OnlyReports(pow10: real -> real, w: World, steps: seq<Step>)
    requires Positive(pow10) && forall step :: step in steps ==> !step.ServerEnds?
    requires forall e :: e in w.ended ==> e.ByReport?
    ensures forall e :: e in Run(pow10, w, steps).ended ==> e.ByReport?
    decreases |steps|
  {
    if steps != [] {
      assert steps[0] in steps && forall step :: step in steps[1..] ==> step in steps;
      OnlyReports(pow10, Next(pow10, w, steps[0]), steps[1..]);
    }
  }
}
