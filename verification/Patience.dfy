// A rule two players can keep by themselves, and that is enough: while a request is in
// flight, touch nothing, and the answer comes within ten seconds.
module Patience {
  import opened Xiangqi
  import opened Games
  import opened Networks
  import opened Matches
  import opened Ratings
  import opened Servers
  import opened Logs
  import opened Replicas
  import opened Agreement
  import Safety

  // While client c awaits an answer, the step neither changes its selection, nor sends
  // another request, nor gives one up.
  ghost predicate Patient(w: World, step: Step) {
    match step
    case UserClick(c, at) => var net := w.side.Of(c).net;
      net.online && net.waits != [] && NetOk(net) ==> NetClick(net, at) == (net, None)
    case RequestTimeout(c, i) => var net := w.side.Of(c).net; net.online ==> i >= |net.waits|
    case _ => true
  }

  ghost predicate AllPatient(pow10: real -> real, w: World, steps: seq<Step>)
    requires Positive(pow10)
    decreases |steps|
  {
    steps == [] || (Patient(w, steps[0]) && AllPatient(pow10, Next(pow10, w, steps[0]), steps[1..]))
  }

  // ----- What patience keeps -----

  // At most one request awaited, made now, by the selected piece, in one's own turn.
  predicate OneWait(c: Color, s: Side) {
    s.net.waits != [] ==>
      && |s.net.waits| == 1 && s.net.waits[0].alive
      && s.net.game.cur == Some(s.net.waits[0].from) && Mover(s.told) == c
  }

  // A request the server has still to read was made for the next move.
  predicate Waiting(c: Color, s: Side, h: Hub) {
    && (s.net.online ==> OneWait(c, s))
    && (!h.announced ==> s.made == [] || s.made == [|h.log|])
  }

  // What is left to read of at most one request.
  lemma {:induction false} AtMostOne(c: Color, log: seq<MoveRec>, n: nat, core: seq<Message>, asked: seq<Request>,
                                     rest: seq<Request>)
    requires CoreOk(c, log, n, core, asked, rest)
    ensures |rest| <= |asked| && n <= |log|
    decreases |core|
  {
    if core != [] {
      if core[0].OpponentMove? {
        AtMostOne(c, log, n + 1, core[1..], asked, rest);
      } else {
        AtMostOne(c, log, if core[0].Ok? then n + 1 else n, core[1..], asked[1..], rest);
      }
    }
  }

  // A client in turn that awaits nothing has read everything.
  lemma InTurn(c: Color, log: seq<MoveRec>, n: nat, core: seq<Message>, rest: seq<Request>)
    requires CoreOk(c, log, n, core, [], rest) && Mover(n) == c
    ensures core == [] && n == |log| && rest == []
  {
  }

  lemma NothingMade(start: Game, c: Color, s: Side, h: Hub, k: Mark)
    requires ClientOk(start, c, s, h, k) && s.net.online && s.net.waits == [] && !h.announced
    ensures s.made == []
  {
    AtMostOne(c, h.log, s.told, k.core, Asked(s.net.waits), k.rest);
  }

  lemma ClickWaits(start: Game, c: Color, s: Side, h: Hub, k: Mark, at: Sq)
    requires Safety.Inv(start) && LogOk(start, h.log) && ClientOk(start, c, s, h, k) && Waiting(c, s, h)
    requires s.net.online && s.net.waits != [] ==> NetClick(s.net, at) == (s.net, None)
    ensures Waiting(c, ClickSide(s, at), h)
  {
    if s.net.online && s.net.waits == [] {
      ClickIsPlayable(start, c, s.net, h.log, s.told, at);
      if NetClick(s.net, at).1.Some? && !h.announced {
        NothingMade(start, c, s, h, k);
        InTurn(c, h.log, s.told, k.core, k.rest);
      }
    }
  }

  // An accepting answer is heeded, and after it nothing is awaited.
  lemma ReadWaits(start: Game, c: Color, s: Side, h: Hub, k: Mark)
    requires LogOk(start, h.log) && ClientOk(start, c, s, h, k) && Waiting(c, s, h) && s.down != []
    ensures s.down[0].Ok? ==> Heeds(s.net)
    ensures Waiting(c, ReadSide(s), h)
  {
    if s.net.online {
      if k.core == [] {
        assert s.down[0] == GameEnd;
      } else {
        FromTheFront(k.core, Trailer(h.announced, k.late));
        AnswersFirst(start, c, s, h, k);
      }
    } else {
      assert s.down[0].Err?;
    }
  }

  // While a request is awaited the next message answers it.
  lemma AnswersFirst(start: Game, c: Color, s: Side, h: Hub, k: Mark)
    requires ClientOk(start, c, s, h, k) && s.net.online && OneWait(c, s)
    requires k.core != [] && s.down != [] && s.down[0] == k.core[0]
    ensures s.down[0].OpponentMove? <==> s.net.waits == []
    ensures ReadSide(s).net.online && ReadSide(s).net.waits == [] && ReadSide(s).made == s.made
    ensures !s.down[0].GameEnd?
  {
  }

  // ----- The server's steps -----

  ghost predicate BothWait(w: World) {
    Waiting(Red, w.side.red, HubOf(w)) && Waiting(Black, w.side.black, HubOf(w))
  }

  lemma WaitsApart(w: World, c: Color)
    requires Waiting(c, w.side.Of(c), HubOf(w)) && Waiting(c.Other(), w.side.Of(c.Other()), HubOf(w))
    ensures BothWait(w)
  {
  }

  // Taking a request, answering it and announcing the end concern no client yet.
  lemma TakeUpWaits(c: Color, s: Side, h: Hub, h': Hub, m: Message)
    requires Waiting(c, s, h) && s.up != [] && (h.announced ==> h'.announced) && (h'.log == h.log || s.up[0].Request?)
    ensures Waiting(c, TakeUp(s), h') && Waiting(c, Told(TakeUp(s), m), h')
  {
  }

  // A request the server accepts was made for this move, so it is legal now.
  lemma PatientIsPlayable(start: Game, c: Color, s: Side, h: Hub, k: Mark)
    requires ClientOk(start, c, s, h, k) && Waiting(c, s, h) && h.active && s.up != [] && s.up[0].Request?
    ensures Playable(Fold(start, h.log), s.up[0].from, s.up[0].to)
  {
    FirstRequest(start, c, s, h, k);
    assert h.log[..|h.log|] == h.log;
  }

  // Only the player in turn has one waiting at the server.
  lemma MadeInTurn(start: Game, o: Color, s: Side, h: Hub, k: Mark)
    requires ClientOk(start, o, s, h, k) && Waiting(o, s, h) && h.active && s.made != []
    ensures Mover(|h.log|) == o
  {
    assert s.made[0] == |h.log| && k.rest[0].Request?;
  }

  lemma AcceptWaits(pow10: real -> real, start: Game, users: map<int, User>, w: World, k: Duo<Mark>, c: Color,
                    t1: int, t2: int, t3: int)
    requires Positive(pow10) && Agreement.Inv(pow10, start, users, w, k) && BothWait(w) && Accepting(w, c, t1, t2, t3)
    ensures Careful(start, w, ServerRead(c, t1, t2, t3)) && BothWait(Serve(pow10, w, c, t1, t2, t3))
  {
    var s, o := w.side.Of(c), c.Other();
    var w' := Serve(pow10, w, c, t1, t2, t3);
    SidesOf(pow10, start, users, w, k, c);
    AcceptedIsOn(w, c, t1, t2, t3);
    PatientIsPlayable(start, c, s, HubOf(w), k.Of(c));
    var entry := AcceptEffect(pow10, w, c, t1, t2, t3);
    if w.side.Of(o).made != [] {
      MadeInTurn(start, o, w.side.Of(o), HubOf(w), k.Of(o));
    }
    TakeUpWaits(c, s, HubOf(w), HubOf(w'), Ok);
    WaitsApart(w', c);
  }

  lemma RefuseWaits(pow10: real -> real, w: World, c: Color, t1: int, t2: int, t3: int)
    requires Positive(pow10) && w.rec.red != w.rec.black && BothWait(w) && !Accepting(w, c, t1, t2, t3)
    requires w.side.Of(c).up != [] && w.side.Of(c).up[0].Request?
    ensures BothWait(Serve(pow10, w, c, t1, t2, t3))
  {
    var s, r := w.side.Of(c), w.side.Of(c).up[0];
    var reply := PlayOn(w.rec, UserOf(w.rec, c), r.from, r.to, t1, t2, t3).1;
    RefusalFacts(w.rec, c, r.from, r.to, t1, t2, t3);
    TakeUpWaits(c, s, HubOf(w), HubOf(w), Err(reply.why));
    WaitsApart(Serve(pow10, w, c, t1, t2, t3), c);
  }

  lemma ServeWaits(pow10: real -> real, start: Game, users: map<int, User>, w: World, k: Duo<Mark>, c: Color,
                   t1: int, t2: int, t3: int)
    requires Positive(pow10) && Agreement.Inv(pow10, start, users, w, k) && BothWait(w)
    ensures Careful(start, w, ServerRead(c, t1, t2, t3)) && BothWait(Serve(pow10, w, c, t1, t2, t3))
  {
    var s := w.side.Of(c);
    if s.up != [] && s.up[0].Request? {
      if Accepting(w, c, t1, t2, t3) {
        AcceptWaits(pow10, start, users, w, k, c, t1, t2, t3);
      } else {
        RefuseWaits(pow10, w, c, t1, t2, t3);
      }
    } else if s.up != [] {
      OwnStep(w, c, TakeUp(s));
      CloseWaits(pow10, w.(side := w.side.With(c, TakeUp(s))), ByReport(s.up[0].result, s.up[0].reason));
    }
  }

  // A step of one client alone.
  lemma OwnStep(w: World, c: Color, s: Side)
    requires BothWait(w) && Waiting(c, s, HubOf(w))
    ensures BothWait(w.(side := w.side.With(c, s)))
  {
  }

  lemma CloseWaits(pow10: real -> real, w: World, e: Ending)
    requires Positive(pow10) && BothWait(w) && (w.rec.active ==> w.ended == [])
    ensures BothWait(Close(pow10, w, e))
  {
  }

  // ----- Runs -----

  lemma ClickStep(pow10: real -> real, start: Game, users: map<int, User>, w: World, k: Duo<Mark>, c: Color, at: Sq)
    requires Positive(pow10) && Safety.Inv(start) && Agreement.Inv(pow10, start, users, w, k) && BothWait(w)
    requires Patient(w, UserClick(c, at)) && NetsOk(w)
    ensures BothWait(Next(pow10, w, UserClick(c, at)))
  {
    SidesOf(pow10, start, users, w, k, c);
    ClickWaits(start, c, w.side.Of(c), HubOf(w), k.Of(c), at);
    OwnStep(w, c, ClickSide(w.side.Of(c), at));
  }

  lemma ReadStep(pow10: real -> real, start: Game, users: map<int, User>, w: World, k: Duo<Mark>, c: Color)
    requires Positive(pow10) && Agreement.Inv(pow10, start, users, w, k) && BothWait(w) && NetsOk(w)
    ensures Careful(start, w, ClientRead(c)) && BothWait(Next(pow10, w, ClientRead(c)))
  {
    if w.side.Of(c).down != [] {
      SidesOf(pow10, start, users, w, k, c);
      ReadWaits(start, c, w.side.Of(c), HubOf(w), k.Of(c));
      OwnStep(w, c, ReadSide(w.side.Of(c)));
    }
  }

  lemma TimerStep(w: World, c: Color, i: nat)
    requires BothWait(w) && Patient(w, RequestTimeout(c, i))
    ensures BothWait(w.(side := w.side.With(c, w.side.Of(c).(net := NetTimeout(w.side.Of(c).net, i)))))
  {
  }

  lemma PatientKeeps(pow10: real -> real, start: Game, users: map<int, User>, w: World, k: Duo<Mark>, step: Step)
    requires Positive(pow10) && Safety.Inv(start) && Agreement.Inv(pow10, start, users, w, k) && BothWait(w)
    requires Patient(w, step) && NetsOk(w)
    ensures Careful(start, w, step) && BothWait(Next(pow10, w, step))
  {
    match step
    case UserClick(c, at) => ClickStep(pow10, start, users, w, k, c, at);
    case ServerRead(c, t1, t2, t3) => ServeWaits(pow10, start, users, w, k, c, t1, t2, t3);
    case ClientRead(c) => ReadStep(pow10, start, users, w, k, c);
    case RequestTimeout(c, i) => TimerStep(w, c, i);
    case ServerEnds(e) => CloseWaits(pow10, w, e);
  }

  lemma {:induction false} PatientRun(pow10: real -> real, start: Game, users: map<int, User>, w: World,
                                      steps: seq<Step>)
    requires Positive(pow10) && Safety.Inv(start) && Good(pow10, start, users, w)
    requires BothWait(w) && AllPatient(pow10, w, steps)
    ensures AllCareful(pow10, start, w, steps)
    decreases |steps|
  {
    if steps != [] {
      var k :| Agreement.Inv(pow10, start, users, w, k);
      NetsStay(pow10, start, users, w, k);
      PatientKeeps(pow10, start, users, w, k, steps[0]);
      NextKeeps(pow10, start, users, w, k, steps[0]);
      PatientRun(pow10, start, users, Next(pow10, w, steps[0]), steps[1..]);
    }
  }

  // Patient players are careful, whatever the server and the network do.
  lemma PatientIsCareful(pow10: real -> real, w0: World, steps: seq<Step>)
    requires Positive(pow10) && Matched(Safety.Opened(), w0) && AllPatient(pow10, w0, steps)
    ensures AllCareful(pow10, Safety.Opened(), w0, steps)
  {
    Safety.OpeningInv();
    MatchedIsGood(pow10, Safety.Opened(), w0);
    PatientRun(pow10, Safety.Opened(), w0.users, w0, steps);
  }

  // So their boards agree with the log and with each other whenever nothing is in
  // transit, until the end of the match is announced.
  lemma PatientPlayersAgree(pow10: real -> real, w0: World, steps: seq<Step>)
    requires Positive(pow10) && Matched(Safety.Opened(), w0) && AllPatient(pow10, w0, steps)
    requires var w := Agreement.Run(pow10, w0, steps); Quiescent(w) && !Announced(w)
    ensures var w := Agreement.Run(pow10, w0, steps);
            var final, red, black := Fold(Safety.Opened(), w.rec.moves), w.side.red.net, w.side.black.net;
            && LogOk(Safety.Opened(), w.rec.moves) && Safety.Inv(final)
            && Shows(red, final) && Shows(black, final) && (black.myTurn <==> !red.myTurn)
  {
    PatientIsCareful(pow10, w0, steps);
    ReplicasAgree(pow10, w0, steps);
    ClientsFollowTheLog(pow10, w0, steps, Red);
  }
}
