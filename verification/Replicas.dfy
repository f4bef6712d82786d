// Two honest clients and the server, joined by FIFO channels.  A step is one click,
// one request handled by the server, one message handled by a client, a request
// given up after ten seconds, or the server ending the match for a reason of its own.
module Replicas {
  import opened Xiangqi
  import opened Games
  import opened Networks
  import opened Matches
  import opened Ratings
  import opened Servers
  import opened Logs
  import opened Sequences
  import Safety

  datatype Duo<T> = Duo(red: T, black: T) {
    function Of(c: Color): T {
      if c == Red then red else black
    }

    function With(c: Color, x: T): Duo<T> {
      if c == Red then Duo(x, black) else Duo(red, x)
    }
  }

  // A client with its two channels.  told counts the moves it has been told of, its
  // own included; made holds, for each move request in `up`, told when it was sent.
  datatype Side = Side(net: Net, up: seq<Request>, made: seq<nat>, down: seq<Message>, told: nat)

  // Why the server ended the match: a game-over report; resignation or a draw; a
  // timeout; or a timeout that the drain dropped.
  datatype Ending =
    | ByReport(result: string, reason: string)
    | ByServer(result: string, reason: string)
    | ByTimeout(result: string)
    | Lost(result: string)
  {
    function Why(): string {
      if ByReport? || ByServer? then reason else "timeout"
    }
  }

  // users are the two players' rows as this match changes them; ended lists the
  // endings the server carried out.
  datatype World = World(side: Duo<Side>, rec: MatchRec, ended: seq<Ending>, users: map<int, User>)

  datatype Step =
    | UserClick(who: Color, at: Sq)
    | ServerRead(who: Color, t1: int, t2: int, t3: int)
    | ClientRead(who: Color)
    | RequestTimeout(who: Color, i: nat)
    | ServerEnds(e: Ending)

  function UserOf(m: MatchRec, c: Color): int {
    if c == Red then m.red else m.black
  }

  // ----- Steps; a step that is not enabled changes nothing -----

  ghost function ClickSide(s: Side, at: Sq): Side
    requires NetOk(s.net)
  {
    var (n, request) := NetClick(s.net, at);
    if request.None? then s.(net := n)
    else s.(net := n, up := s.up + [request.value], made := s.made + [s.told])
  }

  ghost function ReadSide(s: Side): Side
    requires NetOk(s.net) && s.down != []
  {
    var (n, sent) := NetRead(s.net, s.down[0]);
    s.(net := n, up := s.up + sent, down := s.down[1..],
       told := if s.down[0].Ok? || s.down[0].OpponentMove? then s.told + 1 else s.told)
  }

  function Told(s: Side, m: Message): Side {
    s.(down := s.down + [m])
  }

  // The server takes the first request of a channel.
  function TakeUp(s: Side): Side
    requires s.up != []
  {
    s.(up := s.up[1..], made := if s.up[0].Request? && s.made != [] then s.made[1..] else s.made)
  }

  // What an ending makes of the two players' rows.
  function Paid(pow10: real -> real, users: map<int, User>, m: MatchRec, e: Ending): map<int, User>
    requires Positive(pow10)
  {
    if e.Lost? then users
    else if e.ByTimeout? then SettleTimeout(pow10, users, TimeoutInfo(m.id, e.result, m.red, m.black))
    else Settle(pow10, users, m, e.result)
  }

  // match_end with its settlement and, unless the drain dropped it, the game_end
  // broadcast; only while the match is on.
  function Close(pow10: real -> real, w: World, e: Ending): World
    requires Positive(pow10)
  {
    if !w.rec.active then w
    else w.(rec := End(w.rec, e.result, e.Why()), ended := w.ended + [e], users := Paid(pow10, w.users, w.rec, e),
            side := if e.Lost? then w.side else Duo(Told(w.side.red, GameEnd), Told(w.side.black, GameEnd)))
  }

  function Serve(pow10: real -> real, w: World, c: Color, t1: int, t2: int, t3: int): World
    requires Positive(pow10)
  {
    var s := w.side.Of(c);
    if s.up == [] then w
    else
      var r, w1 := s.up[0], w.(side := w.side.With(c, TakeUp(s)));
      if r.Report? then Close(pow10, w1, ByReport(r.result, r.reason)) else ServeMove(w1, c, r, t1, t2, t3)
  }

  function ServeMove(w: World, c: Color, r: Request, t1: int, t2: int, t3: int): World
    requires r.Request?
  {
    var (m, reply) := PlayOn(w.rec, UserOf(w.rec, c), r.from, r.to, t1, t2, t3);
    var o := c.Other();
    match reply
    case Rejected(why) => w.(rec := m, side := w.side.With(c, Told(w.side.Of(c), Err(why))))
    case Accepted(opponent, from, to) =>
      var answered := w.side.With(c, Told(w.side.Of(c), Ok));
      w.(rec := m, side := if opponent == UserOf(w.rec, o)
                           then answered.With(o, Told(w.side.Of(o), OpponentMove(from, to)))
                           else answered)
  }

  ghost predicate NetsOk(w: World) {
    NetOk(w.side.red.net) && NetOk(w.side.black.net)
  }

  ghost function Next(pow10: real -> real, w: World, step: Step): World
    requires Positive(pow10)
  {
    if !NetsOk(w) then w else
    match step
    case UserClick(c, at) => w.(side := w.side.With(c, ClickSide(w.side.Of(c), at)))
    case ServerRead(c, t1, t2, t3) => Serve(pow10, w, c, t1, t2, t3)
    case ClientRead(c) =>
      if w.side.Of(c).down == [] then w else w.(side := w.side.With(c, ReadSide(w.side.Of(c))))
    case RequestTimeout(c, i) =>
      w.(side := w.side.With(c, w.side.Of(c).(net := NetTimeout(w.side.Of(c).net, i))))
    case ServerEnds(e) => if e.ByReport? then w else Close(pow10, w, e)
  }

  // ----- What has to hold for the replicas to agree -----

  // The accepted move is still awaited, and its piece is the selected one.
  predicate Heeds(net: Net) {
    net.waits != [] ==> net.waits[0].alive && net.game.cur == Some(net.waits[0].from)
  }

  // c's first request is a move the server will accept.
  predicate Accepting(w: World, c: Color, t1: int, t2: int, t3: int) {
    var s := w.side.Of(c);
    && s.up != [] && s.up[0].Request?
    && PlayOn(w.rec, UserOf(w.rec, c), s.up[0].from, s.up[0].to, t1, t2, t3).1.Accepted?
  }

  // An accepting answer finds its request awaited and its piece selected; a request
  // that is accepted is a legal move of the game as the server has it.
  ghost predicate Careful(start: Game, w: World, step: Step) {
    match step
    case ClientRead(c) => var s := w.side.Of(c); s.down != [] && s.down[0].Ok? ==> Heeds(s.net)
    case ServerRead(c, t1, t2, t3) => 
      var s := w.side.Of(c);
      Accepting(w, c, t1, t2, t3) ==> Playable(Fold(start, w.rec.moves), s.up[0].from, s.up[0].to)
    case _ => true
  }

  // ----- The invariant -----

  function Asked(waits: seq<Wait>): (r: seq<Request>)
    ensures |r| == |waits| && forall i :: 0 <= i < |r| ==> r[i] == Request(waits[i].from, waits[i].to)
  {
    seq(|waits|, i requires 0 <= i < |waits| => Request(waits[i].from, waits[i].to))
  }

  // core, read by a client that has applied n entries and has `asked` in flight,
  // brings it to the end of the log and leaves `rest` in flight.
  ghost predicate CoreOk(c: Color, log: seq<MoveRec>, n: nat, core: seq<Message>, asked: seq<Request>,
                         rest: seq<Request>)
    decreases |core|
  {
    if core == [] then n == |log| && asked == rest
    else
      match core[0]
      case Err(why) =>
        && asked != [] && (why == "Not your turn" ==> Mover(n) != c)
        && CoreOk(c, log, n, core[1..], asked[1..], rest)
      case Ok =>
        && n < |log| && Mover(n) == c && asked != [] && asked[0] == Request(log[n].from, log[n].to)
        && CoreOk(c, log, n + 1, core[1..], asked[1..], rest)
      case OpponentMove(f, t) =>
        && n < |log| && Mover(n) != c && f == log[n].from && t == log[n].to
        && CoreOk(c, log, n + 1, core[1..], asked, rest)
      case GameEnd => false
  }

  // Client c shows the first n log entries.
  ghost predicate Aligned(start: Game, c: Color, net: Net, log: seq<MoveRec>, n: nat) {
    && n <= |log|
    && net.color == Some(c)
    && Shows(net, Fold(start, log[..n]))
    && (net.game.cur.Some? ==> Friendly(net.game.p, net.game.turn, net.game.cur.value))
    && (net.myTurn <==> Mover(n) == c)
  }

  // Each of these requests was playable after the number of moves it was made at.
  ghost predicate MadeOk(start: Game, c: Color, log: seq<MoveRec>, rest: seq<Request>, made: seq<nat>, n: nat) {
    && n <= |log| && |made| == |rest|
    && forall i :: 0 <= i < |rest| ==>
         && rest[i].Request? && made[i] <= n && Mover(made[i]) == c
         && Playable(Fold(start, log[..made[i]]), rest[i].from, rest[i].to)
  }

  // The log, whether the match is on, and whether its end was announced.
  datatype Hub = Hub(log: seq<MoveRec>, active: bool, announced: bool)

  // core is on its way to the client before the end is announced to it, late after;
  // rest and reports are what the server still has to read.
  datatype Mark = Mark(core: seq<Message>, late: seq<Message>, rest: seq<Request>, reports: seq<Request>)

  // A finished game has been reported, at least while the match is on.
  ghost predicate UpOk(start: Game, c: Color, s: Side, h: Hub, k: Mark) {
    && s.up == k.rest + k.reports && MadeOk(start, c, h.log, k.rest, s.made, s.told)
    && (if s.net.game.status then k.reports == []
        else k.reports == [FinalReport(s.net.game)] || (!h.active && k.reports == []))
  }

  ghost predicate Online(start: Game, c: Color, s: Side, h: Hub, k: Mark) {
    && Aligned(start, c, s.net, h.log, s.told)
    && CoreOk(c, h.log, s.told, k.core, Asked(s.net.waits), k.rest)
    && (!h.announced ==> UpOk(start, c, s, h, k))
  }

  predicate AllErr(d: seq<Message>) {
    forall i :: 0 <= i < |d| ==> d[i].Err?
  }

  // A client that was told of the end: it may play on by itself, but not from a
  // game that is over.
  ghost predicate Offline(start: Game, s: Side, log: seq<MoveRec>) {
    AllErr(s.down) && (!Fold(start, log).status ==> Shows(s.net, Fold(start, log)))
  }

  function Trailer(announced: bool, late: seq<Message>): seq<Message> {
    if announced then [GameEnd] + late else []
  }

  ghost predicate ClientOk(start: Game, c: Color, s: Side, h: Hub, k: Mark) {
    && SelectionOk(s.net.game) && (h.announced ==> !h.active)
    && if s.net.online then
         Online(start, c, s, h, k) && AllErr(k.late) && s.down == k.core + Trailer(h.announced, k.late)
       else
         h.announced && Offline(start, s, h.log)
  }

  // ----- Clicks and timers -----

  lemma {:induction false} AskMore(c: Color, log: seq<MoveRec>, n: nat, core: seq<Message>,
                                   asked: seq<Request>, rest: seq<Request>, r: Request)
    requires CoreOk(c, log, n, core, asked, rest)
    ensures CoreOk(c, log, n, core, asked + [r], rest + [r])
    decreases |core|
  {
    if core != [] {
      if core[0].OpponentMove? {
        AskMore(c, log, n + 1, core[1..], asked, rest, r);
      } else {
        assert (asked + [r])[1..] == asked[1..] + [r];
        AskMore(c, log, if core[0].Ok? then n + 1 else n, core[1..], asked[1..], rest, r);
      }
    }
  }

  // The move a click sends is playable on the board it is made on.
  lemma ClickIsPlayable(start: Game, c: Color, net: Net, log: seq<MoveRec>, n: nat, at: Sq)
    requires Safety.Inv(start) && LogOk(start, log) && SelectionOk(net.game) && Aligned(start, c, net, log, n)
    ensures var r := NetClick(net, at).1;
            r.Some? ==> net.online && r.value.Request? && Mover(n) == c
                        && Playable(Fold(start, log[..n]), r.value.from, r.value.to)
  {
    FoldIsSafe(start, log, n);
    assert Safety.Confined(net.game.p);
  }

  lemma ClickKeepsNet(start: Game, c: Color, net: Net, log: seq<MoveRec>, n: nat, at: Sq)
    requires SelectionOk(net.game) && net.online && Aligned(start, c, net, log, n)
    ensures var net' := NetClick(net, at).0;
            && SelectionOk(net'.game) && net'.online && Aligned(start, c, net', log, n)
            && net'.game.(cur := None) == net.game.(cur := None)
  {
  }

  // What a click leaves in transit.
  ghost function MarkAfterClick(s: Side, at: Sq, k: Mark): Mark
    requires NetOk(s.net)
  {
    var r := NetClick(s.net, at).1;
    if s.net.online && r.Some? then k.(rest := k.rest + [r.value]) else k
  }

  lemma MadeGrows(start: Game, c: Color, log: seq<MoveRec>, rest: seq<Request>, made: seq<nat>, n: nat, r: Request)
    requires MadeOk(start, c, log, rest, made, n) && r.Request? && Mover(n) == c
    requires Playable(Fold(start, log[..n]), r.from, r.to)
    ensures MadeOk(start, c, log, rest + [r], made + [n], n)
  {
  }

  lemma ClickOnline(start: Game, c: Color, s: Side, h: Hub, k: Mark, at: Sq)
    requires Safety.Inv(start) && LogOk(start, h.log) && SelectionOk(s.net.game)
    requires s.net.online && Online(start, c, s, h, k)
    ensures Online(start, c, ClickSide(s, at), h, MarkAfterClick(s, at, k))
  {
    ClickIsPlayable(start, c, s.net, h.log, s.told, at);
    ClickKeepsNet(start, c, s.net, h.log, s.told, at);
    var r := NetClick(s.net, at).1;
    if r.Some? {
      AskMore(c, h.log, s.told, k.core, Asked(s.net.waits), k.rest, r.value);
      assert Asked(NetClick(s.net, at).0.waits) == Asked(s.net.waits) + [r.value];
      if !h.announced {
        PlayingOn(start, h.log, s.told);
        MadeGrows(start, c, h.log, k.rest, s.made, s.told, r.value);
        assert k.reports == [] && s.up + [r.value] == k.rest + [r.value] + k.reports;
      }
    }
  }

  // Where a move is playable the game goes on.
  lemma PlayingOn(start: Game, log: seq<MoveRec>, n: nat)
    requires n <= |log|
    ensures forall f, t :: Playable(Fold(start, log[..n]), f, t) ==> Fold(start, log[..n]).status
  {
  }

  lemma ClickKeepsSide(start: Game, c: Color, s: Side, h: Hub, k: Mark, at: Sq)
    requires Safety.Inv(start) && LogOk(start, h.log) && ClientOk(start, c, s, h, k)
    ensures ClientOk(start, c, ClickSide(s, at), h, MarkAfterClick(s, at, k))
  {
    if s.net.online {
      ClickOnline(start, c, s, h, k, at);
      ClickKeepsNet(start, c, s.net, h.log, s.told, at);
    }
  }

  // Giving up a request changes nothing that is in transit.
  lemma GiveUpKeepsSide(start: Game, c: Color, s: Side, h: Hub, k: Mark, i: nat)
    requires ClientOk(start, c, s, h, k)
    ensures ClientOk(start, c, s.(net := NetTimeout(s.net, i)), h, k)
  {
    assert Asked(NetTimeout(s.net, i).waits) == Asked(s.net.waits);
  }

  // ----- The server answers -----

  lemma {:induction false} AppendErr(c: Color, log: seq<MoveRec>, n: nat, core: seq<Message>,
                                     asked: seq<Request>, rest: seq<Request>, why: string)
    requires CoreOk(c, log, n, core, asked, rest) && rest != [] && (why == "Not your turn" ==> Mover(|log|) != c)
    ensures CoreOk(c, log, n, core + [Err(why)], asked, rest[1..])
    decreases |core|
  {
    if core == [] {
      assert core + [Err(why)] == [Err(why)] && [Err(why)][1..] == [];
    } else {
      assert (core + [Err(why)])[1..] == core[1..] + [Err(why)];
      if core[0].OpponentMove? {
        AppendErr(c, log, n + 1, core[1..], asked, rest, why);
      } else {
        AppendErr(c, log, if core[0].Ok? then n + 1 else n, core[1..], asked[1..], rest, why);
      }
    }
  }

  // The log grows by c's own request, or by the opponent's.
  lemma {:induction false} AppendMove(c: Color, log: seq<MoveRec>, entry: MoveRec, n: nat, core: seq<Message>,
                                      asked: seq<Request>, rest: seq<Request>)
    requires CoreOk(c, log, n, core, asked, rest)
    requires Mover(|log|) == c ==> rest != [] && rest[0] == Request(entry.from, entry.to)
    ensures var (m, rest') := if Mover(|log|) == c then (Ok, rest[1..]) else (OpponentMove(entry.from, entry.to), rest);
            CoreOk(c, log + [entry], n, core + [m], asked, rest')
    decreases |core|
  {
    var m := if Mover(|log|) == c then Ok else OpponentMove(entry.from, entry.to);
    if core == [] {
      assert core + [m] == [m] && [m][1..] == [];
      assert (log + [entry])[n] == entry;
    } else {
      assert (core + [m])[1..] == core[1..] + [m];
      if core[0].OpponentMove? {
        AppendMove(c, log, entry, n + 1, core[1..], asked, rest);
      } else {
        AppendMove(c, log, entry, if core[0].Ok? then n + 1 else n, core[1..], asked[1..], rest);
      }
    }
  }

  // The first request of a channel whose end was not announced.
  lemma FirstRequest(start: Game, c: Color, s: Side, h: Hub, k: Mark)
    requires s.up != [] && s.up[0].Request? && UpOk(start, c, s, h, k)
    ensures k.rest != [] && k.rest[0] == s.up[0] && s.up[1..] == k.rest[1..] + k.reports && |s.made| == |k.rest|
    ensures s.made[0] <= s.told <= |h.log| && Mover(s.made[0]) == c
    ensures Playable(Fold(start, h.log[..s.made[0]]), s.up[0].from, s.up[0].to)
    ensures MadeOk(start, c, h.log, k.rest[1..], s.made[1..], s.told)
  {
    assert k.rest != [];
    assert (k.rest + k.reports)[1..] == k.rest[1..] + k.reports;
  }

  // k after the server refused c's first request.
  ghost function MarkAfterRefusal(h: Hub, why: string, k: Mark): Mark {
    if h.announced then k.(late := k.late + [Err(why)])
    else k.(core := k.core + [Err(why)], rest := if k.rest == [] then [] else k.rest[1..])
  }

  lemma RefusedKeepsSide(start: Game, c: Color, s: Side, h: Hub, k: Mark, why: string)
    requires ClientOk(start, c, s, h, k) && s.up != [] && s.up[0].Request?
    requires why == "Not your turn" ==> Mover(|h.log|) != c
    ensures ClientOk(start, c, Told(TakeUp(s), Err(why)), h, MarkAfterRefusal(h, why, k))
  {
    if !s.net.online {
    } else if h.announced {
      assert s.down + [Err(why)] == k.core + Trailer(true, k.late + [Err(why)]);
    } else {
      FirstRequest(start, c, s, h, k);
      AppendErr(c, h.log, s.told, k.core, Asked(s.net.waits), k.rest, why);
      assert s.down + [Err(why)] == k.core + [Err(why)] + Trailer(false, k.late);
    }
  }

  // A longer log leaves the requests made for it as they were.
  lemma MadeStays(start: Game, c: Color, log: seq<MoveRec>, entry: MoveRec, rest: seq<Request>, made: seq<nat>, n: nat)
    requires MadeOk(start, c, log, rest, made, n)
    ensures MadeOk(start, c, log + [entry], rest, made, n)
  {
    forall i | 0 <= i < |rest| ensures (log + [entry])[..made[i]] == log[..made[i]] {
      assert made[i] <= n <= |log|;
    }
  }

  // One more entry for a client that has not been told yet.
  lemma AlignedStays(start: Game, c: Color, net: Net, log: seq<MoveRec>, entry: MoveRec, n: nat)
    requires Aligned(start, c, net, log, n)
    ensures Aligned(start, c, net, log + [entry], n)
  {
    assert (log + [entry])[..n] == log[..n];
  }

  // c's request is accepted.
  lemma TakenKeepsSender(start: Game, c: Color, s: Side, h: Hub, k: Mark, entry: MoveRec)
    requires ClientOk(start, c, s, h, k) && h.active && s.up != [] && s.up[0] == Request(entry.from, entry.to)
    requires Mover(|h.log|) == c
    ensures ClientOk(start, c, Told(TakeUp(s), Ok), h.(log := h.log + [entry]),
                     k.(core := k.core + [Ok], rest := if k.rest == [] then [] else k.rest[1..]))
  {
    FirstRequest(start, c, s, h, k);
    AppendMove(c, h.log, entry, s.told, k.core, Asked(s.net.waits), k.rest);
    AlignedStays(start, c, s.net, h.log, entry, s.told);
    MadeStays(start, c, h.log, entry, k.rest[1..], s.made[1..], s.told);
    assert s.down + [Ok] == k.core + [Ok] + Trailer(false, k.late);
  }

  // The opponent's is.
  lemma TakenKeepsOther(start: Game, o: Color, s: Side, h: Hub, k: Mark, entry: MoveRec)
    requires ClientOk(start, o, s, h, k) && h.active && Mover(|h.log|) != o
    ensures var m := OpponentMove(entry.from, entry.to);
            ClientOk(start, o, Told(s, m), h.(log := h.log + [entry]), k.(core := k.core + [m]))
  {
    var m := OpponentMove(entry.from, entry.to);
    AppendMove(o, h.log, entry, s.told, k.core, Asked(s.net.waits), k.rest);
    AlignedStays(start, o, s.net, h.log, entry, s.told);
    MadeStays(start, o, h.log, entry, k.rest, s.made, s.told);
    assert s.down + [m] == k.core + [m] + Trailer(false, k.late);
  }

  // A report that waits at the server while the match is on is the right one.
  lemma WaitingReport(start: Game, c: Color, s: Side, h: Hub, k: Mark)
    requires LogOk(start, h.log) && ClientOk(start, c, s, h, k) && h.active && s.up != [] && s.up[0].Report?
    ensures !Fold(start, h.log).status && s.up == [FinalReport(Fold(start, h.log))] && k.rest == []
  {
    assert k.rest == [] && !s.net.game.status;
    OnlyTheLastEnds(start, h.log, s.told);
    assert s.told == |h.log| && h.log[..|h.log|] == h.log;
  }

  // Taking a report off a channel once the match is over.
  lemma ReportTakenKeepsSide(start: Game, c: Color, s: Side, h: Hub, k: Mark)
    requires ClientOk(start, c, s, h, k) && !h.active && s.up != [] && s.up[0].Report?
    ensures ClientOk(start, c, TakeUp(s), h, k.(reports := []))
  {
    if s.net.online && !h.announced {
      assert k.rest == [];
      assert s.up[1..] == [];
    }
  }

  // The match ends, unannounced.
  lemma EndKeepsSide(start: Game, c: Color, s: Side, h: Hub, k: Mark)
    requires ClientOk(start, c, s, h, k)
    ensures ClientOk(start, c, s, h.(active := false), k)
  {
  }

  // The end is announced.
  lemma AnnounceKeepsSide(start: Game, c: Color, s: Side, h: Hub, k: Mark)
    requires ClientOk(start, c, s, h, k) && !h.active && !h.announced
    ensures ClientOk(start, c, Told(s, GameEnd), h.(announced := true), k.(late := []))
  {
    assert s.down + [GameEnd] == k.core + Trailer(true, []);
  }

  // ----- A client reads -----

  lemma ReadOffline(start: Game, s: Side, log: seq<MoveRec>)
    requires !s.net.online && SelectionOk(s.net.game) && s.down != [] && Offline(start, s, log)
    ensures var s' := ReadSide(s); !s'.net.online && SelectionOk(s'.net.game) && Offline(start, s', log)
  {
    assert s.down[0].Err?;
  }

  lemma ReadGameEnd(start: Game, c: Color, s: Side, h: Hub, k: Mark)
    requires LogOk(start, h.log) && SelectionOk(s.net.game) && s.net.online && Online(start, c, s, h, k)
    requires k.core == [] && AllErr(k.late) && s.down == [GameEnd] + k.late
    ensures var s' := ReadSide(s); !s'.net.online && SelectionOk(s'.net.game) && Offline(start, s', h.log)
  {
    assert s.told == |h.log| && h.log[..|h.log|] == h.log;
    assert s.down[1..] == k.late;
  }

  // A refusal: it says "not your turn" only where that is known already.
  lemma ReadErr(start: Game, c: Color, s: Side, h: Hub, k: Mark)
    requires SelectionOk(s.net.game) && s.net.online && Online(start, c, s, h, k)
    requires k.core != [] && s.down != [] && s.down[0] == k.core[0] && k.core[0].Err?
    ensures var s' := ReadSide(s);
            && s'.net.online && s'.net.game == s.net.game && s'.up == s.up
            && Online(start, c, s', h, k.(core := k.core[1..]))
  {
    assert s.up + [] == s.up;
    assert s.net.waits != [];
    assert Asked(s.net.waits[1..]) == Asked(s.net.waits)[1..];
  }

  // What a client sends after applying entry n.
  ghost function SentAfter(start: Game, log: seq<MoveRec>, n: nat): seq<Request>
    requires n < |log|
  {
    var g := Fold(start, log[..n + 1]);
    if g.status then [] else [FinalReport(g)]
  }

  // The client after applying entry n.
  ghost function HasApplied(start: Game, net: Net, log: seq<MoveRec>, n: nat, myTurn: bool, waits: seq<Wait>): Net
    requires n < |log|
  {
    net.(game := Fold(start, log[..n + 1]), myTurn := myTurn, waits := waits)
  }

  lemma AnswerIsEntry(start: Game, net: Net, log: seq<MoveRec>, n: nat)
    requires LogOk(start, log) && n < |log| && Shows(net, Fold(start, log[..n])) && net.online
    requires net.waits != [] && net.waits[0] == Wait(log[n].from, log[n].to, true)
    requires net.game.cur == Some(log[n].from) && Friendly(net.game.p, net.game.turn, log[n].from)
    ensures NetRead(net, Ok) == (HasApplied(start, net, log, n, false, net.waits[1..]), SentAfter(start, log, n))
    ensures Fold(start, log[..n + 1]).cur == None
  {
    ApplyEntry(start, net.game, log, n);
    var g := net.game;
    assert g.(turn := g.p[log[n].from].color, cur := Some(log[n].from)) == g;
  }

  lemma OpponentMoveIsEntry(start: Game, net: Net, log: seq<MoveRec>, n: nat)
    requires LogOk(start, log) && n < |log| && Shows(net, Fold(start, log[..n])) && net.online && SelectionOk(net.game)
    ensures NetRead(net, OpponentMove(log[n].from, log[n].to))
         == (HasApplied(start, net, log, n, true, net.waits), SentAfter(start, log, n))
    ensures Fold(start, log[..n + 1]).cur == None
  {
    ApplyEntry(start, net.game, log, n);
  }

  lemma AlignedAfter(start: Game, c: Color, net: Net, log: seq<MoveRec>, n: nat, waits: seq<Wait>)
    requires LogOk(start, log) && n < |log| && Aligned(start, c, net, log, n) && Fold(start, log[..n + 1]).cur == None
    ensures Aligned(start, c, HasApplied(start, net, log, n, Mover(n) != c, waits), log, n + 1)
  {
  }

  // The requests in flight, and the report, after entry n was applied.
  lemma UpAfter(start: Game, c: Color, s: Side, s': Side, h: Hub, k: Mark)
    requires LogOk(start, h.log) && s.told < |h.log|
    requires Aligned(start, c, s.net, h.log, s.told) && UpOk(start, c, s, h, k)
    requires s'.net.game == Fold(start, h.log[..s.told + 1]) && s'.told == s.told + 1 && s'.made == s.made
    requires s'.up == s.up + SentAfter(start, h.log, s.told)
    ensures UpOk(start, c, s', h, k.(reports := k.reports + SentAfter(start, h.log, s.told)))
  {
    OnlyTheLastEnds(start, h.log, s.told);
    assert s.net.game.status && k.reports == [];
    Associates(k.rest, k.reports, SentAfter(start, h.log, s.told));
    assert k.reports + SentAfter(start, h.log, s.told) == SentAfter(start, h.log, s.told);
  }

  // What is still awaited after reading an accepting answer or an opponent's move.
  function StillAwaited(s: Side): seq<Wait>
    requires s.down != []
  {
    if s.down[0].Ok? && s.net.waits != [] then s.net.waits[1..] else s.net.waits
  }

  // The side after applying the next entry.
  ghost function Applied(start: Game, c: Color, s: Side, log: seq<MoveRec>): Side
    requires s.told < |log| && s.down != []
  {
    s.(net := HasApplied(start, s.net, log, s.told, Mover(s.told) != c, StillAwaited(s)),
       up := s.up + SentAfter(start, log, s.told), down := s.down[1..], told := s.told + 1)
  }

  // The client's own move, or the opponent's, as the log has it.
  lemma ReadEntry(start: Game, c: Color, s: Side, h: Hub, k: Mark)
    requires LogOk(start, h.log) && SelectionOk(s.net.game) && s.net.online && Online(start, c, s, h, k)
    requires k.core != [] && s.down != [] && s.down[0] == k.core[0] && !k.core[0].Err?
    requires k.core[0].Ok? ==> Heeds(s.net)
    ensures s.told < |h.log| && ReadSide(s) == Applied(start, c, s, h.log)
    ensures Fold(start, h.log[..s.told + 1]).cur == None
    ensures CoreOk(c, h.log, s.told + 1, k.core[1..], Asked(StillAwaited(s)), k.rest)
  {
    var n := s.told;
    if k.core[0].Ok? {
      assert s.net.waits != [];
      assert Asked(s.net.waits)[0] == Request(h.log[n].from, h.log[n].to);
      assert Asked(s.net.waits[1..]) == Asked(s.net.waits)[1..];
      AnswerIsEntry(start, s.net, h.log, n);
    } else {
      OpponentMoveIsEntry(start, s.net, h.log, n);
    }
  }

  lemma AppliedIsOnline(start: Game, c: Color, s: Side, h: Hub, k: Mark)
    requires LogOk(start, h.log) && s.told < |h.log| && s.down != [] && s.net.online && Online(start, c, s, h, k)
    requires Fold(start, h.log[..s.told + 1]).cur == None
    requires CoreOk(c, h.log, s.told + 1, k.core[1..], Asked(StillAwaited(s)), k.rest)
    ensures var s' := Applied(start, c, s, h.log);
            && s'.net.online && SelectionOk(s'.net.game)
            && Online(start, c, s', h, k.(core := k.core[1..], reports := k.reports + SentAfter(start, h.log, s.told)))
  {
    AlignedAfter(start, c, s.net, h.log, s.told, StillAwaited(s));
    if !h.announced {
      UpAfter(start, c, s, Applied(start, c, s, h.log), h, k);
    }
  }

  lemma ReadOnline(start: Game, c: Color, s: Side, h: Hub, k: Mark)
    requires LogOk(start, h.log) && SelectionOk(s.net.game) && s.net.online && Online(start, c, s, h, k)
    requires k.core != [] && s.down != [] && s.down[0] == k.core[0] && !k.core[0].Err?
    requires k.core[0].Ok? ==> Heeds(s.net)
    ensures var s' := ReadSide(s);
            && s.told < |h.log| && s'.net.online && SelectionOk(s'.net.game)
            && Online(start, c, s', h, k.(core := k.core[1..], reports := k.reports + SentAfter(start, h.log, s.told)))
  {
    ReadEntry(start, c, s, h, k);
    AppliedIsOnline(start, c, s, h, k);
  }

  // The mark after a client has read.
  lemma ReadKeepsSide(start: Game, c: Color, s: Side, h: Hub, k: Mark) returns (k': Mark)
    requires LogOk(start, h.log) && ClientOk(start, c, s, h, k) && s.down != []
    requires s.down[0].Ok? ==> Heeds(s.net)
    ensures ClientOk(start, c, ReadSide(s), h, k')
  {
    k' := k;
    if !s.net.online {
      ReadOffline(start, s, h.log);
    } else if k.core == [] {
      assert s.down == [GameEnd] + k.late;
      ReadGameEnd(start, c, s, h, k);
    } else {
      FromTheFront(k.core, Trailer(h.announced, k.late));
      if k.core[0].Err? {
        k' := k.(core := k.core[1..]);
        ReadErr(start, c, s, h, k);
      } else {
        ReadOnline(start, c, s, h, k);
        k' := k.(core := k.core[1..], reports := k.reports + SentAfter(start, h.log, s.told));
      }
    }
  }

  lemma FromTheFront(core: seq<Message>, rest: seq<Message>)
    requires core != []
    ensures (core + rest)[0] == core[0] && (core + rest)[1..] == core[1..] + rest
  {
  }
}
