// Rating points and results are conserved by resign, draw and game over, and
// what a timeout costs.
module Conservation {
  import opened Matches
  import opened Ratings
  import opened Servers
  import opened Lifecycle

  lemma NobodyIn(ids: set<int>)
    requires forall k :: k !in ids
    ensures ids == {}
  {
    assert forall k :: k in ids <==> k in {};
  }

  ghost function Pick(users: map<int, User>): (k: int)
    requires users.Keys != {}
    ensures k in users
  {
    assert exists k :: k in users.Keys by {
      if forall k :: k !in users.Keys {
        NobodyIn(users.Keys);
      }
    }
    var k :| k in users.Keys;
    k
  }

  // The sum of f over all users.
  ghost function Total(f: User -> int, users: map<int, User>): int
    decreases |users|
  {
    if users.Keys == {} then 0
    else
      var k := Pick(users);
      Smaller(users, k);
      f(users[k]) + Total(f, users - {k})
  }

  lemma Smaller(users: map<int, User>, k: int)
    requires k in users
    ensures |users - {k}| < |users|
  {
    assert users.Keys == (users - {k}).Keys + {k};
  }

  // Any user may be counted first.
  lemma {:induction false} TotalFrom(f: User -> int, users: map<int, User>, k: int)
    requires k in users
    ensures Total(f, users) == f(users[k]) + Total(f, users - {k})
    decreases |users|
  {
    var j := Pick(users);
    if j != k {
      Smaller(users, j);
      Smaller(users, k);
      TotalFrom(f, users - {j}, k);
      TotalFrom(f, users - {k}, j);
      assert users - {j} - {k} == users - {k} - {j};
    }
  }

  lemma TotalUpdate(f: User -> int, users: map<int, User>, k: int, u: User)
    requires k in users
    ensures Total(f, users[k := u]) == Total(f, users) - f(users[k]) + f(u)
  {
    TotalFrom(f, users, k);
    TotalFrom(f, users[k := u], k);
    assert users[k := u] - {k} == users - {k};
  }

  ghost function Points(users: map<int, User>): int {
    Total((u: User) => u.rating, users)
  }

  // Wins less losses.
  ghost function Balance(users: map<int, User>): int {
    Total((u: User) => u.wins - u.losses, users)
  }

  ghost function Draws(users: map<int, User>): int {
    Total((u: User) => u.draws, users)
  }

  // The two updates of one settlement, between two users.
  lemma TwoUpdates(f: User -> int, users: map<int, User>, a: int, b: int, u: User, v: User)
    requires a in users && b in users && a != b
    ensures Total(f, users[a := u][b := v]) - Total(f, users) == f(u) - f(users[a]) + f(v) - f(users[b])
  {
    TotalUpdate(f, users, a, u);
    TotalUpdate(f, users[a := u], b, v);
  }

  // For one user, only the second write stays.
  lemma SecondWriteStays(f: User -> int, users: map<int, User>, a: int, u: User, v: User)
    requires a in users
    ensures Total(f, users[a := u][a := v]) - Total(f, users) == f(v) - f(users[a])
  {
    assert users[a := u][a := v] == users[a := v];
    TotalUpdate(f, users, a, v);
  }

  // The settlement block touches the users of m.
  predicate Rewards(users: map<int, User>, m: MatchRec) {
    m.rated && m.red in users && m.black in users
  }

  // Whatever result string a handler settles between two users.
  lemma SettlementConserves(pow10: real -> real, users: map<int, User>, m: MatchRec, result: string)
    requires Positive(pow10) && (Rewards(users, m) ==> m.red != m.black)
    ensures var users' := Settle(pow10, users, m, result);
            && Points(users') == Points(users)
            && Balance(users') == Balance(users)
            && Draws(users') == Draws(users) + (if Rewards(users, m) && result == "draw" then 2 else 0)
  {
    if Rewards(users, m) {
      var u1, u2 := users[m.red], users[m.black];
      var change := Calculate(pow10, u1.rating, u2.rating, result, DEFAULT_K_FACTOR);
      var (v1, v2) := Tally(u1, u2, result);
      var w1, w2 := v1.(rating := u1.rating + change.red), v2.(rating := u2.rating + change.black);
      ChangesCancel(pow10, u1.rating, u2.rating, result, DEFAULT_K_FACTOR);
      TwoUpdates((u: User) => u.rating, users, m.red, m.black, w1, w2);
      TwoUpdates((u: User) => u.wins - u.losses, users, m.red, m.black, w1, w2);
      TwoUpdates((u: User) => u.draws, users, m.red, m.black, w1, w2);
    }
  }

  // A user matched with himself keeps only what Black is given: 16 points and a
  // win, the same as a loss, or one draw.
  lemma SelfSettlement(pow10: real -> real, users: map<int, User>, m: MatchRec, result: string)
    requires Exponential(pow10) && Rewards(users, m) && m.red == m.black
    ensures var users' := Settle(pow10, users, m, result);
            var sign := if result == "black_win" then 1 else if result == "red_win" then -1 else 0;
            && Points(users') == Points(users) + 16 * sign
            && Balance(users') == Balance(users) + sign
            && Draws(users') == Draws(users) + (if result == "draw" then 1 else 0)
  {
    var u := users[m.red];
    var change := Calculate(pow10, u.rating, u.rating, result, DEFAULT_K_FACTOR);
    var (v1, v2) := Tally(u, u, result);
    var w1, w2 := v1.(rating := u.rating + change.red), v2.(rating := u.rating + change.black);
    EqualsShareTheStake(pow10, u.rating, result);
    SecondWriteStays((u: User) => u.rating, users, m.red, w1, w2);
    SecondWriteStays((u: User) => u.wins - u.losses, users, m.red, w1, w2);
    SecondWriteStays((u: User) => u.draws, users, m.red, w1, w2);
  }

  // Exactly when a settlement conserves each total.
  lemma SettlementConservesExactly(pow10: real -> real, users: map<int, User>, m: MatchRec, result: string)
    requires Exponential(pow10)
    ensures var users' := Settle(pow10, users, m, result);
            var selfMatch := Rewards(users, m) && m.red == m.black;
            && (Points(users') == Points(users) <==> !selfMatch || result !in {"red_win", "black_win"})
            && (Balance(users') == Balance(users) <==> !selfMatch || result !in {"red_win", "black_win"})
            && (Draws(users') % 2 == Draws(users) % 2 <==> !selfMatch || result != "draw")
  {
    if Rewards(users, m) && m.red == m.black {
      SelfSettlement(pow10, users, m, result);
    } else {
      SettlementConserves(pow10, users, m, result);
    }
  }

  // The same totals, up to an even number of draws.
  ghost predicate SameTotals(a: map<int, User>, b: map<int, User>) {
    && Points(a) == Points(b)
    && Balance(a) == Balance(b)
    && Draws(a) % 2 == Draws(b) % 2 && Draws(a) <= Draws(b)
  }

  // No rated match of a user against himself.
  ghost predicate FairTable(s: State) {
    forall i :: 0 <= i < s.count && i < |s.matches| ==> FairMatch(s.matches[i])
  }

  predicate FairMatch(m: MatchRec) {
    m.rated ==> m.red != m.black
  }

  predicate FairOp(op: Op) {
    op.Create? && op.rated ==> op.red != op.black
  }

  lemma StepStaysFair(pow10: real -> real, s: State, op: Op)
    requires Positive(pow10) && Inv(s) && Enabled(s, op) && FairTable(s) && FairOp(op)
    ensures FairTable(Apply(pow10, s, op))
  {
    var s' := Apply(pow10, s, op);
    StepKeepsInv(pow10, s, op);
    forall i | 0 <= i < s'.count && i < |s'.matches| ensures FairMatch(s'.matches[i]) {
      if i < s.count {
        assert Succeeds(s.matches[i], s'.matches[i]) && FairMatch(s.matches[i]);
      } else {
        NewSlot(pow10, s, op);
      }
    }
  }

  // Only a creation takes a new slot, and it takes one.
  lemma NewSlot(pow10: real -> real, s: State, op: Op)
    requires Positive(pow10) && Inv(s) && Enabled(s, op)
    ensures var s' := Apply(pow10, s, op);
            s'.count != s.count ==>
              && op.Create? && s'.count == s.count + 1 && s.count < MAX_MATCHES == |s'.matches|
              && s'.matches[s.count]
                 == Fresh(MatchId(s.count + 1, op.madeAt), op.red, op.black, op.rated, op.timeMs, op.madeAt)
  {
    if op.Create? {
      CreateSucceeds(s, op.red, op.black, op.rated, op.timeMs, op.madeAt);
    } else if op.TimeoutRound? {
      SweepEffect(pow10, s, op.now);
    }
  }

  lemma FinishConserves(pow10: real -> real, s: State, id: string, result: string, reason: string)
    requires Positive(pow10) && Inv(s) && FairTable(s)
    ensures SameTotals(s.users, Finish(pow10, s, id, result, reason).users)
  {
    var i := Find(s.matches, id);
    if i < |s.matches| && s.matches[i].active {
      ActiveSlot(s, id);
      assert FairMatch(s.matches[i]);
      SettlementConserves(pow10, s.users, s.matches[i], result);
    }
  }

  // No timeout is settled on the way.
  ghost predicate NoTimeouts(pow10: real -> real, s: State, ops: seq<Op>)
    requires Positive(pow10)
    decreases |ops|
  {
    ops == [] || ((ops[0].TimeoutRound? ==> ExpiredSlots(s.matches, ops[0].now) == [])
                  && NoTimeouts(pow10, Apply(pow10, s, ops[0]), ops[1..]))
  }

  lemma StepConserves(pow10: real -> real, s: State, op: Op)
    requires Positive(pow10) && Inv(s) && Enabled(s, op) && FairTable(s)
    requires op.TimeoutRound? ==> ExpiredSlots(s.matches, op.now) == []
    ensures SameTotals(s.users, Apply(pow10, s, op).users)
  {
    match op
    case Resign(user, id) => FinishConserves(pow10, s, id, ResignResult(s, user, id), "resign");
    case DrawResponse(id, _) => FinishConserves(pow10, s, id, "draw", "agreement");
    case GameOver(id, result, reason) =>
      FinishConserves(pow10, s, id, result, if reason.Some? then reason.value else "game_over");
    case _ => QuietStep(pow10, s, op);
  }

  // Nothing else pays anybody.
  lemma QuietStep(pow10: real -> real, s: State, op: Op)
    requires Positive(pow10) && s.pending == [] && !op.Resign? && !op.DrawResponse? && !op.GameOver?
    requires op.TimeoutRound? ==> ExpiredSlots(s.matches, op.now) == []
    ensures Apply(pow10, s, op).users == s.users
  {
    if op.TimeoutRound? {
      QuietRound(pow10, s, op.now);
    }
  }

  lemma QuietRound(pow10: real -> real, s: State, now: int)
    requires Positive(pow10) && s.pending == [] && ExpiredSlots(s.matches, now) == []
    ensures Sweep(pow10, s, now).users == s.users
  {
    ExpiriesAreOfExpiredSlots(s.matches, now);
    assert s.pending + Expiries(s.matches, now) == [];
  }

  // Over every run that settles no timeout and rates no match of a user against himself.
  lemma {:induction false} RunConserves(pow10: real -> real, s: State, ops: seq<Op>)
    requires Positive(pow10) && Inv(s) && CanRun(pow10, s, ops) && NoTimeouts(pow10, s, ops)
    requires FairTable(s) && forall op :: op in ops ==> FairOp(op)
    ensures SameTotals(s.users, Run(pow10, s, ops).users)
    decreases |ops|
  {
    if ops != [] {
      assert ops[0] in ops && forall op :: op in ops[1..] ==> op in ops;
      StepKeepsInv(pow10, s, ops[0]);
      StepStaysFair(pow10, s, ops[0]);
      StepConserves(pow10, s, ops[0]);
      RunConserves(pow10, Apply(pow10, s, ops[0]), ops[1..]);
    }
  }

  // And an unfair creation can be followed by a run that conserves nothing: a user
  // who resigns a rated match against himself is given 16 points and a win.
  lemma SelfMatchMints(pow10: real -> real, s: State, user: int, timeMs: int, now: nat)
    requires Exponential(pow10) && Inv(s) && s.count < MAX_MATCHES && user in s.users
    ensures var ops := [Op.Create(user, user, true, timeMs, now), Op.Resign(user, MatchId(s.count + 1, now))];
            var s' := Run(pow10, s, ops);
            && CanRun(pow10, s, ops)
            && Points(s'.users) == Points(s.users) + 16 && Balance(s'.users) == Balance(s.users) + 1
  {
    var create, resign := Op.Create(user, user, true, timeMs, now), Op.Resign(user, MatchId(s.count + 1, now));
    var s1 := Apply(pow10, s, create);
    CreateStep(s, user, user, true, timeMs, now);
    NewSlot(pow10, s, create);
    CreateSucceeds(s, user, user, true, timeMs, now);
    OneSlot(s1, s.count);
    SelfSettlement(pow10, s.users, s1.matches[s.count], "black_win");
    assert [create, resign][1..] == [resign] && [resign][1..] == [];
    assert Run(pow10, s, [create, resign]) == Run(pow10, s1, [resign]) == Apply(pow10, s1, resign);
  }

  // A timeout is not conservative.  Between two users exactly the penalty leaves
  // the system unless the floor of 100 applies; a user matched with himself keeps
  // only what Black is given.
  lemma TimeoutCosts(pow10: real -> real, users: map<int, User>, t: TimeoutInfo)
    requires Positive(pow10) && t.red in users && t.black in users
    ensures var users' := SettleTimeout(pow10, users, t);
            var change := Calculate(pow10, users[t.red].rating, users[t.black].rating, t.result, DEFAULT_K_FACTOR);
            var red := users[t.red].rating + change.red - if t.result == "red_win" then 0 else PENALTY;
            var black := users[t.black].rating + change.black - if t.result == "red_win" then PENALTY else 0;
            Points(users') - Points(users) ==
              if t.red != t.black then -PENALTY + (Floor100(red) - red) + (Floor100(black) - black)
              else Floor100(black) - users[t.black].rating
  {
    var users' := SettleTimeout(pow10, users, t);
    ChangesCancel(pow10, users[t.red].rating, users[t.black].rating, t.result, DEFAULT_K_FACTOR);
    if t.red != t.black {
      TwoUpdates((u: User) => u.rating, users, t.red, t.black, users'[t.red], users'[t.black]);
      assert users[t.red := users'[t.red]][t.black := users'[t.black]] == users';
    } else {
      TotalUpdate((u: User) => u.rating, users, t.black, users'[t.black]);
      assert users[t.black := users'[t.black]] == users';
    }
  }
}
