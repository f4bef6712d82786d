// What every run of the match handlers keeps: the slot table, the turn kept
// twice, the log, and the rule that a match is settled at most once.
module Lifecycle {
  import opened Xiangqi
  import opened Matches
  import opened Ratings
  import opened Decimals
  import opened Servers

  datatype Op =
    | Create(red: int, black: int, rated: bool, timeMs: int, madeAt: nat)
    | Play(user: int, id: string, from: Sq, to: Sq, t1: int, t2: int, t3: int)
    | Resign(user: int, id: string)
    | DrawResponse(id: string, accept: bool)
    | GameOver(id: string, result: string, reason: Option<string>)
    | Abort(id: string)
    | TimeoutRound(now: int)

  function Apply(pow10: real -> real, s: State, op: Op): State
    requires Positive(pow10)
  {
    match op
    case Create(red, black, rated, timeMs, now) => Servers.Create(s, red, black, rated, timeMs, now).0
    case Play(user, id, from, to, t1, t2, t3) => Servers.Move(s, user, id, from, to, t1, t2, t3).0
    case Resign(user, id) => Finish(pow10, s, id, ResignResult(s, user, id), "resign")
    case DrawResponse(id, accept) => if accept then Finish(pow10, s, id, "draw", "agreement") else s
    case GameOver(id, result, reason) =>
      Finish(pow10, s, id, result, if reason.Some? then reason.value else "game_over")
    case Abort(id) => Servers.Abort(s, id)
    case TimeoutRound(now) => Sweep(pow10, s, now)
  }

  // The rollback is only called for a match that was just created; every other
  // operation may come at any time.
  ghost predicate Enabled(s: State, op: Op) {
    op.Abort? ==> Find(s.matches, op.id) < |s.matches| && s.matches[Find(s.matches, op.id)].active
  }

  // ----- The invariant -----

  ghost predicate SlotOk(s: State, i: nat)
    requires i < |s.matches|
  {
    var m := s.matches[i];
    if i < s.count then
      && m.startedAt >= 0 && m.id == MatchId(i + 1, m.startedAt)
      && |m.moves| <= MAX_MOVES
      && m.turn == (if |m.moves| % 2 == 0 then "red" else "black")
    else m == FREE
  }

  ghost predicate TableOk(s: State) {
    && |s.matches| == MAX_MATCHES && s.count <= MAX_MATCHES
    && forall i :: 0 <= i < MAX_MATCHES ==> SlotOk(s, i)
  }

  // id belongs to a match that is over.
  ghost predicate IsOver(s: State, id: string) {
    exists i :: 0 <= i < s.count && i < |s.matches| && s.matches[i].id == id && !s.matches[i].active
  }

  ghost predicate NoRepeats(ids: seq<string>) {
    forall i, j :: 0 <= i < j < |ids| ==> ids[i] != ids[j]
  }

  ghost predicate SettledOnce(s: State) {
    NoRepeats(s.settled) && forall id :: id in s.settled ==> IsOver(s, id)
  }

  ghost predicate Inv(s: State) {
    TableOk(s) && SettledOnce(s) && s.pending == []
  }

  // ----- Ids -----

  lemma IdsDiffer(n: nat, a: nat, k: nat, b: nat)
    requires MatchId(n, a) == MatchId(k, b)
    ensures n == k && a == b
  {
    var u, v := Dec(n) + "_" + Dec(a), Dec(k) + "_" + Dec(b);
    assert MatchId(n, a) == "match_" + u && MatchId(k, b) == "match_" + v;
    assert u == MatchId(n, a)[6..] == v;
    DecThenMark(n, k, '_', Dec(a), Dec(b));
    ValueOfDec(a);
    ValueOfDec(b);
  }

  // match_get finds the one slot that has the id.
  lemma OneSlot(s: State, i: nat)
    requires TableOk(s) && i < s.count
    ensures s.matches[i].id != "" && Find(s.matches, s.matches[i].id) == i
    ensures forall j :: 0 <= j < MAX_MATCHES && s.matches[j].id == s.matches[i].id ==> j == i
  {
    assert SlotOk(s, i);
    forall j | 0 <= j < MAX_MATCHES && s.matches[j].id == s.matches[i].id ensures j == i {
      assert SlotOk(s, j);
      if j < s.count {
        IdsDiffer(i + 1, s.matches[i].startedAt, j + 1, s.matches[j].startedAt);
      }
    }
  }

  function Upto(n: nat): (r: set<int>)
    ensures |r| == n && forall i :: i in r <==> 0 <= i < n
  {
    if n == 0 then {} else Upto(n - 1) + {n - 1}
  }

  // match_count is the number of slots with an id.
  lemma CountIsOccupancy(s: State)
    requires TableOk(s)
    ensures |set i | 0 <= i < MAX_MATCHES && s.matches[i].id != ""| == s.count
  {
    forall i | 0 <= i < MAX_MATCHES ensures s.matches[i].id != "" <==> i < s.count {
      assert SlotOk(s, i);
    }
    assert (set i | 0 <= i < MAX_MATCHES && s.matches[i].id != "") == Upto(s.count);
  }

  // match_create succeeds exactly while fewer than 500 matches were ever made,
  // and always takes the next slot.
  lemma CreateSucceeds(s: State, red: int, black: int, rated: bool, timeMs: int, now: nat)
    requires TableOk(s)
    ensures Servers.Create(s, red, black, rated, timeMs, now).1.Some? <==> s.count < 500
    ensures s.count < MAX_MATCHES ==> FirstFree(s.matches) == s.count
  {
    forall i | 0 <= i < MAX_MATCHES ensures IsFree(s.matches[i]) <==> i >= s.count {
      assert SlotOk(s, i);
    }
    if s.count < MAX_MATCHES {
      assert IsFree(s.matches[s.count]);
    }
  }

  // ----- Every step keeps the invariant -----

  // One occupied slot is rewritten within its match.
  ghost predicate Rewrites(s: State, s': State, i: nat) {
    && i < s.count <= |s.matches|
    && s'.count == s.count && s'.pending == s.pending
    && |s'.matches| == |s.matches| && s'.matches == s.matches[i := s'.matches[i]]
    && Succeeds(s.matches[i], s'.matches[i])
  }

  // m' is m after some calls: same match, log extended, and nothing at all once over.
  ghost predicate Succeeds(m: MatchRec, m': MatchRec) {
    && m'.id == m.id && m'.red == m.red && m'.black == m.black && m'.startedAt == m.startedAt && m'.rated == m.rated
    && m.moves <= m'.moves
    && (!m.active ==> m' == m)
  }

  lemma RewriteKeepsTable(s: State, s': State, i: nat)
    requires TableOk(s) && Rewrites(s, s', i)
    requires |s'.matches[i].moves| <= MAX_MOVES
    requires s'.matches[i].turn == (if |s'.matches[i].moves| % 2 == 0 then "red" else "black")
    ensures TableOk(s') && forall id :: IsOver(s, id) ==> IsOver(s', id)
  {
    forall j | 0 <= j < MAX_MATCHES ensures SlotOk(s', j) {
      assert SlotOk(s, j);
    }
    forall id | IsOver(s, id) ensures IsOver(s', id) {
      var j :| 0 <= j < s.count && s.matches[j].id == id && !s.matches[j].active;
      assert s'.matches[j] == s.matches[j];
    }
  }

  // The slot an id leads to, when its match is still on.
  lemma ActiveSlot(s: State, id: string)
    requires TableOk(s) && Find(s.matches, id) < |s.matches| && s.matches[Find(s.matches, id)].active
    ensures Find(s.matches, id) < s.count && !IsOver(s, id)
  {
    var i := Find(s.matches, id);
    assert SlotOk(s, i);
    OneSlot(s, i);
  }

  lemma FinishKeepsInv(pow10: real -> real, s: State, id: string, result: string, reason: string)
    requires Positive(pow10) && Inv(s)
    ensures Inv(Finish(pow10, s, id, result, reason))
  {
    var i := Find(s.matches, id);
    if i < |s.matches| && s.matches[i].active {
      ActiveSlot(s, id);
      assert SlotOk(s, i);
      var s' := Finish(pow10, s, id, result, reason);
      RewriteKeepsTable(s, s', i);
      assert s'.matches[i].id == id;
    }
  }

  lemma PlayRewrites(s: State, op: Op)
    requires TableOk(s) && op.Play?
    ensures var (s', reply) := Servers.Move(s, op.user, op.id, op.from, op.to, op.t1, op.t2, op.t3);
            var i := Find(s.matches, op.id);
            s' == s || (Rewrites(s, s', i) && s'.settled == s.settled && |s'.matches[i].moves| <= MAX_MOVES
                        && s'.matches[i].turn == (if |s'.matches[i].moves| % 2 == 0 then "red" else "black"))
  {
    var i := Find(s.matches, op.id);
    if i < |s.matches| {
      assert SlotOk(s, i);
      if !s.matches[i].active {
        assert s.matches[i := s.matches[i]] == s.matches;
      } else {
        ActiveSlot(s, op.id);
      }
    }
  }

  // Every match of s lives on in s' at the same slot, and what is over stays as it is.
  ghost predicate Continues(s: State, s': State) {
    && s.count <= s'.count && |s.matches| == |s'.matches| == MAX_MATCHES
    && forall i :: 0 <= i < s.count && i < MAX_MATCHES ==> Succeeds(s.matches[i], s'.matches[i])
  }

  lemma RewriteContinues(s: State, s': State, i: nat)
    requires TableOk(s) && Rewrites(s, s', i)
    ensures Continues(s, s')
  {
  }

  lemma ContinuesIsTransitive(a: State, b: State, c: State)
    requires Continues(a, b) && Continues(b, c)
    ensures Continues(a, c)
  {
    forall i | 0 <= i < a.count && i < MAX_MATCHES ensures Succeeds(a.matches[i], c.matches[i]) {
      assert Succeeds(a.matches[i], b.matches[i]) && Succeeds(b.matches[i], c.matches[i]);
    }
  }

  lemma FinishStep(pow10: real -> real, s: State, id: string, result: string, reason: string)
    requires Positive(pow10) && Inv(s)
    ensures var s' := Finish(pow10, s, id, result, reason); Inv(s') && Continues(s, s')
  {
    FinishKeepsInv(pow10, s, id, result, reason);
    var i := Find(s.matches, id);
    if i < |s.matches| && s.matches[i].active {
      ActiveSlot(s, id);
      RewriteContinues(s, Finish(pow10, s, id, result, reason), i);
    }
  }

  lemma PlayStep(pow10: real -> real, s: State, op: Op)
    requires Positive(pow10) && Inv(s) && op.Play?
    ensures var s' := Apply(pow10, s, op); Inv(s') && Continues(s, s') && s'.settled == s.settled
  {
    var s' := Apply(pow10, s, op);
    PlayRewrites(s, op);
    if s' != s {
      RewriteKeepsTable(s, s', Find(s.matches, op.id));
      RewriteContinues(s, s', Find(s.matches, op.id));
    }
  }

  lemma AbortStep(s: State, id: string)
    requires Inv(s) && Enabled(s, Abort(id))
    ensures var s' := Servers.Abort(s, id); Inv(s') && Continues(s, s')
  {
    var i, s' := Find(s.matches, id), Servers.Abort(s, id);
    ActiveSlot(s, id);
    assert SlotOk(s, i);
    RewriteKeepsTable(s, s', i);
    RewriteContinues(s, s', i);
  }

  lemma CreateStep(s: State, red: int, black: int, rated: bool, timeMs: int, now: nat)
    requires Inv(s) && Enabled(s, Create(red, black, rated, timeMs, now))
    ensures var s' := Servers.Create(s, red, black, rated, timeMs, now).0; Inv(s') && Continues(s, s')
  {
    CreateSucceeds(s, red, black, rated, timeMs, now);
    var s' := Servers.Create(s, red, black, rated, timeMs, now).0;
    forall j | 0 <= j < MAX_MATCHES ensures SlotOk(s', j) {
      assert SlotOk(s, j);
    }
    forall id | id in s'.settled ensures IsOver(s', id) {
      assert IsOver(s, id);
      var j :| 0 <= j < s.count && s.matches[j].id == id && !s.matches[j].active;
      assert s'.matches[j] == s.matches[j];
    }
  }

  // ----- Timeouts -----

  // The slots a sweep at `now` finds expired, in order.
  ghost function ExpiredSlots(ms: seq<MatchRec>, now: int): (r: seq<nat>)
    ensures |r| <= |ms|
    ensures forall k :: 0 <= k < |r| ==> r[k] < |ms| && Expired(ms[r[k]], now)
    ensures forall k, l :: 0 <= k < l < |r| ==> r[k] < r[l]
    ensures forall i :: 0 <= i < |ms| && Expired(ms[i], now) ==> i in r
  {
    if ms == [] then []
    else
      var n := |ms| - 1;
      var r := ExpiredSlots(ms[..n], now);
      assert forall i :: 0 <= i < n ==> ms[..n][i] == ms[i];
      r + if Expired(ms[n], now) then [n] else []
  }

  lemma {:induction false} ExpiriesAreOfExpiredSlots(ms: seq<MatchRec>, now: int)
    ensures |Expiries(ms, now)| == |ExpiredSlots(ms, now)|
    ensures forall k :: 0 <= k < |Expiries(ms, now)| ==> Expiries(ms, now)[k] == InfoOf(ms[ExpiredSlots(ms, now)[k]])
  {
    if ms != [] {
      var n := |ms| - 1;
      ExpiriesAreOfExpiredSlots(ms[..n], now);
      var before, slots := Expiries(ms[..n], now), ExpiredSlots(ms[..n], now);
      forall k | 0 <= k < |before| ensures before[k] == InfoOf(ms[slots[k]]) {
        assert ms[..n][slots[k]] == ms[slots[k]];
      }
    }
  }

  // The slots whose timeout is drained, and so settled, in this round.
  ghost function DrainedSlots(ms: seq<MatchRec>, now: int): (r: seq<nat>)
    ensures |r| <= DRAIN_LIMIT
    ensures forall k :: 0 <= k < |r| ==> r[k] < |ms| && Expired(ms[r[k]], now)
    ensures forall k, l :: 0 <= k < l < |r| ==> r[k] < r[l]
  {
    var slots := ExpiredSlots(ms, now);
    if |slots| <= DRAIN_LIMIT then slots else slots[..DRAIN_LIMIT]
  }

  ghost function IdsOf(ms: seq<MatchRec>, slots: seq<nat>): (r: seq<string>)
    requires forall k :: 0 <= k < |slots| ==> slots[k] < |ms|
    ensures |r| == |slots| && forall k :: 0 <= k < |slots| ==> r[k] == ms[slots[k]].id
  {
    seq(|slots|, k requires 0 <= k < |slots| => ms[slots[k]].id)
  }

  lemma DrainedAreOfDrainedSlots(ms: seq<MatchRec>, now: int)
    ensures TimeoutIds(Drained(Expiries(ms, now), DRAIN_LIMIT)) == IdsOf(ms, DrainedSlots(ms, now))
  {
    ExpiriesAreOfExpiredSlots(ms, now);
    var ts, slots := Drained(Expiries(ms, now), DRAIN_LIMIT), DrainedSlots(ms, now);
    assert |ts| == |slots|;
    forall k | 0 <= k < |ts| ensures TimeoutIds(ts)[k] == IdsOf(ms, slots)[k] {
      assert ts[k] == Expiries(ms, now)[k] && slots[k] == ExpiredSlots(ms, now)[k];
    }
  }

  // What one timeout round does to the table and to the list of settled ids.
  lemma SweepEffect(pow10: real -> real, s: State, now: int)
    requires Positive(pow10) && |s.matches| == MAX_MATCHES && s.pending == []
    ensures var s' := Sweep(pow10, s, now);
            && s'.matches == Swept(s.matches, now) && s'.count == s.count && s'.pending == []
            && s'.settled == s.settled + IdsOf(s.matches, DrainedSlots(s.matches, now))
  {
    DrainedAreOfDrainedSlots(s.matches, now);
    assert Capped(s.pending + Expiries(s.matches, now)) == Expiries(s.matches, now);
  }

  lemma SweepKeepsTable(pow10: real -> real, s: State, now: int)
    requires Positive(pow10) && Inv(s)
    ensures var s' := Sweep(pow10, s, now);
            TableOk(s') && Continues(s, s') && forall id :: IsOver(s, id) ==> IsOver(s', id)
  {
    var s' := Sweep(pow10, s, now);
    SweepEffect(pow10, s, now);
    forall j | 0 <= j < MAX_MATCHES ensures SlotOk(s', j) {
      assert SlotOk(s, j);
    }
    forall id | IsOver(s, id) ensures IsOver(s', id) {
      var j :| 0 <= j < s.count && s.matches[j].id == id && !s.matches[j].active;
      assert s'.matches[j] == s.matches[j];
    }
  }

  lemma SweepStep(pow10: real -> real, s: State, now: int)
    requires Positive(pow10) && Inv(s)
    ensures var s' := Sweep(pow10, s, now); Inv(s') && Continues(s, s')
  {
    var s', slots := Sweep(pow10, s, now), DrainedSlots(s.matches, now);
    SweepKeepsTable(pow10, s, now);
    SweepEffect(pow10, s, now);
    NewIds(s, slots, now);
    var ids := IdsOf(s.matches, slots);
    forall k | 0 <= k < |ids| ensures IsOver(s', ids[k]) {
      assert s'.matches[slots[k]].id == ids[k] && !s'.matches[slots[k]].active;
    }
    NoRepeatsAppend(s.settled, ids);
  }

  // The ids of expired slots are new to the list and differ from each other.
  lemma NewIds(s: State, slots: seq<nat>, now: int)
    requires Inv(s)
    requires forall k :: 0 <= k < |slots| ==> slots[k] < MAX_MATCHES && Expired(s.matches[slots[k]], now)
    requires forall k, l :: 0 <= k < l < |slots| ==> slots[k] < slots[l]
    ensures forall k :: 0 <= k < |slots| ==> slots[k] < s.count
    ensures NoRepeats(IdsOf(s.matches, slots))
    ensures forall id :: id in IdsOf(s.matches, slots) ==> !IsOver(s, id)
  {
    var ids := IdsOf(s.matches, slots);
    forall k | 0 <= k < |slots| ensures slots[k] < s.count && !IsOver(s, ids[k]) {
      assert SlotOk(s, slots[k]);
      OneSlot(s, slots[k]);
    }
    forall k, l | 0 <= k < l < |ids| ensures ids[k] != ids[l] {
      OneSlot(s, slots[k]);
    }
  }

  lemma NoRepeatsAppend(a: seq<string>, b: seq<string>)
    requires NoRepeats(a) && NoRepeats(b) && forall x :: x in a ==> x !in b
    ensures NoRepeats(a + b)
  {
    var c := a + b;
    forall i, j | 0 <= i < j < |c| ensures c[i] != c[j] {
      if i < |a| && j >= |a| {
        assert c[i] in a && c[j] in b;
      }
    }
  }

  // ----- Runs -----

  lemma StepKeepsInv(pow10: real -> real, s: State, op: Op)
    requires Positive(pow10) && Inv(s) && Enabled(s, op)
    ensures Inv(Apply(pow10, s, op)) && Continues(s, Apply(pow10, s, op))
  {
    match op
    case Create(red, black, rated, timeMs, madeAt) => CreateStep(s, red, black, rated, timeMs, madeAt);
    case Play(_, _, _, _, _, _, _) => PlayStep(pow10, s, op);
    case Resign(user, id) => FinishStep(pow10, s, id, ResignResult(s, user, id), "resign");
    case DrawResponse(id, _) => FinishStep(pow10, s, id, "draw", "agreement");
    case GameOver(id, result, reason) =>
      FinishStep(pow10, s, id, result, if reason.Some? then reason.value else "game_over");
    case Abort(id) => AbortStep(s, id);
    case TimeoutRound(now) => SweepStep(pow10, s, now);
  }

  // A run from s: every operation is enabled when its turn comes.
  ghost predicate CanRun(pow10: real -> real, s: State, ops: seq<Op>)
    requires Positive(pow10)
    decreases |ops|
  {
    ops == [] || (Enabled(s, ops[0]) && CanRun(pow10, Apply(pow10, s, ops[0]), ops[1..]))
  }

  function Run(pow10: real -> real, s: State, ops: seq<Op>): State
    requires Positive(pow10)
    decreases |ops|
  {
    if ops == [] then s else Run(pow10, Apply(pow10, s, ops[0]), ops[1..])
  }

  function Initial(users: map<int, User>): State {
    State(seq(MAX_MATCHES, _ => FREE), 0, [], users, [])
  }

  lemma InitialInv(users: map<int, User>)
    ensures Inv(Initial(users))
  {
  }

  // Over any run: the table, the turn, the log bound and "settled at most once"
  // hold; ids and players never change, logs only grow, and a match that is over
  // never changes again.
  lemma {:induction false} RunIsSound(pow10: real -> real, s: State, ops: seq<Op>)
    requires Positive(pow10) && Inv(s) && CanRun(pow10, s, ops)
    ensures Inv(Run(pow10, s, ops)) && Continues(s, Run(pow10, s, ops))
    decreases |ops|
  {
    if ops != [] {
      var s1 := Apply(pow10, s, ops[0]);
      StepKeepsInv(pow10, s, ops[0]);
      RunIsSound(pow10, s1, ops[1..]);
      ContinuesIsTransitive(s, s1, Run(pow10, s1, ops[1..]));
    }
  }

  // A match is settled in at most one step of a run: the list of settled ids
  // never lists an id twice, and only grows.
  lemma StepSettles(pow10: real -> real, s: State, op: Op)
    requires Positive(pow10) && Inv(s) && Enabled(s, op)
    ensures s.settled <= Apply(pow10, s, op).settled
    ensures forall id :: IsOver(s, id) && id !in s.settled ==> id !in Apply(pow10, s, op).settled
  {
    if op.Play? {
      PlayStep(pow10, s, op);
    } else if op.TimeoutRound? {
      SweepEffect(pow10, s, op.now);
      NewIds(s, DrainedSlots(s.matches, op.now), op.now);
    } else if op.Resign? || op.DrawResponse? || op.GameOver? {
      if Find(s.matches, op.id) < |s.matches| && s.matches[Find(s.matches, op.id)].active {
        ActiveSlot(s, op.id);
      }
    }
  }

  // A match that ended without being settled never will be.
  lemma {:induction false} UnsettledStaysUnsettled(pow10: real -> real, s: State, ops: seq<Op>, id: string)
    requires Positive(pow10) && Inv(s) && CanRun(pow10, s, ops) && IsOver(s, id) && id !in s.settled
    ensures id !in Run(pow10, s, ops).settled
    decreases |ops|
  {
    if ops != [] {
      var s1 := Apply(pow10, s, ops[0]);
      StepKeepsInv(pow10, s, ops[0]);
      StepSettles(pow10, s, ops[0]);
      var i :| 0 <= i < s.count && s.matches[i].id == id && !s.matches[i].active;
      assert Succeeds(s.matches[i], s1.matches[i]);
      UnsettledStaysUnsettled(pow10, s1, ops[1..], id);
    }
  }

  // In its own round, a timed-out match is settled if fewer than 100 expired slots
  // come before it.
  lemma SettledInItsRound(pow10: real -> real, s: State, now: int, k: nat)
    requires Positive(pow10) && Inv(s) && k < |ExpiredSlots(s.matches, now)|
    ensures var id := s.matches[ExpiredSlots(s.matches, now)[k]].id;
            IsOver(Sweep(pow10, s, now), id) && (id in Sweep(pow10, s, now).settled <==> k < 100)
  {
    var slots := ExpiredSlots(s.matches, now);
    var s1, id := Sweep(pow10, s, now), s.matches[slots[k]].id;
    SweepEffect(pow10, s, now);
    NewIds(s, slots, now);
    var all, drained := IdsOf(s.matches, slots), IdsOf(s.matches, DrainedSlots(s.matches, now));
    assert all[k] == id && s1.settled == s.settled + drained;
    assert forall l :: 0 <= l < |drained| ==> drained[l] == all[l];
    assert k < DRAIN_LIMIT ==> k < |drained|;
    assert s1.matches[slots[k]].id == id && !s1.matches[slots[k]].active;
  }

  // And otherwise it is never settled at all.
  lemma TimeoutSettledExactly(pow10: real -> real, s: State, now: int, ops: seq<Op>, k: nat)
    requires Positive(pow10) && Inv(s) && k < |ExpiredSlots(s.matches, now)|
    requires CanRun(pow10, Sweep(pow10, s, now), ops)
    ensures var id := s.matches[ExpiredSlots(s.matches, now)[k]].id;
            id in Run(pow10, Sweep(pow10, s, now), ops).settled <==> k < 100
  {
    var s1, id := Sweep(pow10, s, now), s.matches[ExpiredSlots(s.matches, now)[k]].id;
    SweepStep(pow10, s, now);
    SettledInItsRound(pow10, s, now, k);
    if k < DRAIN_LIMIT {
      SettledStays(pow10, s1, ops, id);
    } else {
      UnsettledStaysUnsettled(pow10, s1, ops, id);
    }
  }

  lemma {:induction false} SettledStays(pow10: real -> real, s: State, ops: seq<Op>, id: string)
    requires Positive(pow10) && Inv(s) && CanRun(pow10, s, ops) && id in s.settled
    ensures id in Run(pow10, s, ops).settled
    decreases |ops|
  {
    if ops != [] {
      StepKeepsInv(pow10, s, ops[0]);
      StepSettles(pow10, s, ops[0]);
      SettledStays(pow10, Apply(pow10, s, ops[0]), ops[1..], id);
    }
  }

  // ----- One timeout too many -----

  function NewMatch(red: int, black: int): Op {
    Op.Create(red, black, true, FULL_CLOCK, 0)
  }

  function Creations(n: nat, red: int, black: int): seq<Op> {
    if n == 0 then [] else [NewMatch(red, black)] + Creations(n - 1, red, black)
  }

  // Slot i holds an untouched match made at time 0.
  ghost predicate Untouched(s: State, i: nat, red: int, black: int) {
    i < |s.matches| && s.matches[i] == Fresh(MatchId(i + 1, 0), red, black, true, FULL_CLOCK, 0)
  }

  lemma OneCreation(pow10: real -> real, s: State, red: int, black: int)
    requires Positive(pow10) && Inv(s) && s.count < MAX_MATCHES
    ensures var s' := Apply(pow10, s, NewMatch(red, black));
            && Inv(s') && s'.count == s.count + 1 && Untouched(s', s.count, red, black)
            && forall i: nat :: i < s.count && Untouched(s, i, red, black) ==> Untouched(s', i, red, black)
  {
    CreateStep(s, red, black, true, FULL_CLOCK, 0);
    CreateSucceeds(s, red, black, true, FULL_CLOCK, 0);
  }

  // n creations fill the next n slots.
  lemma {:induction false} CreationsFill(pow10: real -> real, s: State, n: nat, red: int, black: int)
    requires Positive(pow10) && Inv(s) && s.count + n <= MAX_MATCHES
    requires forall i: nat :: i < s.count ==> Untouched(s, i, red, black)
    ensures CanRun(pow10, s, Creations(n, red, black))
    ensures var s' := Run(pow10, s, Creations(n, red, black));
            && Inv(s') && s'.count == s.count + n
            && forall i: nat :: i < s'.count ==> Untouched(s', i, red, black)
    decreases n
  {
    if n > 0 {
      OneCreation(pow10, s, red, black);
      assert Creations(n, red, black)[1..] == Creations(n - 1, red, black);
      CreationsFill(pow10, Apply(pow10, s, NewMatch(red, black)), n - 1, red, black);
    }
  }

  ghost function Firsts(n: nat): (r: seq<nat>)
    ensures |r| == n && forall i :: 0 <= i < n ==> r[i] == i
  {
    if n == 0 then [] else Firsts(n - 1) + [n - 1]
  }

  lemma {:induction false} FirstSlotsExpired(ms: seq<MatchRec>, now: int, n: nat)
    requires n <= |ms| && forall i :: 0 <= i < |ms| ==> (Expired(ms[i], now) <==> i < n)
    ensures ExpiredSlots(ms, now) == Firsts(n)
  {
    if ms != [] {
      var k := |ms| - 1;
      assert Expired(ms[k], now) <==> k < n;
      if n == |ms| {
        FirstSlotsExpired(ms[..k], now, n - 1);
      } else {
        FirstSlotsExpired(ms[..k], now, n);
      }
    }
  }

  ghost function Crowded(pow10: real -> real, users: map<int, User>, red: int, black: int): State
    requires Positive(pow10)
  {
    Run(pow10, Initial(users), Creations(101, red, black))
  }

  lemma AllRunOut(pow10: real -> real, users: map<int, User>, red: int, black: int)
    requires Positive(pow10)
    ensures CanRun(pow10, Initial(users), Creations(101, red, black))
    ensures var s := Crowded(pow10, users, red, black);
            Inv(s) && ExpiredSlots(s.matches, 600) == Firsts(101) && s.matches[100].id == MatchId(101, 0)
  {
    InitialInv(users);
    CreationsFill(pow10, Initial(users), 101, red, black);
    var s := Crowded(pow10, users, red, black);
    forall i | 0 <= i < MAX_MATCHES ensures Expired(s.matches[i], 600) <==> i < 101 {
      assert SlotOk(s, i) && (i < 101 ==> Untouched(s, i, red, black));
    }
    FirstSlotsExpired(s.matches, 600, 101);
    assert Untouched(s, 100, red, black);
  }

  // 101 matches that nobody plays all run out of time together: the last one is
  // closed by the sweep, and no run ever settles it.
  lemma HundredAndFirstIsLost(pow10: real -> real, users: map<int, User>, red: int, black: int, ops: seq<Op>)
    requires Positive(pow10) && CanRun(pow10, Sweep(pow10, Crowded(pow10, users, red, black), 600), ops)
    ensures var s, id := Sweep(pow10, Crowded(pow10, users, red, black), 600), MatchId(101, 0);
            IsOver(s, id) && id !in Run(pow10, s, ops).settled
  {
    AllRunOut(pow10, users, red, black);
    var s := Crowded(pow10, users, red, black);
    SettledInItsRound(pow10, s, 600, 100);
    TimeoutSettledExactly(pow10, s, 600, ops, 100);
  }

  // ----- The turn, kept twice -----

  predicate IsCorrectTurn(m: MatchRec, user: int) {
    if m.turn == "red" then user == m.red else user == m.black
  }

  // The parity test of handle_move.
  predicate ParityAllows(m: MatchRec, user: int) {
    (|m.moves| % 2 == 0) == (m.red == user)
  }

  // Exactly when the string test and the parity test agree: on Red's turn for
  // everybody, on Black's for the two players of a match between two users.
  lemma TurnTestsAgree(s: State, i: nat, user: int)
    requires TableOk(s) && i < s.count
    ensures var m := s.matches[i];
            (IsCorrectTurn(m, user) <==> ParityAllows(m, user)) <==>
              |m.moves| % 2 == 0 || (m.red != m.black && user in {m.red, m.black})
  {
    assert SlotOk(s, i);
  }

  // A user who is neither player may move on Black's turn, and then only the clock
  // and the log limit stop him.
  lemma ThirdUserMovesForBlack(s: State, i: nat, user: int, from: Sq, to: Sq, t1: int, t2: int, t3: int)
    requires TableOk(s) && i < s.count && user !in {s.matches[i].red, s.matches[i].black}
    ensures var m := s.matches[i];
            Servers.Move(s, user, m.id, from, to, t1, t2, t3).1.Accepted? <==>
              m.active && |m.moves| % 2 == 1 && |m.moves| < MAX_MOVES && !Expired(UpdateTimer(m, t1), t2)
  {
    OneSlot(s, i);
  }

  // A user matched with himself can never make the second move.
  lemma SelfMatchStalls(s: State, i: nat, from: Sq, to: Sq, t1: int, t2: int, t3: int)
    requires TableOk(s) && i < s.count && s.matches[i].red == s.matches[i].black && |s.matches[i].moves| % 2 == 1
    ensures var m := s.matches[i];
            IsCorrectTurn(m, m.red)
            && Servers.Move(s, m.red, m.id, from, to, t1, t2, t3) == (s, Rejected("Not your turn"))
  {
    OneSlot(s, i);
    assert SlotOk(s, i);
    assert s.matches[i := s.matches[i]] == s.matches;
  }
}
