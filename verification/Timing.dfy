// Clocks over whole runs: while timeout rounds come at least every MAX_ROUND_GAP
// seconds, no elapsed time ever overflows its cast and no clock leaves its range.
module Timing {
  import opened Matches
  import opened Ratings
  import opened Servers
  import opened Lifecycle

  // A running clock lasts 600 s, so this gap keeps every cast below MAX_GAP.
  const MAX_ROUND_GAP := MAX_GAP - 600

  // clock is the latest time read, swept the time of the last timeout round.
  ghost predicate SlotTimed(m: MatchRec, clock: int, swept: int) {
    m.active ==> ClocksInRange(m) && m.lastMoveAt <= clock && swept - m.lastMoveAt < 600
  }

  ghost predicate Timed(s: State, clock: int, swept: int) {
    swept <= clock && forall i :: 0 <= i < |s.matches| ==> SlotTimed(s.matches[i], clock, swept)
  }

  // The clock readings of op come after all earlier ones and before the next round is
  // late; a match is made with at most a full clock.
  predicate InTime(op: Op, clock: int, swept: int) {
    match op
    case Create(_, _, _, timeMs, madeAt) => 0 <= timeMs <= FULL_CLOCK && clock <= madeAt <= swept + MAX_ROUND_GAP
    case Play(_, _, _, _, t1, t2, t3) => clock <= t1 <= t2 <= t3 <= swept + MAX_ROUND_GAP
    case TimeoutRound(now) => clock <= now <= swept + MAX_ROUND_GAP
    case _ => true
  }

  function ClockAfter(op: Op, clock: int): int {
    match op
    case Create(_, _, _, _, madeAt) => madeAt
    case Play(_, _, _, _, _, _, t3) => t3
    case TimeoutRound(now) => now
    case _ => clock
  }

  function SweptAfter(op: Op, swept: int): int {
    if op.TimeoutRound? then op.now else swept
  }

  ghost predicate AllInTime(ops: seq<Op>, clock: int, swept: int)
    decreases |ops|
  {
    ops != [] ==>
      && InTime(ops[0], clock, swept)
      && AllInTime(ops[1..], ClockAfter(ops[0], clock), SweptAfter(ops[0], swept))
  }

  // Cast and subtraction are exact for every reading before the next round is late.
  lemma CastIsExact(m: MatchRec, clock: int, swept: int, now: int)
    requires m.active && SlotTimed(m, clock, swept) && swept <= clock <= now <= swept + MAX_ROUND_GAP
    ensures Elapsed(m, now) == (now - m.lastMoveAt) * 1000 >= 0
    ensures Int32Fits((if m.turn == "red" then m.redMs else m.blackMs) - Elapsed(m, now))
  {
    GapFits(now - m.lastMoveAt);
    FittingGapIsDefined(m, now);
  }

  lemma PlayStaysTimed(m: MatchRec, clock: int, swept: int, t1: int, t2: int, t3: int, move: MoveRec)
    requires SlotTimed(m, clock, swept) && swept <= clock <= t1 <= t2 <= t3 <= swept + MAX_ROUND_GAP
    ensures SlotTimed(UpdateTimer(m, t1), t3, swept)
    ensures var added := AddMove(UpdateTimer(m, t1), move, t3); added.Some? ==> SlotTimed(added.value, t3, swept)
  {
    if m.active {
      CastIsExact(m, clock, swept, t1);
    }
  }

  lemma SweepStaysTimed(m: MatchRec, clock: int, swept: int, now: int)
    requires SlotTimed(m, clock, swept) && swept <= clock <= now <= swept + MAX_ROUND_GAP
    ensures SlotTimed(SweepOne(m, now), now, now)
  {
    if m.active {
      CastIsExact(m, clock, swept, now);
    }
  }

  lemma StepStaysTimed(pow10: real -> real, s: State, op: Op, clock: int, swept: int)
    requires Positive(pow10) && Inv(s) && Enabled(s, op) && Timed(s, clock, swept) && InTime(op, clock, swept)
    ensures Timed(Apply(pow10, s, op), ClockAfter(op, clock), SweptAfter(op, swept))
  {
    var s', clock', swept' := Apply(pow10, s, op), ClockAfter(op, clock), SweptAfter(op, swept);
    if op.TimeoutRound? {
      SweepEffect(pow10, s, op.now);
    }
    forall i | 0 <= i < |s'.matches| ensures SlotTimed(s'.matches[i], clock', swept') {
      var m := s.matches[i];
      assert SlotTimed(m, clock, swept);
      if op.TimeoutRound? {
        SweepStaysTimed(m, clock, swept, op.now);
      } else if op.Play? {
        var charged := UpdateTimer(m, op.t1);
        PlayStaysTimed(m, clock, swept, op.t1, op.t2, op.t3, Logged(charged, op.from, op.to, op.t2));
      }
    }
  }

  function RunClock(ops: seq<Op>, clock: int): int
    decreases |ops|
  {
    if ops == [] then clock else RunClock(ops[1..], ClockAfter(ops[0], clock))
  }

  function RunSwept(ops: seq<Op>, swept: int): int
    decreases |ops|
  {
    if ops == [] then swept else RunSwept(ops[1..], SweptAfter(ops[0], swept))
  }

  lemma {:induction false} RunStaysTimed(pow10: real -> real, s: State, ops: seq<Op>, clock: int, swept: int)
    requires Positive(pow10) && Inv(s) && CanRun(pow10, s, ops)
    requires Timed(s, clock, swept) && AllInTime(ops, clock, swept)
    ensures Inv(Run(pow10, s, ops)) && Timed(Run(pow10, s, ops), RunClock(ops, clock), RunSwept(ops, swept))
    decreases |ops|
  {
    if ops != [] {
      StepKeepsInv(pow10, s, ops[0]);
      StepStaysTimed(pow10, s, ops[0], clock, swept);
      RunStaysTimed(pow10, Apply(pow10, s, ops[0]), ops[1..], ClockAfter(ops[0], clock), SweptAfter(ops[0], swept));
    }
  }

  // From server start: after any run with punctual rounds, every running match
  // has clocks in 0..600000 and any next reading is measured and charged without overflow.
  lemma NoOverflowInAnyRun(pow10: real -> real, users: map<int, User>, ops: seq<Op>, start: int, i: nat, now: int)
    requires Positive(pow10) && CanRun(pow10, Initial(users), ops) && AllInTime(ops, start, start)
    requires i < MAX_MATCHES && RunClock(ops, start) <= now <= RunSwept(ops, start) + MAX_ROUND_GAP
    ensures var s := Run(pow10, Initial(users), ops);
            && |s.matches| == MAX_MATCHES
            && (s.matches[i].active ==>
                  var m := s.matches[i];
                  && ClocksInRange(m) && Elapsed(m, now) == (now - m.lastMoveAt) * 1000 >= 0
                  && Int32Fits((if m.turn == "red" then m.redMs else m.blackMs) - Elapsed(m, now)))
  {
    InitialInv(users);
    RunStaysTimed(pow10, Initial(users), ops, start, start);
    var s := Run(pow10, Initial(users), ops);
    assert SlotTimed(s.matches[i], RunClock(ops, start), RunSwept(ops, start));
    if s.matches[i].active {
      CastIsExact(s.matches[i], RunClock(ops, start), RunSwept(ops, start), now);
    }
  }
}
