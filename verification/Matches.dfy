// server/src/match.c: one match record, its move log, its turn kept twice, and
// its clocks, which are charged both lazily (when looked at) and eagerly (by
// match_update_timer).  Seconds are integers; the cast to int milliseconds is explicit.
module Matches {
  import opened Xiangqi

  const MAX_MATCHES := 500
  const MAX_MOVES := 300
  const FULL_CLOCK := 600000

  datatype MoveRec = MoveRec(from: Sq, to: Sq, at: int, redMs: int, blackMs: int)

  datatype MatchRec = MatchRec(
    id: string, red: int, black: int, turn: string, moves: seq<MoveRec>, rated: bool,
    redMs: int, blackMs: int, startedAt: int, lastMoveAt: int, active: bool, result: string, endReason: string)

  // A slot as memset leaves it.
  const FREE := MatchRec("", 0, 0, "", [], false, 0, 0, 0, 0, false, "", "")

  // (int) of a long.
  function Int32(x: int): int {
    var r := x % 0x1_0000_0000;
    if r >= 0x8000_0000 then r - 0x1_0000_0000 else r
  }

  // (char) of an int.
  function Char8(x: int): int {
    var r := x % 256;
    if r >= 128 then r - 256 else r
  }

  function Elapsed(m: MatchRec, now: int): int {
    Int32((now - m.lastMoveAt) * 1000)
  }

  function AtLeastZero(x: int): nat {
    if x < 0 then 0 else x
  }

  function UpdateTimer(m: MatchRec, now: int): MatchRec {
    if !m.active then m
    else if m.turn == "red" then m.(redMs := AtLeastZero(m.redMs - Elapsed(m, now)), lastMoveAt := now)
    else m.(blackMs := AtLeastZero(m.blackMs - Elapsed(m, now)), lastMoveAt := now)
  }

  // match_check_timeout, and the test inside the sweep.
  predicate Expired(m: MatchRec, now: int) {
    m.active && (if m.turn == "red" then m.redMs else m.blackMs) - Elapsed(m, now) <= 0
  }

  // The two clocks of match_get_timer_json.
  function TimerView(m: MatchRec, now: int): (int, int) {
    if !m.active then (m.redMs, m.blackMs)
    else if m.turn == "red" then (AtLeastZero(m.redMs - Elapsed(m, now)), m.blackMs)
    else (m.redMs, AtLeastZero(m.blackMs - Elapsed(m, now)))
  }

  function AddMove(m: MatchRec, move: MoveRec, now: int): Option<MatchRec> {
    if !m.active || |m.moves| >= MAX_MOVES then None
    else Some(m.(moves := m.moves + [move], lastMoveAt := now, turn := if m.turn == "red" then "black" else "red",
                 redMs := FULL_CLOCK, blackMs := FULL_CLOCK))
  }

  // strncpy into a field of n + 1 bytes.
  function Clip(s: string, n: nat): string {
    if |s| <= n then s else s[..n]
  }

  function End(m: MatchRec, result: string, reason: string): MatchRec {
    m.(active := false, result := Clip(result, 15), endReason := Clip(reason, 31))
  }

  // The sweep's treatment of one slot.
  function SweepOne(m: MatchRec, now: int): MatchRec {
    if Expired(m, now) then End(m, if m.turn == "red" then "black_win" else "red_win", "timeout") else m
  }

  // ----- Clocks -----

  // Longest gap, in seconds, whose milliseconds fit an int.
  const MAX_GAP := 2147483

  ghost predicate ClocksInRange(m: MatchRec) {
    0 <= m.redMs <= FULL_CLOCK && 0 <= m.blackMs <= FULL_CLOCK
  }

  // Every time at or after the one before it, from `last` up to `now`.
  ghost predicate Ordered(last: int, times: seq<int>, now: int)
    decreases |times|
  {
    if times == [] then last <= now else last <= times[0] && Ordered(times[0], times[1..], now)
  }

  // match_update_timer at each of the given times.
  function ChargeAt(m: MatchRec, times: seq<int>): MatchRec
    decreases |times|
  {
    if times == [] then m else ChargeAt(UpdateTimer(m, times[0]), times[1..])
  }

  lemma GapFits(gap: int)
    ensures 0 <= gap <= MAX_GAP ==> Int32(gap * 1000) == gap * 1000
  {
  }

  // One more charge in between changes nothing a later charge or test sees.
  lemma OneChargeIsInvisible(m: MatchRec, t: int, now: int)
    requires ClocksInRange(m) && m.lastMoveAt <= t <= now <= m.lastMoveAt + MAX_GAP
    ensures ClocksInRange(UpdateTimer(m, t))
    ensures UpdateTimer(UpdateTimer(m, t), now) == UpdateTimer(m, now)
    ensures Expired(UpdateTimer(m, t), now) <==> Expired(m, now)
    ensures TimerView(UpdateTimer(m, t), now) == TimerView(m, now)
    ensures SweepOne(UpdateTimer(m, t), now).active == SweepOne(m, now).active
    ensures SweepOne(UpdateTimer(m, t), now).result == SweepOne(m, now).result
  {
    GapFits(t - m.lastMoveAt);
    GapFits(now - t);
    GapFits(now - m.lastMoveAt);
  }

  lemma {:induction false} OrderedEnds(last: int, times: seq<int>, now: int)
    requires Ordered(last, times, now)
    ensures last <= now
    decreases |times|
  {
    if times != [] {
      OrderedEnds(times[0], times[1..], now);
    }
  }

  // Any number of eager charges is the same as none: one lazy charge of the time
  // since the last reset decides everything.
  lemma {:induction false} ChargesAreInvisible(m: MatchRec, times: seq<int>, now: int)
    requires ClocksInRange(m) && Ordered(m.lastMoveAt, times, now) && now <= m.lastMoveAt + MAX_GAP
    ensures UpdateTimer(ChargeAt(m, times), now) == UpdateTimer(m, now)
    ensures Expired(ChargeAt(m, times), now) <==> Expired(m, now)
    ensures TimerView(ChargeAt(m, times), now) == TimerView(m, now)
    ensures SweepOne(ChargeAt(m, times), now).active == SweepOne(m, now).active
    ensures SweepOne(ChargeAt(m, times), now).result == SweepOne(m, now).result
    decreases |times|
  {
    if times != [] {
      OrderedEnds(times[0], times[1..], now);
      OneChargeIsInvisible(m, times[0], now);
      if m.active {
        ChargesAreInvisible(UpdateTimer(m, times[0]), times[1..], now);
      } else {
        InactiveClockStands(m, times);
      }
    }
  }

  lemma {:induction false} InactiveClockStands(m: MatchRec, times: seq<int>)
    requires !m.active
    ensures ChargeAt(m, times) == m
    decreases |times|
  {
    if times != [] {
      InactiveClockStands(m, times[1..]);
    }
  }

  // What the lazy charge is.
  lemma LazyChargeMeaning(m: MatchRec, now: int)
    requires m.active && ClocksInRange(m) && m.lastMoveAt <= now <= m.lastMoveAt + MAX_GAP
    ensures var spent := 1000 * (now - m.lastMoveAt);
            && (m.turn == "red" ==> TimerView(m, now) == (AtLeastZero(m.redMs - spent), m.blackMs)
                                    && (Expired(m, now) <==> spent >= m.redMs))
            && (m.turn != "red" ==> TimerView(m, now) == (m.redMs, AtLeastZero(m.blackMs - spent))
                                    && (Expired(m, now) <==> spent >= m.blackMs))
  {
    GapFits(now - m.lastMoveAt);
  }

  // What fits an int.
  predicate Int32Fits(x: int) {
    -0x8000_0000 <= x < 0x8000_0000
  }

  // Exactly when the test's subtraction fits an int, so that what it computes is
  // defined: unless the low 32 bits of the milliseconds lie within one clock of 2^31.
  lemma TimeoutTestIsDefined(m: MatchRec, now: int)
    requires m.active && ClocksInRange(m)
    ensures var clock := if m.turn == "red" then m.redMs else m.blackMs;
            var low := (now - m.lastMoveAt) * 1000 % 0x1_0000_0000;
            Int32Fits(clock - Elapsed(m, now)) <==> low < 0x8000_0000 || 0x8000_0000 + clock < low
  {
    var clock := if m.turn == "red" then m.redMs else m.blackMs;
    assert 0 <= clock <= FULL_CLOCK;
  }

  // A gap that fits leaves the subtraction defined.
  lemma FittingGapIsDefined(m: MatchRec, now: int)
    requires m.active && ClocksInRange(m) && m.lastMoveAt <= now <= m.lastMoveAt + MAX_GAP
    ensures Int32Fits((if m.turn == "red" then m.redMs else m.blackMs) - Elapsed(m, now))
  {
    GapFits(now - m.lastMoveAt);
  }

  // Exactly when the timeout test, its subtraction taken over the integers, tells the
  // truth about the seconds that passed: the milliseconds fit an int, or their low 32
  // bits still cover the clock as a non-negative int.
  lemma TimeoutTestIsExact(m: MatchRec, now: int)
    requires m.active && ClocksInRange(m) && m.lastMoveAt <= now
    ensures var clock := if m.turn == "red" then m.redMs else m.blackMs;
            var gap := now - m.lastMoveAt;
            var low := gap * 1000 % 0x1_0000_0000;
            (Expired(m, now) <==> gap * 1000 >= clock) <==> gap <= MAX_GAP || clock <= low < 0x8000_0000
  {
    GapFits(now - m.lastMoveAt);
  }

  // Fifty days later the cast has wrapped past zero and a spent clock looks almost full.
  lemma TimeoutTestWraps(m: MatchRec)
    requires m.active && m.turn == "red" && m.redMs == FULL_CLOCK
    ensures !Expired(m, m.lastMoveAt + 4294968)
  {
    assert Elapsed(m, m.lastMoveAt + 4294968) == 704;
  }
}
