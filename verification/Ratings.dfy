// server/src/rating.c over the reals.  pow(10, x) is the parameter `pow10`; each
// result says what is asked of it.
module Ratings {
  const DEFAULT_K_FACTOR := 32

  datatype Change = Change(red: int, black: int)

  ghost predicate Positive(pow10: real -> real) {
    forall x :: pow10(x) > 0.0
  }

  function Expected(pow10: real -> real, a: int, b: int): (e: real)
    requires Positive(pow10)
    ensures 0.0 < e < 1.0
  {
    1.0 / (1.0 + pow10((b - a) as real / 400.0))
  }

  // C's round: half away from zero.
  function Round(x: real): int {
    if x >= 0.0 then (x + 0.5).Floor else -((-x + 0.5).Floor)
  }

  // Red's score; Black's is the complement.
  function RedScore(result: string): real {
    if result == "red_win" then 1.0 else if result == "black_win" then 0.0 else 0.5
  }

  function Calculate(pow10: real -> real, red: int, black: int, result: string, k: nat): Change
    requires Positive(pow10)
  {
    var redExpected := Expected(pow10, red, black);
    var blackExpected := 1.0 - redExpected;
    var redScore := RedScore(result);
    var blackScore := if result == "red_win" then 0.0 else if result == "black_win" then 1.0 else 0.5;
    Change(Delta(k, redScore - redExpected), Delta(k, blackScore - blackExpected))
  }

  // One side's rounded change: k times score less expectation.
  function Delta(k: nat, d: real): int {
    Round(k as real * d)
  }

  lemma RoundIsOdd(x: real)
    ensures Round(-x) == -Round(x)
  {
  }

  lemma RoundIsBounded(x: real, k: int)
    requires -(k as real) <= x <= k as real
    ensures -k <= Round(x) <= k
    ensures x >= 0.0 ==> Round(x) >= 0
  {
  }

  // Opposite differences give opposite changes.
  lemma OppositeDeltas(k: nat, d: real, z: real)
    requires z == -d
    ensures Delta(k, z) == -Delta(k, d)
  {
    var x, y := k as real * d, k as real * z;
    Negated(k as real, d, z, x, y);
    RoundIsOdd(x);
    assert Delta(k, d) == Round(x) && Delta(k, z) == Round(y);
  }

  lemma DeltaIsBounded(k: nat, d: real)
    requires -1.0 <= d <= 1.0
    ensures Delta(k, d) <= k && -Delta(k, d) <= k
    ensures d >= 0.0 ==> Delta(k, d) >= 0
  {
    var x := k as real * d;
    Scaled(k as real, d, x);
    RoundIsBounded(x, k);
  }

  lemma Negated(k: real, d: real, z: real, x: real, y: real)
    requires z == -d && x == k * d && y == k * z
    ensures y == -x
  {
  }

  // A product with a factor of at most one.
  lemma Scaled(k: real, d: real, x: real)
    requires k >= 0.0 && -1.0 <= d <= 1.0 && x == k * d
    ensures -k <= x <= k
    ensures d >= 0.0 ==> x >= 0.0
  {
    Product(k, 1.0 - d);
    Product(k, 1.0 + d);
    assert k * (1.0 - d) == k - x && k * (1.0 + d) == k + x;
  }

  lemma Product(a: real, b: real)
    requires a >= 0.0 && b >= 0.0
    ensures a * b >= 0.0
  {
  }

  // What one side gains the other loses; nobody moves by more than k; and a win
  // never costs the winner anything.  Holds for every result string.
  lemma ChangesCancel(pow10: real -> real, red: int, black: int, result: string, k: nat)
    requires Positive(pow10)
    ensures var c := Calculate(pow10, red, black, result, k);
            && c.red + c.black == 0
            && (if c.red >= 0 then c.red else c.black) <= k
            && (result == "red_win" ==> c.red >= 0)
            && (result == "black_win" ==> c.black >= 0)
  {
    var e := Expected(pow10, red, black);
    var blackScore := if result == "red_win" then 0.0 else if result == "black_win" then 1.0 else 0.5;
    var d, z := RedScore(result) - e, blackScore - (1.0 - e);
    OppositeDeltas(k, d, z);
    DeltaIsBounded(k, d);
    DeltaIsBounded(k, z);
  }

  // What is asked of pow(10, x) to compare ratings: it grows, and is 1 at 0.
  ghost predicate Exponential(pow10: real -> real) {
    Positive(pow10) && pow10(0.0) == 1.0 && forall x, y :: x <= y ==> pow10(x) <= pow10(y)
  }

  lemma WeakerIsNotFavoured(pow10: real -> real, a: int, b: int)
    requires Exponential(pow10) && a <= b
    ensures Expected(pow10, a, b) <= 0.5
  {
    var p := pow10((b - a) as real / 400.0);
    assert p >= pow10(0.0);
    HalfAtMost(p);
  }

  lemma HalfAtMost(p: real)
    requires p >= 1.0
    ensures 1.0 / (1.0 + p) <= 0.5
  {
  }

  // A draw never costs Red anything against a stronger Black.
  lemma DrawPaysTheWeaker(pow10: real -> real, red: int, black: int, k: nat)
    requires Exponential(pow10) && red <= black
    ensures Calculate(pow10, red, black, "draw", k).red >= 0
  {
    WeakerIsNotFavoured(pow10, red, black);
    DeltaIsBounded(k, RedScore("draw") - Expected(pow10, red, black));
  }

  // Between equals half of K is at stake.
  lemma EqualsShareTheStake(pow10: real -> real, rating: int, result: string)
    requires Exponential(pow10)
    ensures var c := Calculate(pow10, rating, rating, result, DEFAULT_K_FACTOR);
            && c.black == (if result == "black_win" then 16 else if result == "red_win" then -16 else 0)
            && c.red == -c.black
  {
    assert Expected(pow10, rating, rating) == 0.5;
  }

  // ----- What ratings mean -----

  ghost predicate SumIsProduct(pow10: real -> real, x: real, y: real) {
    pow10(x + y) == pow10(x) * pow10(y)
  }

  // pow(10, x) as such: sums become products, and it is 10 at 1.
  ghost predicate PowerOfTen(pow10: real -> real) {
    Exponential(pow10) && pow10(1.0) == 10.0 && forall x, y :: SumIsProduct(pow10, x, y)
  }

  // a is taken to be o times likelier to beat b than to lose.
  ghost predicate OddsAre(pow10: real -> real, a: int, b: int, o: real)
    requires Positive(pow10)
  {
    Expected(pow10, a, b) == o * Expected(pow10, b, a)
  }

  lemma Inverse(p: real, q: real)
    requires p > 0.0 && q > 0.0 && p * q == 1.0
    ensures 1.0 / (1.0 + p) == q * (1.0 / (1.0 + q))
    ensures 1.0 / (1.0 + p) + 1.0 / (1.0 + q) == 1.0
  {
    var u, v := 1.0 / (1.0 + p), 1.0 / (1.0 + q);
    assert u * (1.0 + p) == 1.0 && v * (1.0 + q) == 1.0;
    assert q * (1.0 + p) == 1.0 + q;
    assert u == v * q by {
      assert (v * q) * (1.0 + p) == v * (q * (1.0 + p));
      Cancel(u, v * q, 1.0 + p);
    }
    assert v + v * q == v * (1.0 + q);
  }

  lemma Cancel(u: real, w: real, z: real)
    requires z > 0.0 && u * z == w * z
    ensures u == w
  {
    assert (u - w) * z == 0.0;
  }

  // The odds are a power of ten of the difference, 400 points to a factor of ten.
  lemma OddsArePowers(pow10: real -> real, a: int, b: int)
    requires PowerOfTen(pow10)
    ensures OddsAre(pow10, a, b, pow10((a - b) as real / 400.0))
    ensures Expected(pow10, a, b) + Expected(pow10, b, a) == 1.0
  {
    var x, y := (b - a) as real / 400.0, (a - b) as real / 400.0;
    assert x + y == 0.0 && SumIsProduct(pow10, x, y);
    Inverse(pow10(x), pow10(y));
  }

  lemma OddsAreUnique(pow10: real -> real, a: int, b: int, o: real)
    requires PowerOfTen(pow10) && OddsAre(pow10, a, b, o)
    ensures o == pow10((a - b) as real / 400.0)
  {
    OddsArePowers(pow10, a, b);
    Cancel(o, pow10((a - b) as real / 400.0), Expected(pow10, b, a));
  }

  lemma PowersMultiply(pow10: real -> real, a: int, b: int, c: int, u: real, v: real)
    requires PowerOfTen(pow10)
    requires u == pow10((a - b) as real / 400.0) && v == pow10((b - c) as real / 400.0)
    ensures u * v == pow10((a - c) as real / 400.0)
  {
    var x, y := (a - b) as real / 400.0, (b - c) as real / 400.0;
    assert x + y == (a - c) as real / 400.0 && SumIsProduct(pow10, x, y);
  }

  // So they multiply along a chain of players, and are ten to one at 400 points.
  lemma OddsMultiply(pow10: real -> real, a: int, b: int, c: int, u: real, v: real)
    requires PowerOfTen(pow10) && OddsAre(pow10, a, b, u) && OddsAre(pow10, b, c, v)
    ensures OddsAre(pow10, a, c, u * v)
  {
    OddsAreUnique(pow10, a, b, u);
    OddsAreUnique(pow10, b, c, v);
    PowersMultiply(pow10, a, b, c, u, v);
    OddsArePowers(pow10, a, c);
  }

  lemma TenToOne(pow10: real -> real, r: int)
    requires PowerOfTen(pow10)
    ensures OddsAre(pow10, r + 400, r, 10.0)
  {
    OddsArePowers(pow10, r + 400, r);
    assert (r + 400 - r) as real / 400.0 == 1.0;
  }

  // What a game against somebody 400 points stronger is worth to Red.
  lemma FourHundredPoints(pow10: real -> real, r: int)
    requires PowerOfTen(pow10)
    ensures Calculate(pow10, r, r + 400, "red_win", DEFAULT_K_FACTOR) == Change(29, -29)
    ensures Calculate(pow10, r, r + 400, "black_win", DEFAULT_K_FACTOR) == Change(-3, 3)
    ensures Calculate(pow10, r, r + 400, "draw", DEFAULT_K_FACTOR) == Change(13, -13)
  {
    assert (r + 400 - r) as real / 400.0 == 1.0;
    assert Expected(pow10, r, r + 400) == 1.0 / 11.0;
  }

  lemma SmallerShare(p: real, q: real)
    requires 0.0 < p <= q
    ensures 1.0 / (1.0 + q) <= 1.0 / (1.0 + p)
  {
    var u, v := 1.0 / (1.0 + p), 1.0 / (1.0 + q);
    assert u * (1.0 + p) == 1.0 && v * (1.0 + q) == 1.0;
    if v > u {
      Product(v - u, 1.0 + p);
      Product(v, q - p);
      assert v * (1.0 + q) == v * (1.0 + p) + v * (q - p);
      assert v * (1.0 + p) == u * (1.0 + p) + (v - u) * (1.0 + p);
      Cancel(v, u, 1.0 + p);
    }
  }

  lemma StrongerIsLessExpected(pow10: real -> real, a: int, b: int, stronger: int)
    requires Exponential(pow10) && b <= stronger
    ensures Expected(pow10, a, stronger) <= Expected(pow10, a, b)
  {
    var x, y := (b - a) as real / 400.0, (stronger - a) as real / 400.0;
    assert x <= y && pow10(x) <= pow10(y);
    SmallerShare(pow10(x), pow10(y));
  }

  lemma DeltaGrows(k: nat, d: real, z: real)
    requires d <= z
    ensures Delta(k, d) <= Delta(k, z)
  {
    var x, y := k as real * d, k as real * z;
    Larger(k as real, d, z, x, y);
    assert Delta(k, d) == Round(x) && Delta(k, z) == Round(y);
  }

  lemma Larger(k: real, d: real, z: real, x: real, y: real)
    requires k >= 0.0 && d <= z && x == k * d && y == k * z
    ensures x <= y
  {
    Product(k, z - d);
  }

  // The stronger the opponent, the more a win is worth, and the less a loss costs.
  lemma StrongerIsWorthMore(pow10: real -> real, red: int, black: int, stronger: int, result: string, k: nat)
    requires Exponential(pow10) && black <= stronger
    ensures Calculate(pow10, red, black, result, k).red <= Calculate(pow10, red, stronger, result, k).red
  {
    StrongerIsLessExpected(pow10, red, black, stronger);
    DeltaGrows(k, RedScore(result) - Expected(pow10, red, black), RedScore(result) - Expected(pow10, red, stronger));
  }
}
