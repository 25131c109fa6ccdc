// Power-of-two-choices (router/types.go:172-247) on a list of effective latencies. Random draws are
// arguments, so a probability is a number of winning draws out of all draws.
module Sampler {
  import opened GoTypes

  /** What time.Duration(float64(lo) * nearTieRatio) evaluates to; kept abstract because the result
      depends on floating-point rounding and, out of range, on the machine. */
  type Band = int -> int

  /** The band without rounding: nearTieRatio is 5/4, and the conversion drops the fraction. */
  function NearTie(lo: int): int {
    Truncate(1.25 * lo as real)
  }

  ghost predicate Monotone(g: Band) {
    forall x: int, y: int {:trigger g(x), g(y)} :: x <= y ==> g(x) <= g(y)
  }

  lemma NearTieIsMonotone()
    ensures Monotone(NearTie)
  {
  }

  /** An endpoint without a sample counts as the slowest possible one. */
  function Effective(ewma: Duration): Duration {
    if ewma == 0 then MAX_DURATION else ewma
  }

  /** la beats lb by more than noise. Neither Clear(la, lb) nor Clear(lb, la) is a tie. */
  predicate Clear(g: Band, la: int, lb: int) {
    la < lb && lb > g(la)
  }

  /** Whether the first of two endpoints is routed to. */
  function FirstIsFaster(g: Band, la: int, lb: int, coin: bool): (first: bool)
    ensures first <==> Clear(g, la, lb) || (!Clear(g, lb, la) && coin)
  {
    if la != lb then
      var lo, hi := if lb < la then lb else la, if lb < la then la else lb;
      if hi > g(lo) then la < lb else coin
    else coin
  }

  /** Where the tie band lies: with five fourths of the lower latency, the first endpoint wins whatever the coin
      if it is faster by more than that, the second if it is, and otherwise the coin decides. */
  lemma BandMeaning(la: int, lb: int, coin: bool)
    requires la >= 0 && lb >= 0
    ensures FirstIsFaster(NearTie, la, lb, coin) <==> 5 * la < 4 * lb || (coin && 5 * lb >= 4 * la)
    ensures Clear(NearTie, la, lb) <==> 5 * la < 4 * lb
    ensures Clear(NearTie, lb, la) <==> 5 * lb < 4 * la
  {
    assert 1.25 * la as real == (5 * la) as real / 4.0;
    assert 1.25 * lb as real == (5 * lb) as real / 4.0;
  }

  /** The three calls to rand: two indices and, if needed, a coin. */
  datatype Draw = Draw(i: nat, j: nat, coin: bool)

  /** The second index: j is drawn from a range one smaller and moved past i. */
  function Second(i: nat, j: nat): nat {
    if j >= i then j + 1 else j
  }

  /** The raw draw that makes k the second index. */
  function RawFor(i: nat, k: nat): nat
    requires k != i
  {
    if k > i then k - 1 else k
  }

  /** The index of the candidate that is routed to. */
  function Pick(g: Band, lat: seq<int>, d: Draw): (r: nat)
    requires lat != []
    ensures r < |lat|
  {
    if |lat| == 1 then 0
    else if |lat| == 2 then
      if FirstIsFaster(g, lat[0], lat[1], d.coin) then 0 else 1
    else
      var i := IntN(d.i, |lat|);
      var j := Second(i, IntN(d.j, |lat| - 1));
      if FirstIsFaster(g, lat[i], lat[j], d.coin) then i else j
  }

  /** The index draws are the ordered pairs of distinct candidates, each exactly once. */
  lemma DrawsAreDistinctPairs(n: nat, i: nat, j: nat, k: nat)
    requires i < n && k < n
    ensures j < n - 1 ==> Second(i, j) < n && Second(i, j) != i
    ensures k != i ==> (Second(i, j) == k <==> j == RawFor(i, k)) && RawFor(i, k) < n - 1
  {
  }

  // ---- The law ----

  ghost function Draws(n: nat): (r: set<Draw>)
    ensures forall d :: d in r <==> d.i < n && d.j < n - 1
  {
    Grid(n, n - 1)
  }

  ghost function Grid(rows: int, columns: int): (r: set<Draw>)
    ensures forall d :: d in r <==> d.i < rows && d.j < columns
  {
    set i: nat, j: nat, coin: bool | i < rows && j < columns :: Draw(i, j, coin)
  }

  lemma {:induction false} GridSize(rows: nat, columns: nat)
    ensures |Grid(rows, columns)| == rows * (2 * columns)
  {
    if rows == 0 {
      assert Grid(rows, columns) == {};
    } else {
      GridSize(rows - 1, columns);
      GridGrows(rows - 1, columns);
      OneMore(rows - 1, 2 * columns);
    }
  }

  lemma GridGrows(rows: nat, columns: nat)
    ensures |Grid(rows + 1, columns)| == |Grid(rows, columns)| + 2 * columns
  {
    RowSize(rows, columns);
    assert Grid(rows + 1, columns) == Grid(rows, columns) + Row(rows, columns);
  }

  ghost function Row(i: nat, columns: nat): (r: set<Draw>)
    ensures forall d :: d in r <==> d.i == i && d.j < columns
  {
    set j: nat, coin: bool | j < columns :: Draw(i, j, coin)
  }

  lemma {:induction false} RowSize(i: nat, columns: nat)
    ensures |Row(i, columns)| == 2 * columns
  {
    if columns == 0 {
      assert Row(i, columns) == {};
    } else {
      RowSize(i, columns - 1);
      RowGrows(i, columns - 1);
    }
  }

  lemma RowGrows(i: nat, columns: nat)
    ensures |Row(i, columns + 1)| == |Row(i, columns)| + 2
  {
    var a, b := Draw(i, columns, true), Draw(i, columns, false);
    assert Row(i, columns + 1) == Row(i, columns) + {a, b};
    assert Row(i, columns) !! {a, b};
  }

  ghost function Wins(g: Band, lat: seq<int>, x: nat): set<Draw>
    requires lat != []
  {
    set d | d in Draws(|lat|) && Pick(g, lat, d) == x
  }

  ghost function Slower(g: Band, lat: seq<int>, x: nat): set<nat>
    requires x < |lat|
  {
    set k: nat | k < |lat| && Clear(g, lat[x], lat[k])
  }

  ghost function Tied(g: Band, lat: seq<int>, x: nat): set<nat>
    requires x < |lat|
  {
    set k: nat | k < |lat| && k != x && !Clear(g, lat[x], lat[k]) && !Clear(g, lat[k], lat[x])
  }

  lemma DrawCount(n: nat)
    requires n > 0
    ensures |Draws(n)| == 2 * n * (n - 1)
  {
    GridSize(n, n - 1);
    assert n * (2 * (n - 1)) == 2 * n * (n - 1);
  }

  /** Main result: of the 2N(N-1) equally likely draws, x wins four for every candidate it clearly
      beats and two for every candidate it ties with. With two candidates the indices are not drawn,
      and every outcome of the coin is counted twice. */
  lemma WinLaw(g: Band, lat: seq<int>, x: nat)
    requires |lat| >= 2 && x < |lat|
    ensures |Wins(g, lat, x)| == 4 * |Slower(g, lat, x)| + 2 * |Tied(g, lat, x)|
  {
    WinsAgainst(g, lat, x, |lat|);
    assert WinsBelow(g, lat, x, |lat|) == Wins(g, lat, x);
    assert SlowerBelow(g, lat, x, |lat|) == Slower(g, lat, x);
    assert TiedBelow(g, lat, x, |lat|) == Tied(g, lat, x);
  }

  // The law is counted opponent by opponent.

  ghost function Opponent(d: Draw, x: nat): nat {
    if d.i == x then Second(d.i, d.j) else d.i
  }

  ghost function WinsBelow(g: Band, lat: seq<int>, x: nat, m: nat): set<Draw>
    requires lat != []
  {
    set d | d in Draws(|lat|) && Pick(g, lat, d) == x && Opponent(d, x) < m
  }

  ghost function SlowerBelow(g: Band, lat: seq<int>, x: nat, m: nat): set<nat>
    requires x < |lat| && m <= |lat|
  {
    set k: nat | k < m && Clear(g, lat[x], lat[k])
  }

  ghost function TiedBelow(g: Band, lat: seq<int>, x: nat, m: nat): set<nat>
    requires x < |lat| && m <= |lat|
  {
    set k: nat | k < m && k != x && !Clear(g, lat[x], lat[k]) && !Clear(g, lat[k], lat[x])
  }

  lemma {:induction false} WinsAgainst(g: Band, lat: seq<int>, x: nat, m: nat)
    requires |lat| >= 2 && x < |lat| && m <= |lat|
    ensures |WinsBelow(g, lat, x, m)| == 4 * |SlowerBelow(g, lat, x, m)| + 2 * |TiedBelow(g, lat, x, m)|
  {
    if m == 0 {
      assert WinsBelow(g, lat, x, 0) == {};
    } else {
      var k := m - 1;
      WinsAgainst(g, lat, x, k);
      WinsOver(g, lat, x, k);
      WinsGrow(g, lat, x, k);
      SlowerOrTied(g, lat, x, k);
    }
  }

  lemma WinsGrow(g: Band, lat: seq<int>, x: nat, k: nat)
    requires lat != []
    ensures |WinsBelow(g, lat, x, k + 1)| == |WinsBelow(g, lat, x, k)| + |Duel(g, lat, x, k)|
  {
    assert WinsBelow(g, lat, x, k + 1) == WinsBelow(g, lat, x, k) + Duel(g, lat, x, k);
  }

  lemma SlowerOrTied(g: Band, lat: seq<int>, x: nat, k: nat)
    requires x < |lat| && k < |lat|
    ensures |SlowerBelow(g, lat, x, k + 1)| ==
            |SlowerBelow(g, lat, x, k)| + if Clear(g, lat[x], lat[k]) then 1 else 0
    ensures |TiedBelow(g, lat, x, k + 1)| == |TiedBelow(g, lat, x, k)|
            + if k != x && !Clear(g, lat[x], lat[k]) && !Clear(g, lat[k], lat[x]) then 1 else 0
  {
    assert SlowerBelow(g, lat, x, k + 1) ==
           SlowerBelow(g, lat, x, k) + if Clear(g, lat[x], lat[k]) then {k} else {};
    assert TiedBelow(g, lat, x, k + 1) == TiedBelow(g, lat, x, k)
           + if k != x && !Clear(g, lat[x], lat[k]) && !Clear(g, lat[k], lat[x]) then {k} else {};
  }

  /** The draws that pair x with k and that x wins. */
  ghost function Duel(g: Band, lat: seq<int>, x: nat, k: nat): set<Draw>
    requires lat != []
  {
    set d | d in Draws(|lat|) && Pick(g, lat, d) == x && Opponent(d, x) == k
  }

  /** Whether x beats k when draw d pairs the two: with two candidates the coin always speaks for the
      first of them, with more for the one drawn first. */
  ghost predicate BeatsWith(g: Band, lat: seq<int>, x: nat, k: nat, d: Draw)
    requires x < |lat| && k < |lat|
  {
    var forX := if |lat| == 2 then x == 0 else d.i == x;
    Clear(g, lat[x], lat[k]) || (!Clear(g, lat[k], lat[x]) && d.coin == forX)
  }

  lemma PairedDraws(g: Band, lat: seq<int>, x: nat, k: nat, d: Draw)
    requires |lat| >= 2 && x < |lat| && k < |lat| && k != x
    ensures d in Duel(g, lat, x, k) <==>
            && ((d.i == x && d.j == RawFor(x, k)) || (d.i == k && d.j == RawFor(k, x)))
            && BeatsWith(g, lat, x, k, d)
  {
    DrawsAreDistinctPairs(|lat|, x, d.j, k);
    DrawsAreDistinctPairs(|lat|, k, d.j, x);
  }

  lemma WinsOver(g: Band, lat: seq<int>, x: nat, k: nat)
    requires |lat| >= 2 && x < |lat| && k < |lat|
    ensures |Duel(g, lat, x, k)| ==
            if Clear(g, lat[x], lat[k]) then 4 else if k == x || Clear(g, lat[k], lat[x]) then 0 else 2
  {
    var duel := Duel(g, lat, x, k);
    if k == x {
      assert duel == {};
    } else {
      forall d ensures d in duel <==> 
            && ((d.i == x && d.j == RawFor(x, k)) || (d.i == k && d.j == RawFor(k, x)))
            && BeatsWith(g, lat, x, k, d)
      {
        PairedDraws(g, lat, x, k, d);
      }
      TwoPairs(g, lat, x, k, duel);
    }
  }

  lemma TwoPairs(g: Band, lat: seq<int>, x: nat, k: nat, duel: set<Draw>)
    requires x < |lat| && k < |lat| && k != x
    requires forall d :: d in duel <==>
      && ((d.i == x && d.j == RawFor(x, k)) || (d.i == k && d.j == RawFor(k, x)))
      && BeatsWith(g, lat, x, k, d)
    ensures |duel| == if Clear(g, lat[x], lat[k]) then 4 else if Clear(g, lat[k], lat[x]) then 0 else 2
  {
    var a, b := RawFor(x, k), RawFor(k, x);
    if Clear(g, lat[x], lat[k]) {
      assert duel == {Draw(x, a, true), Draw(x, a, false), Draw(k, b, true), Draw(k, b, false)};
    } else if Clear(g, lat[k], lat[x]) {
      assert duel == {};
    } else {
      var c, e := if |lat| == 2 then x == 0 else true, if |lat| == 2 then x == 0 else false;
      assert duel == {Draw(x, a, c), Draw(k, b, e)};
    }
  }

  // ---- What follows from the law ----

  /** The pick can fall on x exactly when some other candidate is not clearly faster than x. */
  lemma ChosenAtAll(g: Band, lat: seq<int>, x: nat)
    requires |lat| >= 2 && x < |lat|
    ensures (exists d :: d in Draws(|lat|) && Pick(g, lat, d) == x)
       <==> (exists k: nat :: k < |lat| && k != x && !Clear(g, lat[k], lat[x]))
  {
    WinLaw(g, lat, x);
    var wins, slower, tied := Wins(g, lat, x), Slower(g, lat, x), Tied(g, lat, x);
    if d :| d in Draws(|lat|) && Pick(g, lat, d) == x {
      assert d in wins;
      if slower == {} {
        assert tied != {};
        var k :| k in tied;
      } else {
        var k :| k in slower;
        assert !Clear(g, lat[k], lat[x]);
      }
    }
    if k: nat :| k < |lat| && k != x && !Clear(g, lat[k], lat[x]) {
      assert k in slower || k in tied;
      assert wins != {};
      var d :| d in wins;
    }
  }

  /** The tie band is not transitive, yet a lower latency never wins fewer draws than a higher one. */
  lemma FasterWinsMore(g: Band, lat: seq<int>, a: nat, b: nat)
    requires |lat| >= 2 && a < |lat| && b < |lat|
    requires Monotone(g) && lat[a] <= lat[b]
    ensures |Wins(g, lat, a)| >= |Wins(g, lat, b)|
  {
    WinLaw(g, lat, a);
    WinLaw(g, lat, b);
    ScoreTotals(g, lat, a, |lat|);
    ScoreTotals(g, lat, b, |lat|);
    assert SlowerBelow(g, lat, a, |lat|) == Slower(g, lat, a) && TiedBelow(g, lat, a, |lat|) == Tied(g, lat, a);
    assert SlowerBelow(g, lat, b, |lat|) == Slower(g, lat, b) && TiedBelow(g, lat, b, |lat|) == Tied(g, lat, b);
    ScoresInOrder(g, lat, a, b, |lat|);
  }

  /** Points of x against k: what the law pays for k, and two for x against itself. */
  ghost function Score(g: Band, lat: seq<int>, x: nat, k: nat): nat
    requires x < |lat| && k < |lat|
  {
    if Clear(g, lat[x], lat[k]) then 4 else if Clear(g, lat[k], lat[x]) then 0 else 2
  }

  ghost function Scores(g: Band, lat: seq<int>, x: nat, m: nat): nat
    requires x < |lat| && m <= |lat|
  {
    if m == 0 then 0 else Scores(g, lat, x, m - 1) + Score(g, lat, x, m - 1)
  }

  lemma {:induction false} ScoreTotals(g: Band, lat: seq<int>, x: nat, m: nat)
    requires x < |lat| && m <= |lat|
    ensures Scores(g, lat, x, m) ==
            4 * |SlowerBelow(g, lat, x, m)| + 2 * |TiedBelow(g, lat, x, m)| + if x < m then 2 else 0
  {
    if m > 0 {
      ScoreTotals(g, lat, x, m - 1);
      SlowerOrTied(g, lat, x, m - 1);
    }
  }

  lemma {:induction false} ScoresInOrder(g: Band, lat: seq<int>, a: nat, b: nat, m: nat)
    requires a < |lat| && b < |lat| && m <= |lat|
    requires Monotone(g) && lat[a] <= lat[b]
    ensures Scores(g, lat, a, m) >= Scores(g, lat, b, m)
  {
    if m > 0 {
      ScoresInOrder(g, lat, a, b, m - 1);
      assert g(lat[a]) <= g(lat[b]);
    }
  }

  /** 100, 120, 150: the first two tie, the last two tie, and the first clearly beats the last. */
  lemma TieBandIsNotTransitive()
    ensures !Clear(NearTie, 100, 120) && !Clear(NearTie, 120, 100)
    ensures !Clear(NearTie, 120, 150) && !Clear(NearTie, 150, 120)
    ensures Clear(NearTie, 100, 150)
  {
  }

  /** Every draw is won by exactly one candidate: the shares add up to all the draws. */
  lemma SharesAddUp(g: Band, lat: seq<int>)
    requires lat != []
    ensures ShareSum(g, lat, |lat|) == |Draws(|lat|)|
  {
    SharesBelow(g, lat, |lat|);
    assert WonBelow(g, lat, |lat|) == Draws(|lat|);
  }

  lemma {:induction false} SharesBelow(g: Band, lat: seq<int>, m: nat)
    requires m <= |lat| && lat != []
    ensures ShareSum(g, lat, m) == |WonBelow(g, lat, m)|
  {
    if m == 0 {
      assert WonBelow(g, lat, 0) == {};
    } else {
      SharesBelow(g, lat, m - 1);
      WonGrows(g, lat, m - 1);
    }
  }

  lemma WonGrows(g: Band, lat: seq<int>, x: nat)
    requires lat != []
    ensures |WonBelow(g, lat, x + 1)| == |WonBelow(g, lat, x)| + |Wins(g, lat, x)|
  {
    assert WonBelow(g, lat, x + 1) == WonBelow(g, lat, x) + Wins(g, lat, x);
  }

  ghost function WonBelow(g: Band, lat: seq<int>, m: nat): set<Draw>
    requires lat != []
  {
    set d | d in Draws(|lat|) && Pick(g, lat, d) < m
  }

  ghost function ShareSum(g: Band, lat: seq<int>, m: nat): nat
    requires m <= |lat| && lat != []
  {
    if m == 0 then 0 else ShareSum(g, lat, m - 1) + |Wins(g, lat, m - 1)|
  }

  /** On a pool where no endpoint is measured yet, every candidate has exactly one chance in N. */
  lemma ColdStartIsUniform(g: Band, lat: seq<int>, x: nat)
    requires |lat| >= 2 && x < |lat|
    requires forall k | 0 <= k < |lat| :: lat[k] == MAX_DURATION
    ensures |Wins(g, lat, x)| * |lat| == |Draws(|lat|)|
  {
    EvenShare(g, lat, x);
    DrawCount(|lat|);
    FullShare(|Wins(g, lat, x)|, |lat|);
  }

  lemma EvenShare(g: Band, lat: seq<int>, x: nat)
    requires |lat| >= 2 && x < |lat|
    requires forall k | 0 <= k < |lat| :: lat[k] == MAX_DURATION
    ensures |Wins(g, lat, x)| == 2 * (|lat| - 1)
  {
    WinLaw(g, lat, x);
    assert Slower(g, lat, x) == {};
    assert Tied(g, lat, x) == Indices(|lat|) - {x};
  }

  lemma FullShare(share: int, n: int)
    requires share == 2 * (n - 1)
    ensures share * n == 2 * n * (n - 1)
  {
  }

  ghost function Indices(n: nat): (r: set<nat>)
    ensures forall k: nat :: k in r <==> k < n
    ensures |r| == n
  {
    if n == 0 then {} else Indices(n - 1) + {n - 1}
  }

  ghost function ClearlyFaster(g: Band, lat: seq<int>, x: nat): set<nat>
    requires x < |lat|
  {
    set k: nat | k < |lat| && Clear(g, lat[k], lat[x])
  }

  /** When every gap exceeds the band, the candidate with r faster ones wins 4(N-1-r) draws, that is
      2(N-1-r) of the N(N-1) index draws whatever the coin: the slowest never wins. */
  lemma ClearGapsLaw(g: Band, lat: seq<int>, x: nat)
    requires |lat| >= 2 && x < |lat|
    requires Tied(g, lat, x) == {}
    ensures |Wins(g, lat, x)| == 4 * (|lat| - 1 - |ClearlyFaster(g, lat, x)|)
  {
    WinLaw(g, lat, x);
    EveryoneElse(g, lat, x);
  }

  /** The other candidates are clearly slower, tied or clearly faster, and only one of the three. */
  lemma EveryoneElse(g: Band, lat: seq<int>, x: nat)
    requires x < |lat|
    ensures |Slower(g, lat, x)| + |Tied(g, lat, x)| + |ClearlyFaster(g, lat, x)| == |lat| - 1
  {
    var slower, tied, faster := Slower(g, lat, x), Tied(g, lat, x), ClearlyFaster(g, lat, x);
    assert slower !! tied && slower + tied !! faster;
    assert |slower + tied + faster| == |slower| + |tied| + |faster|;
    assert Indices(|lat|) - {x} == slower + tied + faster;
  }

  /** Nobody is hammered: a candidate wins at most two draws in N, however fast it is, and that many exactly
      if it clearly beats everyone else. */
  lemma NobodyTakesAll(g: Band, lat: seq<int>, x: nat)
    requires |lat| >= 2 && x < |lat|
    ensures |Wins(g, lat, x)| * |lat| <= 2 * |Draws(|lat|)|
    ensures |Wins(g, lat, x)| * |lat| == 2 * |Draws(|lat|)|
       <==> forall k | 0 <= k < |lat| && k != x :: Clear(g, lat[x], lat[k])
  {
    WinLaw(g, lat, x);
    EveryoneElse(g, lat, x);
    DrawCount(|lat|);
    var slower, wins, n := Slower(g, lat, x), |Wins(g, lat, x)|, |lat|;
    Shortfall(wins, n, 4 * (n - 1) - wins);
    if |slower| == n - 1 {
      assert |Tied(g, lat, x)| == 0 && |ClearlyFaster(g, lat, x)| == 0;
      forall k | 0 <= k < n && k != x ensures Clear(g, lat[x], lat[k]) {
        assert k !in Tied(g, lat, x) && k !in ClearlyFaster(g, lat, x);
      }
    }
    if forall k | 0 <= k < n && k != x :: Clear(g, lat[x], lat[k]) {
      assert slower == Indices(n) - {x};
    }
  }

  lemma Shortfall(wins: int, n: int, short: int)
    requires n > 0 && wins == 4 * (n - 1) - short && short >= 0
    ensures wins * n <= 2 * (2 * n * (n - 1))
    ensures wins * n == 2 * (2 * n * (n - 1)) <==> short == 0
  {
    assert wins * n == 2 * (2 * n * (n - 1)) - short * n;
    assert short > 0 ==> short * n > 0;
  }

  /** A candidate is certain to be picked only if it is alone, or one of two and clearly the faster: from
      three on, even the fastest is sometimes not sampled. */
  lemma CertainPick(g: Band, lat: seq<int>, x: nat)
    requires x < |lat|
    ensures (forall d :: Pick(g, lat, d) == x) <==> |lat| == 1 || (|lat| == 2 && Clear(g, lat[x], lat[1 - x]))
  {
    if |lat| == 2 {
      assert Pick(g, lat, Draw(0, 0, x == 1)) == x <==> Clear(g, lat[x], lat[1 - x]);
    } else if |lat| > 2 {
      var i, k := if x == 0 then 1 else 0, if x == 2 then 1 else 2;
      DrawsAreDistinctPairs(|lat|, i, 0, k);
      assert Pick(g, lat, Draw(i, RawFor(i, k), true)) != x;
    }
  }

  // ---- Range of the band ----

  /** The converted product fits a Duration exactly up to four fifths of the range, not for every
      latency short of the maximum. */
  lemma BandFits(lo: Duration)
    requires lo >= 0
    ensures NearTie(lo) <= MAX_DURATION <==> 5 * lo < 4 * (MAX_DURATION + 1)
  {
    assert 1.25 * lo as real == (5 * lo) as real / 4.0;
  }

  /** A latency whose product does not fit, although it is not the maximum. */
  lemma BandCanOverflow()
    ensures exists lo: Duration :: 0 < lo < MAX_DURATION && NearTie(lo) > MAX_DURATION
  {
    BandFits(8_000_000_000_000_000_000);
  }

  /** An unmeasured endpoint loses every pairing with one whose product stays below the maximum. */
  lemma UnprobedNeverBeatsMeasured(g: Band, ewma: Duration, coin: bool)
    requires 0 < ewma < MAX_DURATION && g(ewma) < MAX_DURATION
    ensures FirstIsFaster(g, Effective(ewma), Effective(0), coin)
    ensures !FirstIsFaster(g, Effective(0), Effective(ewma), coin)
  {
  }
}
