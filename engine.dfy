/**
 The round engine of the Mines game: the 5x5 board with its hidden mines,
 the mine placement by rejection sampling, and the per-reveal payout factor
 with a 3% house edge.

 The random number source is an input: `samples` is the sequence of cell
 indices that the sampler would draw, in order.
 */
module Engine {

  /** Number of cells of the 5x5 board. */
  const TotalSpots: nat := 25

  /** Fraction of the fair payout returned to the player (3% house edge). */
  const HouseEdge: real := 0.97

  datatype Cell = Diamond | Mine

  /** A cell index, as drawn by the sampler: an integer in [0, 25). */
  type Index = i: nat | i < TotalSpots

  /** The board after a run of the sampler and the number of mines it placed. */
  datatype Placement = Placement(grid: seq<Cell>, placed: nat)

  // ---------------------------------------------------------------------------
  // Counting cells

  /** Number of cells of `g` that are `c`. */
  function Count(g: seq<Cell>, c: Cell): (n: nat)
    ensures n <= |g|
  {
    if g == [] then 0 else (if g[0] == c then 1 else 0) + Count(g[1..], c)
  }

  /** Every cell is either a diamond or a mine. */
  lemma {:induction false} CountSplit(g: seq<Cell>)
    ensures Count(g, Diamond) + Count(g, Mine) == |g|
  {
    if g != [] {
      CountSplit(g[1..]);
    }
  }

  /** Overwriting one cell changes the counts by at most one each way. */
  lemma {:induction false} CountUpdate(g: seq<Cell>, i: nat, c: Cell, x: Cell)
    requires i < |g|
    ensures Count(g[i := c], x) == Count(g, x) - (if g[i] == x then 1 else 0) + (if c == x then 1 else 0)
  {
    if i == 0 {
      assert g[i := c][1..] == g[1..];
    } else {
      assert g[i := c][1..] == g[1..][i - 1 := c];
      CountUpdate(g[1..], i - 1, c, x);
    }
  }

  /** A positive count has a witness cell. */
  lemma {:induction false} CountWitness(g: seq<Cell>, c: Cell) returns (i: nat)
    requires Count(g, c) > 0
    ensures i < |g| && g[i] == c
  {
    if g[0] == c {
      i := 0;
    } else {
      var j := CountWitness(g[1..], c);
      i := j + 1;
    }
  }

  /** A kind of cell that occurs nowhere has count zero. */
  lemma {:induction false} CountAbsent(g: seq<Cell>, c: Cell)
    requires forall i :: 0 <= i < |g| ==> g[i] != c
    ensures Count(g, c) == 0
  {
    if g != [] {
      assert forall i :: 0 <= i < |g| - 1 ==> g[1..][i] == g[i + 1];
      CountAbsent(g[1..], c);
    }
  }

  /** The board before any mine is placed: 25 diamonds. */
  function AllDiamonds(): (g: seq<Cell>)
    ensures |g| == TotalSpots
  {
    seq(TotalSpots, _ => Diamond)
  }

  /** The empty board holds no mine and 25 diamonds. */
  lemma AllDiamondsCounts()
    ensures Count(AllDiamonds(), Mine) == 0 && Count(AllDiamonds(), Diamond) == TotalSpots
  {
    CountAbsent(AllDiamonds(), Mine);
    CountSplit(AllDiamonds());
  }

  // ---------------------------------------------------------------------------
  // Mine placement

  /**
   The placement loop as a function: starting from board `g` with `placed`
   mines already placed, draw the indices `samples[k]`, `samples[k + 1]`, ...
   until `target` mines are placed or the draws run out. A drawn cell that
   already holds a mine is skipped without counting.
   */
  function PlaceMines(g: seq<Cell>, placed: nat, target: nat, samples: seq<Index>, k: nat): (r: Placement)
    requires |g| == TotalSpots && k <= |samples|
    ensures |r.grid| == TotalSpots
    ensures placed <= r.placed && (placed <= target ==> r.placed <= target)
    decreases |samples| - k
  {
    if placed >= target || k == |samples| then
      Placement(g, placed)
    else
      var idx := samples[k];
      if g[idx] != Mine then
        PlaceMines(g[idx := Mine], placed + 1, target, samples, k + 1)
      else
        PlaceMines(g, placed, target, samples, k + 1)
  }

  /**
   Mines are placed at distinct cells: the mine count grows by exactly the
   number of mines the loop counted as placed.
   */
  lemma {:induction false} PlaceMinesCount(g: seq<Cell>, placed: nat, target: nat, samples: seq<Index>, k: nat)
    requires |g| == TotalSpots && k <= |samples|
    ensures var r := PlaceMines(g, placed, target, samples, k);
      Count(r.grid, Mine) == Count(g, Mine) + (r.placed - placed)
    decreases |samples| - k
  {
    if placed < target && k < |samples| {
      var idx := samples[k];
      if g[idx] != Mine {
        CountUpdate(g, idx, Mine, Mine);
        PlaceMinesCount(g[idx := Mine], placed + 1, target, samples, k + 1);
      } else {
        PlaceMinesCount(g, placed, target, samples, k + 1);
      }
    }
  }

  /** The placement of `minesCount` mines on the empty board from the draws `samples`. */
  function Placed(minesCount: nat, samples: seq<Index>): Placement {
    PlaceMines(AllDiamonds(), 0, minesCount, samples, 0)
  }

  /**
   Placement never removes a mine, and every cell it turns into a mine was
   drawn: mines land only on sampled indices.
   */
  lemma {:induction false} PlaceMinesOnlyAdds(g: seq<Cell>, placed: nat, target: nat, samples: seq<Index>, k: nat, i: nat)
    requires |g| == TotalSpots && k <= |samples| && i < TotalSpots
    ensures g[i] == Mine ==> PlaceMines(g, placed, target, samples, k).grid[i] == Mine
    ensures g[i] == Diamond && PlaceMines(g, placed, target, samples, k).grid[i] == Mine ==> i in samples[k..]
    decreases |samples| - k
  {
    if placed < target && k < |samples| {
      var idx := samples[k];
      assert samples[k..] == [idx] + samples[k + 1..];
      if g[idx] != Mine {
        PlaceMinesOnlyAdds(g[idx := Mine], placed + 1, target, samples, k + 1, i);
      } else {
        PlaceMinesOnlyAdds(g, placed, target, samples, k + 1, i);
      }
    }
  }

  /** The draws in `samples` yield `minesCount` distinct cells, so the placement loop ends. */
  predicate Supplies(minesCount: nat, samples: seq<Index>) {
    Placed(minesCount, samples).placed == minesCount
  }

  /**
   Fills a fresh 25-cell board with diamonds, then places mines at the drawn
   indices, skipping indices that already hold a mine, until `minesCount`
   mines are placed (or the draws run out).
   */
  method CreateGrid(minesCount: nat, samples: seq<Index>) returns (grid: array<Cell>, placed: nat)
    ensures grid.Length == TotalSpots
    ensures Placement(grid[..], placed) == Placed(minesCount, samples)
    ensures placed <= minesCount
  {
    grid := new Cell[TotalSpots](_ => Diamond);
    placed := 0;
    var k := 0;
    ghost var board := AllDiamonds();
    assert grid[..] == board;
    while placed < minesCount && k < |samples|
      invariant k <= |samples| && placed <= minesCount
      invariant grid[..] == board && |board| == TotalSpots
      invariant PlaceMines(board, placed, minesCount, samples, k) == Placed(minesCount, samples)
    {
      var idx := samples[k];
      assert grid[idx] == board[idx];
      if grid[idx] != Mine {
        grid[idx] := Mine;
        board := board[idx := Mine];
        placed := placed + 1;
      }
      k := k + 1;
    }
  }

  /** A placement from the empty board holds exactly as many mines as it placed, and no more than asked. */
  lemma PlacementCounts(minesCount: nat, samples: seq<Index>)
    ensures var r := Placed(minesCount, samples);
      r.placed <= minesCount && Count(r.grid, Mine) == r.placed && Count(r.grid, Diamond) == TotalSpots - r.placed
  {
    AllDiamondsCounts();
    PlaceMinesCount(AllDiamonds(), 0, minesCount, samples, 0);
    CountSplit(Placed(minesCount, samples).grid);
  }

  /**
   If every diamond of `g` is drawn at some point and enough diamonds remain,
   the placement loop reaches its target.
   */
  lemma {:induction false} PlaceMinesCompletes(g: seq<Cell>, placed: nat, target: nat, samples: seq<Index>, k: nat)
    requires |g| == TotalSpots && k <= |samples|
    requires placed <= target && target - placed <= Count(g, Diamond)
    requires forall i :: 0 <= i < TotalSpots && g[i] == Diamond ==> i in samples[k..]
    ensures PlaceMines(g, placed, target, samples, k).placed == target
    decreases |samples| - k
  {
    if placed < target {
      var w := CountWitness(g, Diamond);
      assert w in samples[k..];
      var idx := samples[k];
      assert forall i :: i in samples[k..] && i != idx ==> i in samples[k + 1..] by {
        assert samples[k..] == [idx] + samples[k + 1..];
      }
      if g[idx] != Mine {
        var g' := g[idx := Mine];
        CountUpdate(g, idx, Mine, Diamond);
        assert forall i :: 0 <= i < TotalSpots && g'[i] == Diamond ==> g[i] == Diamond && i != idx;
        PlaceMinesCompletes(g', placed + 1, target, samples, k + 1);
      } else {
        PlaceMinesCompletes(g, placed, target, samples, k + 1);
      }
    }
  }

  /** A draw sequence that hits every cell lets the loop place any number of mines up to 25. */
  lemma CoveringDrawsSupply(minesCount: nat, samples: seq<Index>)
    requires minesCount <= TotalSpots
    requires forall i: Index :: i in samples
    ensures Supplies(minesCount, samples)
  {
    assert samples[0..] == samples;
    AllDiamondsCounts();
    PlaceMinesCompletes(AllDiamonds(), 0, minesCount, samples, 0);
  }

  /** No draw sequence places more than 25 mines: for a larger count the loop never ends. */
  lemma SuppliesOnlyUpToBoard(minesCount: nat, samples: seq<Index>)
    requires Supplies(minesCount, samples)
    ensures minesCount <= TotalSpots
  {
    PlacementCounts(minesCount, samples);
  }

  // ---------------------------------------------------------------------------
  // Payout factor

  /**
   The factor by which revealing one more diamond multiplies the payout when
   `openedSpots` diamonds are already open and `mines` mines are on the board:
   the house edge divided by the probability that the next reveal is safe,
   or 0 when no safe cell remains.
   */
  function CalculateMultiplier(mines: nat, openedSpots: nat): (r: real)
    ensures r >= 0.0
    ensures r == 0.0 <==> TotalSpots - openedSpots - mines <= 0
  {
    var remainingSpots := TotalSpots - openedSpots;
    var remainingSafe := remainingSpots - mines;
    if remainingSafe <= 0 then
      0.0
    else
      var probability := remainingSafe as real / remainingSpots as real;
      assert probability > 0.0;
      HouseEdge / probability
  }

  // ---------------------------------------------------------------------------
  // Arithmetic steps, stated over plain reals so the solver sees nothing else.
  // These are solver scaffolding for the lemmas below, not properties of the game.

  /** x * z >= y * z with z > 0 gives x >= y. */
  lemma DivideBoth(x: real, y: real, z: real)
    requires z > 0.0 && x * z >= y * z
    ensures x >= y
  {
  }

  /** x * z > y * z with z > 0 gives x > y. */
  lemma DivideBothStrict(x: real, y: real, z: real)
    requires z > 0.0 && x * z > y * z
    ensures x > y
  {
  }

  lemma MulAssoc(a: real, b: real, c: real)
    ensures (a * b) * c == a * (b * c)
  {
  }

  lemma PositiveProduct(x: real, y: real)
    requires x > 0.0 && y > 0.0
    ensures x * y > 0.0
  {
  }

  lemma GrowByFactor(a: real, f: real)
    requires a > 0.0 && f > 1.0
    ensures Mul(a, f) > a
  {
  }

  lemma ChainGe(a: real, b: real, s: real, y: real)
    requires a * s == 24.0 * b && 24.0 * b >= y * s
    ensures a * s >= y * s
  {
  }

  lemma SafeBound(p: real, spots: real, safe: real)
    requires p == 0.97 * spots && spots <= 25.0 && spots - safe >= 1.0
    ensures 24.0 * p >= 24.25 * safe
  {
  }

  /** The factor bound of FactorAboveOne, over reals: f * safe == 0.97 * spots with 1 <= spots - safe. */
  lemma AboveOneArith(f: real, spots: real, safe: real)
    requires safe > 0.0 && spots <= 25.0 && spots - safe >= 1.0
    requires f * safe == 0.97 * spots
    ensures 24.0 * f >= 24.25
  {
    MulAssoc(24.0, f, safe);
    SafeBound(f * safe, spots, safe);
    ChainGe(24.0 * f, f * safe, safe, 24.25);
    DivideBoth(24.0 * f, 24.25, safe);
  }

  /** The comparison of FactorMonotone, over reals: spots s1 >= s2 > m. */
  lemma MonotoneArith(f1: real, f2: real, s1: real, s2: real, m: real)
    requires m >= 0.0 && s2 - m > 0.0 && s1 >= s2
    requires f1 * (s1 - m) == 0.97 * s1 && f2 * (s2 - m) == 0.97 * s2
    ensures f1 <= f2
    ensures m > 0.0 && s1 > s2 ==> f1 < f2
  {
    var d := (s1 - m) * (s2 - m);
    PositiveProduct(s1 - m, s2 - m);
    MulAssoc(f1, s1 - m, s2 - m);
    MulAssoc(f2, s2 - m, s1 - m);
    assert f1 * d == (0.97 * s1) * (s2 - m);
    assert f2 * d == (0.97 * s2) * (s1 - m);
    assert f2 * d - f1 * d == 0.97 * (m * (s1 - s2));
    assert m * (s1 - s2) >= 0.0;
    DivideBoth(f2, f1, d);
    if m > 0.0 && s1 > s2 {
      assert m * (s1 - s2) > 0.0;
      DivideBothStrict(f2, f1, d);
    }
  }

  /** e / (safe / spots) * safe == e * spots, for positive counts. */
  lemma InverseProbability(e: real, safe: real, spots: real)
    requires safe > 0.0 && spots > 0.0
    ensures (e / (safe / spots)) * safe == e * spots
  {
    var p := safe / spots;
    assert p * spots == safe;
    var f := e / p;
    assert f * p == e;
    MulAssoc(f, p, spots);
  }

  /**
   A nonzero factor is the inverse of the probability that the next reveal is
   safe, scaled by the house edge: factor * remainingSafe == 0.97 * remainingSpots.
   */
  lemma FactorOdds(mines: nat, openedSpots: nat)
    requires mines + openedSpots < TotalSpots
    ensures CalculateMultiplier(mines, openedSpots) * (TotalSpots - openedSpots - mines) as real
         == HouseEdge * (TotalSpots - openedSpots) as real
  {
    InverseProbability(HouseEdge, (TotalSpots - openedSpots - mines) as real, (TotalSpots - openedSpots) as real);
  }

  /** With at least one mine, every nonzero factor is at least 0.97 * 25/24, which exceeds 1. */
  lemma FactorAboveOne(mines: nat, openedSpots: nat)
    requires 1 <= mines && mines + openedSpots < TotalSpots
    ensures CalculateMultiplier(mines, openedSpots) >= HouseEdge * 25.0 / 24.0 > 1.0
  {
    FactorOdds(mines, openedSpots);
    AboveOneArith(CalculateMultiplier(mines, openedSpots),
                  (TotalSpots - openedSpots) as real, (TotalSpots - openedSpots - mines) as real);
  }

  /** With no mines, every factor before the board is exhausted is exactly 0.97. */
  lemma FactorWithoutMines(openedSpots: nat)
    requires openedSpots < TotalSpots
    ensures CalculateMultiplier(0, openedSpots) == HouseEdge
  {
    FactorOdds(0, openedSpots);
    var f := CalculateMultiplier(0, openedSpots);
    var spots := (TotalSpots - openedSpots) as real;
    assert f * spots == HouseEdge * spots;
    DivideBoth(f, HouseEdge, spots);
    DivideBoth(HouseEdge, f, spots);
  }

  /**
   For a fixed mine count the nonzero factor never decreases as more diamonds
   are opened, and grows strictly when there is at least one mine.
   */
  lemma FactorMonotone(mines: nat, opened1: nat, opened2: nat)
    requires opened1 <= opened2 && mines + opened2 < TotalSpots
    ensures CalculateMultiplier(mines, opened1) <= CalculateMultiplier(mines, opened2)
    ensures mines >= 1 && opened1 < opened2 ==> CalculateMultiplier(mines, opened1) < CalculateMultiplier(mines, opened2)
  {
    FactorOdds(mines, opened1);
    FactorOdds(mines, opened2);
    MonotoneArith(CalculateMultiplier(mines, opened1), CalculateMultiplier(mines, opened2),
                  (TotalSpots - opened1) as real, (TotalSpots - opened2) as real, mines as real);
  }

  // ---------------------------------------------------------------------------
  // Accumulated multiplier

  /** The running product of the first `n` factors of a round with `mines` mines. */
  function Accumulated(mines: nat, n: nat): (r: real)
    ensures r >= 0.0
    ensures mines + n <= TotalSpots ==> r > 0.0
  {
    if n == 0 then 1.0 else Mul(Accumulated(mines, n - 1), CalculateMultiplier(mines, n - 1))
  }

  /**
   The running multiplier after the `diamondsFound`-th safe reveal, computed
   incrementally from the previous one; the first reveal takes the first
   factor directly. Started from the product of the factors so far, the
   update, first-reveal case included, yields the product with one more.
   */
  function NextMultiplier(currentMultiplier: real, mines: nat, diamondsFound: nat): (r: real)
    requires diamondsFound >= 1
    ensures currentMultiplier == Accumulated(mines, diamondsFound - 1) ==> r == Accumulated(mines, diamondsFound)
  {
    var nextMult := currentMultiplier * CalculateMultiplier(mines, diamondsFound - 1);
    if diamondsFound == 1 then
      assert Accumulated(mines, 0) == 1.0;
      CalculateMultiplier(mines, 0)
    else
      nextMult
  }

  function Pow(x: real, n: nat): real {
    if n == 0 then 1.0 else Pow(x, n - 1) * x
  }

  // ---------------------------------------------------------------------------
  // Closed form of the accumulated multiplier

  /** A product, named so that the closed-form proof can match its factors. */
  function Mul(x: real, y: real): real {
    x * y
  }

  /** Safe cells left after `k` reveals on a board with `mines` mines. */
  function SafeLeft(mines: nat, k: nat): real {
    (TotalSpots as int - mines - k) as real
  }

  /** Cells left after `k` reveals. */
  function SpotsLeft(k: nat): real {
    (TotalSpots as int - k) as real
  }

  /** The falling product of the safe cells left before each of the first `n` reveals. */
  function SafeProduct(mines: nat, n: nat): real {
    if n == 0 then 1.0 else Mul(SafeProduct(mines, n - 1), SafeLeft(mines, n - 1))
  }

  /** The falling product of the cells left before each of the first `n` reveals. */
  function SpotsProduct(n: nat): real {
    if n == 0 then 1.0 else Mul(SpotsProduct(n - 1), SpotsLeft(n - 1))
  }

  // Scaffolding: one unfolding per product, each kept apart so the solver sees one at a time.

  lemma PowUnfold(x: real, n: nat)
    requires n >= 1
    ensures Pow(x, n) == Mul(Pow(x, n - 1), x)
  {
  }

  lemma OddsMul(mines: nat, k: nat)
    requires mines + k < TotalSpots
    ensures Mul(CalculateMultiplier(mines, k), SafeLeft(mines, k)) == Mul(HouseEdge, SpotsLeft(k))
  {
    FactorOdds(mines, k);
  }

  /** (a f)(p s) == (x e)(y t) whenever a p == x y and f s == e t. */
  lemma Rearrange(a: real, f: real, p: real, s: real, x: real, e: real, y: real, t: real)
    requires Mul(a, p) == Mul(x, y) && Mul(f, s) == Mul(e, t)
    ensures Mul(Mul(a, f), Mul(p, s)) == Mul(Mul(x, e), Mul(y, t))
  {
    calc {
      Mul(Mul(a, f), Mul(p, s));
      (a * p) * (f * s);
      (x * y) * (e * t);
      Mul(Mul(x, e), Mul(y, t));
    }
  }

  /**
   The closed form of the running product: after `n` safe reveals with `mines`
   mines, multiplier * (25-m)(24-m)...(25-m-n+1) == 0.97^n * 25*24*...*(25-n+1),
   that is, 0.97^n over the probability of `n` safe reveals in a row.
   */
  lemma {:induction false} AccumulatedClosedForm(mines: nat, n: nat)
    requires mines + n <= TotalSpots
    ensures Mul(Accumulated(mines, n), SafeProduct(mines, n)) == Mul(Pow(HouseEdge, n), SpotsProduct(n))
  {
    if n > 0 {
      AccumulatedClosedForm(mines, n - 1);
      PowUnfold(HouseEdge, n);
      OddsMul(mines, n - 1);
      Rearrange(Accumulated(mines, n - 1), CalculateMultiplier(mines, n - 1),
                SafeProduct(mines, n - 1), SafeLeft(mines, n - 1),
                Pow(HouseEdge, n - 1), HouseEdge, SpotsProduct(n - 1), SpotsLeft(n - 1));
    }
  }

  /** With at least one mine the multiplier grows strictly with every safe reveal. */
  lemma AccumulatedIncreasing(mines: nat, n: nat)
    requires 1 <= mines && mines + n < TotalSpots
    ensures Accumulated(mines, n) < Accumulated(mines, n + 1)
  {
    FactorAboveOne(mines, n);
    var a := Accumulated(mines, n);
    var f := CalculateMultiplier(mines, n);
    assert a > 0.0 && f > 1.0;
    GrowByFactor(a, f);
  }

  /** With at least one mine the multiplier never falls below 1. */
  lemma {:induction false} AccumulatedAtLeastOne(mines: nat, n: nat)
    requires 1 <= mines && mines + n <= TotalSpots
    ensures Accumulated(mines, n) >= 1.0
  {
    if n > 0 {
      AccumulatedAtLeastOne(mines, n - 1);
      AccumulatedIncreasing(mines, n - 1);
    }
  }

  lemma ShrinkByFactor(a: real, f: real)
    requires a > 0.0 && 0.0 <= f < 1.0
    ensures Mul(a, f) < a
  {
  }

  /** With no mines every reveal multiplies by 0.97, so the multiplier falls. */
  lemma AccumulatedFallsWithoutMines(n: nat)
    requires n < TotalSpots
    ensures Accumulated(0, n + 1) < Accumulated(0, n)
  {
    FactorWithoutMines(n);
    ShrinkByFactor(Accumulated(0, n), CalculateMultiplier(0, n));
  }

  /** Once no safe cell is left the next factor is 0, and so is the product. */
  lemma AccumulatedPastBoard(mines: nat, n: nat)
    requires mines + n >= TotalSpots
    ensures Accumulated(mines, n + 1) == 0.0
  {
    assert CalculateMultiplier(mines, n) == 0.0;
  }

  /** With no mines every reveal pays 0.97, so the multiplier decays to 0.97^n. */
  lemma {:induction false} AccumulatedWithoutMines(n: nat)
    requires n <= TotalSpots
    ensures Accumulated(0, n) == Pow(HouseEdge, n)
  {
    if n > 0 {
      AccumulatedWithoutMines(n - 1);
      FactorWithoutMines(n - 1);
      PowUnfold(HouseEdge, n);
    }
  }
}
