/** The AI's greedy positional score for a cell: per axis, a tally of the
    stones and empty cells up to four steps away in both directions, weighted
    by six fixed rules, plus a bonus for closeness to the centre. The weights
    are fixed to favour white (the AI) over black (the human). */
module Evaluate {
  import opened Board

  /** How far the evaluator looks from the cell, in each direction. */
  const Reach: nat := 4

  /** Stones of each colour and empty cells counted on one axis. */
  datatype Tally = Tally(black: nat, white: nat, empty: nat)

  function Total(t: Tally): nat { t.black + t.white + t.empty }

  /** The cell s steps from (row, col) in direction (dr, dc). */
  function Offset(row: int, col: int, dr: int, dc: int, s: int): Pos
    requires -1 <= dr <= 1 && -1 <= dc <= 1
  {
    Pos(row + dr * s, col + dc * s)
  }

  /** The cell q is on the board and holds v. */
  ghost predicate Holds(g: Grid, q: Pos, v: int)
    requires WellFormed(g)
  {
    InBounds(q.row, q.col) && g[q.row][q.col] == v
  }

  /** The number of cells s, s + 1, ..., k steps from (row, col) in direction
      (dr, dc) that are on the board and hold v. */
  ghost function CountSteps(g: Grid, row: int, col: int, dr: int, dc: int, v: int, s: int, k: int): nat
    requires WellFormed(g) && -1 <= dr <= 1 && -1 <= dc <= 1
    decreases k - s
  {
    if s > k then 0
    else (if Holds(g, Offset(row, col, dr, dc, s), v) then 1 else 0) +
         CountSteps(g, row, col, dr, dc, v, s + 1, k)
  }

  /** The tally of one direction: the cells 1..4 steps away. */
  ghost function SideTally(g: Grid, row: int, col: int, dr: int, dc: int): Tally
    requires WellFormed(g) && -1 <= dr <= 1 && -1 <= dc <= 1
  {
    Tally(CountSteps(g, row, col, dr, dc, Black, 1, Reach),
          CountSteps(g, row, col, dr, dc, White, 1, Reach),
          CountSteps(g, row, col, dr, dc, Empty, 1, Reach))
  }

  /** The tally of axis a: both of its directions, summed. */
  ghost function AxisTally(g: Grid, row: int, col: int, a: int): Tally
    requires WellFormed(g) && 0 <= a < |Directions|
  {
    var f, b := SideTally(g, row, col, Forward(a).0, Forward(a).1),
                SideTally(g, row, col, Backward(a).0, Backward(a).1);
    Tally(f.black + b.black, f.white + b.white, f.empty + b.empty)
  }

  /** The six weight rules applied to one axis's tally. Black's and white's
      rules are each mutually exclusive, so an axis is worth at most
      10000 + 15000. */
  function AxisScore(t: Tally): (s: int)
    ensures 0 <= s <= 25000
    ensures t.black == 0 && t.white == 0 ==> s == 0
    ensures t.white == 4 ==> s >= 15000
    ensures t.black == 4 ==> s >= 10000
  {
    (if t.black == 4 then 10000 else 0) +
    (if t.white == 4 then 15000 else 0) +
    (if t.black == 3 && t.empty >= 2 then 1000 else 0) +
    (if t.white == 3 && t.empty >= 2 then 2000 else 0) +
    (if t.black == 2 && t.empty >= 3 then 100 else 0) +
    (if t.white == 2 && t.empty >= 3 then 200 else 0)
  }

  /** The centre bonus of one coordinate, (N/2 - |x - N/2|) * 2 in
      game.js, written over the integers as N - |2x - N|. It is largest,
      14, on the two middle lines 7 and 8, and 0 on the edges. */
  function CenterBonus(x: int): (b: int)
    ensures 0 <= x < N ==> 0 <= b <= 14
    ensures 0 <= x < N ==> (b == 14 <==> x == 7 || x == 8)
  {
    N - (if 2 * x - N < 0 then N - 2 * x else 2 * x - N)
  }

  /** The weighted score of axes a, a + 1, ... up to the last. */
  ghost function AxesScore(g: Grid, row: int, col: int, a: nat): int
    requires WellFormed(g)
    decreases |Directions| - a
  {
    if a >= |Directions| then 0
    else AxisScore(AxisTally(g, row, col, a)) + AxesScore(g, row, col, a + 1)
  }

  /** Axes a, a + 1, ... weigh at least nothing and at most a full 25000
      each. */
  lemma {:induction false} AxesScoreBound(g: Grid, row: int, col: int, a: nat)
    requires WellFormed(g) && a <= |Directions|
    ensures 0 <= AxesScore(g, row, col, a) <= 25000 * (|Directions| - a)
    decreases |Directions| - a
  {
    if a < |Directions| {
      AxesScoreBound(g, row, col, a + 1);
    }
  }

  /** The evaluator's score of the cell (row, col). */
  ghost function Score(g: Grid, row: int, col: int): int
    requires WellFormed(g)
  {
    AxesScore(g, row, col, 0) + CenterBonus(row) + CenterBonus(col)
  }

  /** On the board a score is never negative, so it always beats the scan's
      starting value of -1, and it is at most four full axes plus the largest
      centre bonus. */
  lemma ScoreBound(g: Grid, row: int, col: int)
    requires WellFormed(g) && InBounds(row, col)
    ensures 0 <= Score(g, row, col) <= 4 * 25000 + 28
  {
    AxesScoreBound(g, row, col, 0);
  }

  /** Every cell s..k steps away is counted at most once, under whichever of
      empty, black and white it holds; a cell off the board is not counted. */
  lemma {:induction false} CountStepsBound(g: Grid, row: int, col: int, dr: int, dc: int, s: int, k: int)
    requires WellFormed(g) && -1 <= dr <= 1 && -1 <= dc <= 1 && s <= k + 1
    ensures CountSteps(g, row, col, dr, dc, Black, s, k) + CountSteps(g, row, col, dr, dc, White, s, k) +
            CountSteps(g, row, col, dr, dc, Empty, s, k) <= k - s + 1
    decreases k - s
  {
    if s <= k {
      CountStepsBound(g, row, col, dr, dc, s + 1, k);
    }
  }

  /** On every axis black + white + empty is at most 8: four cells each way. */
  lemma AxisTallyBound(g: Grid, row: int, col: int, a: int)
    requires WellFormed(g) && 0 <= a < |Directions|
    ensures Total(AxisTally(g, row, col, a)) <= 8
  {
    CountStepsBound(g, row, col, Forward(a).0, Forward(a).1, 1, Reach);
    CountStepsBound(g, row, col, Backward(a).0, Backward(a).1, 1, Reach);
  }

  /** The evaluator's scores of all cells of a board, as one function. */
  ghost function Scores(g: Grid): (f: (int, int) -> int)
  {
    (r, c) => if WellFormed(g) then Score(g, r, c) else 0
  }

  /** No cell of the board scores below 0. */
  lemma ScoresNonNegative(g: Grid)
    requires WellFormed(g)
    ensures forall r, c :: InBounds(r, c) ==> Scores(g)(r, c) >= 0
  {
    forall r, c | InBounds(r, c) ensures Scores(g)(r, c) >= 0 {
      ScoreBound(g, r, c);
    }
  }
}
