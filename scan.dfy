/** The AI's choice of cell: a row-major scan over the board that keeps the
    first empty cell whose score strictly beats the best seen so far,
    starting from a best score of -1. The reasoning holds for any scoring
    of the cells that is never negative on the board. */
module Scan {
  import opened Board

  /** Row-major order of cells: a comes before b in the scan. */
  predicate Before(a: Pos, b: Pos) {
    a.row < b.row || (a.row == b.row && a.col < b.col)
  }

  /** No cell of the board is empty. */
  ghost predicate Full(g: Grid)
    requires WellFormed(g)
  {
    forall r, c :: InBounds(r, c) ==> g[r][c] != Empty
  }

  /** m is the choice under the scores f: an empty cell whose score no empty
      cell beats, and the first such cell in row-major order. */
  ghost predicate FirstBest(g: Grid, f: (int, int) -> int, m: Pos)
    requires WellFormed(g)
  {
    InBounds(m.row, m.col) && g[m.row][m.col] == Empty &&
    (forall r, c {:trigger f(r, c)} :: InBounds(r, c) && g[r][c] == Empty ==> f(r, c) <= f(m.row, m.col)) &&
    (forall r, c {:trigger f(r, c)} :: InBounds(r, c) && g[r][c] == Empty && Before(Pos(r, c), m) ==>
       f(r, c) < f(m.row, m.col))
  }

  /** The state of the scan once every cell before `upto` has been looked at:
      no empty cell seen and a best score of -1, or the first seen empty cell
      with the highest score seen, together with that score. */
  ghost predicate ScannedUpTo(g: Grid, f: (int, int) -> int, upto: Pos, best: Option<Pos>, bestScore: int)
    requires WellFormed(g)
  {
    match best
    case None =>
      bestScore == -1 &&
      forall r, c :: InBounds(r, c) && Before(Pos(r, c), upto) ==> g[r][c] != Empty
    case Some(m) =>
      InBounds(m.row, m.col) && Before(m, upto) && g[m.row][m.col] == Empty &&
      bestScore == f(m.row, m.col) &&
      (forall r, c {:trigger f(r, c)} :: InBounds(r, c) && Before(Pos(r, c), upto) && g[r][c] == Empty ==>
         f(r, c) <= bestScore) &&
      (forall r, c {:trigger f(r, c)} :: InBounds(r, c) && Before(Pos(r, c), m) && g[r][c] == Empty ==>
         f(r, c) < bestScore)
  }

  /** What the scan carries from cell to cell: the best cell so far and its
      score. */
  datatype Scanned = Scanned(best: Option<Pos>, score: int)

  /** The scan before any cell has been looked at. */
  const Start := Scanned(None, -1)

  /** Looking at cell (i, j): an empty cell whose score strictly beats the
      best so far becomes the best. */
  ghost function Step(g: Grid, f: (int, int) -> int, i: int, j: int, st: Scanned): Scanned
    requires WellFormed(g) && InBounds(i, j)
  {
    if g[i][j] == Empty && f(i, j) > st.score then Scanned(Some(Pos(i, j)), f(i, j)) else st
  }

  /** The scan continued from cell (i, j), row by row and left to right. */
  ghost function ScanFrom(g: Grid, f: (int, int) -> int, i: nat, j: nat, st: Scanned): Scanned
    requires WellFormed(g)
    decreases N - i, N - j
  {
    if i >= N then st
    else if j >= N then ScanFrom(g, f, i + 1, 0, st)
    else ScanFrom(g, f, i, j + 1, Step(g, f, i, j, st))
  }

  /** The scan of row i alone, from column j to the end of the row. */
  ghost function ScanRowFrom(g: Grid, f: (int, int) -> int, i: int, j: nat, st: Scanned): Scanned
    requires WellFormed(g) && 0 <= i < N
    decreases N - j
  {
    if j >= N then st else ScanRowFrom(g, f, i, j + 1, Step(g, f, i, j, st))
  }

  /** Scanning on from (i, j) is scanning the rest of row i and then going on
      from the start of the next row. */
  lemma {:induction false} ScanRowSplits(g: Grid, f: (int, int) -> int, i: nat, j: nat, st: Scanned)
    requires WellFormed(g) && i < N && j <= N
    ensures ScanFrom(g, f, i, j, st) == ScanFrom(g, f, i + 1, 0, ScanRowFrom(g, f, i, j, st))
    decreases N - j
  {
    if j < N {
      ScanRowSplits(g, f, i, j + 1, Step(g, f, i, j, st));
    }
  }

  /** The whole scan over the board. */
  ghost function ScanAll(g: Grid, f: (int, int) -> int): Scanned
    requires WellFormed(g)
  {
    ScanFrom(g, f, 0, 0, Start)
  }

  /** Nothing has been looked at before the first cell. */
  lemma ScanStart(g: Grid, f: (int, int) -> int)
    requires WellFormed(g)
    ensures ScannedUpTo(g, f, Pos(0, 0), Start.best, Start.score)
  {
  }

  /** One step of the scan keeps the best seen so far unless the cell is
      empty and strictly beats it; a score that is not negative always beats
      the starting -1. */
  lemma ScanStep(g: Grid, f: (int, int) -> int, i: int, j: int, st: Scanned)
    requires WellFormed(g) && InBounds(i, j) && ScannedUpTo(g, f, Pos(i, j), st.best, st.score)
    requires f(i, j) >= 0
    ensures ScannedUpTo(g, f, Pos(i, j + 1), Step(g, f, i, j, st).best, Step(g, f, i, j, st).score)
  {
  }

  /** The end of a row is the start of the next one. */
  lemma ScanNextRow(g: Grid, f: (int, int) -> int, i: int, best: Option<Pos>, bestScore: int)
    requires WellFormed(g) && ScannedUpTo(g, f, Pos(i, N), best, bestScore)
    ensures ScannedUpTo(g, f, Pos(i + 1, 0), best, bestScore)
  {
  }

  /** Continuing a scan to the end keeps its invariant. */
  lemma {:induction false} ScanFromScans(g: Grid, f: (int, int) -> int, i: nat, j: nat, st: Scanned)
    requires WellFormed(g) && i <= N && j <= N
    requires forall r, c :: InBounds(r, c) ==> f(r, c) >= 0
    requires ScannedUpTo(g, f, Pos(i, j), st.best, st.score)
    ensures ScannedUpTo(g, f, Pos(N, 0), ScanFrom(g, f, i, j, st).best, ScanFrom(g, f, i, j, st).score)
    decreases N - i, N - j
  {
    if i < N {
      if j >= N {
        ScanNextRow(g, f, i, st.best, st.score);
        ScanFromScans(g, f, i + 1, 0, st);
      } else {
        ScanStep(g, f, i, j, st);
        ScanFromScans(g, f, i, j + 1, Step(g, f, i, j, st));
      }
    } else {
      assert Pos(i, j) == Pos(N, j);
      forall r, c | InBounds(r, c) && Before(Pos(r, c), Pos(N, 0)) ensures Before(Pos(r, c), Pos(i, j)) {
      }
    }
  }

  /** Once every row has been looked at, the scan has found nothing exactly
      when the board is full, and otherwise it has found the first best
      empty cell. */
  lemma ScanComplete(g: Grid, f: (int, int) -> int, best: Option<Pos>, bestScore: int)
    requires WellFormed(g) && ScannedUpTo(g, f, Pos(N, 0), best, bestScore)
    ensures best.None? <==> Full(g)
    ensures best.Some? ==> FirstBest(g, f, best.value)
  {
  }

  /** The scan over the whole board, under scores that are never negative on
      the board, finds no cell exactly when the board is full, and otherwise
      the first empty cell of highest score. */
  lemma ScanAllFindsFirstBest(g: Grid, f: (int, int) -> int)
    requires WellFormed(g)
    requires forall r, c :: InBounds(r, c) ==> f(r, c) >= 0
    ensures ScanAll(g, f).best.None? <==> Full(g)
    ensures ScanAll(g, f).best.Some? ==> FirstBest(g, f, ScanAll(g, f).best.value)
  {
    ScanStart(g, f);
    ScanFromScans(g, f, 0, 0, Start);
    ScanComplete(g, f, ScanAll(g, f).best, ScanAll(g, f).score);
  }
}
