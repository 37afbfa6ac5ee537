/** The 15x15 Gomoku board as a value, the move log, and the invariant that
    ties the two together: the stones on the board are exactly the moves
    recorded in the log. */
module Board {

  /** Side length of the square board. */
  const N: int := 15

  /** Cell contents: 0 is empty, 1 is black (the first player), 2 is white. */
  const Empty: int := 0
  const Black: int := 1
  const White: int := 2

  predicate IsPlayer(p: int) { p == Black || p == White }

  predicate InBounds(r: int, c: int) { 0 <= r < N && 0 <= c < N }

  /** The player whose turn follows p's. */
  function Other(p: int): (q: int)
    requires IsPlayer(p)
    ensures IsPlayer(q) && q != p
  {
    if p == Black then White else Black
  }

  /** A direction of a walk over the board: one step along a row, a column or
      a diagonal. */
  predicate IsDir(dr: int, dc: int) {
    -1 <= dr <= 1 && -1 <= dc <= 1 && (dr != 0 || dc != 0)
  }

  /** The four axes scanned by the win check and by the evaluator, each as the
      pair of opposite directions walked from the cell: horizontal, vertical,
      diagonal and anti-diagonal. A direction (dr, dc) moves dr rows and dc
      columns per step. */
  const Directions: seq<((int, int), (int, int))> :=
    [((0, 1), (0, -1)), ((1, 0), (-1, 0)), ((1, 1), (-1, -1)), ((1, -1), (-1, 1))]

  /** The first direction of axis a. */
  function Forward(a: int): (d: (int, int))
    requires 0 <= a < |Directions|
    ensures IsDir(d.0, d.1)
  {
    Directions[a].0
  }

  /** The second direction of axis a: the opposite of the first. */
  function Backward(a: int): (d: (int, int))
    requires 0 <= a < |Directions|
    ensures IsDir(d.0, d.1) && d == (-Forward(a).0, -Forward(a).1)
  {
    Directions[a].1
  }

  type Grid = seq<seq<int>>

  /** An N x N grid whose cells are all empty, black or white. */
  ghost predicate WellFormed(g: Grid) {
    |g| == N &&
    (forall i :: 0 <= i < N ==> |g[i]| == N) &&
    (forall i, j :: InBounds(i, j) ==> Empty <= g[i][j] <= White)
  }

  /** The board with the cell (r, c) set to v and every other cell kept. */
  function Place(g: Grid, r: int, c: int, v: int): (g': Grid)
    requires WellFormed(g) && InBounds(r, c) && Empty <= v <= White
    ensures WellFormed(g')
    ensures g'[r][c] == v
    ensures forall i, j :: InBounds(i, j) && (i != r || j != c) ==> g'[i][j] == g[i][j]
  {
    g[r := g[r][c := v]]
  }

  /** A cell of the board. */
  datatype Pos = Pos(row: int, col: int)

  datatype Option<T> = None | Some(value: T)

  /** One entry of the move log: where a stone was put and whose it is. */
  datatype Move = Move(row: int, col: int, player: int)

  /** What the log says is on the cell (r, c): the player of the latest
      move there, or empty when no move was made there. */
  function StoneAt(h: seq<Move>, r: int, c: int): int
  {
    if h == [] then Empty
    else if h[|h| - 1].row == r && h[|h| - 1].col == c then h[|h| - 1].player
    else StoneAt(h[..|h| - 1], r, c)
  }

  /** Every logged move is on the board and by one of the two players. */
  predicate LegalMoves(h: seq<Move>) {
    forall k :: 0 <= k < |h| ==> InBounds(h[k].row, h[k].col) && IsPlayer(h[k].player)
  }

  /** No two logged moves share a cell. */
  predicate DistinctCells(h: seq<Move>) {
    forall i, j :: 0 <= i < j < |h| ==> h[i].row != h[j].row || h[i].col != h[j].col
  }

  /** The central invariant of the engine: the board is exactly what
      replaying the log onto an empty board gives. */
  ghost predicate Consistent(g: Grid, h: seq<Move>) {
    WellFormed(g) && LegalMoves(h) && DistinctCells(h) &&
    forall r, c :: InBounds(r, c) ==> g[r][c] == StoneAt(h, r, c)
  }

  /** A fresh board: every cell empty, consistent with the empty log. */
  function EmptyGrid(): (g: Grid)
    ensures Consistent(g, [])
    ensures forall r, c :: InBounds(r, c) ==> g[r][c] == Empty
  {
    seq(N, i => seq(N, j => Empty))
  }

  /** The log is empty at (r, c) exactly when no logged move is there. */
  lemma {:induction false} StoneAtEmpty(h: seq<Move>, r: int, c: int)
    requires LegalMoves(h)
    ensures StoneAt(h, r, c) == Empty <==>
            forall k :: 0 <= k < |h| ==> h[k].row != r || h[k].col != c
  {
    if h != [] {
      var h' := h[..|h| - 1];
      assert LegalMoves(h');
      StoneAtEmpty(h', r, c);
      assert forall k :: 0 <= k < |h'| ==> h'[k] == h[k];
    }
  }

  /** With distinct cells, each logged move is what the log says is on its
      cell. */
  lemma {:induction false} StoneAtMove(h: seq<Move>, k: int)
    requires DistinctCells(h) && 0 <= k < |h|
    ensures StoneAt(h, h[k].row, h[k].col) == h[k].player
  {
    if k < |h| - 1 {
      var h' := h[..|h| - 1];
      assert h'[k] == h[k];
      assert DistinctCells(h');
      StoneAtMove(h', k);
    }
  }

  /** A non-empty cell according to the log comes from a logged move with
      that position and that player. */
  lemma {:induction false} StoneAtWitness(h: seq<Move>, r: int, c: int)
    requires StoneAt(h, r, c) != Empty
    ensures exists k :: 0 <= k < |h| && h[k] == Move(r, c, StoneAt(h, r, c))
  {
    if h[|h| - 1].row == r && h[|h| - 1].col == c {
      assert h[|h| - 1] == Move(r, c, StoneAt(h, r, c));
    } else {
      var h' := h[..|h| - 1];
      StoneAtWitness(h', r, c);
      var k :| 0 <= k < |h'| && h'[k] == Move(r, c, StoneAt(h', r, c));
      assert h[k] == h'[k];
    }
  }

  /** The invariant read both ways: every logged move is on the board with
      its player, and every stone on the board is a logged move. */
  lemma ConsistentExact(g: Grid, h: seq<Move>)
    requires Consistent(g, h)
    ensures forall k :: 0 <= k < |h| ==> g[h[k].row][h[k].col] == h[k].player
    ensures forall r, c :: InBounds(r, c) && g[r][c] != Empty ==>
              exists k :: 0 <= k < |h| && h[k] == Move(r, c, g[r][c])
  {
    forall k | 0 <= k < |h| ensures g[h[k].row][h[k].col] == h[k].player {
      StoneAtMove(h, k);
    }
    forall r, c | InBounds(r, c) && g[r][c] != Empty
      ensures exists k :: 0 <= k < |h| && h[k] == Move(r, c, g[r][c])
    {
      StoneAtWitness(h, r, c);
    }
  }

  /** Putting a player's stone on an empty cell and logging the move keeps the
      invariant. */
  lemma PlaceKeepsConsistent(g: Grid, h: seq<Move>, r: int, c: int, p: int)
    requires Consistent(g, h) && InBounds(r, c) && g[r][c] == Empty && IsPlayer(p)
    ensures Consistent(Place(g, r, c, p), h + [Move(r, c, p)])
  {
    var h' := h + [Move(r, c, p)];
    assert h'[..|h'| - 1] == h;
    StoneAtEmpty(h, r, c);
    assert forall k :: 0 <= k < |h| ==> h'[k] == h[k];
  }

  /** Taking the last move off the log and clearing its cell keeps the
      invariant. */
  lemma PopKeepsConsistent(g: Grid, h: seq<Move>)
    requires Consistent(g, h) && h != []
    ensures Consistent(Place(g, h[|h| - 1].row, h[|h| - 1].col, Empty), h[..|h| - 1])
  {
    var m, h' := h[|h| - 1], h[..|h| - 1];
    assert forall k :: 0 <= k < |h'| ==> h'[k] == h[k];
    assert LegalMoves(h') && DistinctCells(h');
    StoneAtEmpty(h', m.row, m.col);
  }
}
