/** The game engine: the mutable state of one game (the board array, the
    move log, whose turn it is, the game-over and AI flags and the undo
    allowances) and the operations that change it. The ghost field `cells`
    mirrors the board array as a value, so that the specifications of the
    other modules can speak about it. */
module Engine {
  import opened Board
  import opened WinCheck
  import opened Evaluate
  import opened Scan

  /** What a request to take back a move came to. */
  datatype UndoOutcome =
    | Ignored    // the game is over or no move has been made
    | Exhausted  // the allowance that applies now is used up
    | Declined   // the player did not confirm
    | Undone     // the undo went ahead

  /** Under the evaluator's scores the AI's scan finds no cell exactly when
      the board is full, and otherwise the first empty cell of highest
      score. */
  lemma AiChoosesFirstBest(g: Grid)
    requires WellFormed(g)
    ensures ScanAll(g, Scores(g)).best.None? <==> Full(g)
    ensures ScanAll(g, Scores(g)).best.Some? ==> FirstBest(g, Scores(g), ScanAll(g, Scores(g)).best.value)
  {
    ScoresNonNegative(g);
    ScanAllFindsFirstBest(g, Scores(g));
  }

  class Game {
    var board: array2<int>
    ghost var cells: Grid
    var moveHistory: seq<Move>
    var currentPlayer: int
    var gameOver: bool
    var isAIMode: bool
    var isAITurn: bool
    var undoCountP1: int
    var undoCountP2: int
    var undoCountPvE: int

    /** The board array is N x N and holds the well-formed grid `cells`. */
    ghost predicate Mirrors()
      reads this, board
    {
      board.Length0 == N && board.Length1 == N && WellFormed(cells) &&
      forall i, j :: 0 <= i < N && 0 <= j < N ==> board[i, j] == cells[i][j]
    }

    /** The board array holds `cells`; the cells are exactly what the move
        log puts there; it is black's or white's turn. */
    ghost predicate Valid()
      reads this, board
    {
      Mirrors() && Consistent(cells, moveHistory) && IsPlayer(currentPlayer)
    }

    /** The state when the page loads: black to move on an empty board in
        two-player mode, one undo for each player and two against the AI. */
    constructor ()
      ensures Valid() && fresh(board)
      ensures cells == EmptyGrid() && moveHistory == []
      ensures currentPlayer == Black && !gameOver && !isAIMode && !isAITurn
      ensures undoCountP1 == 1 && undoCountP2 == 1 && undoCountPvE == 2
    {
      board := new int[N, N]((i, j) => Empty);
      cells := EmptyGrid();
      moveHistory := [];
      currentPlayer := Black;
      gameOver := false;
      isAIMode := false;
      isAITurn := false;
      undoCountP1 := 1;
      undoCountP2 := 1;
      undoCountPvE := 2;
    }

    /** The undo allowance of a player in two-player mode. */
    function UndoCount(p: int): int
      reads this
    {
      if p == Black then undoCountP1 else undoCountP2
    }

    /** The allowance an undo request is checked against: the shared one
        when playing the AI, otherwise the one of the player to move. */
    function AvailableUndos(): int
      reads this
    {
      if isAIMode then undoCountPvE else UndoCount(currentPlayer)
    }

    /** The number of stones of the player to move met walking from the cell
        next to (row, col) in direction (dx, dy) until the edge of the board or
        a cell without such a stone. */
    method Walk(row: int, col: int, dx: int, dy: int) returns (n: nat)
      requires Mirrors() && IsDir(dx, dy)
      ensures n == RunLength(cells, row + dx, col + dy, dx, dy, currentPlayer)
    {
      var r, c := row + dx, col + dy;
      n := 0;
      while InBounds(r, c) && board[r, c] == currentPlayer
        invariant n + RunLength(cells, r, c, dx, dy, currentPlayer) ==
                  RunLength(cells, row + dx, col + dy, dx, dy, currentPlayer)
        decreases Steps(r, c, dx, dy)
      {
        n := n + 1;
        r, c := r + dx, c + dy;
      }
    }

    /** Whether the player to move has five or more in a row through
        (row, col) on one of the four axes. */
    method CheckWin(row: int, col: int) returns (win: bool)
      requires Valid()
      ensures win == Wins(cells, row, col, currentPlayer)
    {
      var a := 0;
      while a < |Directions|
        invariant 0 <= a <= |Directions|
        invariant forall b :: 0 <= b < a ==> AxisCount(cells, row, col, b, currentPlayer) < 5
      {
        var count := 1;
        var f, b := Forward(a), Backward(a);
        var n := Walk(row, col, f.0, f.1);
        count := count + n;
        n := Walk(row, col, b.0, b.1);
        count := count + n;
        assert count == AxisCount(cells, row, col, a, currentPlayer);
        if count >= 5 {
          return true;
        }
        a := a + 1;
      }
      return false;
    }

    /** Adds to the counters the black stones, white stones and empty cells
        1..4 steps from (row, col) in direction (dx, dy) that are on the
        board. */
    method TallyDirection(row: int, col: int, dx: int, dy: int, black0: nat, white0: nat, empty0: nat)
      returns (black: nat, white: nat, empty: nat)
      requires Mirrors() && -1 <= dx <= 1 && -1 <= dy <= 1
      ensures black == black0 + CountSteps(cells, row, col, dx, dy, Black, 1, Reach)
      ensures white == white0 + CountSteps(cells, row, col, dx, dy, White, 1, Reach)
      ensures empty == empty0 + CountSteps(cells, row, col, dx, dy, Empty, 1, Reach)
    {
      black, white, empty := black0, white0, empty0;
      var step := 1;
      while step <= Reach
        invariant 1 <= step <= Reach + 1
        invariant black + CountSteps(cells, row, col, dx, dy, Black, step, Reach) ==
                  black0 + CountSteps(cells, row, col, dx, dy, Black, 1, Reach)
        invariant white + CountSteps(cells, row, col, dx, dy, White, step, Reach) ==
                  white0 + CountSteps(cells, row, col, dx, dy, White, 1, Reach)
        invariant empty + CountSteps(cells, row, col, dx, dy, Empty, step, Reach) ==
                  empty0 + CountSteps(cells, row, col, dx, dy, Empty, 1, Reach)
      {
        var r := row + dx * step;
        var c := col + dy * step;
        if 0 <= r < N && 0 <= c < N {
          var v := board[r, c];
          if v == Empty {
            empty := empty + 1;
          } else if v == Black {
            black := black + 1;
          } else {
            white := white + 1;
          }
        }
        step := step + 1;
      }
    }

    /** The six weight rules of one axis, applied to its counts. */
    static method AxisPoints(black: nat, white: nat, empty: nat) returns (points: int)
      ensures points == AxisScore(Tally(black, white, empty))
    {
      points := 0;
      if black == 4 { points := points + 10000; }
      if white == 4 { points := points + 15000; }
      if black == 3 && empty >= 2 { points := points + 1000; }
      if white == 3 && empty >= 2 { points := points + 2000; }
      if black == 2 && empty >= 3 { points := points + 100; }
      if white == 2 && empty >= 3 { points := points + 200; }
    }

    /** The weight of axis a at (row, col): both directions tallied into the
        same counts, then the six rules applied. */
    method AxisValue(row: int, col: int, a: int) returns (points: int)
      requires Mirrors() && 0 <= a < |Directions|
      ensures points == AxisScore(AxisTally(cells, row, col, a))
    {
      var f, b := Forward(a), Backward(a);
      var black, white, empty := TallyDirection(row, col, f.0, f.1, 0, 0, 0);
      black, white, empty := TallyDirection(row, col, b.0, b.1, black, white, empty);
      assert Tally(black, white, empty) == AxisTally(cells, row, col, a);
      points := AxisPoints(black, white, empty);
    }

    /** The weights of all four axes at (row, col), summed. */
    method AxesValue(row: int, col: int) returns (score: int)
      requires Mirrors()
      ensures score == AxesScore(cells, row, col, 0)
    {
      score := 0;
      var a := 0;
      // a runs over the four axes of Directions
      while a < 4
        invariant 0 <= a <= 4
        invariant score + AxesScore(cells, row, col, a) == AxesScore(cells, row, col, 0)
      {
        var points := AxisValue(row, col, a);
        score := score + points;
        a := a + 1;
      }
    }

    /** The AI's score of the cell (row, col). */
    method EvaluatePosition(row: int, col: int) returns (score: int)
      requires Mirrors()
      ensures score == Score(cells, row, col)
    {
      score := AxesValue(row, col);
      score := score + CenterBonus(row) + CenterBonus(col);
    }

    /** One step of the AI's scan: an empty cell that strictly beats the best
        score so far becomes the best. */
    method ScanCell(i: int, j: int, best: Option<Pos>, bestScore: int)
      returns (best': Option<Pos>, bestScore': int)
      requires Mirrors() && InBounds(i, j)
      ensures Scanned(best', bestScore') == Step(cells, Scores(cells), i, j, Scanned(best, bestScore))
    {
      best', bestScore' := best, bestScore;
      assert board[i, j] == cells[i][j];
      if board[i, j] == Empty {
        var score := EvaluatePosition(i, j);
        assert Scores(cells)(i, j) == score;
        if score > bestScore {
          bestScore' := score;
          best' := Some(Pos(i, j));
        }
      }
    }

    /** The AI's scan over row i, left to right. */
    method ScanRow(i: int, best: Option<Pos>, bestScore: int)
      returns (best': Option<Pos>, bestScore': int)
      requires Mirrors() && 0 <= i < N
      ensures Scanned(best', bestScore') == ScanRowFrom(cells, Scores(cells), i, 0, Scanned(best, bestScore))
    {
      best', bestScore' := best, bestScore;
      var j := 0;
      while j < N
        invariant 0 <= j <= N
        invariant ScanRowFrom(cells, Scores(cells), i, j, Scanned(best', bestScore')) ==
                  ScanRowFrom(cells, Scores(cells), i, 0, Scanned(best, bestScore))
      {
        best', bestScore' := ScanCell(i, j, best', bestScore');
        j := j + 1;
      }
    }

    /** The AI's scan over rows i0, i0 + 1, ... to the last. */
    method ScanRows(i0: int, best0: Option<Pos>, bestScore0: int)
      returns (best: Option<Pos>, bestScore: int)
      requires Mirrors() && 0 <= i0 <= N
      ensures Scanned(best, bestScore) == ScanFrom(cells, Scores(cells), i0, 0, Scanned(best0, bestScore0))
    {
      best, bestScore := best0, bestScore0;
      var i := i0;
      while i < N
        invariant i0 <= i <= N
        invariant ScanFrom(cells, Scores(cells), i, 0, Scanned(best, bestScore)) ==
                  ScanFrom(cells, Scores(cells), i0, 0, Scanned(best0, bestScore0))
      {
        ScanRowSplits(cells, Scores(cells), i, 0, Scanned(best, bestScore));
        best, bestScore := ScanRow(i, best, bestScore);
        i := i + 1;
      }
    }

    /** The AI's choice of move: none once the game is over; otherwise what
        the row-major scan, starting from a best score of -1, ends with:
        none when no cell is empty, else an empty cell no empty cell
        outscores, and the first of those in row-major order. */
    method SelectMove() returns (best: Option<Pos>)
      requires Mirrors()
      ensures best == if gameOver then None else ScanAll(cells, Scores(cells)).best
      ensures best.None? <==> gameOver || Full(cells)
      ensures best.Some? ==> FirstBest(cells, Scores(cells), best.value)
    {
      if gameOver {
        return None;
      }
      var bestScore;
      best, bestScore := ScanRows(0, None, -1);
      AiChoosesFirstBest(cells);
    }

    /** What makeMove does to the state apart from the AI-turn flag: on an
        occupied cell nothing; on an empty one the stone of the player to
        move is put there and logged, then a win ends the game with the
        winner still to move, and otherwise the turn passes. The mode and
        the undo allowances never change. */
    twostate predicate Placed(row: int, col: int)
      requires old(Valid()) && InBounds(row, col)
      reads this
    {
      var p := old(currentPlayer);
      board == old(board) && isAIMode == old(isAIMode) &&
      undoCountP1 == old(undoCountP1) && undoCountP2 == old(undoCountP2) &&
      undoCountPvE == old(undoCountPvE) &&
      if old(cells)[row][col] != Empty then
        cells == old(cells) && moveHistory == old(moveHistory) &&
        currentPlayer == p && gameOver == old(gameOver)
      else
        cells == Place(old(cells), row, col, p) &&
        moveHistory == old(moveHistory) + [Move(row, col, p)] &&
        if Wins(cells, row, col, p) then gameOver && currentPlayer == p
        else gameOver == old(gameOver) && currentPlayer == Other(p)
    }

    /** Puts the stone of the player to move on the empty cell (row, col)
        and logs the move; nothing else changes. */
    method PushMove(row: int, col: int)
      requires Valid() && InBounds(row, col) && cells[row][col] == Empty
      modifies this, board
      ensures Valid() && board == old(board)
      ensures moveHistory == old(moveHistory) + [Move(row, col, currentPlayer)]
      ensures cells == Place(old(cells), row, col, currentPlayer)
      ensures currentPlayer == old(currentPlayer) && gameOver == old(gameOver)
      ensures isAIMode == old(isAIMode) && isAITurn == old(isAITurn)
      ensures undoCountP1 == old(undoCountP1) && undoCountP2 == old(undoCountP2)
      ensures undoCountPvE == old(undoCountPvE)
    {
      PlaceKeepsConsistent(cells, moveHistory, row, col, currentPlayer);
      moveHistory := moveHistory + [Move(row, col, currentPlayer)];
      board[row, col] := currentPlayer;
      cells := Place(cells, row, col, currentPlayer);
    }

    /** Puts the stone of the player to move on (row, col) if that cell is
        empty. After a move away from black that does not end the game, in
        AI mode it becomes the AI's turn. */
    method MakeMove(row: int, col: int)
      requires Valid() && InBounds(row, col)
      modifies this, board
      ensures Valid() && Placed(row, col)
      ensures isAITurn ==
                (old(isAITurn) || (isAIMode && !gameOver && old(currentPlayer) == Black && currentPlayer == White))
    {
      if board[row, col] == Empty {
        PushMove(row, col);
        var won := CheckWin(row, col);
        if won {
          gameOver := true;
          return;
        }
        currentPlayer := if currentPlayer == Black then White else Black;
        if isAIMode && !gameOver && currentPlayer == White {
          isAITurn := true;
        }
      }
    }

    /** The AI's delayed reply: the chosen move is played and the AI's turn
        ends. */
    method ApplyAiMove(row: int, col: int)
      requires Valid() && InBounds(row, col)
      modifies this, board
      ensures Valid() && Placed(row, col) && !isAITurn
    {
      MakeMove(row, col);
      isAITurn := false;
    }

    /** A click on the cell (row, col): ignored after the game is over,
        during the AI's turn, off the board and on an occupied cell; a move
        otherwise. */
    method Click(row: int, col: int)
      requires Valid()
      modifies this, board
      ensures Valid()
      ensures old(gameOver) || old(isAITurn) || !InBounds(row, col) || old(cells)[row][col] != Empty ==>
                unchanged(this) && unchanged(board)
      ensures !old(gameOver) && !old(isAITurn) && InBounds(row, col) && old(cells)[row][col] == Empty ==>
                Placed(row, col) &&
                moveHistory == old(moveHistory) + [Move(row, col, old(currentPlayer))] &&
                isAITurn == (isAIMode && !gameOver && currentPlayer == White)
    {
      if gameOver || isAITurn {
        return;
      }
      if 0 <= row < N && 0 <= col < N && board[row, col] == Empty {
        MakeMove(row, col);
      }
    }

    /** Back to an empty board with black to move, keeping the mode and the
        undo allowances. */
    method RestartGame()
      modifies this
      ensures Valid() && fresh(board)
      ensures cells == EmptyGrid() && moveHistory == []
      ensures currentPlayer == Black && !gameOver && !isAITurn
      ensures isAIMode == old(isAIMode)
      ensures undoCountP1 == old(undoCountP1) && undoCountP2 == old(undoCountP2)
      ensures undoCountPvE == old(undoCountPvE)
    {
      board := new int[N, N]((i, j) => Empty);
      cells := EmptyGrid();
      moveHistory := [];
      currentPlayer := Black;
      gameOver := false;
      isAITurn := false;
    }

    /** Starts a new game, against the AI when the mode is "pve": the
        allowance of the chosen mode is reset, the other mode's is kept. */
    method StartGame(mode: string)
      modifies this
      ensures Valid() && fresh(board)
      ensures isAIMode == (mode == "pve")
      ensures cells == EmptyGrid() && moveHistory == []
      ensures currentPlayer == Black && !gameOver && !isAITurn
      ensures isAIMode ==> undoCountPvE == 2 && undoCountP1 == old(undoCountP1) && undoCountP2 == old(undoCountP2)
      ensures !isAIMode ==> undoCountP1 == 1 && undoCountP2 == 1 && undoCountPvE == old(undoCountPvE)
    {
      isAIMode := mode == "pve";
      moveHistory := [];
      if isAIMode {
        undoCountPvE := 2;
      } else {
        undoCountP1 := 1;
        undoCountP2 := 1;
      }
      RestartGame();
    }

    /** Takes the last move off the log and clears its cell on the board;
        nothing else changes. */
    method PopMove() returns (m: Move)
      requires Valid() && moveHistory != []
      modifies this, board
      ensures Valid() && board == old(board)
      ensures m == old(moveHistory)[|old(moveHistory)| - 1] && IsPlayer(m.player)
      ensures moveHistory == old(moveHistory)[..|old(moveHistory)| - 1]
      ensures cells == Place(old(cells), m.row, m.col, Empty)
      ensures currentPlayer == old(currentPlayer) && gameOver == old(gameOver)
      ensures isAIMode == old(isAIMode) && isAITurn == old(isAITurn)
      ensures undoCountP1 == old(undoCountP1) && undoCountP2 == old(undoCountP2)
      ensures undoCountPvE == old(undoCountPvE)
    {
      m := moveHistory[|moveHistory| - 1];
      PopKeepsConsistent(cells, moveHistory);
      moveHistory := moveHistory[..|moveHistory| - 1];
      board[m.row, m.col] := Empty;
      cells := Place(cells, m.row, m.col, Empty);
    }

    /** Takes back moves, after the player confirmed. Refused when the game is
        over or nothing was played, and when the allowance checked now is
        used up. Against the AI it takes back the AI's reply and the player's
        move and gives black the turn, at the cost of one shared undo; with
        fewer than two moves logged it only ends the AI's turn. In two-player
        mode it takes back the last move, gives its player the turn and
        charges that player, whose allowance is not the one checked when
        that player is not the one to move. */
    method UndoMove(confirmed: bool) returns (outcome: UndoOutcome)
      requires Valid()
      modifies this, board
      ensures Valid() && board == old(board)
      ensures outcome == (if old(gameOver) || old(moveHistory) == [] then Ignored
                          else if old(AvailableUndos()) <= 0 then Exhausted
                          else if !confirmed then Declined
                          else Undone)
      ensures outcome != Undone ==> unchanged(this) && unchanged(board)
      ensures outcome == Undone ==>
                !isAITurn && gameOver == old(gameOver) && isAIMode == old(isAIMode)
      ensures outcome == Undone && isAIMode && |old(moveHistory)| >= 2 ==>
                var h := old(moveHistory);
                var ai, human := h[|h| - 1], h[|h| - 2];
                moveHistory == h[..|h| - 2] &&
                cells == Place(Place(old(cells), ai.row, ai.col, Empty), human.row, human.col, Empty) &&
                currentPlayer == Black && undoCountPvE == old(undoCountPvE) - 1 &&
                undoCountP1 == old(undoCountP1) && undoCountP2 == old(undoCountP2)
      ensures outcome == Undone && isAIMode && |old(moveHistory)| < 2 ==>
                moveHistory == old(moveHistory) && cells == old(cells) &&
                currentPlayer == old(currentPlayer) && undoCountPvE == old(undoCountPvE) &&
                undoCountP1 == old(undoCountP1) && undoCountP2 == old(undoCountP2)
      ensures outcome == Undone && !isAIMode ==>
                var h := old(moveHistory);
                var last := h[|h| - 1];
                moveHistory == h[..|h| - 1] &&
                cells == Place(old(cells), last.row, last.col, Empty) &&
                currentPlayer == last.player &&
                UndoCount(last.player) == old(UndoCount(last.player)) - 1 &&
                UndoCount(Other(last.player)) == old(UndoCount(Other(last.player))) &&
                undoCountPvE == old(undoCountPvE)
    {
      if gameOver || |moveHistory| == 0 {
        return Ignored;
      }
      var availableUndos := AvailableUndos();
      if availableUndos <= 0 {
        return Exhausted;
      }
      if !confirmed {
        return Declined;
      }
      if isAIMode {
        if |moveHistory| >= 2 {
          var aiMove := PopMove();
          var playerMove := PopMove();
          currentPlayer := Black;
          undoCountPvE := undoCountPvE - 1;
        }
      } else {
        var lastMove := PopMove();
        currentPlayer := lastMove.player;
        if lastMove.player == Black {
          undoCountP1 := undoCountP1 - 1;
        } else {
          undoCountP2 := undoCountP2 - 1;
        }
      }
      isAITurn := false;
      outcome := Undone;
    }
  }
}
