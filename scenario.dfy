/** A concrete two-player game in which black's undo allowance drops below
    zero: an undo is checked against the allowance of the player to move but
    charged to the player of the move taken back. */
module Scenario {
  import opened Board
  import opened WinCheck
  import opened Engine

  /** A stone whose eight neighbouring cells hold no stone of its player does
      not win. */
  lemma LoneStone(g: Grid, r: int, c: int, p: int)
    requires WellFormed(g) && InBounds(r, c)
    requires forall dr, dc :: IsDir(dr, dc) && InBounds(r + dr, c + dc) ==> g[r + dr][c + dc] != p
    ensures !Wins(g, r, c, p)
  {
    forall a | 0 <= a < |Directions|
      ensures !OnLine(g, r, c, Forward(a).0, Forward(a).1, p, 1)
      ensures !OnLine(g, r, c, Backward(a).0, Backward(a).1, p, 1)
    {
      var f, b := Forward(a), Backward(a);
      assert r + 1 * f.0 == r + f.0 && c + 1 * f.1 == c + f.1;
      assert r + 1 * b.0 == r + b.0 && c + 1 * b.1 == c + b.1;
    }
    NoNeighbourNoWin(g, r, c, p);
  }

  /** Black plays (0, 0), white (7, 7), black (14, 14); white's undo takes
      back black's stone and charges black, whose allowance falls to 0;
      black plays (14, 14) again, and white's next undo, checked against
      white's untouched allowance, charges black once more. */
  method NegativeAllowance() returns (game: Game)
    ensures game.Valid() && !game.isAIMode && !game.gameOver
    ensures game.undoCountP1 == -1 && game.undoCountP2 == 1
    ensures game.moveHistory == [Move(0, 0, Black), Move(7, 7, White)]
    ensures game.currentPlayer == Black
  {
    game := new Game();
    LoneStone(Place(game.cells, 0, 0, Black), 0, 0, Black);
    game.MakeMove(0, 0);
    LoneStone(Place(game.cells, 7, 7, White), 7, 7, White);
    game.MakeMove(7, 7);
    LoneStone(Place(game.cells, 14, 14, Black), 14, 14, Black);
    game.MakeMove(14, 14);
    var outcome := game.UndoMove(true);
    assert outcome == Undone && game.undoCountP1 == 0;
    LoneStone(Place(game.cells, 14, 14, Black), 14, 14, Black);
    game.MakeMove(14, 14);
    outcome := game.UndoMove(true);
    assert outcome == Undone;
  }
}
