/** Five-in-a-row detection: from a cell, walk outward along each axis while
    the cells hold the same player's stones, stopping at the board edge. */
module WinCheck {
  import opened Board

  /** How many steps a walk from (r, c) in direction (dr, dc) can take before
      it leaves the board; it drops by one with every step taken on the board. */
  function Steps(r: int, c: int, dr: int, dc: int): int {
    if dr == 1 then N - r
    else if dr == -1 then r + 1
    else if dc == 1 then N - c
    else c + 1
  }

  /** The number of consecutive stones of player p met when walking from
      (r, c) in direction (dr, dc), (r, c) included; the walk stops at the
      first cell off the board or not holding p. */
  function RunLength(g: Grid, r: int, c: int, dr: int, dc: int, p: int): nat
    requires WellFormed(g) && IsDir(dr, dc)
    decreases Steps(r, c, dr, dc)
  {
    if InBounds(r, c) && g[r][c] == p then 1 + RunLength(g, r + dr, c + dc, dr, dc, p) else 0
  }

  /** The cell t steps from (r, c) in direction (dr, dc) is on the board and
      holds p; t may be negative, for the opposite direction. */
  ghost predicate OnLine(g: Grid, r: int, c: int, dr: int, dc: int, p: int, t: int)
    requires WellFormed(g)
  {
    InBounds(r + t * dr, c + t * dc) && g[r + t * dr][c + t * dc] == p
  }

  /** The stone at (r, c) counted once, plus the runs of p walked from the
      next cell in both directions of axis a. */
  function AxisCount(g: Grid, r: int, c: int, a: int, p: int): nat
    requires WellFormed(g) && 0 <= a < |Directions|
  {
    var f, b := Forward(a), Backward(a);
    1 + RunLength(g, r + f.0, c + f.1, f.0, f.1, p) + RunLength(g, r + b.0, c + b.1, b.0, b.1, p)
  }

  /** Player p wins with the stone at (r, c) when some axis counts five or
      more. */
  ghost predicate Wins(g: Grid, r: int, c: int, p: int)
    requires WellFormed(g)
  {
    exists a :: 0 <= a < |Directions| && AxisCount(g, r, c, a, p) >= 5
  }

  /** Five cells in a row along (dr, dc), all holding p, the i-th of which lies
      i - s steps from (r, c); so (r, c) is the s-th of the five. */
  ghost predicate Five(g: Grid, r: int, c: int, dr: int, dc: int, p: int, s: int)
    requires WellFormed(g)
  {
    forall t :: -s <= t <= 4 - s ==> OnLine(g, r, c, dr, dc, p, t)
  }

  /** The line seen from the next cell is the same line, one step on. */
  lemma OnLineShift(g: Grid, r: int, c: int, dr: int, dc: int, p: int, i: int)
    requires WellFormed(g)
    ensures OnLine(g, r + dr, c + dc, dr, dc, p, i) == OnLine(g, r, c, dr, dc, p, i + 1)
  {
    assert r + dr + i * dr == r + (i + 1) * dr;
    assert c + dc + i * dc == c + (i + 1) * dc;
  }

  /** Walking the opposite direction visits the same cells at negated steps. */
  lemma OnLineFlip(g: Grid, r: int, c: int, dr: int, dc: int, p: int, t: int)
    requires WellFormed(g)
    ensures OnLine(g, r, c, -dr, -dc, p, t) == OnLine(g, r, c, dr, dc, p, -t)
  {
    assert t * -dr == -t * dr;
    assert t * -dc == -t * dc;
  }

  /** A walk counts at least k exactly when the first k cells on its line
      are on the board and hold p: there is no wrap-around at the edges. */
  lemma {:induction false} RunLengthCovers(g: Grid, r: int, c: int, dr: int, dc: int, p: int, k: nat)
    requires WellFormed(g) && IsDir(dr, dc)
    ensures RunLength(g, r, c, dr, dc, p) >= k <==>
            forall i :: 0 <= i < k ==> OnLine(g, r, c, dr, dc, p, i)
    decreases k
  {
    if k > 0 {
      assert OnLine(g, r, c, dr, dc, p, 0) <==> InBounds(r, c) && g[r][c] == p by {
        assert 0 * dr == 0 && 0 * dc == 0;
      }
      if InBounds(r, c) && g[r][c] == p {
        var r1, c1 := r + dr, c + dc;
        RunLengthCovers(g, r1, c1, dr, dc, p, k - 1);
        forall i | 0 <= i < k - 1
          ensures OnLine(g, r1, c1, dr, dc, p, i) == OnLine(g, r, c, dr, dc, p, i + 1)
        {
          OnLineShift(g, r, c, dr, dc, p, i);
        }
        if forall i :: 0 <= i < k ==> OnLine(g, r, c, dr, dc, p, i) {
          forall i | 0 <= i < k - 1 ensures OnLine(g, r1, c1, dr, dc, p, i) {
            assert OnLine(g, r, c, dr, dc, p, i + 1);
          }
        }
        if RunLength(g, r, c, dr, dc, p) >= k {
          forall i | 0 <= i < k ensures OnLine(g, r, c, dr, dc, p, i) {
            if i > 0 {
              assert OnLine(g, r1, c1, dr, dc, p, i - 1);
            }
          }
        }
      }
    }
  }

  /** The forward half of an axis: its run counts at least k exactly when the
      cells 1..k steps ahead hold p. */
  lemma ForwardRun(g: Grid, r: int, c: int, dr: int, dc: int, p: int, k: nat)
    requires WellFormed(g) && IsDir(dr, dc)
    ensures RunLength(g, r + dr, c + dc, dr, dc, p) >= k <==>
            forall t :: 1 <= t <= k ==> OnLine(g, r, c, dr, dc, p, t)
  {
    var r1, c1 := r + dr, c + dc;
    RunLengthCovers(g, r1, c1, dr, dc, p, k);
    forall i | 0 <= i < k
      ensures OnLine(g, r1, c1, dr, dc, p, i) == OnLine(g, r, c, dr, dc, p, i + 1)
    {
      OnLineShift(g, r, c, dr, dc, p, i);
    }
    if forall t :: 1 <= t <= k ==> OnLine(g, r, c, dr, dc, p, t) {
      forall i | 0 <= i < k ensures OnLine(g, r1, c1, dr, dc, p, i) {
        assert OnLine(g, r, c, dr, dc, p, i + 1);
      }
    }
    if RunLength(g, r1, c1, dr, dc, p) >= k {
      forall t | 1 <= t <= k ensures OnLine(g, r, c, dr, dc, p, t) {
        assert OnLine(g, r1, c1, dr, dc, p, t - 1);
      }
    }
  }

  /** The backward half of an axis: its run counts at least k exactly when the
      cells 1..k steps behind hold p. */
  lemma BackwardRun(g: Grid, r: int, c: int, dr: int, dc: int, p: int, k: nat)
    requires WellFormed(g) && IsDir(dr, dc)
    ensures RunLength(g, r - dr, c - dc, -dr, -dc, p) >= k <==>
            forall t :: -(k as int) <= t <= -1 ==> OnLine(g, r, c, dr, dc, p, t)
  {
    var br, bc := -dr, -dc;
    ForwardRun(g, r, c, br, bc, p, k);
    forall t | 1 <= t <= k
      ensures OnLine(g, r, c, br, bc, p, t) == OnLine(g, r, c, dr, dc, p, -t)
    {
      OnLineFlip(g, r, c, dr, dc, p, t);
    }
    if forall t :: -(k as int) <= t <= -1 ==> OnLine(g, r, c, dr, dc, p, t) {
      forall t | 1 <= t <= k ensures OnLine(g, r, c, br, bc, p, t) {
        assert OnLine(g, r, c, dr, dc, p, -t);
      }
    }
    if RunLength(g, r + br, c + bc, br, bc, p) >= k {
      forall t | -(k as int) <= t <= -1 ensures OnLine(g, r, c, dr, dc, p, t) {
        assert OnLine(g, r, c, br, bc, p, -t);
      }
    }
  }

  /** On one axis through a stone of p, the count reaches five exactly when
      five stones of p lie in an unbroken row on that axis through the cell. */
  lemma AxisCountIffFive(g: Grid, r: int, c: int, a: int, p: int)
    requires WellFormed(g) && 0 <= a < |Directions| && InBounds(r, c) && g[r][c] == p
    ensures AxisCount(g, r, c, a, p) >= 5 <==>
            exists s :: 0 <= s <= 4 && Five(g, r, c, Forward(a).0, Forward(a).1, p, s)
  {
    var dr, dc := Forward(a).0, Forward(a).1;
    assert OnLine(g, r, c, dr, dc, p, 0);
    var fwd := RunLength(g, r + dr, c + dc, dr, dc, p);
    var bwd := RunLength(g, r - dr, c - dc, -dr, -dc, p);
    assert AxisCount(g, r, c, a, p) == 1 + fwd + bwd;
    if AxisCount(g, r, c, a, p) >= 5 {
      var s := if bwd >= 4 then 4 else bwd;
      ForwardRun(g, r, c, dr, dc, p, fwd);
      BackwardRun(g, r, c, dr, dc, p, bwd);
      assert Five(g, r, c, dr, dc, p, s);
    }
    if exists s :: 0 <= s <= 4 && Five(g, r, c, dr, dc, p, s) {
      var s :| 0 <= s <= 4 && Five(g, r, c, dr, dc, p, s);
      ForwardRun(g, r, c, dr, dc, p, 4 - s);
      BackwardRun(g, r, c, dr, dc, p, s);
    }
  }

  /** Just after p put a stone on (r, c), the win check holds exactly when an
      unbroken row of five stones of p on one of the four axes passes through
      (r, c). */
  lemma WinsIffFiveInRow(g: Grid, r: int, c: int, p: int)
    requires WellFormed(g) && InBounds(r, c) && g[r][c] == p
    ensures Wins(g, r, c, p) <==>
            exists a, s :: 0 <= a < |Directions| && 0 <= s <= 4 &&
              Five(g, r, c, Forward(a).0, Forward(a).1, p, s)
  {
    forall a | 0 <= a < |Directions| {
      AxisCountIffFive(g, r, c, a, p);
    }
  }

  /** A stone with no stone of the same player right next to it on any axis
      does not win. */
  lemma NoNeighbourNoWin(g: Grid, r: int, c: int, p: int)
    requires WellFormed(g)
    requires forall a :: 0 <= a < |Directions| ==>
               !OnLine(g, r, c, Forward(a).0, Forward(a).1, p, 1) &&
               !OnLine(g, r, c, Backward(a).0, Backward(a).1, p, 1)
    ensures !Wins(g, r, c, p)
  {
    forall a | 0 <= a < |Directions| ensures AxisCount(g, r, c, a, p) == 1 {
      assert !OnLine(g, r, c, Forward(a).0, Forward(a).1, p, 1);
      assert !OnLine(g, r, c, Backward(a).0, Backward(a).1, p, 1);
    }
  }
}
