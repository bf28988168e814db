/**
 * Safe moves and the two "loss is imminent" shortcuts of
 * `play_iteratively` (src/ai.rs:222-236 and 253-264).
 *
 * The source gives up in two cases:
 *  - when no hand-off piece is safe after EVERY placement, it places on the
 *    first empty cell;
 *  - when every placement lets SOME remaining piece win, it hands over a
 *    random remaining piece, although the potential pick it has already
 *    drawn is safe after every placement.
 * A move needs only ONE placement and ONE piece that together leave the
 * opponent no immediate win.
 *
 * `LossExample` and `DiscardExample` are states, each with sixteen distinct
 * pieces and no won line, where such a safe move exists: in the first,
 * every move the source's strategy allows hands the opponent a win; in the
 * second, the strategy allows a move that does.
 * `GuardedStrategy` is the decision the source evidently intends: it plays
 * a safe pair whenever one exists, and `ChooseSafe` finds one.
 */
module SafeMoves {
  import opened Wrappers
  import opened Pieces
  import opened Fields
  import opened Games
  import opened Ai

  /** Putting the forced piece on `c` and handing over `p` leaves the opponent no winning placement. */
  ghost predicate SafePair(s: GameState, c: Pos, p: Piece)
    requires s.status.Move?
  {
    InBounds(c) && Cell(s.board, c).None? && p in s.remaining && !Threatens(s, c, p)
  }

  ghost predicate SafeMoveExists(s: GameState)
    requires s.status.Move?
  {
    exists c: Pos, p: Piece :: SafePair(s, c, p)
  }

  // ---------------------------------------------------------------------
  // The strategy as written misses a safe move
  // ---------------------------------------------------------------------

  /**
   * Thirteen pieces on the board; cells (0, 1), (1, 0) and (3, 2) are
   * empty. Pieces 13, 7 and 15 on the 2x2 block at (2, 1) share bit 0, as
   * do the remaining pieces 1 and 9.
   */
  const ExampleBoard: Board :=
    [ Some(Piece(6)), None,            Some(Piece(10)), Some(Piece(5)),
      None,           Some(Piece(0)),  Some(Piece(12)), Some(Piece(11)),
      Some(Piece(4)), Some(Piece(13)), Some(Piece(7)),  Some(Piece(3)),
      Some(Piece(2)), Some(Piece(15)), None,            Some(Piece(14)) ]

  /** Player two must place piece 8; pieces 1 and 9 remain. */
  const LossExample: GameState := GameState(ExampleBoard, [Piece(1), Piece(9)], Move(PlayerTwo, Piece(8)))

  lemma ExampleEmptyCells(q: Pos)
    requires InBounds(q) && Cell(ExampleBoard, q).None?
    ensures q == (0, 1) || q == (1, 0) || q == (3, 2)
  {
    assert q.0 == 0 || q.0 == 1 || q.0 == 2 || q.0 == 3;
    assert q.1 == 0 || q.1 == 1 || q.1 == 2 || q.1 == 3;
  }

  lemma ExampleNotWon()
    ensures !Wins(ExampleBoard)
  {
    NoWinningLine(ExampleBoard);
  }

  // One lemma per board keeps each evaluation of the nineteen lines small.

  lemma ForcedAt01NotWon()
    ensures !Wins(PutCell(ExampleBoard, (0, 1), Piece(8)))
  {
    NoWinningLine(PutCell(ExampleBoard, (0, 1), Piece(8)));
  }

  lemma ForcedAt10NotWon()
    ensures !Wins(PutCell(ExampleBoard, (1, 0), Piece(8)))
  {
    NoWinningLine(PutCell(ExampleBoard, (1, 0), Piece(8)));
  }

  lemma ForcedAt32NotWon()
    ensures !Wins(PutCell(ExampleBoard, (3, 2), Piece(8)))
  {
    NoWinningLine(PutCell(ExampleBoard, (3, 2), Piece(8)));
  }

  lemma CornerThen01NotWon()
    ensures !Wins(PutCell(PutCell(ExampleBoard, (3, 2), Piece(8)), (0, 1), Piece(1)))
  {
    NoWinningLine(PutCell(PutCell(ExampleBoard, (3, 2), Piece(8)), (0, 1), Piece(1)));
  }

  lemma CornerThen10NotWon()
    ensures !Wins(PutCell(PutCell(ExampleBoard, (3, 2), Piece(8)), (1, 0), Piece(1)))
  {
    NoWinningLine(PutCell(PutCell(ExampleBoard, (3, 2), Piece(8)), (1, 0), Piece(1)));
  }

  /** The forced piece 8 wins on no empty cell. */
  lemma ExampleForcedCannotWin()
    ensures !CanWinWith(ExampleBoard, Piece(8))
  {
    ForcedAt01NotWon();
    ForcedAt10NotWon();
    ForcedAt32NotWon();
    forall q: Pos | InBounds(q) && Cell(ExampleBoard, q).None?
      ensures !Wins(PutCell(ExampleBoard, q, Piece(8)))
    {
      ExampleEmptyCells(q);
    }
  }

  /** After piece 8 goes on (0, 1), either remaining piece completes the block at (2, 1). */
  lemma ExampleFirstCellThreatened(p: Piece)
    requires p == Piece(1) || p == Piece(9)
    ensures Threatens(LossExample, (0, 1), p)
  {
    var b := PutCell(ExampleBoard, (0, 1), Piece(8));
    assert Cell(b, (3, 2)).None?;
    assert LineWins(PutCell(b, (3, 2), p), Square(2, 1));
  }

  /** After piece 8 goes on (3, 2), piece 1 wins on neither remaining empty cell. */
  lemma ExampleSafeCorner()
    ensures SafePair(LossExample, (3, 2), Piece(1))
  {
    var b := PutCell(ExampleBoard, (3, 2), Piece(8));
    CornerThen01NotWon();
    CornerThen10NotWon();
    forall q: Pos | InBounds(q) && Cell(b, q).None?
      ensures !Wins(PutCell(b, q, Piece(1)))
    {
      CellAfterPut(ExampleBoard, (3, 2), Piece(8), q);
      ExampleEmptyCells(q);
    }
  }

  /** A remaining piece that threatens after one placement is avoided. */
  lemma AvoidedByWitness(s: GameState, c: Pos, p: Piece)
    requires s.status.Move? && InBounds(c) && Cell(s.board, c).None?
    requires p in s.remaining && Threatens(s, c, p)
    ensures p in Avoided(s, true)
  {
  }

  /** The example satisfies every premise of `ShapeForcesShortcut`. */
  lemma ExampleHasShape()
    ensures LossExample.status.Move? && LossExample.remaining == [Piece(1), Piece(9)]
    ensures Cell(LossExample.board, (0, 0)).Some? && Cell(LossExample.board, (0, 1)).None?
    ensures Piece(1) in Avoided(LossExample, true) && Piece(9) in Avoided(LossExample, true)
    ensures !CanWinWith(LossExample.board, LossExample.status.nextPiece)
  {
    assert Cell(LossExample.board, (0, 0)).Some? && Cell(LossExample.board, (0, 1)).None?;
    assert Piece(1) in Avoided(LossExample, true) && Piece(9) in Avoided(LossExample, true) by {
      ExampleFirstCellThreatened(Piece(1));
      ExampleFirstCellThreatened(Piece(9));
      AvoidedByWitness(LossExample, (0, 1), Piece(1));
      AvoidedByWitness(LossExample, (0, 1), Piece(9));
    }
    ExampleForcedCannotWin();
  }

  /** With nothing to win and every piece avoided, the strategy is the loss shortcut. */
  lemma InLossBranch(s: GameState, pos: Pos, handoff: Piece)
    requires s.status.Move? && !CanWinWith(s.board, s.status.nextPiece)
    requires (set p | p in s.remaining) <= Avoided(s, true)
    ensures FollowsStrategy(s, true, pos, handoff) <==> LossChoice(s, pos, handoff)
  {
  }

  lemma LaterThanSecondCell(pos: Pos)
    requires InBounds(pos) && pos != (0, 0) && pos != (0, 1)
    ensures Index((0, 1)) < Index(pos)
  {
  }

  lemma FirstEmptyOfShape(b: Board, pos: Pos)
    requires Cell(b, (0, 0)).Some? && Cell(b, (0, 1)).None?
    ensures FirstEmpty(b, pos) <==> pos == (0, 1)
  {
    if FirstEmpty(b, pos) && pos != (0, 1) {
      LaterThanSecondCell(pos);
    }
  }

  lemma BothAvoided(s: GameState)
    requires s.status.Move? && s.remaining == [Piece(1), Piece(9)]
    requires Piece(1) in Avoided(s, true) && Piece(9) in Avoided(s, true)
    ensures (set p | p in s.remaining) <= Avoided(s, true)
  {
  }

  /**
   * On a board shaped like the example, with both remaining pieces avoided,
   * the strategy allows exactly the moves onto (0, 1) with either piece.
   */
  lemma ShapeForcesShortcut(s: GameState)
    requires s.status.Move? && s.remaining == [Piece(1), Piece(9)]
    requires !CanWinWith(s.board, s.status.nextPiece)
    requires Cell(s.board, (0, 0)).Some? && Cell(s.board, (0, 1)).None?
    requires Piece(1) in Avoided(s, true) && Piece(9) in Avoided(s, true)
    ensures forall pos: Pos, handoff: Piece :: FollowsStrategy(s, true, pos, handoff) <==>
      pos == (0, 1) && (handoff == Piece(1) || handoff == Piece(9))
  {
    BothAvoided(s);
    forall pos: Pos, handoff: Piece
      ensures FollowsStrategy(s, true, pos, handoff) <==> pos == (0, 1) && (handoff == Piece(1) || handoff == Piece(9))
    {
      InLossBranch(s, pos, handoff);
      FirstEmptyOfShape(s.board, pos);
    }
  }

  /**
   * On `LossExample`, with reasoning on, the strategy as written takes the
   * imminent-loss shortcut: it must place on (0, 1) and hand over piece 1 or
   * piece 9. After that placement either piece lets the opponent win,
   * although placing on (3, 2) and handing over piece 1 is safe.
   */
  lemma ShortcutMissesSafeMove()
    ensures LossExample.status.Move? && !Wins(ExampleBoard)
    ensures SafeMoveExists(LossExample)
    ensures FollowsStrategy(LossExample, true, (0, 1), Piece(1))
    ensures forall pos: Pos, handoff: Piece :: FollowsStrategy(LossExample, true, pos, handoff) ==>
      pos == (0, 1) && (handoff == Piece(1) || handoff == Piece(9))
    ensures Threatens(LossExample, (0, 1), Piece(1)) && Threatens(LossExample, (0, 1), Piece(9))
  {
    ExampleNotWon();
    ExampleFirstCellThreatened(Piece(1));
    ExampleFirstCellThreatened(Piece(9));
    ExampleHasShape();
    ShapeForcesShortcut(LossExample);
    ExampleSafeCorner();
  }

  // ---------------------------------------------------------------------
  // The second shortcut: every placement discarded
  // ---------------------------------------------------------------------

  /**
   * Once the look-ahead has run with reasoning on, the filtered branch holds
   * a potential pick `p` that threatens after NO placement. So when every
   * empty cell is discarded, `p` on any empty cell is still a safe pair.
   */
  lemma AnywhereBranchHasSafeMove(s: GameState, p: Piece, c: Pos)
    requires s.status.Move? && p in s.remaining && p !in Avoided(s, true)
    requires InBounds(c) && Cell(s.board, c).None?
    ensures SafePair(s, c, p) && SafeMoveExists(s)
  {
    assert SafePair(s, c, p);
  }

  /**
   * In that branch the strategy as written allows ANY remaining piece on any
   * empty cell, threatening ones included.
   */
  lemma AnywhereAllowsAnyPiece(s: GameState, p: Piece, c: Pos, q: Piece)
    requires s.status.Move? && !CanWinWith(s.board, s.status.nextPiece)
    requires p in s.remaining && p !in Avoided(s, true)
    requires forall e: Pos :: InBounds(e) && Cell(s.board, e).None? ==> Discarded(s, true, e)
    requires InBounds(c) && Cell(s.board, c).None? && q in s.remaining
    ensures FollowsStrategy(s, true, c, q)
  {
    assert !((set r | r in s.remaining) <= Avoided(s, true)) by {
      assert p in (set r | r in s.remaining);
    }
  }

  /**
   * Thirteen pieces on the board; cells (1, 1), (1, 2) and (3, 2) are
   * empty. Piece 15 completes the 2x2 block at (0, 0) on (1, 1) and the
   * block at (1, 2) on (1, 2).
   */
  const DiscardBoard: Board :=
    [ Some(Piece(13)), Some(Piece(7)),  Some(Piece(10)), Some(Piece(2)),
      Some(Piece(9)),  None,            None,            Some(Piece(5)),
      Some(Piece(8)),  Some(Piece(14)), Some(Piece(3)),  Some(Piece(11)),
      Some(Piece(6)),  Some(Piece(1)),  None,            Some(Piece(12)) ]

  /** Player two must place piece 0; pieces 4 and 15 remain. */
  const DiscardExample: GameState := GameState(DiscardBoard, [Piece(4), Piece(15)], Move(PlayerTwo, Piece(0)))

  lemma DiscardEmptyCells(q: Pos)
    requires InBounds(q) && Cell(DiscardBoard, q).None?
    ensures q == (1, 1) || q == (1, 2) || q == (3, 2)
  {
    assert q.0 == 0 || q.0 == 1 || q.0 == 2 || q.0 == 3;
    assert q.1 == 0 || q.1 == 1 || q.1 == 2 || q.1 == 3;
  }

  /** The empty cells of `DiscardBoard` with piece 0 on `x`: the other two. */
  lemma DiscardEmptyAfter(x: Pos, q: Pos)
    requires x == (1, 1) || x == (1, 2) || x == (3, 2)
    requires InBounds(q) && Cell(PutCell(DiscardBoard, x, Piece(0)), q).None?
    ensures q != x && (q == (1, 1) || q == (1, 2) || q == (3, 2))
  {
    CellAfterPut(DiscardBoard, x, Piece(0), q);
    DiscardEmptyCells(q);
  }

  lemma DiscardNotWon()
    ensures !Wins(DiscardBoard)
  {
    NoWinningLine(DiscardBoard);
  }

  lemma ZeroAt11NotWon()
    ensures !Wins(PutCell(DiscardBoard, (1, 1), Piece(0)))
  {
    NoWinningLine(PutCell(DiscardBoard, (1, 1), Piece(0)));
  }

  lemma ZeroAt12NotWon()
    ensures !Wins(PutCell(DiscardBoard, (1, 2), Piece(0)))
  {
    NoWinningLine(PutCell(DiscardBoard, (1, 2), Piece(0)));
  }

  lemma ZeroAt32NotWon()
    ensures !Wins(PutCell(DiscardBoard, (3, 2), Piece(0)))
  {
    NoWinningLine(PutCell(DiscardBoard, (3, 2), Piece(0)));
  }

  lemma FourAfter11At12NotWon()
    ensures !Wins(PutCell(PutCell(DiscardBoard, (1, 1), Piece(0)), (1, 2), Piece(4)))
  {
    NoWinningLine(PutCell(PutCell(DiscardBoard, (1, 1), Piece(0)), (1, 2), Piece(4)));
  }

  lemma FourAfter11At32NotWon()
    ensures !Wins(PutCell(PutCell(DiscardBoard, (1, 1), Piece(0)), (3, 2), Piece(4)))
  {
    NoWinningLine(PutCell(PutCell(DiscardBoard, (1, 1), Piece(0)), (3, 2), Piece(4)));
  }

  lemma FourAfter12At11NotWon()
    ensures !Wins(PutCell(PutCell(DiscardBoard, (1, 2), Piece(0)), (1, 1), Piece(4)))
  {
    NoWinningLine(PutCell(PutCell(DiscardBoard, (1, 2), Piece(0)), (1, 1), Piece(4)));
  }

  lemma FourAfter12At32NotWon()
    ensures !Wins(PutCell(PutCell(DiscardBoard, (1, 2), Piece(0)), (3, 2), Piece(4)))
  {
    NoWinningLine(PutCell(PutCell(DiscardBoard, (1, 2), Piece(0)), (3, 2), Piece(4)));
  }

  lemma FourAfter32At11NotWon()
    ensures !Wins(PutCell(PutCell(DiscardBoard, (3, 2), Piece(0)), (1, 1), Piece(4)))
  {
    NoWinningLine(PutCell(PutCell(DiscardBoard, (3, 2), Piece(0)), (1, 1), Piece(4)));
  }

  lemma FourAfter32At12NotWon()
    ensures !Wins(PutCell(PutCell(DiscardBoard, (3, 2), Piece(0)), (1, 2), Piece(4)))
  {
    NoWinningLine(PutCell(PutCell(DiscardBoard, (3, 2), Piece(0)), (1, 2), Piece(4)));
  }

  /** The forced piece 0 wins on no empty cell. */
  lemma DiscardForcedCannotWin()
    ensures !CanWinWith(DiscardBoard, Piece(0))
  {
    ZeroAt11NotWon();
    ZeroAt12NotWon();
    ZeroAt32NotWon();
    forall q: Pos | InBounds(q) && Cell(DiscardBoard, q).None?
      ensures !Wins(PutCell(DiscardBoard, q, Piece(0)))
    {
      DiscardEmptyCells(q);
    }
  }

  /** Wherever piece 0 goes, piece 15 then completes a 2x2 block: every cell is discarded. */
  lemma DiscardEveryCellThreatened(x: Pos)
    requires InBounds(x) && Cell(DiscardBoard, x).None?
    ensures Threatens(DiscardExample, x, Piece(15)) && Discarded(DiscardExample, true, x)
  {
    DiscardEmptyCells(x);
    var b := PutCell(DiscardBoard, x, Piece(0));
    if x == (1, 1) {
      assert Cell(b, (1, 2)).None?;
      assert LineWins(PutCell(b, (1, 2), Piece(15)), Square(1, 2));
    } else {
      assert Cell(b, (1, 1)).None?;
      assert LineWins(PutCell(b, (1, 1), Piece(15)), Square(0, 0));
    }
    assert Piece(15) in DiscardExample.remaining;
  }

  /** Wherever piece 0 goes, piece 4 then wins on neither other empty cell. */
  lemma DiscardFourNeverThreatens(x: Pos)
    requires InBounds(x) && Cell(DiscardBoard, x).None?
    ensures !Threatens(DiscardExample, x, Piece(4))
  {
    DiscardEmptyCells(x);
    var b := PutCell(DiscardBoard, x, Piece(0));
    FourAfter11At12NotWon();
    FourAfter11At32NotWon();
    FourAfter12At11NotWon();
    FourAfter12At32NotWon();
    FourAfter32At11NotWon();
    FourAfter32At12NotWon();
    forall q: Pos | InBounds(q) && Cell(b, q).None?
      ensures !Wins(PutCell(b, q, Piece(4)))
    {
      DiscardEmptyAfter(x, q);
    }
  }

  /** Piece 4 is a potential pick: it is not avoided. */
  lemma DiscardFourNotAvoided()
    ensures Piece(4) !in Avoided(DiscardExample, true)
  {
    forall c: Pos | InBounds(c) && Cell(DiscardBoard, c).None?
      ensures !Threatens(DiscardExample, c, Piece(4))
    {
      DiscardFourNeverThreatens(c);
    }
  }

  /**
   * On `DiscardExample`, with reasoning on, no placement is kept while piece 4
   * is a potential pick, so the source falls through to a random remaining
   * piece on a random empty cell. The strategy as written allows piece 15 on
   * (1, 1), after which the opponent wins, although piece 4 on any empty cell
   * is safe.
   */
  lemma AnywhereMissesSafeMove()
    ensures DiscardExample.status.Move? && !Wins(DiscardBoard)
    ensures !CanWinWith(DiscardBoard, Piece(0))
    ensures Piece(4) !in Avoided(DiscardExample, true)
    ensures forall c: Pos :: InBounds(c) && Cell(DiscardBoard, c).None? ==> Discarded(DiscardExample, true, c)
    ensures SafePair(DiscardExample, (1, 1), Piece(4))
    ensures FollowsStrategy(DiscardExample, true, (1, 1), Piece(15))
    ensures Threatens(DiscardExample, (1, 1), Piece(15))
    ensures !GuardedStrategy(DiscardExample, (1, 1), Piece(15)) && GuardedStrategy(DiscardExample, (1, 1), Piece(4))
  {
    DiscardNotWon();
    DiscardForcedCannotWin();
    DiscardFourNotAvoided();
    forall c: Pos | InBounds(c) && Cell(DiscardBoard, c).None?
      ensures Discarded(DiscardExample, true, c)
    {
      DiscardEveryCellThreatened(c);
    }
    DiscardEveryCellThreatened((1, 1));
    AnywhereBranchHasSafeMove(DiscardExample, Piece(4), (1, 1));
    AnywhereAllowsAnyPiece(DiscardExample, Piece(4), (1, 1), Piece(15));
  }

  // ---------------------------------------------------------------------
  // The evidently intended strategy
  // ---------------------------------------------------------------------

  /**
   * Win when possible; otherwise play a safe pair when one exists; only when
   * none exists fall back to the shortcut.
   */
  ghost predicate GuardedStrategy(s: GameState, pos: Pos, handoff: Piece)
    requires s.status.Move?
  {
    if CanWinWith(s.board, s.status.nextPiece) then WinningChoice(s, pos, handoff)
    else if SafeMoveExists(s) then SafePair(s, pos, handoff)
    else LossChoice(s, pos, handoff)
  }

  /** Whenever a safe move exists, the guarded strategy never lets the opponent win at once. */
  lemma GuardedAvoidsImmediateLoss(s: GameState, pos: Pos, handoff: Piece, s': GameState)
    requires LegalMove(s, pos, handoff, s') && GuardedStrategy(s, pos, handoff)
    requires SafeMoveExists(s)
    ensures s'.status.Won? || (s'.status.Move? && !CanWinWith(s'.board, s'.status.nextPiece))
  {
    var c: Pos, p: Piece :| SafePair(s, c, p);
    assert p in s.remaining;
    if CanWinWith(s.board, s.status.nextPiece) {
      assert Wins(s'.board);
    }
  }

  /**
   * When no safe move exists and reasoning is on, the guarded strategy and
   * the strategy as written allow exactly the same moves: the shortcut is
   * right in that case.
   */
  lemma GuardedAgreesWithoutSafeMove(s: GameState, pos: Pos, handoff: Piece)
    requires Inv(s) && s.status.Move? && !SafeMoveExists(s)
    ensures GuardedStrategy(s, pos, handoff) <==> FollowsStrategy(s, true, pos, handoff)
  {
    if !CanWinWith(s.board, s.status.nextPiece) {
      MoveHasEmptyCell(s);
      EmptyPositionsSpec(s.board);
      var c := EmptyPositions(s.board)[0];
      assert c in EmptyPositions(s.board);
      forall p | p in s.remaining ensures p in Avoided(s, true) {
        assert !SafePair(s, c, p);
      }
    }
  }

  /** A remaining piece outside the threats of an empty cell makes a safe pair with it. */
  lemma SafeOutsideThreats(s: GameState, c: Pos, p: Piece)
    requires s.status.Move? && InBounds(c) && Cell(s.board, c).None?
    requires p in s.remaining && p !in ThreatSet(s, true, c)
    ensures SafePair(s, c, p)
  {
  }

  /** Every remaining piece threatens after each of the first `n` empty cells. */
  ghost predicate AllThreatenedBelow(s: GameState, n: nat)
    requires s.status.Move? && n <= |EmptyPositions(s.board)|
  {
    n == 0 || (AllThreatenedBelow(s, n - 1) &&
               forall p :: p in s.remaining ==> p in ThreatSet(s, true, EmptyPositions(s.board)[n - 1]))
  }

  lemma {:induction false} AllThreatenedAt(s: GameState, n: nat, j: nat, p: Piece)
    requires s.status.Move? && n <= |EmptyPositions(s.board)| && AllThreatenedBelow(s, n)
    requires j < n && p in s.remaining
    ensures p in ThreatSet(s, true, EmptyPositions(s.board)[j])
    decreases n
  {
    if j < n - 1 {
      AllThreatenedAt(s, n - 1, j, p);
    }
  }

  /** When every remaining piece threatens after every empty cell, no safe move exists. */
  lemma NoSafeWhenAllThreatened(s: GameState)
    requires s.status.Move? && AllThreatenedBelow(s, |EmptyPositions(s.board)|)
    ensures !SafeMoveExists(s)
  {
    if SafeMoveExists(s) {
      var c: Pos, p: Piece :| SafePair(s, c, p);
      var e := EmptyPositions(s.board);
      EmptyPositionsSpec(s.board);
      assert c in e;
      var j :| 0 <= j < |e| && e[j] == c;
      AllThreatenedAt(s, |e|, j, p);
    }
  }

  /** The index of the first element of `xs` outside `excluded`, or `|xs|` when there is none. */
  method FirstOutside<T>(xs: seq<T>, excluded: set<T>) returns (k: nat)
    ensures k <= |xs|
    ensures k < |xs| ==> xs[k] !in excluded
    ensures forall m :: 0 <= m < k ==> xs[m] in excluded
    ensures k == |xs| ==> forall x :: x in xs ==> x in excluded
  {
    k := 0;
    while k < |xs| && xs[k] in excluded
      invariant k <= |xs|
      invariant forall m :: 0 <= m < k ==> xs[m] in excluded
    {
      k := k + 1;
    }
  }

  /**
   * One candidate state of the corrected selection: the first remaining
   * piece that does not threaten after the forced piece is put on `c`.
   */
  method SafePieceAt(state: Game, ghost s: GameState, ghost c: Pos) returns (r: Option<Piece>)
    requires s.status.Move? && InBounds(c) && Cell(s.board, c).None? && state.Valid()
    requires state.State().remaining == s.remaining && state.State().board == PutCell(s.board, c, s.status.nextPiece)
    ensures r.Some? ==> SafePair(s, c, r.value)
    ensures r.None? ==> forall p :: p in s.remaining ==> p in ThreatSet(s, true, c)
  {
    var unsafe := ThreatsAt(state, true, s, c);
    var rem := state.remaining;
    var k := FirstOutside(rem, unsafe);
    if k < |rem| {
      SafeOutsideThreats(s, c, rem[k]);
      return Some(rem[k]);
    }
    return None;
  }

  /**
   * The corrected selection: the first safe pair in the order the look-ahead
   * visits placements and remaining pieces, or None when there is none.
   */
  method ChooseSafe(states: seq<(Game, Pos)>, ghost s: GameState) returns (r: Option<(Pos, Piece)>)
    requires s.status.Move? && |states| == |EmptyPositions(s.board)|
    requires forall j :: 0 <= j < |states| ==>
      states[j].1 == EmptyPositions(s.board)[j] && InBounds(states[j].1) && states[j].0.Valid()
      && states[j].0.State().remaining == s.remaining
      && states[j].0.State().board == PutCell(s.board, states[j].1, s.status.nextPiece)
    ensures r.Some? ==> SafePair(s, r.value.0, r.value.1)
    ensures r.None? ==> !SafeMoveExists(s)
  {
    ghost var e := EmptyPositions(s.board);
    EmptyPositionsSpec(s.board);
    for idx := 0 to |states|
      invariant AllThreatenedBelow(s, idx)
    {
      assert e[idx] in e;
      var safe := SafePieceAt(states[idx].0, s, e[idx]);
      if safe.Some? {
        return Some((states[idx].1, safe.value));
      }
    }
    NoSafeWhenAllThreatened(s);
    return None;
  }
}
