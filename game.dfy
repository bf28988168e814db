/**
 * The Quarto game state machine (src/game.rs).
 *
 * A game moves through `InitialMove` (the starting player only hands over a
 * piece), then `Move` rounds (place the forced piece, hand over the next
 * one) until it is `Won` or a `Draw`. `GameState` is the state as a value and
 * `InitialMoveSpec` / `DoMoveSpec` describe the two transitions; the `Game`
 * class updates its field, its list of remaining pieces and its status in
 * place and is proved against them.
 */
module Games {
  import opened Wrappers
  import opened Pieces
  import opened Fields

  datatype Player = PlayerOne | PlayerTwo {
    /** `Player::next`: the other player. */
    function Next(): (r: Player)
      ensures r != this
    {
      match this
      case PlayerOne => PlayerTwo
      case PlayerTwo => PlayerOne
    }
  }

  /** `next` is an involution without a fixed point. */
  lemma NextInvolution(p: Player)
    ensures p.Next() != p && p.Next().Next() == p
  {
  }

  // ---------------------------------------------------------------------
  // One-based numbering for the user interface
  // ---------------------------------------------------------------------

  const UsizeModulus: int := 0x1_0000_0000_0000_0000

  /** The values of the source's 64-bit `usize`. */
  type usize = x: int | 0 <= x < UsizeModulus

  datatype ArrayBase = Zero | One {
    /** `based`: the displayed number of a zero-based index, wrapping at 2^64. */
    function Based(v: usize): (r: usize)
      ensures r == v <==> this == Zero
    {
      if this == Zero then v else (v + 1) % UsizeModulus
    }

    /** `unbased`: the zero-based index of a displayed number, wrapping at 0. */
    function Unbased(v: usize): (r: usize)
      ensures r == v <==> this == Zero
      ensures Based(r) == v
    {
      if this == Zero then v else (v - 1) % UsizeModulus
    }
  }

  /** `unbased` undoes `based` for every value, including the wrap at 2^64 - 1. */
  lemma UnbasedBased(base: ArrayBase, v: usize)
    ensures base.Unbased(base.Based(v)) == v
  {
  }

  // ---------------------------------------------------------------------
  // Status and its queries
  // ---------------------------------------------------------------------

  datatype Status =
    | InitialMove(startingPlayer: Player)
    | Move(nextPlayer: Player, nextPiece: Piece)
    | Won(winner: Player)
    | Draw(lastPlayer: Player)
  {
    /** `player`: the one player every status names, whichever its variant. */
    function Player(): (p: Player)
      ensures this == InitialMove(p) || this == Won(p) || this == Draw(p) || (Move? && this == Move(p, nextPiece))
    {
      match this
      case InitialMove(p) => p
      case Move(p, _) => p
      case Won(p) => p
      case Draw(p) => p
    }

    /** `winner`: the winner of a won game, which is the player the status names. */
    function Winner(): (r: Option<Player>)
      ensures r.Some? <==> this.Won?
      ensures r.Some? ==> r.value == Player()
    {
      if Won? then Some(winner) else None
    }

    /** `running`: a game runs until it has a winner or ended in a draw. */
    function Running(): (r: bool)
      ensures r <==> Winner().None? && !this.Draw?
    {
      match this
      case InitialMove(_) => true
      case Move(_, _) => true
      case Won(_) => false
      case Draw(_) => false
    }

    /** `is_initial_move`. */
    function IsInitialMove(): (r: bool)
      ensures r ==> Running()
    {
      this.InitialMove?
    }

    /** `next_piece`: the forced piece exists exactly in the running rounds after the first. */
    function NextPiece(): (r: Option<Piece>)
      ensures r.Some? <==> Running() && !IsInitialMove()
    {
      if Move? then Some(nextPiece) else None
    }
  }

  /**
   * What `player` names, read through the other queries: while a piece is
   * forced, the player who must place it; once the game is over, the player
   * who won or made the last move; before the first hand-off, the starter.
   */
  lemma PlayerByQuery(st: Status)
    ensures st.NextPiece().Some? ==> st == Move(st.Player(), st.NextPiece().value)
    ensures !st.Running() ==> st == Won(st.Player()) || st == Draw(st.Player())
    ensures st.IsInitialMove() ==> st == InitialMove(st.Player())
  {
  }

  /** A game as a value: the board, the remaining pieces in order, the status. */
  datatype GameState = GameState(board: Board, remaining: seq<Piece>, status: Status)
  {
    /**
     * `round`: `(16 - |remaining|) / 2 + 1`. The subtraction is on `usize`,
     * so the source demands at most 16 remaining pieces; the result then
     * always fits the `u8` it is converted to.
     */
    function Round(): (r: nat)
      requires |remaining| <= Size * Size
      ensures 1 <= r <= 9
    {
      (Size * Size - |remaining|) / 2 + 1
    }
  }

  // ---------------------------------------------------------------------
  // Sequence helpers for `Vec::iter().position` and `Vec::remove`
  // ---------------------------------------------------------------------

  /** The index of the first occurrence of `x`, if any. */
  function IndexOf<T(==)>(s: seq<T>, x: T): (r: Option<nat>)
    ensures r.None? <==> x !in s
    ensures r.Some? ==> r.value < |s| && s[r.value] == x && x !in s[..r.value]
  {
    if |s| == 0 then None
    else if s[0] == x then Some(0)
    else
      match IndexOf(s[1..], x)
      case None => None
      case Some(i) =>
        assert s[1..][..i] == s[1..i + 1];
        Some(i + 1)
  }

  /** `Vec::remove`: drops element `i`, keeping the order of the others. */
  function RemoveAt<T>(s: seq<T>, i: nat): (r: seq<T>)
    requires i < |s|
    ensures |r| == |s| - 1
    ensures forall j :: 0 <= j < |r| ==> r[j] == if j < i then s[j] else s[j + 1]
    ensures multiset(r) == multiset(s) - multiset{s[i]}
  {
    assert s == s[..i] + [s[i]] + s[i + 1..];
    s[..i] + s[i + 1..]
  }

  /** `iter().position(|&y| y == x)`: a linear scan for the first occurrence. */
  method Position<T(==)>(s: seq<T>, x: T) returns (r: Option<nat>)
    ensures r == IndexOf(s, x)
  {
    var i := 0;
    while i < |s|
      invariant 0 <= i <= |s|
      invariant x !in s[..i]
    {
      if s[i] == x {
        return Some(i);
      }
      assert s[..i + 1] == s[..i] + [s[i]];
      i := i + 1;
    }
    assert s[..i] == s;
    return None;
  }

  // ---------------------------------------------------------------------
  // The transitions as functions of the state
  // ---------------------------------------------------------------------

  /** `Piece::new_with_props(i)`, the piece with byte `i`. */
  function CanonicalPiece(i: nat): (p: Piece)
    requires i < Size * Size
    ensures p.properties as int == i
  {
    Piece.NewWithProps(i as bv8)
  }

  /** The sixteen pieces `new` puts into `remaining_pieces`, bytes 0 to 15 in order. */
  function CanonicalPieces(): (ps: seq<Piece>)
    ensures |ps| == Size * Size
    ensures forall i :: 0 <= i < |ps| ==> ps[i].properties as int == i
  {
    seq(Size * Size, i requires 0 <= i < Size * Size => CanonicalPiece(i))
  }

  /** The state `Game::new` builds. */
  function NewGame(starting: Player): GameState
  {
    GameState(EmptyBoard(), CanonicalPieces(), InitialMove(starting))
  }

  /**
   * `initial_move`: only in `InitialMove`, and only with a remaining piece,
   * which is handed to the other player; any failure changes nothing.
   */
  function InitialMoveSpec(s: GameState, p: Piece): (r: (bool, GameState))
    ensures r.0 <==> s.status.InitialMove? && p in s.remaining
    ensures !r.0 ==> r.1 == s
    ensures r.0 ==> r.1.board == s.board
    ensures r.0 ==> r.1.status == Move(s.status.startingPlayer.Next(), p)
    ensures r.0 ==> exists i :: 0 <= i < |s.remaining| && s.remaining[i] == p && p !in s.remaining[..i]
                                 && r.1.remaining == s.remaining[..i] + s.remaining[i + 1..]
  {
    if !s.status.InitialMove? then (false, s)
    else
      match IndexOf(s.remaining, p)
      case None => (false, s)
      case Some(i) =>
        var rest := RemoveAt(s.remaining, i);
        assert rest == s.remaining[..i] + s.remaining[i + 1..];
        (true, GameState(s.board, rest, Move(s.status.startingPlayer.Next(), p)))
  }

  /**
   * `do_move`: outside `Move`, or on an occupied cell, it fails and changes
   * nothing. Otherwise it places the FORCED piece. With no pieces left the
   * game is a draw (no win test). A hand-off piece that is not remaining fails
   * with the board already changed. Otherwise the first occurrence of the
   * hand-off piece leaves the remaining list, the others keeping their order,
   * and the mover has won or the opponent moves next.
   */
  function DoMoveSpec(s: GameState, pos: Pos, np: Piece): (r: (bool, GameState))
    requires InBounds(pos)
    ensures !s.status.Move? || Cell(s.board, pos).Some? ==> r == (false, s)
    ensures s.status.Move? && Cell(s.board, pos).None? ==>
      r.1.board == PutCell(s.board, pos, s.status.nextPiece)
      && Occupied(r.1.board) == Occupied(s.board) + 1
    ensures s.status.Move? && Cell(s.board, pos).None? && (s.remaining == [] || np in s.remaining) ==> r.0
    ensures s.status.Move? && Cell(s.board, pos).None? && s.remaining == [] ==>
      r.1 == GameState(PutCell(s.board, pos, s.status.nextPiece), [], Draw(s.status.nextPlayer))
    ensures !r.0 && r.1 != s ==>
      s.status.Move? && |s.remaining| > 0 && np !in s.remaining
      && r.1.remaining == s.remaining && r.1.status == s.status
    ensures s.status.Move? && Cell(s.board, pos).None? && s.remaining != [] && np !in s.remaining ==>
      r == (false, GameState(PutCell(s.board, pos, s.status.nextPiece), s.remaining, s.status))
    ensures r.0 && s.remaining != [] ==>
      IndexOf(s.remaining, np).Some? && r.1.remaining == RemoveAt(s.remaining, IndexOf(s.remaining, np).value)
    ensures r.0 ==> s.status.Move? && multiset(r.1.remaining) == multiset(s.remaining) - multiset{np}
    ensures r.0 && r.1.status.Draw? ==> s.remaining == [] && r.1.status.lastPlayer == s.status.nextPlayer
    ensures r.0 && r.1.status.Won? ==> Wins(r.1.board) && r.1.status.winner == s.status.nextPlayer
    ensures r.0 && r.1.status.Move? ==>
      !Wins(r.1.board) && r.1.status == Move(s.status.nextPlayer.Next(), np)
    ensures r.0 ==> !r.1.status.InitialMove?
  {
    if !s.status.Move? then (false, s)
    else if Cell(s.board, pos).Some? then (false, s)
    else
      var player := s.status.nextPlayer;
      var board := PutCell(s.board, pos, s.status.nextPiece);
      PlacedAfterPut(s.board, pos, s.status.nextPiece);
      if |s.remaining| == 0 then (true, GameState(board, s.remaining, Draw(player)))
      else
        match IndexOf(s.remaining, np)
        case None => (false, GameState(board, s.remaining, s.status))
        case Some(i) =>
          var rest := RemoveAt(s.remaining, i);
          (true, GameState(board, rest, if Wins(board) then Won(player) else Move(player.Next(), np)))
  }

  /**
   * The test-only `unmove`: clears `pos`, appends the piece found there to the
   * remaining pieces and makes it the forced piece again (or, with all
   * sixteen pieces back, returns to `InitialMove`).
   */
  function UnmoveSpec(s: GameState, pos: Pos): (r: GameState)
    requires InBounds(pos) && !s.status.InitialMove? && Cell(s.board, pos).Some?
    ensures r.board == s.board[Index(pos) := None]
    ensures r.remaining == s.remaining + [Cell(s.board, pos).value]
    ensures |r.remaining| == Size * Size ==> r.status == InitialMove(s.status.Player())
    ensures |r.remaining| != Size * Size ==>
      r.status == Move(s.status.Player().Next(), Cell(s.board, pos).value)
  {
    var nextPlayer := s.status.Player();
    var last := Cell(s.board, pos).value;
    var rest := s.remaining + [last];
    GameState(s.board[Index(pos) := None], rest,
      if |rest| == Size * Size then InitialMove(nextPlayer) else Move(nextPlayer.Next(), last))
  }

  /**
   * The last placement ends the game in a draw even when it completes a
   * line: with no pieces left `do_move` never tests for a win.
   */
  lemma DrawWithoutWinCheck(s: GameState, pos: Pos, np: Piece)
    requires InBounds(pos) && s.status.Move? && Cell(s.board, pos).None? && s.remaining == []
    requires Wins(PutCell(s.board, pos, s.status.nextPiece))
    ensures DoMoveSpec(s, pos, np).0
    ensures DoMoveSpec(s, pos, np).1.status == Draw(s.status.nextPlayer)
    ensures Wins(DoMoveSpec(s, pos, np).1.board)
  {
  }

  /** `unmove` after a successful `do_move` at the same position restores the board. */
  lemma UnmoveRestoresBoard(s: GameState, pos: Pos, np: Piece)
    requires InBounds(pos) && DoMoveSpec(s, pos, np).0
    ensures UnmoveSpec(DoMoveSpec(s, pos, np).1, pos).board == s.board
  {
    var b := s.board;
    assert b[Index(pos) := Some(s.status.nextPiece)][Index(pos) := None] == b;
  }

  // ---------------------------------------------------------------------
  // The reachable-state invariant
  // ---------------------------------------------------------------------

  /** Every piece of the game: remaining, on the board, and the forced one. */
  function Pool(s: GameState): multiset<Piece>
  {
    multiset(s.remaining) + multiset(Placed(s.board))
      + (if s.status.Move? then multiset{s.status.nextPiece} else multiset{})
  }

  ghost predicate NoDuplicates(m: multiset<Piece>)
  {
    forall p :: m[p] <= 1
  }

  /**
   * Remaining, placed and forced pieces are pairwise distinct and at most
   * sixteen; while the game runs they are exactly sixteen
   * (|remaining| + occupied + (1 in `Move`) = 16), and nothing is placed
   * before the first hand-off.
   */
  ghost predicate Inv(s: GameState)
  {
    && NoDuplicates(Pool(s))
    && |Pool(s)| <= Size * Size
    && (s.status.Running() ==> |Pool(s)| == Size * Size)
    && (s.status.InitialMove? ==> Occupied(s.board) == 0)
  }

  lemma {:induction false} DistinctSeqNoDuplicates(ps: seq<Piece>)
    requires forall i, j :: 0 <= i < j < |ps| ==> ps[i] != ps[j]
    ensures NoDuplicates(multiset(ps))
  {
    if |ps| > 0 {
      var init := ps[..|ps| - 1];
      DistinctSeqNoDuplicates(init);
      assert ps == init + [ps[|ps| - 1]];
      assert ps[|ps| - 1] !in init;
    }
  }

  lemma {:induction false} PlacedBelowEmpty(n: nat)
    requires n <= Size * Size
    ensures PlacedBelow(EmptyBoard(), n) == []
  {
    if n > 0 {
      PlacedBelowEmpty(n - 1);
    }
  }

  /** `Game::new` starts in a state satisfying the invariant. */
  lemma NewGameInv(starting: Player)
    ensures Inv(NewGame(starting))
    ensures NewGame(starting).remaining == CanonicalPieces() && Occupied(NewGame(starting).board) == 0
  {
    var ps := CanonicalPieces();
    forall i, j | 0 <= i < j < |ps| ensures ps[i] != ps[j] {
      assert ps[i].properties as int != ps[j].properties as int;
    }
    DistinctSeqNoDuplicates(ps);
    PlacedBelowEmpty(Size * Size);
  }

  lemma SubMultisetNoDuplicates(a: multiset<Piece>, b: multiset<Piece>)
    requires a <= b && NoDuplicates(b)
    ensures NoDuplicates(a)
  {
    forall p ensures a[p] <= 1 {
      assert a[p] <= b[p];
    }
  }

  /** A successful `initial_move` keeps every piece, and so the invariant. */
  lemma InitialMovePreservesInv(s: GameState, p: Piece)
    requires Inv(s) && InitialMoveSpec(s, p).0
    ensures Pool(InitialMoveSpec(s, p).1) == Pool(s)
    ensures Inv(InitialMoveSpec(s, p).1)
  {
    var i := IndexOf(s.remaining, p).value;
    var s' := InitialMoveSpec(s, p).1;
    assert s'.remaining == RemoveAt(s.remaining, i);
    assert multiset(s'.remaining) + multiset{p} == multiset(s.remaining);
  }

  /**
   * A successful `do_move` loses no piece while the game goes on; a won game
   * has only dropped the hand-off piece.
   */
  lemma DoMovePool(s: GameState, pos: Pos, np: Piece)
    requires InBounds(pos) && DoMoveSpec(s, pos, np).0
    ensures Pool(DoMoveSpec(s, pos, np).1) <= Pool(s)
    ensures DoMoveSpec(s, pos, np).1.status.Running() ==> Pool(DoMoveSpec(s, pos, np).1) == Pool(s)
  {
    var s' := DoMoveSpec(s, pos, np).1;
    var forced := s.status.nextPiece;
    PlacedAfterPut(s.board, pos, forced);
    var placed := multiset(Placed(s'.board));
    assert placed == multiset(Placed(s.board)) + multiset{forced};
    if s'.status.Draw? {
      assert Pool(s') == multiset(s'.remaining) + placed;
    } else {
      assert np in s.remaining;
      assert multiset(s'.remaining) + multiset{np} == multiset(s.remaining);
      if s'.status.Move? {
        assert Pool(s') == multiset(s'.remaining) + placed + multiset{np};
      } else {
        assert Pool(s') == multiset(s'.remaining) + placed;
      }
    }
  }

  /** A successful `do_move` keeps the invariant. */
  lemma DoMovePreservesInv(s: GameState, pos: Pos, np: Piece)
    requires InBounds(pos) && Inv(s) && DoMoveSpec(s, pos, np).0
    ensures Inv(DoMoveSpec(s, pos, np).1)
  {
    var s' := DoMoveSpec(s, pos, np).1;
    DoMovePool(s, pos, np);
    SubMultisetNoDuplicates(Pool(s'), Pool(s));
  }

  /**
   * The error path of `do_move` for an unknown hand-off piece leaves the
   * forced piece both on the board and in the status, outside the invariant.
   */
  lemma UnknownHandoffBreaksInv(s: GameState, pos: Pos, np: Piece)
    requires InBounds(pos) && Inv(s) && s.status.Move? && Cell(s.board, pos).None?
    requires |s.remaining| > 0 && np !in s.remaining
    ensures !DoMoveSpec(s, pos, np).0
    ensures Occupied(DoMoveSpec(s, pos, np).1.board) == Occupied(s.board) + 1
    ensures !Inv(DoMoveSpec(s, pos, np).1)
  {
    var s' := DoMoveSpec(s, pos, np).1;
    var forced := s.status.nextPiece;
    PlacedAfterPut(s.board, pos, forced);
    assert Pool(s') == Pool(s) + multiset{forced};
    assert Pool(s')[forced] == 2;
  }

  /** In a reachable `Move` state the forced piece has an empty cell to go to. */
  lemma MoveHasEmptyCell(s: GameState)
    requires Inv(s) && s.status.Move?
    ensures |EmptyPositions(s.board)| >= 1
    ensures |s.remaining| == Size * Size - 1 - Occupied(s.board)
  {
    EmptyPositionsSpec(s.board);
    assert |Pool(s)| == |s.remaining| + Occupied(s.board) + 1;
  }

  /** In a reachable `InitialMove` state all sixteen pieces remain. */
  lemma InitialMoveHasAllPieces(s: GameState)
    requires Inv(s) && s.status.InitialMove?
    ensures |s.remaining| == Size * Size
  {
    assert |Pool(s)| == |s.remaining| + Occupied(s.board);
  }

  /**
   * In a reachable running state `round` counts hand-offs: the placed pieces
   * plus the forced one, halved, plus one.
   */
  lemma RoundCountsHandoffs(s: GameState)
    requires Inv(s) && s.status.Running()
    ensures |s.remaining| <= Size * Size
    ensures s.Round() == (Occupied(s.board) + (if s.status.Move? then 1 else 0)) / 2 + 1
  {
    assert |Pool(s)| == |s.remaining| + Occupied(s.board) + (if s.status.Move? then 1 else 0);
  }

  /** After a successful move the status names the opponent, unless the game ended. */
  lemma PlayerAfterMove(s: GameState, pos: Pos, np: Piece)
    requires InBounds(pos) && DoMoveSpec(s, pos, np).0
    ensures DoMoveSpec(s, pos, np).1.status.Player()
         == if DoMoveSpec(s, pos, np).1.status.Running() then s.status.Player().Next() else s.status.Player()
  {
  }

  // ---------------------------------------------------------------------
  // The game object
  // ---------------------------------------------------------------------

  class Game {
    const field: Field
    var remaining: seq<Piece>
    var status: Status
    /** Whether the AI filters hand-offs and placements by one ply of look-ahead. */
    var aiReasoning: bool

    ghost predicate Valid()
    {
      field.Valid()
    }

    function State(): GameState
      reads this, field.cells
      requires Valid()
    {
      GameState(field.Cells(), remaining, status)
    }

    /** `Game::new`: an empty board, the sixteen pieces in order, `InitialMove`. */
    constructor New(starting: Player)
      ensures Valid() && fresh(field) && fresh(field.cells)
      ensures State() == NewGame(starting) && !aiReasoning
    {
      field := new Field();
      remaining := CanonicalPieces();
      status := Status.InitialMove(starting);
      aiReasoning := false;
    }

    /** `#[derive(Clone)]`: a game with its own copy of the board. */
    constructor Copy(other: Game)
      requires other.Valid()
      ensures Valid() && fresh(field) && fresh(field.cells)
      ensures State() == other.State() && aiReasoning == other.aiReasoning
    {
      field := new Field.Copy(other.field);
      remaining := other.remaining;
      status := other.status;
      aiReasoning := other.aiReasoning;
    }

    method InitialMove(p: Piece) returns (ok: bool)
      requires Valid()
      modifies this
      ensures Valid() && (ok, State()) == InitialMoveSpec(old(State()), p)
      ensures aiReasoning == old(aiReasoning)
    {
      if !status.InitialMove? {
        return false;
      }
      var i := Position(remaining, p);
      if i.None? {
        return false;
      }
      remaining := RemoveAt(remaining, i.value);
      status := Move(status.startingPlayer.Next(), p);
      ok := true;
    }

    method DoMove(pos: Pos, np: Piece) returns (ok: bool)
      requires Valid() && InBounds(pos)
      modifies this, field.cells
      ensures Valid() && (ok, State()) == DoMoveSpec(old(State()), pos, np)
      ensures aiReasoning == old(aiReasoning)
    {
      if !status.Move? {
        return false;
      }
      var player, piece := status.nextPlayer, status.nextPiece;
      var put := field.Put(pos, piece);
      if !put {
        return false;
      }
      if |remaining| == 0 {
        status := Draw(player);
        return true;
      }
      var i := Position(remaining, np);
      if i.None? {
        return false;
      }
      remaining := RemoveAt(remaining, i.value);
      var won := field.CheckFieldForWin();
      if won {
        status := Won(player);
      } else {
        status := Move(player.Next(), np);
      }
      ok := true;
    }

    /** The test-only `unmove`; the source panics unless `pos` holds a piece. */
    method Unmove(pos: Pos)
      requires Valid() && InBounds(pos)
      requires !status.InitialMove? && field.Get(pos).Some?
      modifies this, field.cells
      ensures Valid() && State() == UnmoveSpec(old(State()), pos)
      ensures aiReasoning == old(aiReasoning)
    {
      var nextPlayer := status.Player();
      var prevPlayer := nextPlayer.Next();
      var last := field.Clear(pos);
      remaining := remaining + [last.value];
      if |remaining| == Size * Size {
        status := Status.InitialMove(nextPlayer);
      } else {
        status := Move(prevPlayer, last.value);
      }
    }
  }
}
