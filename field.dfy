/**
 * The 4x4 Quarto board and its win test (src/field.rs).
 *
 * The source stores `[[Option<Piece>; 4]; 4]`; this model keeps the same 16
 * cells in one array in row-major order, so cell (row, column) is at index
 * `4 * row + column`. Spec functions describe a board as a value (`Board`);
 * the `Field` class holds the array and its methods are proved against them.
 */
module Fields {
  import opened Wrappers
  import opened Pieces

  /** Side length of the board (`Field::SIZE`). */
  const Size: nat := 4

  /** A (row, column) position, the source's `(usize, usize)`. */
  type Pos = (nat, nat)

  predicate InBounds(pos: Pos)
  {
    pos.0 < Size && pos.1 < Size
  }

  /** Row-major index of a position. */
  function Index(pos: Pos): (i: nat)
    requires InBounds(pos)
    ensures i < Size * Size
  {
    4 * pos.0 + pos.1
  }

  /** The position with a given row-major index; the inverse of `Index`. */
  function PosOf(i: nat): (pos: Pos)
    requires i < Size * Size
    ensures InBounds(pos) && Index(pos) == i
  {
    (i / 4, i % 4)
  }

  lemma PosOfRowMajor(x: nat, y: nat)
    requires x < Size && y < Size
    ensures PosOf(4 * x + y) == (x, y)
  {
  }

  lemma IndexInjective(p: Pos, q: Pos)
    requires InBounds(p) && InBounds(q)
    ensures Index(p) == Index(q) <==> p == q
  {
  }

  /** The contents of the 16 cells, row-major. */
  type Board = b: seq<Option<Piece>> | |b| == 16 witness seq(16, _ => None)

  /** The board of `Field::new`: every cell empty. */
  function EmptyBoard(): (b: Board)
    ensures forall i :: 0 <= i < |b| ==> b[i].None?
  {
    seq(16, _ => None)
  }

  function Cell(b: Board, pos: Pos): Option<Piece>
    requires InBounds(pos)
  {
    b[Index(pos)]
  }

  /** The board after a piece is stored at `pos`. */
  function PutCell(b: Board, pos: Pos, p: Piece): Board
    requires InBounds(pos)
  {
    b[Index(pos) := Some(p)]
  }

  /** Storing a piece changes exactly one cell. */
  lemma CellAfterPut(b: Board, pos: Pos, p: Piece, q: Pos)
    requires InBounds(pos) && InBounds(q)
    ensures Cell(PutCell(b, pos, p), q) == if q == pos then Some(p) else Cell(b, q)
  {
    IndexInjective(pos, q);
  }

  // ---------------------------------------------------------------------
  // Lines and the win condition
  // ---------------------------------------------------------------------

  /** Four in-bounds positions. */
  predicate IsLine(line: seq<Pos>)
  {
    |line| == 4 && forall j :: 0 <= j < 4 ==> InBounds(line[j])
  }

  function Row(r: nat): (line: seq<Pos>)
    requires r < Size
    ensures IsLine(line)
  {
    [(r, 0), (r, 1), (r, 2), (r, 3)]
  }

  function Column(c: nat): (line: seq<Pos>)
    requires c < Size
    ensures IsLine(line)
  {
    [(0, c), (1, c), (2, c), (3, c)]
  }

  /** The main diagonal, cells (x, x). */
  const Diagonal: seq<Pos> := [(0, 0), (1, 1), (2, 2), (3, 3)]

  /** The anti-diagonal, cells (x, 3 - x). */
  const AntiDiagonal: seq<Pos> := [(0, 3), (1, 2), (2, 1), (3, 0)]

  /** The 2x2 block whose top-left cell is (i, k). */
  function Square(i: nat, k: nat): (line: seq<Pos>)
    requires i < Size - 1 && k < Size - 1
    ensures IsLine(line)
  {
    [(i, k), (i, k + 1), (i + 1, k), (i + 1, k + 1)]
  }

  /** The cells of a line, in the line's order. */
  function Gather(b: Board, line: seq<Pos>): (cells: seq<Option<Piece>>)
    requires IsLine(line)
    ensures |cells| == 4
  {
    [Cell(b, line[0]), Cell(b, line[1]), Cell(b, line[2]), Cell(b, line[3])]
  }

  /**
   * Four cells win iff all four are filled and the bitwise AND of their
   * bytes is non-zero (some bit, attribute or shadow, is shared by all).
   */
  predicate FourWin(cells: seq<Option<Piece>>)
    requires |cells| == 4
  {
    && cells[0].Some? && cells[1].Some? && cells[2].Some? && cells[3].Some?
    && cells[0].value.properties & cells[1].value.properties
       & cells[2].value.properties & cells[3].value.properties != 0
  }

  predicate LineWins(b: Board, line: seq<Pos>)
    requires IsLine(line)
  {
    FourWin(Gather(b, line))
  }

  /**
   * The board is won iff some line wins: a row, a column, one of the two
   * diagonals, or one of the nine overlapping 2x2 blocks.
   */
  predicate Wins(b: Board)
  {
    || (exists r: nat :: r < Size && LineWins(b, Row(r)))
    || (exists c: nat :: c < Size && LineWins(b, Column(c)))
    || LineWins(b, Diagonal)
    || LineWins(b, AntiDiagonal)
    || (exists i: nat, k: nat :: i < Size - 1 && k < Size - 1 && LineWins(b, Square(i, k)))
  }

  /** The AND of the first `n` bytes of a line, starting from all ones. */
  function AndOf(cells: seq<Option<Piece>>, n: nat): bv8
    requires n <= |cells|
    requires forall j :: 0 <= j < n ==> cells[j].Some?
  {
    if n == 0 then 0xFF else AndOf(cells, n - 1) & cells[n - 1].value.properties
  }

  /** One more cell of the fold ANDs in its byte. */
  lemma AndOfStep(cells: seq<Option<Piece>>, n: nat)
    requires n < |cells| && forall j :: 0 <= j <= n ==> cells[j].Some?
    ensures AndOf(cells, n + 1) == AndOf(cells, n) & cells[n].value.properties
  {
  }

  /** The all-ones start of the fold drops out after the first cell. */
  lemma AndOfOne(cells: seq<Option<Piece>>)
    requires 0 < |cells| && cells[0].Some?
    ensures AndOf(cells, 1) == cells[0].value.properties
  {
    assert AndOf(cells, 0) == 0xFF;
  }

  lemma AndOfFour(cells: seq<Option<Piece>>)
    requires |cells| == 4 && cells[0].Some? && cells[1].Some? && cells[2].Some? && cells[3].Some?
    ensures AndOf(cells, 4) == cells[0].value.properties & cells[1].value.properties
                             & cells[2].value.properties & cells[3].value.properties
  {
    AndOfOne(cells);
    AndOfStep(cells, 1);
    AndOfStep(cells, 2);
    AndOfStep(cells, 3);
  }

  /** Folding the AND over all four cells decides `FourWin`. */
  lemma FourWinByAnd(cells: seq<Option<Piece>>)
    requires |cells| == 4 && cells[0].Some? && cells[1].Some? && cells[2].Some? && cells[3].Some?
    ensures FourWin(cells) <==> AndOf(cells, 4) != 0
  {
    AndOfFour(cells);
    var folded := AndOf(cells, 4);
    assert FourWin(cells) <==> folded != 0;
  }

  // ---------------------------------------------------------------------
  // Empty and occupied cells
  // ---------------------------------------------------------------------

  /** The empty positions with index below `n`, in row-major order. */
  function EmptyBelow(b: Board, n: nat): seq<Pos>
    requires n <= Size * Size
  {
    if n == 0 then []
    else EmptyBelow(b, n - 1) + (if b[n - 1].None? then [PosOf(n - 1)] else [])
  }

  function EmptyPositions(b: Board): seq<Pos>
  {
    EmptyBelow(b, Size * Size)
  }

  /** The pieces on cells with index below `n`, in row-major order. */
  function PlacedBelow(b: Board, n: nat): seq<Piece>
    requires n <= Size * Size
  {
    if n == 0 then []
    else PlacedBelow(b, n - 1) + (if b[n - 1].Some? then [b[n - 1].value] else [])
  }

  function Placed(b: Board): seq<Piece>
  {
    PlacedBelow(b, Size * Size)
  }

  /** The number of occupied cells. */
  function Occupied(b: Board): nat
  {
    |Placed(b)|
  }

  lemma {:induction false} EmptyBelowMembers(b: Board, n: nat, p: Pos)
    requires n <= Size * Size
    ensures p in EmptyBelow(b, n) <==> InBounds(p) && Index(p) < n && Cell(b, p).None?
  {
    if n > 0 {
      EmptyBelowMembers(b, n - 1, p);
      if InBounds(p) {
        IndexInjective(p, PosOf(n - 1));
      }
    }
  }

  lemma {:induction false} EmptyBelowSorted(b: Board, n: nat)
    requires n <= Size * Size
    ensures forall j :: 0 <= j < |EmptyBelow(b, n)| ==> InBounds(EmptyBelow(b, n)[j]) && Index(EmptyBelow(b, n)[j]) < n
    ensures forall j, k :: 0 <= j < k < |EmptyBelow(b, n)| ==> Index(EmptyBelow(b, n)[j]) < Index(EmptyBelow(b, n)[k])
  {
    if n > 0 {
      EmptyBelowSorted(b, n - 1);
    }
  }

  lemma {:induction false} EmptyBelowCount(b: Board, n: nat)
    requires n <= Size * Size
    ensures |EmptyBelow(b, n)| + |PlacedBelow(b, n)| == n
  {
    if n > 0 {
      EmptyBelowCount(b, n - 1);
    }
  }

  /**
   * `empty_spaces` yields exactly the empty positions, each once, in strictly
   * increasing row-major order, and as many as there are unoccupied cells.
   */
  lemma EmptyPositionsSpec(b: Board)
    ensures forall p :: p in EmptyPositions(b) <==> InBounds(p) && Cell(b, p).None?
    ensures forall j :: 0 <= j < |EmptyPositions(b)| ==> InBounds(EmptyPositions(b)[j])
    ensures forall j, k :: 0 <= j < k < |EmptyPositions(b)| ==>
      Index(EmptyPositions(b)[j]) < Index(EmptyPositions(b)[k])
    ensures |EmptyPositions(b)| == Size * Size - Occupied(b)
  {
    forall p ensures p in EmptyPositions(b) <==> InBounds(p) && Cell(b, p).None? {
      EmptyBelowMembers(b, Size * Size, p);
    }
    EmptyBelowSorted(b, Size * Size);
    EmptyBelowCount(b, Size * Size);
  }

  /** Below the filled cell nothing changes. */
  lemma {:induction false} PlacedBelowBeforePut(b: Board, pos: Pos, p: Piece, n: nat)
    requires InBounds(pos) && n <= Index(pos)
    ensures PlacedBelow(PutCell(b, pos, p), n) == PlacedBelow(b, n)
  {
    if n > 0 {
      PlacedBelowBeforePut(b, pos, p, n - 1);
      assert PutCell(b, pos, p)[n - 1] == b[n - 1];
    }
  }

  /** At the filled cell the filled board gains the piece. */
  lemma PlacedAtPut(b: Board, pos: Pos, p: Piece)
    requires InBounds(pos) && Cell(b, pos).None?
    ensures PlacedBelow(PutCell(b, pos, p), Index(pos) + 1) == PlacedBelow(b, Index(pos) + 1) + [p]
  {
    PlacedBelowBeforePut(b, pos, p, Index(pos));
  }

  /** Away from the filled cell both boards extend the scan by the same cell. */
  lemma PlacedStepAwayFromPut(b: Board, pos: Pos, p: Piece, n: nat)
    requires InBounds(pos) && 0 < n <= Size * Size && n - 1 != Index(pos)
    ensures PlacedBelow(PutCell(b, pos, p), n) ==
      PlacedBelow(PutCell(b, pos, p), n - 1) + (if b[n - 1].Some? then [b[n - 1].value] else [])
  {
    assert PutCell(b, pos, p)[n - 1] == b[n - 1];
  }

  /** From the filled cell on, the filled board has exactly one more piece. */
  lemma {:induction false} PlacedBelowAfterPut(b: Board, pos: Pos, p: Piece, n: nat)
    requires InBounds(pos) && Cell(b, pos).None? && Index(pos) < n <= Size * Size
    ensures multiset(PlacedBelow(PutCell(b, pos, p), n)) == multiset(PlacedBelow(b, n)) + multiset{p}
  {
    if n - 1 == Index(pos) {
      PlacedAtPut(b, pos, p);
    } else {
      PlacedBelowAfterPut(b, pos, p, n - 1);
      PlacedStepAwayFromPut(b, pos, p, n);
    }
  }

  /** Filling an empty cell adds exactly that piece to the pieces on the board. */
  lemma PlacedAfterPut(b: Board, pos: Pos, p: Piece)
    requires InBounds(pos) && Cell(b, pos).None?
    ensures multiset(Placed(PutCell(b, pos, p))) == multiset(Placed(b)) + multiset{p}
    ensures Occupied(PutCell(b, pos, p)) == Occupied(b) + 1
  {
    PlacedBelowAfterPut(b, pos, p, Size * Size);
    assert |multiset(Placed(PutCell(b, pos, p)))| == |multiset(Placed(b))| + 1;
  }

  // ---------------------------------------------------------------------
  // Properties of the win condition
  // ---------------------------------------------------------------------

  /** Filling an empty cell keeps every winning line winning. */
  lemma LineWinsAfterPut(b: Board, line: seq<Pos>, pos: Pos, p: Piece)
    requires IsLine(line) && InBounds(pos) && Cell(b, pos).None?
    requires LineWins(b, line)
    ensures LineWins(PutCell(b, pos, p), line)
  {
    forall j | 0 <= j < 4 ensures Cell(PutCell(b, pos, p), line[j]) == Cell(b, line[j]) {
      CellAfterPut(b, pos, p, line[j]);
    }
    assert Gather(PutCell(b, pos, p), line) == Gather(b, line);
  }

  /**
   * A won board stays won after a successful `put`: `put` fills only an
   * empty cell, and a winning line has none.
   */
  lemma WinsAfterPut(b: Board, pos: Pos, p: Piece)
    requires InBounds(pos) && Cell(b, pos).None?
    requires Wins(b)
    ensures Wins(PutCell(b, pos, p))
  {
    var b' := PutCell(b, pos, p);
    if r: nat :| r < Size && LineWins(b, Row(r)) {
      LineWinsAfterPut(b, Row(r), pos, p);
    } else if c: nat :| c < Size && LineWins(b, Column(c)) {
      LineWinsAfterPut(b, Column(c), pos, p);
    } else if LineWins(b, Diagonal) {
      LineWinsAfterPut(b, Diagonal, pos, p);
    } else if LineWins(b, AntiDiagonal) {
      LineWinsAfterPut(b, AntiDiagonal, pos, p);
    } else {
      var i: nat, k: nat :| i < Size - 1 && k < Size - 1 && LineWins(b, Square(i, k));
      LineWinsAfterPut(b, Square(i, k), pos, p);
    }
  }

  /** A line holding the byte-0 piece (`Piece::new()`) never wins. */
  lemma ZeroPieceNeverWins(b: Board, line: seq<Pos>, j: nat)
    requires IsLine(line) && j < 4
    requires Cell(b, line[j]) == Some(Piece.New())
    ensures !LineWins(b, line)
  {
  }

  /**
   * The shape of the board tests: three pieces sharing an attribute on a
   * line do not win, and a fourth with that attribute on the last cell does.
   */
  lemma LineCompletes(b: Board, line: seq<Pos>, j: nat, p: Piece, prop: Property)
    requires IsLine(line) && j < 4 && Cell(b, line[j]).None?
    requires forall k :: 0 <= k < 4 && k != j ==> line[k] != line[j]
    requires forall k :: 0 <= k < 4 && k != j ==> Cell(b, line[k]).Some? && Cell(b, line[k]).value.Get(prop)
    requires p.Get(prop)
    ensures !LineWins(b, line)
    ensures LineWins(PutCell(b, line[j], p), line)
  {
    var b' := PutCell(b, line[j], p);
    forall k | 0 <= k < 4
      ensures Cell(b', line[k]).Some? && Cell(b', line[k]).value.Get(prop)
    {
      CellAfterPut(b, line[j], p, line[k]);
    }
    var cells := Gather(b', line);
    var x, y, z, w := cells[0].value.properties, cells[1].value.properties, cells[2].value.properties, cells[3].value.properties;
    SharedBitSurvivesAnd(x, y, z, w, prop.Bit());
  }

  lemma SharedBitSurvivesAnd(x: bv8, y: bv8, z: bv8, w: bv8, bit: bv8)
    requires bit != 0 && x & bit != 0 && y & bit != 0 && z & bit != 0 && w & bit != 0
    requires bit & (bit - 1) == 0
    ensures x & y & z & w != 0
  {
  }

  /** A board on which none of the nineteen lines wins, line by line, is not won. */
  lemma NoWinningLine(b: Board)
    requires !LineWins(b, Row(0)) && !LineWins(b, Row(1)) && !LineWins(b, Row(2)) && !LineWins(b, Row(3))
    requires !LineWins(b, Column(0)) && !LineWins(b, Column(1)) && !LineWins(b, Column(2)) && !LineWins(b, Column(3))
    requires !LineWins(b, Diagonal) && !LineWins(b, AntiDiagonal)
    requires !LineWins(b, Square(0, 0)) && !LineWins(b, Square(0, 1)) && !LineWins(b, Square(0, 2))
    requires !LineWins(b, Square(1, 0)) && !LineWins(b, Square(1, 1)) && !LineWins(b, Square(1, 2))
    requires !LineWins(b, Square(2, 0)) && !LineWins(b, Square(2, 1)) && !LineWins(b, Square(2, 2))
    ensures !Wins(b)
  {
    forall r: nat | r < Size ensures !LineWins(b, Row(r)) && !LineWins(b, Column(r)) {
      assert r == 0 || r == 1 || r == 2 || r == 3;
    }
    forall i: nat, k: nat | i < Size - 1 && k < Size - 1 ensures !LineWins(b, Square(i, k)) {
      assert i == 0 || i == 1 || i == 2;
      assert k == 0 || k == 1 || k == 2;
    }
  }

  /** Every cell of the line holds a piece with attribute `prop`. */
  predicate SharedBy(cells: seq<Option<Piece>>, prop: Property)
    requires |cells| == 4
  {
    forall j :: 0 <= j < 4 ==> cells[j].Some? && cells[j].value.Get(prop)
  }

  /**
   * For pieces without shadow bits (all pieces built by `NewWithProps`),
   * four filled cells win iff some attribute is present in all four.
   */
  lemma FourWinSharedAttribute(cells: seq<Option<Piece>>)
    requires |cells| == 4
    requires forall j :: 0 <= j < 4 ==> cells[j].Some? && cells[j].value.properties & 0xF0 == 0
    ensures FourWin(cells) <==> exists prop: Property :: SharedBy(cells, prop)
  {
    var a, b, c, d := cells[0].value, cells[1].value, cells[2].value, cells[3].value;
    var m := a.properties & b.properties & c.properties & d.properties;
    if m != 0 {
      var prop := if m & 1 != 0 then Tall else if m & 2 != 0 then Round else if m & 4 != 0 then Full else Light;
      assert m & prop.Bit() != 0;
      assert SharedBy(cells, prop);
    }
  }

  // ---------------------------------------------------------------------
  // The board object
  // ---------------------------------------------------------------------

  class Field {
    /** The 16 cells, row-major. */
    const cells: array<Option<Piece>>

    ghost predicate Valid()
    {
      cells.Length == Size * Size
    }

    function Cells(): Board
      reads cells
      requires Valid()
    {
      cells[..]
    }

    /** `Field::new`: every cell empty. */
    constructor ()
      ensures Valid() && fresh(cells)
      ensures Cells() == EmptyBoard()
    {
      cells := new Option<Piece>[Size * Size](_ => None);
    }

    /** A copy with its own array (`#[derive(Clone)]`). */
    constructor Copy(other: Field)
      requires other.Valid()
      ensures Valid() && fresh(cells)
      ensures Cells() == other.Cells()
    {
      cells := new Option<Piece>[Size * Size](i requires 0 <= i < Size * Size reads other.cells => other.cells[i]);
    }

    method Clone() returns (f: Field)
      requires Valid()
      ensures fresh(f) && fresh(f.cells) && f.Valid()
      ensures f.Cells() == Cells()
    {
      f := new Field.Copy(this);
    }

    /** `put`: stores the piece iff the cell is empty; otherwise fails and changes nothing. */
    method Put(pos: Pos, piece: Piece) returns (ok: bool)
      requires Valid() && InBounds(pos)
      modifies cells
      ensures ok <==> Cell(old(Cells()), pos).None?
      ensures Cells() == if ok then PutCell(old(Cells()), pos, piece) else old(Cells())
    {
      if cells[Index(pos)].None? {
        cells[Index(pos)] := Some(piece);
        return true;
      }
      return false;
    }

    /** `get`: a pure read of one cell. */
    function Get(pos: Pos): (r: Option<Piece>)
      reads cells
      requires Valid() && InBounds(pos)
      ensures r == Cell(Cells(), pos)
    {
      cells[Index(pos)]
    }

    /** `clear`: returns the cell's previous content and leaves it empty. */
    method Clear(pos: Pos) returns (prev: Option<Piece>)
      requires Valid() && InBounds(pos)
      modifies cells
      ensures prev == Cell(old(Cells()), pos)
      ensures Cells() == old(Cells())[Index(pos) := None]
    {
      prev := Get(pos);
      cells[Index(pos)] := None;
    }

    /** `check_array_for_win`: AND the bytes together, failing on the first empty cell. */
    static method CheckArrayForWin(ary: seq<Option<Piece>>) returns (win: bool)
      requires |ary| == 4
      ensures win == FourWin(ary)
    {
      var ret: bv8 := 0xFF;
      for i := 0 to 4
        invariant forall j :: 0 <= j < i ==> ary[j].Some?
        invariant ret == AndOf(ary, i)
      {
        if ary[i].None? {
          return false;
        }
        ret := ret & ary[i].value.properties;
      }
      assert ary[0].Some? && ary[1].Some? && ary[2].Some? && ary[3].Some?;
      FourWinByAnd(ary);
      win := ret != 0;
    }

    /**
     * `check_field_for_win`: rows, then columns, then both diagonals, then the
     * nine 2x2 blocks, stopping at the first winning line.
     */
    method CheckFieldForWin() returns (win: bool)
      requires Valid()
      ensures win == Wins(Cells())
    {
      var b := Cells();
      for row := 0 to Size
        invariant forall r: nat :: r < row ==> !LineWins(b, Row(r))
      {
        win := CheckArrayForWin(Gather(b, Row(row)));
        if win {
          return;
        }
      }
      for column := 0 to Size
        invariant forall c: nat :: c < column ==> !LineWins(b, Column(c))
      {
        win := CheckArrayForWin(Gather(b, Column(column)));
        if win {
          return;
        }
      }
      win := CheckArrayForWin(Gather(b, Diagonal));
      if win {
        return;
      }
      win := CheckArrayForWin(Gather(b, AntiDiagonal));
      if win {
        return;
      }
      for i := 0 to Size - 1
        invariant forall i': nat, k': nat :: i' < i && k' < Size - 1 ==> !LineWins(b, Square(i', k'))
      {
        for k := 0 to Size - 1
          invariant forall i': nat, k': nat :: (i' < i && k' < Size - 1) || (i' == i && k' < k) ==> !LineWins(b, Square(i', k'))
        {
          win := CheckArrayForWin(Gather(b, Square(i, k)));
          if win {
            return;
          }
        }
      }
      win := false;
    }

    /** `empty_spaces`: the empty positions, scanning rows then columns. */
    method EmptySpaces() returns (ret: seq<Pos>)
      requires Valid()
      ensures ret == EmptyPositions(Cells())
    {
      ghost var b := Cells();
      ret := [];
      for x := 0 to Size
        invariant ret == EmptyBelow(b, 4 * x)
      {
        for y := 0 to Size
          invariant ret == EmptyBelow(b, 4 * x + y)
        {
          PosOfRowMajor(x, y);
          if Get((x, y)).None? {
            ret := ret + [(x, y)];
          }
        }
      }
    }
  }
}
