/**
 * The one-ply heuristic AI (`SimpleAi::play_iteratively`, src/ai.rs).
 *
 * On its first turn the AI hands over a random remaining piece. Later it
 * places the forced piece: on the first cell that wins, if there is one;
 * otherwise it drops placements and hand-off pieces that would let the
 * opponent win on the next placement (only when `ai_reasoning` is on), and
 * picks among the rest with its own generator.
 *
 * The look-ahead is specified by ghost predicates over `GameState`; the
 * method is proved to issue only legal moves and to follow those filters.
 */
module Ai {
  import opened Wrappers
  import opened Pieces
  import opened Fields
  import opened Games
  import opened Rng

  // ---------------------------------------------------------------------
  // Look-ahead predicates
  // ---------------------------------------------------------------------

  /** Placing `p` on some empty cell of `b` wins. */
  ghost predicate CanWinWith(b: Board, p: Piece)
  {
    exists q: Pos :: InBounds(q) && Cell(b, q).None? && Wins(PutCell(b, q, p))
  }

  /** One of the first `m` cells of the row-major scan of empty cells wins with `p`. */
  ghost predicate ScanWins(b: Board, p: Piece, m: nat)
    requires m <= |EmptyPositions(b)|
  {
    exists j :: 0 <= j < m && InBounds(EmptyPositions(b)[j]) && Wins(PutCell(b, EmptyPositions(b)[j], p))
  }

  /** Scanning every empty cell decides whether `p` can win. */
  lemma CanWinWithByScan(b: Board, p: Piece)
    ensures CanWinWith(b, p) <==> ScanWins(b, p, |EmptyPositions(b)|)
  {
    EmptyPositionsSpec(b);
    var e := EmptyPositions(b);
    if CanWinWith(b, p) {
      var q :| InBounds(q) && Cell(b, q).None? && Wins(PutCell(b, q, p));
      assert q in e;
      var j :| 0 <= j < |e| && e[j] == q;
      assert InBounds(e[j]) && Wins(PutCell(b, e[j], p));
    }
    if ScanWins(b, p, |e|) {
      var j :| 0 <= j < |e| && InBounds(e[j]) && Wins(PutCell(b, e[j], p));
      assert e[j] in e;
    }
  }

  /** `pos` is the first empty cell, in row-major order, on which `p` wins. */
  ghost predicate FirstWinningCell(b: Board, p: Piece, pos: Pos)
  {
    && InBounds(pos) && Cell(b, pos).None? && Wins(PutCell(b, pos, p))
    && forall q: Pos :: InBounds(q) && Cell(b, q).None? && Index(q) < Index(pos) ==> !Wins(PutCell(b, q, p))
  }

  /** `pos` is the first empty cell in row-major order. */
  ghost predicate FirstEmpty(b: Board, pos: Pos)
  {
    && InBounds(pos) && Cell(b, pos).None?
    && forall q: Pos :: InBounds(q) && Index(q) < Index(pos) ==> Cell(b, q).Some?
  }

  /** The first hit of the row-major scan is the first winning cell. */
  lemma ScanFirstWin(b: Board, p: Piece, i: nat)
    requires i < |EmptyPositions(b)| && InBounds(EmptyPositions(b)[i])
    requires !ScanWins(b, p, i) && Wins(PutCell(b, EmptyPositions(b)[i], p))
    ensures FirstWinningCell(b, p, EmptyPositions(b)[i])
  {
    EmptyPositionsSpec(b);
    var e := EmptyPositions(b);
    assert e[i] in e;
    forall q: Pos | InBounds(q) && Cell(b, q).None? && Index(q) < Index(e[i])
      ensures !Wins(PutCell(b, q, p))
    {
      assert q in e;
    }
  }

  /** The head of the scan is the first empty cell. */
  lemma ScanFirstEmpty(b: Board)
    requires |EmptyPositions(b)| > 0
    ensures FirstEmpty(b, EmptyPositions(b)[0])
  {
    EmptyPositionsSpec(b);
    var e := EmptyPositions(b);
    assert e[0] in e;
  }

  /**
   * After we place the forced piece on `c`, handing over `p` lets the
   * opponent win with their next placement.
   */
  ghost predicate Threatens(s: GameState, c: Pos, p: Piece)
    requires s.status.Move?
  {
    InBounds(c) && CanWinWith(PutCell(s.board, c, s.status.nextPiece), p)
  }

  /**
   * `non_picks`: the remaining pieces that threaten after some placement of
   * ours; recorded only when reasoning is on.
   */
  ghost function Avoided(s: GameState, reasoning: bool): set<Piece>
    requires s.status.Move?
  {
    set p | p in s.remaining && reasoning
              && exists c: Pos :: InBounds(c) && Cell(s.board, c).None? && Threatens(s, c, p)
  }

  /**
   * The placements recorded in `removals`: some remaining piece threatens
   * after them; recorded only when reasoning is on.
   */
  ghost predicate Discarded(s: GameState, reasoning: bool, c: Pos)
    requires s.status.Move?
  {
    reasoning && exists p :: p in s.remaining && Threatens(s, c, p)
  }

  /** With reasoning off nothing is avoided and no placement is dropped. */
  lemma NoReasoningNoFilter(s: GameState, c: Pos)
    requires s.status.Move?
    ensures Avoided(s, false) == {} && !Discarded(s, false, c)
  {
  }

  /**
   * The point of the filters: a hand-off that is not avoided, after any
   * placement on an empty cell, leaves the opponent no winning placement.
   */
  lemma SafeHandoffNoImmediateLoss(s: GameState, pos: Pos, p: Piece)
    requires s.status.Move? && InBounds(pos) && Cell(s.board, pos).None?
    requires p in s.remaining && p !in Avoided(s, true)
    ensures !CanWinWith(PutCell(s.board, pos, s.status.nextPiece), p)
  {
  }

  /** The remaining pieces that threaten after we place on `c`; none with reasoning off. */
  ghost function ThreatSet(s: GameState, reasoning: bool, c: Pos): set<Piece>
    requires s.status.Move?
  {
    set p | p in s.remaining && reasoning && Threatens(s, c, p)
  }

  lemma DiscardedIffThreats(s: GameState, reasoning: bool, c: Pos)
    requires s.status.Move?
    ensures Discarded(s, reasoning, c) <==> ThreatSet(s, reasoning, c) != {}
  {
    if Discarded(s, reasoning, c) {
      var p :| p in s.remaining && Threatens(s, c, p);
      assert p in ThreatSet(s, reasoning, c);
    }
  }

  /** The opponent's winning pieces on a candidate state are the threats of its placement. */
  lemma ThreatsOfCandidate(s: GameState, reasoning: bool, c: Pos, t: GameState, unsafe: set<Piece>)
    requires s.status.Move? && InBounds(c)
    requires t.remaining == s.remaining && t.board == PutCell(s.board, c, s.status.nextPiece)
    requires unsafe == set p | p in t.remaining && reasoning && CanWinWith(t.board, p)
    ensures unsafe == ThreatSet(s, reasoning, c)
  {
  }

  /** The threat set of every empty cell, in the row-major order the look-ahead visits them. */
  ghost function Threats(s: GameState, reasoning: bool): (ts: seq<set<Piece>>)
    requires s.status.Move?
    ensures |ts| == |EmptyPositions(s.board)|
  {
    var e := EmptyPositions(s.board);
    seq(|e|, j requires 0 <= j < |e| => ThreatSet(s, reasoning, e[j]))
  }

  /** `removals` after visiting the first `n` sets: the indices of the non-empty ones, in order. */
  function NonEmptyBelow<T>(ts: seq<set<T>>, n: nat): seq<nat>
    requires n <= |ts|
  {
    if n == 0 then [] else NonEmptyBelow(ts, n - 1) + (if ts[n - 1] != {} then [n - 1] else [])
  }

  lemma {:induction false} NonEmptyBelowMembers<T>(ts: seq<set<T>>, n: nat, j: int)
    requires n <= |ts|
    ensures j in NonEmptyBelow(ts, n) <==> 0 <= j < n && ts[j] != {}
  {
    if n > 0 {
      NonEmptyBelowMembers(ts, n - 1, j);
    }
  }

  /** `non_picks` after visiting the first `n` sets: their union. */
  function UnionBelow<T>(ts: seq<set<T>>, n: nat): set<T>
    requires n <= |ts|
  {
    if n == 0 then {} else UnionBelow(ts, n - 1) + ts[n - 1]
  }

  lemma {:induction false} UnionBelowMembers<T>(ts: seq<set<T>>, n: nat, x: T)
    requires n <= |ts|
    ensures x in UnionBelow(ts, n) <==> exists j :: 0 <= j < n && x in ts[j]
  {
    if n > 0 {
      UnionBelowMembers(ts, n - 1, x);
    }
  }

  /** The full scan records in `removals` exactly the discarded cells. */
  lemma ScanRemovals(s: GameState, reasoning: bool)
    requires s.status.Move?
    ensures forall j :: 0 <= j < |EmptyPositions(s.board)| ==>
      (j in NonEmptyBelow(Threats(s, reasoning), |EmptyPositions(s.board)|)
       <==> Discarded(s, reasoning, EmptyPositions(s.board)[j]))
  {
    var e := EmptyPositions(s.board);
    var ts := Threats(s, reasoning);
    forall j | 0 <= j < |e|
      ensures j in NonEmptyBelow(ts, |e|) <==> Discarded(s, reasoning, e[j])
    {
      NonEmptyBelowMembers(ts, |e|, j);
      DiscardedIffThreats(s, reasoning, e[j]);
    }
  }

  lemma AvoidedInScan(s: GameState, reasoning: bool, p: Piece)
    requires s.status.Move? && p in Avoided(s, reasoning)
    ensures p in UnionBelow(Threats(s, reasoning), |EmptyPositions(s.board)|)
  {
    EmptyPositionsSpec(s.board);
    var e := EmptyPositions(s.board);
    var ts := Threats(s, reasoning);
    var c: Pos :| InBounds(c) && Cell(s.board, c).None? && Threatens(s, c, p);
    assert c in e;
    var j :| 0 <= j < |e| && e[j] == c;
    assert p in ts[j];
    UnionBelowMembers(ts, |e|, p);
  }

  lemma ScanInAvoided(s: GameState, reasoning: bool, p: Piece)
    requires s.status.Move? && p in UnionBelow(Threats(s, reasoning), |EmptyPositions(s.board)|)
    ensures p in Avoided(s, reasoning)
  {
    EmptyPositionsSpec(s.board);
    var e := EmptyPositions(s.board);
    var ts := Threats(s, reasoning);
    UnionBelowMembers(ts, |e|, p);
    var j :| 0 <= j < |e| && p in ts[j];
    assert e[j] in e;
    assert InBounds(e[j]) && Cell(s.board, e[j]).None? && Threatens(s, e[j], p);
  }

  /** The full scan collects in `non_picks` exactly the avoided pieces. */
  lemma ScanAvoided(s: GameState, reasoning: bool)
    requires s.status.Move?
    ensures UnionBelow(Threats(s, reasoning), |EmptyPositions(s.board)|) == Avoided(s, reasoning)
  {
    forall p | p in Avoided(s, reasoning)
      ensures p in UnionBelow(Threats(s, reasoning), |EmptyPositions(s.board)|)
    {
      AvoidedInScan(s, reasoning, p);
    }
    forall p | p in UnionBelow(Threats(s, reasoning), |EmptyPositions(s.board)|)
      ensures p in Avoided(s, reasoning)
    {
      ScanInAvoided(s, reasoning, p);
    }
  }

  // ---------------------------------------------------------------------
  // Helpers that only touch freshly cloned games
  // ---------------------------------------------------------------------

  /** A clone of `t` with `p` put on the empty cell `pos`, and whether that board wins. */
  method Candidate(t: Game, pos: Pos, p: Piece) returns (state: Game, win: bool)
    requires t.Valid() && InBounds(pos) && Cell(t.State().board, pos).None?
    ensures fresh(state) && fresh(state.field) && fresh(state.field.cells) && state.Valid()
    ensures state.State() == GameState(PutCell(t.State().board, pos, p), t.remaining, t.status)
    ensures win == Wins(PutCell(t.State().board, pos, p))
  {
    state := new Game.Copy(t);
    var ok := state.field.Put(pos, p);
    win := state.field.CheckFieldForWin();
  }

  /**
   * The two inner loops of the look-ahead for one candidate state: every
   * remaining piece on every empty cell. Pieces whose placement wins are
   * collected only when `reasoning` is on.
   */
  method OpponentThreats(state: Game, reasoning: bool) returns (unsafe: set<Piece>)
    requires state.Valid()
    ensures unsafe == set p | p in state.remaining && reasoning && CanWinWith(state.State().board, p)
  {
    ghost var b := state.State().board;
    var rem := state.remaining;
    unsafe := {};
    for k := 0 to |rem|
      invariant unsafe == set p | p in rem[..k] && reasoning && CanWinWith(b, p)
    {
      var piece := rem[k];
      var empties := state.field.EmptySpaces();
      EmptyPositionsSpec(b);
      ghost var before := unsafe;
      for m := 0 to |empties|
        invariant unsafe == before + (if reasoning && ScanWins(b, piece, m) then {piece} else {})
      {
        assert empties[m] in empties;
        var _, win := Candidate(state, empties[m], piece);
        if win && reasoning {
          unsafe := unsafe + {piece};
        }
        assert ScanWins(b, piece, m + 1) <==> ScanWins(b, piece, m) || win;
      }
      CanWinWithByScan(b, piece);
      assert rem[..k + 1] == rem[..k] + [piece];
    }
    assert rem[..|rem|] == rem;
  }

  /**
   * The first loop of `play_iteratively`: a candidate state per empty cell,
   * in row-major order, up to the first placement of `our` that wins.
   */
  method CandidateStates(t: Game, our: Piece, empties: seq<Pos>)
      returns (states: seq<(Game, Pos)>, winning: Option<nat>)
    requires t.Valid() && empties == EmptyPositions(t.State().board)
    ensures winning.Some? ==>
      winning.value < |empties| && InBounds(empties[winning.value])
      && !ScanWins(t.State().board, our, winning.value)
      && Wins(PutCell(t.State().board, empties[winning.value], our))
    ensures winning.None? ==> !ScanWins(t.State().board, our, |empties|) && |states| == |empties|
    ensures |states| <= |empties|
    ensures forall j :: 0 <= j < |states| ==>
      states[j].1 == empties[j] && InBounds(empties[j]) && states[j].0.Valid()
      && states[j].0.State().remaining == t.remaining
      && states[j].0.State().board == PutCell(t.State().board, empties[j], our)
  {
    ghost var b := t.State().board;
    EmptyPositionsSpec(b);
    states := [];
    for i := 0 to |empties|
      invariant |states| == i
      invariant forall j :: 0 <= j < i ==>
        states[j].1 == empties[j] && InBounds(empties[j]) && states[j].0.Valid()
        && states[j].0.State().remaining == t.remaining && states[j].0.State().board == PutCell(b, empties[j], our)
      invariant !ScanWins(b, our, i)
    {
      assert empties[i] in empties;
      var state, win := Candidate(t, empties[i], our);
      if win {
        return states, Some(i);
      }
      states := states + [(state, empties[i])];
    }
    winning := None;
  }

  /** The opponent's winning pieces once `our` piece is on `c`: the threats of that placement. */
  method ThreatsAt(state: Game, reasoning: bool, ghost s: GameState, ghost c: Pos) returns (unsafe: set<Piece>)
    requires s.status.Move? && InBounds(c) && state.Valid()
    requires state.State().remaining == s.remaining && state.State().board == PutCell(s.board, c, s.status.nextPiece)
    ensures unsafe == ThreatSet(s, reasoning, c)
  {
    unsafe := OpponentThreats(state, reasoning);
    ThreatsOfCandidate(s, reasoning, c, state.State(), unsafe);
  }

  /**
   * The second loop: for every candidate state, the opponent's replies.
   * `removals` gets the index of every state after which some remaining
   * piece wins, `nonPicks` every such piece; both only with reasoning on.
   */
  method LookAhead(states: seq<(Game, Pos)>, reasoning: bool, ghost s: GameState)
      returns (removals: seq<nat>, nonPicks: set<Piece>)
    requires s.status.Move? && |states| == |EmptyPositions(s.board)|
    requires forall j :: 0 <= j < |states| ==>
      states[j].1 == EmptyPositions(s.board)[j] && InBounds(states[j].1) && states[j].0.Valid()
      && states[j].0.State().remaining == s.remaining
      && states[j].0.State().board == PutCell(s.board, states[j].1, s.status.nextPiece)
    ensures forall j :: 0 <= j < |states| ==> (j in removals <==> Discarded(s, reasoning, EmptyPositions(s.board)[j]))
    ensures nonPicks == Avoided(s, reasoning)
  {
    ghost var e := EmptyPositions(s.board);
    ghost var ts := Threats(s, reasoning);
    removals := [];
    nonPicks := {};
    for idx := 0 to |states|
      invariant removals == NonEmptyBelow(ts, idx)
      invariant nonPicks == UnionBelow(ts, idx)
    {
      var unsafe := ThreatsAt(states[idx].0, reasoning, s, e[idx]);
      assert unsafe == ts[idx];
      if unsafe != {} {
        removals := removals + [idx];
      }
      nonPicks := nonPicks + unsafe;
    }
    ScanRemovals(s, reasoning);
    ScanAvoided(s, reasoning);
  }

  /** `collect()` of a hash set: every element once, in an order the hasher decides. */
  method Collect(from: set<Piece>) returns (r: seq<Piece>)
    ensures forall p :: p in r <==> p in from
    ensures |r| == |from|
  {
    r := [];
    var left := from;
    while left != {}
      invariant left <= from
      invariant forall p :: p in r <==> p in from && p !in left
      invariant |r| + |left| == |from|
      decreases |left|
    {
      var p :| p in left;
      r := r + [p];
      left := left - {p};
    }
  }

  /** A sequence has at least as many entries as distinct elements. */
  lemma {:induction false} DistinctAtMostLength<T>(xs: seq<T>)
    ensures |set x | x in xs| <= |xs|
  {
    if xs != [] {
      DistinctAtMostLength(xs[1..]);
      assert (set x | x in xs) == (set x | x in xs[1..]) + {xs[0]};
    }
  }

  /** The first `n` candidate states whose index is not in `removals`, in order. */
  function KeepBelow(states: seq<(Game, Pos)>, removals: seq<nat>, n: nat): seq<(Game, Pos)>
    requires n <= |states|
  {
    if n == 0 then []
    else KeepBelow(states, removals, n - 1) + (if n - 1 in removals then [] else [states[n - 1]])
  }

  /** The empty cells among the first `n` of the row-major scan that no remaining piece threatens after. */
  ghost function KeptBelow(s: GameState, reasoning: bool, n: nat): seq<Pos>
    requires s.status.Move? && n <= |EmptyPositions(s.board)|
  {
    if n == 0 then []
    else
      var c := EmptyPositions(s.board)[n - 1];
      KeptBelow(s, reasoning, n - 1) + (if Discarded(s, reasoning, c) then [] else [c])
  }

  /** The placements the look-ahead keeps, in row-major order. */
  ghost function KeptPositions(s: GameState, reasoning: bool): seq<Pos>
    requires s.status.Move?
  {
    KeptBelow(s, reasoning, |EmptyPositions(s.board)|)
  }

  lemma {:induction false} KeptBelowMembers(s: GameState, reasoning: bool, n: nat, c: Pos)
    requires s.status.Move? && n <= |EmptyPositions(s.board)|
    ensures c in KeptBelow(s, reasoning, n) <==>
      (exists j :: 0 <= j < n && EmptyPositions(s.board)[j] == c) && !Discarded(s, reasoning, c)
  {
    if n > 0 {
      KeptBelowMembers(s, reasoning, n - 1, c);
    }
  }

  /** The kept placements are exactly the empty cells that are not discarded. */
  lemma KeptPositionsSpec(s: GameState, reasoning: bool, c: Pos)
    requires s.status.Move?
    ensures c in KeptPositions(s, reasoning) <==> InBounds(c) && Cell(s.board, c).None? && !Discarded(s, reasoning, c)
  {
    var e := EmptyPositions(s.board);
    KeptBelowMembers(s, reasoning, |e|, c);
    EmptyPositionsSpec(s.board);
    if c in e {
      var j :| 0 <= j < |e| && e[j] == c;
    }
  }

  /** Filtering the candidate states keeps exactly the kept placements, in order. */
  lemma {:induction false} KeepBelowPositions(states: seq<(Game, Pos)>, removals: seq<nat>, s: GameState, reasoning: bool, n: nat)
    requires s.status.Move? && |states| == |EmptyPositions(s.board)| && n <= |states|
    requires forall j :: 0 <= j < |states| ==> states[j].1 == EmptyPositions(s.board)[j]
    requires forall j :: 0 <= j < |states| ==> (j in removals <==> Discarded(s, reasoning, EmptyPositions(s.board)[j]))
    ensures |KeepBelow(states, removals, n)| == |KeptBelow(s, reasoning, n)|
    ensures forall k :: 0 <= k < |KeepBelow(states, removals, n)| ==>
      KeepBelow(states, removals, n)[k].1 == KeptBelow(s, reasoning, n)[k]
  {
    if n > 0 {
      KeepBelowPositions(states, removals, s, reasoning, n - 1);
    }
  }

  /** The filter: the candidate states whose index is not in `removals`, in order. */
  method KeepStates(states: seq<(Game, Pos)>, removals: seq<nat>)
      returns (kept: seq<(Game, Pos)>, keptIdx: seq<nat>)
    ensures |kept| == |keptIdx| <= |states|
    ensures forall k :: 0 <= k < |kept| ==>
      keptIdx[k] < |states| && keptIdx[k] !in removals && kept[k] == states[keptIdx[k]]
    ensures forall k, l :: 0 <= k < l < |keptIdx| ==> keptIdx[k] < keptIdx[l]
    ensures forall j :: 0 <= j < |states| && j !in removals ==> j in keptIdx
    ensures kept == KeepBelow(states, removals, |states|)
  {
    kept, keptIdx := [], [];
    for idx := 0 to |states|
      invariant kept == KeepBelow(states, removals, idx)
      invariant |kept| == |keptIdx| <= idx
      invariant forall k :: 0 <= k < |kept| ==>
        keptIdx[k] < idx && keptIdx[k] !in removals && kept[k] == states[keptIdx[k]]
      invariant forall k, l :: 0 <= k < l < |keptIdx| ==> keptIdx[k] < keptIdx[l]
      invariant forall j :: 0 <= j < idx && j !in removals ==> j in keptIdx
    {
      if idx !in removals {
        kept := kept + [states[idx]];
        keptIdx := keptIdx + [idx];
      }
    }
  }

  // ---------------------------------------------------------------------
  // The decision of `play_iteratively` on a `Move` status
  // ---------------------------------------------------------------------

  /** `s'` is what the legal move putting the forced piece on `pos` and handing over `handoff` leads to. */
  ghost predicate LegalMove(s: GameState, pos: Pos, handoff: Piece, s': GameState)
  {
    s.status.Move? && InBounds(pos) && Cell(s.board, pos).None? && DoMoveSpec(s, pos, handoff) == (true, s')
  }

  /** A winning placement exists: the first one, handing over `remaining[0]` (the forced piece when none is left). */
  ghost predicate WinningChoice(s: GameState, pos: Pos, handoff: Piece)
    requires s.status.Move?
  {
    FirstWinningCell(s.board, s.status.nextPiece, pos)
    && handoff == (if s.remaining == [] then s.status.nextPiece else s.remaining[0])
  }

  /** Loss is imminent: the first empty cell, and any remaining piece (the forced one when none is left). */
  ghost predicate LossChoice(s: GameState, pos: Pos, handoff: Piece)
    requires s.status.Move?
  {
    FirstEmpty(s.board, pos)
    && (if s.remaining == [] then handoff == s.status.nextPiece else handoff in s.remaining)
  }

  /**
   * Some piece is not avoided: a remaining piece, and whenever some empty
   * cell is kept, a piece that is not avoided on a cell that is kept.
   */
  ghost predicate FilteredChoice(s: GameState, reasoning: bool, pos: Pos, handoff: Piece)
    requires s.status.Move?
  {
    handoff in s.remaining
    && ((exists c: Pos :: InBounds(c) && Cell(s.board, c).None? && !Discarded(s, reasoning, c)) ==>
          handoff !in Avoided(s, reasoning) && !Discarded(s, reasoning, pos))
  }

  /** The three branches of the decision, in the order the source tries them. */
  ghost predicate FollowsStrategy(s: GameState, reasoning: bool, pos: Pos, handoff: Piece)
    requires s.status.Move?
  {
    if CanWinWith(s.board, s.status.nextPiece) then WinningChoice(s, pos, handoff)
    else if (set p | p in s.remaining) <= Avoided(s, reasoning) then LossChoice(s, pos, handoff)
    else FilteredChoice(s, reasoning, pos, handoff)
  }

  /** The game the caller is left with: untouched after a win (the move is made on a clone), moved otherwise. */
  ghost function AfterPlay(s: GameState, s': GameState): GameState
    requires s.status.Move?
  {
    if CanWinWith(s.board, s.status.nextPiece) then s else s'
  }

  // ---------------------------------------------------------------------
  // The generator's draws in one turn
  // ---------------------------------------------------------------------

  /**
   * What the generator decides in one `Move` turn: whether every draw got an
   * answer within its fuel, the placement and the hand-off the draws fix
   * (None where no draw fixes them, or where the hand-off is taken from the
   * unordered set of potential picks), and the generator's state after.
   */
  datatype Draws = Draws(complete: bool, pos: Option<Pos>, handoff: Option<Piece>, after: RandState)

  /** The move matches the draws: it is made iff they all got answers, on the placement and hand-off they fix. */
  predicate Drawn(d: Draws, made: bool, pos: Pos, handoff: Piece)
  {
    && (made <==> d.complete)
    && (made && d.pos.Some? ==> pos == d.pos.value)
    && (made && d.handoff.Some? ==> handoff == d.handoff.value)
  }

  /** The loss shortcut: one draw among the remaining pieces, none when no piece is left. */
  function LossDraws(remaining: seq<Piece>, st: RandState, fuel: nat): (d: Draws)
    requires |remaining| <= Size * Size
    ensures remaining == [] ==> d == Draws(true, None, None, st)
    ensures d.pos.None?
    ensures d.handoff.Some? ==> d.handoff.value in remaining
  {
    if remaining == [] then Draws(true, None, None, st)
    else
      var h := ChooseSpec(st, remaining, fuel);
      Draws(h.0.Some?, None, h.0, h.1)
  }

  /**
   * The filtered choice: a draw among the `picks` potential picks; then one
   * among the kept cells when there is one, otherwise one among the
   * remaining pieces and one among the empty cells.
   */
  function FilteredDraws(picks: nat, kept: seq<Pos>, remaining: seq<Piece>, empty: seq<Pos>, st: RandState, fuel: nat)
      : (d: Draws)
    requires 0 < picks <= Size * Size && |kept| <= Size * Size
    requires 0 < |remaining| <= Size * Size && 0 < |empty| <= Size * Size
    ensures d.complete ==> d.pos.Some? && (d.pos.value in kept || (kept == [] && d.pos.value in empty))
    ensures d.handoff.Some? <==> d.complete && kept == []
    ensures d.handoff.Some? ==> d.handoff.value in remaining
  {
    var first := BelowSpec(st, picks, fuel);
    if first.0.None? then Draws(false, None, None, first.1)
    else PlacementDraws(kept, remaining, empty, first.1, fuel)
  }

  /** After the potential pick: one draw among the kept cells, or the draws of `AnywhereDraws` when none is kept. */
  function PlacementDraws(kept: seq<Pos>, remaining: seq<Piece>, empty: seq<Pos>, st: RandState, fuel: nat): (d: Draws)
    requires |kept| <= Size * Size && 0 < |remaining| <= Size * Size && 0 < |empty| <= Size * Size
    ensures d.complete ==> d.pos.Some? && (d.pos.value in kept || (kept == [] && d.pos.value in empty))
    ensures d.handoff.Some? <==> d.complete && kept == []
    ensures d.handoff.Some? ==> d.handoff.value in remaining
  {
    if kept != [] then
      var p := ChooseSpec(st, kept, fuel);
      Draws(p.0.Some?, p.0, None, p.1)
    else AnywhereDraws(remaining, empty, st, fuel)
  }

  /** Every cell is discarded: a draw among the remaining pieces, then one among the empty cells. */
  function AnywhereDraws(remaining: seq<Piece>, empty: seq<Pos>, st: RandState, fuel: nat): (d: Draws)
    requires 0 < |remaining| <= Size * Size && 0 < |empty| <= Size * Size
    ensures d.complete <==> d.pos.Some? && d.handoff.Some?
    ensures d.pos.Some? ==> d.pos.value in empty
    ensures d.handoff.Some? ==> d.handoff.value in remaining
  {
    var h := ChooseSpec(st, remaining, fuel);
    if h.0.None? then Draws(false, None, None, h.1)
    else
      var p := ChooseSpec(h.1, empty, fuel);
      Draws(p.0.Some?, p.0, if p.0.Some? then h.0 else None, p.1)
  }

  lemma {:induction false} KeptBelowLength(s: GameState, reasoning: bool, n: nat)
    requires s.status.Move? && n <= |EmptyPositions(s.board)|
    ensures |KeptBelow(s, reasoning, n)| <= n
  {
    if n > 0 {
      KeptBelowLength(s, reasoning, n - 1);
    }
  }

  /** The sizes the draws of a turn are taken over. */
  lemma DrawBounds(s: GameState, reasoning: bool)
    requires Inv(s) && s.status.Move?
    ensures 0 < |EmptyPositions(s.board)| <= Size * Size && |s.remaining| < Size * Size
    ensures |KeptPositions(s, reasoning)| <= Size * Size
    ensures |(set p | p in s.remaining) - Avoided(s, reasoning)| <= |s.remaining|
  {
    MoveHasEmptyCell(s);
    EmptyPositionsSpec(s.board);
    KeptBelowLength(s, reasoning, |EmptyPositions(s.board)|);
    DistinctAtMostLength(s.remaining);
    assert (set p | p in s.remaining) - Avoided(s, reasoning) <= (set p | p in s.remaining);
    SubsetCard((set p | p in s.remaining) - Avoided(s, reasoning), set p | p in s.remaining);
  }

  lemma SubsetCard<T>(a: set<T>, b: set<T>)
    requires a <= b
    ensures |a| <= |b|
  {
    assert b == a + (b - a);
  }

  /** The draws of a whole `Move` turn, following the three branches of the strategy. */
  ghost function MoveDraws(s: GameState, reasoning: bool, st: RandState, fuel: nat): Draws
    requires Inv(s) && s.status.Move?
  {
    DrawBounds(s, reasoning);
    var remaining := set p | p in s.remaining;
    if CanWinWith(s.board, s.status.nextPiece) then Draws(true, None, None, st)
    else if remaining <= Avoided(s, reasoning) then LossDraws(s.remaining, st, fuel)
    else
      assert remaining - Avoided(s, reasoning) != {};
      FilteredDraws(|remaining - Avoided(s, reasoning)|, KeptPositions(s, reasoning), s.remaining,
                    EmptyPositions(s.board), st, fuel)
  }

  /** Without a win and with every piece avoided, the turn draws as `LossDraws`. */
  lemma MoveDrawsLoss(s: GameState, reasoning: bool, st: RandState, fuel: nat)
    requires Inv(s) && s.status.Move? && !CanWinWith(s.board, s.status.nextPiece)
    requires (set p | p in s.remaining) <= Avoided(s, reasoning)
    ensures |s.remaining| <= Size * Size
    ensures MoveDraws(s, reasoning, st, fuel) == LossDraws(s.remaining, st, fuel)
  {
    DrawBounds(s, reasoning);
  }

  /** Without a win and with some piece `p` not avoided, the turn draws as `FilteredDraws` over the `n` potential picks. */
  lemma MoveDrawsFiltered(s: GameState, reasoning: bool, st: RandState, fuel: nat, p: Piece, n: nat)
    requires Inv(s) && s.status.Move? && !CanWinWith(s.board, s.status.nextPiece)
    requires p in (set q | q in s.remaining) - Avoided(s, reasoning)
    requires n == |(set q | q in s.remaining) - Avoided(s, reasoning)|
    ensures 0 < n <= Size * Size && 0 < |EmptyPositions(s.board)| <= Size * Size
    ensures |s.remaining| <= Size * Size && |KeptPositions(s, reasoning)| <= Size * Size
    ensures MoveDraws(s, reasoning, st, fuel)
         == FilteredDraws(n, KeptPositions(s, reasoning), s.remaining, EmptyPositions(s.board), st, fuel)
  {
    DrawBounds(s, reasoning);
  }

  lemma WinningFollows(s: GameState, reasoning: bool, pos: Pos, handoff: Piece, s': GameState)
    requires s.status.Move? && WinningChoice(s, pos, handoff)
    ensures CanWinWith(s.board, s.status.nextPiece)
    ensures FollowsStrategy(s, reasoning, pos, handoff) && AfterPlay(s, s') == s
  {
    assert CanWinWith(s.board, s.status.nextPiece) by {
      assert InBounds(pos) && Cell(s.board, pos).None? && Wins(PutCell(s.board, pos, s.status.nextPiece));
    }
  }

  lemma LossFollows(s: GameState, reasoning: bool, pos: Pos, handoff: Piece, s': GameState)
    requires s.status.Move? && !CanWinWith(s.board, s.status.nextPiece)
    requires (set p | p in s.remaining) <= Avoided(s, reasoning) && LossChoice(s, pos, handoff)
    ensures FollowsStrategy(s, reasoning, pos, handoff) && AfterPlay(s, s') == s'
  {
  }

  lemma FilteredFollows(s: GameState, reasoning: bool, pos: Pos, handoff: Piece, s': GameState)
    requires s.status.Move? && !CanWinWith(s.board, s.status.nextPiece)
    requires !((set p | p in s.remaining) <= Avoided(s, reasoning)) && FilteredChoice(s, reasoning, pos, handoff)
    ensures FollowsStrategy(s, reasoning, pos, handoff) && AfterPlay(s, s') == s'
  {
  }

  /** No piece survives the filter: every remaining piece is avoided. */
  lemma AllAvoided(s: GameState, reasoning: bool, nonPicks: set<Piece>, potentialPicks: seq<Piece>)
    requires s.status.Move? && nonPicks == Avoided(s, reasoning) && |potentialPicks| == 0
    requires forall p :: p in potentialPicks <==> p in (set p | p in s.remaining) - nonPicks
    ensures (set p | p in s.remaining) <= Avoided(s, reasoning)
  {
    forall p | p in s.remaining ensures p in Avoided(s, reasoning) {
      assert p !in potentialPicks;
    }
  }

  /** With no kept position every empty cell is discarded. */
  lemma NoneKept(s: GameState, reasoning: bool)
    requires s.status.Move? && KeptPositions(s, reasoning) == []
    ensures forall c: Pos :: InBounds(c) && Cell(s.board, c).None? ==> Discarded(s, reasoning, c)
  {
    forall c: Pos | InBounds(c) && Cell(s.board, c).None? ensures Discarded(s, reasoning, c) {
      KeptPositionsSpec(s, reasoning, c);
    }
  }

  /** The early return on a winning placement: the move is made on a clone and `game` is left alone. */
  method TakeWin(game: Game, pos: Pos) returns (next: Game, ghost handoff: Piece)
    requires game.Valid() && Inv(game.State()) && game.status.Move?
    requires FirstWinningCell(game.State().board, game.status.nextPiece, pos)
    ensures fresh(next) && fresh(next.field) && fresh(next.field.cells) && next.Valid() && Inv(next.State())
    ensures next.aiReasoning == game.aiReasoning
    ensures LegalMove(game.State(), pos, handoff, next.State())
    ensures WinningChoice(game.State(), pos, handoff)
  {
    ghost var s := game.State();
    var our := game.status.nextPiece;
    next := new Game.Copy(game);
    var nextPiece := if |game.remaining| == 0 then our else game.remaining[0];
    var ok := next.DoMove(pos, nextPiece);
    DoMovePreservesInv(s, pos, nextPiece);
    handoff := nextPiece;
  }

  /** `game.do_move(pos, handoff)` on a legal move, then `game.clone()`. */
  method Commit(game: Game, pos: Pos, handoff: Piece) returns (next: Game)
    requires game.Valid() && Inv(game.State()) && game.status.Move?
    requires InBounds(pos) && Cell(game.State().board, pos).None?
    requires game.remaining == [] || handoff in game.remaining
    modifies game, game.field.cells
    ensures game.Valid() && game.aiReasoning == old(game.aiReasoning)
    ensures LegalMove(old(game.State()), pos, handoff, game.State())
    ensures fresh(next) && next.Valid() && next.State() == game.State() && Inv(next.State())
    ensures next.aiReasoning == game.aiReasoning
  {
    ghost var s := game.State();
    var ok := game.DoMove(pos, handoff);
    DoMovePreservesInv(s, pos, handoff);
    next := new Game.Copy(game);
  }

  /** Choosing among the candidate states draws as choosing among their placements does. */
  lemma ChooseProjection(st: RandState, states: seq<(Game, Pos)>, cells: seq<Pos>, fuel: nat)
    requires 0 < |states| == |cells| <= Size * Size
    requires forall k :: 0 <= k < |states| ==> states[k].1 == cells[k]
    ensures ChooseSpec(st, states, fuel).1 == ChooseSpec(st, cells, fuel).1
    ensures ChooseSpec(st, states, fuel).0.Some? <==> ChooseSpec(st, cells, fuel).0.Some?
    ensures ChooseSpec(st, states, fuel).0.Some? ==> ChooseSpec(st, states, fuel).0.value.1 == ChooseSpec(st, cells, fuel).0.value
  {
    BelowInRange(st, |states|, fuel);
  }

  // ---------------------------------------------------------------------
  // The AI
  // ---------------------------------------------------------------------

  class SimpleAi {
    const ownPlayer: Player
    /** Search depth of the unfinished recursive `play`; unused here. */
    const depth: nat
    const rng: RomuDuoJrRand

    /** `SimpleAi::new` with the wall-clock seed passed in explicitly. */
    constructor WithSeed(ownPlayer: Player, depth: nat, seed: u64)
      ensures this.ownPlayer == ownPlayer && this.depth == depth
      ensures fresh(rng) && rng.State() == Seeded(seed)
    {
      this.ownPlayer := ownPlayer;
      this.depth := depth;
      rng := new RomuDuoJrRand.WithSeed(seed);
    }

    /**
     * `play_iteratively`. The source panics when the game is over and when
     * the first move is not the AI's. Every draw from the generator gets at
     * most `fuel` tries; None means they ran out, before the game changed.
     * `pos` and `handoff` name the placement and the piece handed over.
     */
    method PlayIteratively(game: Game, fuel: nat) returns (next: Option<Game>, ghost pos: Pos, ghost handoff: Piece)
      requires game.Valid() && Inv(game.State()) && game.status.Running()
      requires game.status.InitialMove? ==> game.status.startingPlayer == ownPlayer
      modifies game, game.field.cells, rng
      ensures game.Valid() && game.aiReasoning == old(game.aiReasoning)
      ensures next.None? ==> game.State() == old(game.State())
      ensures next.Some? ==> fresh(next.value) && next.value.Valid() && Inv(next.value.State())
      // The first turn hands over a remaining piece and leaves the board alone.
      ensures next.Some? && old(game.status).InitialMove? ==>
        InitialMoveSpec(old(game.State()), handoff) == (true, game.State())
        && next.value.State() == game.State()
      // Every later turn is a legal move chosen by the strategy; a win is played on a clone.
      ensures next.Some? && old(game.status).Move? ==>
        LegalMove(old(game.State()), pos, handoff, next.value.State())
        && FollowsStrategy(old(game.State()), old(game.aiReasoning), pos, handoff)
        && game.State() == AfterPlay(old(game.State()), next.value.State())
      // The first turn makes one draw among the remaining pieces.
      ensures old(game.status).InitialMove? ==>
        0 < |old(game.remaining)| <= Size * Size
        && rng.State() == ChooseSpec(old(rng.State()), old(game.remaining), fuel).1
        && (next.Some? <==> ChooseSpec(old(rng.State()), old(game.remaining), fuel).0.Some?)
        && (next.Some? ==> handoff == ChooseSpec(old(rng.State()), old(game.remaining), fuel).0.value)
      ensures old(game.status).Move? ==>
        rng.State() == MoveDraws(old(game.State()), old(game.aiReasoning), old(rng.State()), fuel).after
        && Drawn(MoveDraws(old(game.State()), old(game.aiReasoning), old(rng.State()), fuel), next.Some?, pos, handoff)
    {
      if game.status.InitialMove? {
        ghost var s := game.State();
        InitialMoveHasAllPieces(s);
        var piece := rng.Choose(game.remaining, fuel);
        if piece.None? {
          return None, (0, 0), Piece(0);
        }
        var ok := game.InitialMove(piece.value);
        InitialMovePreservesInv(s, piece.value);
        var c := new Game.Copy(game);
        return Some(c), (0, 0), piece.value;
      }
      next, pos, handoff := PlayMove(game, fuel);
    }

    /** The `Status::Move` arm of `play_iteratively`. */
    method PlayMove(game: Game, fuel: nat) returns (next: Option<Game>, ghost pos: Pos, ghost handoff: Piece)
      requires game.Valid() && Inv(game.State()) && game.status.Move?
      modifies game, game.field.cells, rng
      ensures game.Valid() && game.aiReasoning == old(game.aiReasoning)
      ensures next.None? ==> game.State() == old(game.State())
      ensures next.Some? ==>
        fresh(next.value) && next.value.Valid() && Inv(next.value.State())
        && LegalMove(old(game.State()), pos, handoff, next.value.State())
        && FollowsStrategy(old(game.State()), old(game.aiReasoning), pos, handoff)
        && game.State() == AfterPlay(old(game.State()), next.value.State())
      // The generator advances exactly by the draws the strategy makes; a win draws nothing.
      ensures rng.State() == MoveDraws(old(game.State()), old(game.aiReasoning), old(rng.State()), fuel).after
      ensures Drawn(MoveDraws(old(game.State()), old(game.aiReasoning), old(rng.State()), fuel), next.Some?, pos, handoff)
    {
      ghost var s := game.State();
      ghost var reasoning := game.aiReasoning;
      var t := new Game.Copy(game);
      var our := game.status.nextPiece;
      MoveHasEmptyCell(s);
      var empties := t.field.EmptySpaces();
      var states, winning := CandidateStates(t, our, empties);
      if winning.Some? {
        ScanFirstWin(s.board, our, winning.value);
        var newGame, h := TakeWin(game, empties[winning.value]);
        WinningFollows(s, reasoning, empties[winning.value], h, newGame.State());
        return Some(newGame), empties[winning.value], h;
      }
      CanWinWithByScan(s.board, our);
      next, pos, handoff := PlayNoWin(game, states, fuel, s, reasoning);
    }

    /** The rest of the `Status::Move` arm, once no placement of the forced piece wins. */
    method PlayNoWin(game: Game, states: seq<(Game, Pos)>, fuel: nat, ghost s: GameState, ghost reasoning: bool)
        returns (next: Option<Game>, ghost pos: Pos, ghost handoff: Piece)
      requires game.Valid() && Inv(game.State()) && s == game.State() && s.status.Move?
      requires reasoning == game.aiReasoning && !CanWinWith(s.board, s.status.nextPiece)
      requires |states| == |EmptyPositions(s.board)|
      requires forall j :: 0 <= j < |states| ==>
        states[j].1 == EmptyPositions(s.board)[j] && InBounds(states[j].1) && states[j].0.Valid()
        && states[j].0.State().remaining == s.remaining
        && states[j].0.State().board == PutCell(s.board, states[j].1, s.status.nextPiece)
      modifies game, game.field.cells, rng
      ensures game.Valid() && game.aiReasoning == old(game.aiReasoning)
      ensures next.None? ==> game.State() == s
      ensures next.Some? ==>
        fresh(next.value) && next.value.Valid() && Inv(next.value.State())
        && LegalMove(s, pos, handoff, next.value.State())
        && FollowsStrategy(s, reasoning, pos, handoff)
        && game.State() == AfterPlay(s, next.value.State())
      ensures rng.State() == MoveDraws(s, reasoning, old(rng.State()), fuel).after
      ensures Drawn(MoveDraws(s, reasoning, old(rng.State()), fuel), next.Some?, pos, handoff)
    {
      MoveHasEmptyCell(s);
      var removals, nonPicks := LookAhead(states, game.aiReasoning, s);
      var remainingSet := set p | p in game.remaining;
      var potentialPicks := Collect(remainingSet - nonPicks);

      if |potentialPicks| == 0 {
        AllAvoided(s, reasoning, nonPicks, potentialPicks);
        ScanFirstEmpty(s.board);
        next, handoff := PlayLoss(game, states[0].1, fuel);
        pos := states[0].1;
        MoveDrawsLoss(s, reasoning, old(rng.State()), fuel);
        if next.Some? {
          LossFollows(s, reasoning, pos, handoff, next.value.State());
        }
        return;
      }
      DistinctAtMostLength(game.remaining);
      assert |remainingSet - nonPicks| <= |remainingSet|;
      next, pos, handoff := PlayFiltered(game, states, removals, potentialPicks, fuel, s, reasoning);
      MoveDrawsFiltered(s, reasoning, old(rng.State()), fuel, potentialPicks[0], |potentialPicks|);
      if next.Some? {
        assert potentialPicks[0] in potentialPicks;
        FilteredFollows(s, reasoning, pos, handoff, next.value.State());
      }
    }

    /** Loss is imminent: the first empty cell, and a random remaining piece (the forced one when none is left). */
    method PlayLoss(game: Game, pos: Pos, fuel: nat) returns (next: Option<Game>, ghost handoff: Piece)
      requires game.Valid() && Inv(game.State()) && game.status.Move?
      requires FirstEmpty(game.State().board, pos)
      modifies game, game.field.cells, rng
      ensures game.Valid() && game.aiReasoning == old(game.aiReasoning)
      ensures next.None? ==> game.State() == old(game.State())
      ensures next.Some? ==>
        fresh(next.value) && next.value.Valid() && Inv(next.value.State()) && next.value.State() == game.State()
        && LegalMove(old(game.State()), pos, handoff, game.State())
        && LossChoice(old(game.State()), pos, handoff)
      ensures |old(game.remaining)| <= Size * Size
      ensures rng.State() == LossDraws(old(game.remaining), old(rng.State()), fuel).after
      ensures Drawn(LossDraws(old(game.remaining), old(rng.State()), fuel), next.Some?, pos, handoff)
    {
      ghost var s := game.State();
      MoveHasEmptyCell(s);
      var our := game.status.nextPiece;
      if |game.remaining| == 0 {
        var c := Commit(game, pos, our);
        return Some(c), our;
      }
      var randomPiece := rng.Choose(game.remaining, fuel);
      if randomPiece.None? {
        return None, Piece(0);
      }
      var c := Commit(game, pos, randomPiece.value);
      return Some(c), randomPiece.value;
    }

    /**
     * Some piece is not avoided: a random one of them, on a random kept
     * cell; when every cell is discarded, a random remaining piece on a
     * random empty cell.
     */
    method PlayFiltered(game: Game, states: seq<(Game, Pos)>, removals: seq<nat>, potentialPicks: seq<Piece>,
                        fuel: nat, ghost s: GameState, ghost reasoning: bool)
        returns (next: Option<Game>, ghost pos: Pos, ghost handoff: Piece)
      requires game.Valid() && Inv(game.State()) && s == game.State() && s.status.Move?
      requires |states| == |EmptyPositions(s.board)|
      requires forall j :: 0 <= j < |states| ==> states[j].1 == EmptyPositions(s.board)[j]
      requires forall j :: 0 <= j < |states| ==> (j in removals <==> Discarded(s, reasoning, EmptyPositions(s.board)[j]))
      requires 0 < |potentialPicks| <= |s.remaining|
      requires forall p :: p in potentialPicks ==> p in s.remaining && p !in Avoided(s, reasoning)
      modifies game, game.field.cells, rng
      ensures game.Valid() && game.aiReasoning == old(game.aiReasoning)
      ensures next.None? ==> game.State() == s
      ensures next.Some? ==>
        fresh(next.value) && next.value.Valid() && Inv(next.value.State()) && next.value.State() == game.State()
        && LegalMove(s, pos, handoff, game.State())
        && FilteredChoice(s, reasoning, pos, handoff)
      ensures |s.remaining| <= Size * Size && 0 < |EmptyPositions(s.board)| <= Size * Size
      ensures |KeptPositions(s, reasoning)| <= Size * Size
      ensures rng.State() == FilteredDraws(|potentialPicks|, KeptPositions(s, reasoning), s.remaining,
                                           EmptyPositions(s.board), old(rng.State()), fuel).after
      ensures Drawn(FilteredDraws(|potentialPicks|, KeptPositions(s, reasoning), s.remaining,
                                  EmptyPositions(s.board), old(rng.State()), fuel), next.Some?, pos, handoff)
    {
      MoveHasEmptyCell(s);
      EmptyPositionsSpec(s.board);
      DrawBounds(s, reasoning);
      var pick := rng.Choose(potentialPicks, fuel);
      if pick.None? {
        return None, (0, 0), Piece(0);
      }
      var kept, keptIdx := KeepStates(states, removals);
      KeepBelowPositions(states, removals, s, reasoning, |states|);
      next, pos, handoff := PlayPlacement(game, kept, pick.value, fuel, s, reasoning);
    }

    /**
     * After the potential pick `pick`: that piece on a random kept cell, or,
     * when every cell is discarded, a random remaining piece on a random
     * empty cell.
     */
    method PlayPlacement(game: Game, kept: seq<(Game, Pos)>, pick: Piece,
                         fuel: nat, ghost s: GameState, ghost reasoning: bool)
        returns (next: Option<Game>, ghost pos: Pos, ghost handoff: Piece)
      requires game.Valid() && Inv(game.State()) && s == game.State() && s.status.Move? && pick in s.remaining
      requires |kept| == |KeptPositions(s, reasoning)|
      requires forall k :: 0 <= k < |kept| ==> kept[k].1 == KeptPositions(s, reasoning)[k]
      modifies game, game.field.cells, rng
      ensures game.Valid() && game.aiReasoning == old(game.aiReasoning)
      ensures next.None? ==> game.State() == s
      ensures next.Some? ==>
        fresh(next.value) && next.value.Valid() && Inv(next.value.State()) && next.value.State() == game.State()
        && LegalMove(s, pos, handoff, game.State()) && handoff in s.remaining
      ensures next.Some? && (exists c: Pos :: InBounds(c) && Cell(s.board, c).None? && !Discarded(s, reasoning, c)) ==>
        handoff == pick && !Discarded(s, reasoning, pos)
      ensures |s.remaining| <= Size * Size && 0 < |EmptyPositions(s.board)| <= Size * Size
      ensures |KeptPositions(s, reasoning)| <= Size * Size
      ensures rng.State() == PlacementDraws(KeptPositions(s, reasoning), s.remaining, EmptyPositions(s.board),
                                            old(rng.State()), fuel).after
      ensures Drawn(PlacementDraws(KeptPositions(s, reasoning), s.remaining, EmptyPositions(s.board),
                                   old(rng.State()), fuel), next.Some?, pos, handoff)
    {
      DrawBounds(s, reasoning);
      if |kept| == 0 {
        next, pos, handoff := PlayAnywhere(game, fuel, s);
        NoneKept(s, reasoning);
        return;
      }
      next, pos := PlayKept(game, kept, pick, fuel, s, reasoning);
      handoff := pick;
    }

    /** Some placement is kept: the chosen piece on a random kept cell. */
    method PlayKept(game: Game, kept: seq<(Game, Pos)>, handoff: Piece, fuel: nat, ghost s: GameState, ghost reasoning: bool)
        returns (next: Option<Game>, ghost pos: Pos)
      requires game.Valid() && Inv(game.State()) && s == game.State() && s.status.Move? && handoff in s.remaining
      requires 0 < |kept| == |KeptPositions(s, reasoning)|
      requires forall k :: 0 <= k < |kept| ==> kept[k].1 == KeptPositions(s, reasoning)[k]
      modifies game, game.field.cells, rng
      ensures game.Valid() && game.aiReasoning == old(game.aiReasoning)
      ensures next.None? ==> game.State() == s
      ensures next.Some? ==>
        fresh(next.value) && next.value.Valid() && Inv(next.value.State()) && next.value.State() == game.State()
        && LegalMove(s, pos, handoff, game.State()) && !Discarded(s, reasoning, pos)
      ensures |KeptPositions(s, reasoning)| <= Size * Size
      ensures rng.State() == ChooseSpec(old(rng.State()), KeptPositions(s, reasoning), fuel).1
      ensures next.Some? <==> ChooseSpec(old(rng.State()), KeptPositions(s, reasoning), fuel).0.Some?
      ensures next.Some? ==> pos == ChooseSpec(old(rng.State()), KeptPositions(s, reasoning), fuel).0.value
    {
      DrawBounds(s, reasoning);
      ChooseProjection(rng.State(), kept, KeptPositions(s, reasoning), fuel);
      var state := rng.Choose(kept, fuel);
      if state.None? {
        return None, (0, 0);
      }
      KeptPositionsSpec(s, reasoning, state.value.1);
      var c := Commit(game, state.value.1, handoff);
      return Some(c), state.value.1;
    }

    /** Every placement lets the opponent win: a random remaining piece on a random empty cell. */
    method PlayAnywhere(game: Game, fuel: nat, ghost s: GameState) returns (next: Option<Game>, ghost pos: Pos, ghost handoff: Piece)
      requires game.Valid() && Inv(game.State()) && s == game.State() && s.status.Move? && s.remaining != []
      modifies game, game.field.cells, rng
      ensures game.Valid() && game.aiReasoning == old(game.aiReasoning)
      ensures next.None? ==> game.State() == s
      ensures next.Some? ==>
        fresh(next.value) && next.value.Valid() && Inv(next.value.State()) && next.value.State() == game.State()
        && LegalMove(s, pos, handoff, game.State()) && handoff in s.remaining
      ensures |s.remaining| <= Size * Size && 0 < |EmptyPositions(s.board)| <= Size * Size
      ensures rng.State() == AnywhereDraws(s.remaining, EmptyPositions(s.board), old(rng.State()), fuel).after
      ensures Drawn(AnywhereDraws(s.remaining, EmptyPositions(s.board), old(rng.State()), fuel), next.Some?, pos, handoff)
    {
      MoveHasEmptyCell(s);
      EmptyPositionsSpec(s.board);
      var randomPiece := rng.Choose(game.remaining, fuel);
      if randomPiece.None? {
        return None, (0, 0), Piece(0);
      }
      var spaces := game.field.EmptySpaces();
      var randomPos := rng.Choose(spaces, fuel);
      if randomPos.None? {
        return None, (0, 0), Piece(0);
      }
      var c := Commit(game, randomPos.value, randomPiece.value);
      return Some(c), randomPos.value, randomPiece.value;
    }
  }
}
