# Quarto engine core in Dafny

This project models the core of a Quarto engine written in Rust.

Quarto is played on a 4x4 board with sixteen distinct pieces. Each piece has
four binary attributes: tall, round, full and light. A turn has two parts:

- the player to move places the piece the opponent handed over;
- then the player hands one of the remaining pieces to the opponent.

A player wins by completing a line of four pieces that share an attribute. The
lines are the rows, the columns, the two diagonals and, in this engine, the
nine 2x2 blocks.

The model covers five parts of the engine:

- **Pieces** (`piece.dfy`). A piece is one byte. The low nibble holds the
  attributes. The high nibble is a "shadow" that `set(prop, false)` writes,
  so pieces that all lack an attribute can still share a bit.
- **Board** (`field.dfy`). The `Field` class holds the 16 cells in one array,
  row-major. Its methods are proved against value-level functions on a
  `Board`:
  - `put`, `get`, `clear`;
  - the bitwise-AND win test `check_array_for_win` / `check_field_for_win`;
  - the scan of empty cells `empty_spaces`.
- **Generator** (`rng.dfy`). The RomuDuoJr pseudo-random generator, with
  `below`'s rejection sampling and `choose`.
- **Game** (`game.dfy`). The state machine: an initial hand-off, then moves
  until the game is `Won` or a `Draw`. The `Game` class updates its board,
  its list of remaining pieces and its status in place.
  - An invariant of reachable states is proved to be kept by
    `initial_move` and `do_move`: all pieces are distinct, and while the game
    runs, remaining + placed + forced pieces = 16.
- **AI** (`ai.dfy`). `SimpleAi::play_iteratively`, the one-ply heuristic:
  - win at once if some placement of the forced piece wins;
  - otherwise look one opponent move ahead. When `ai_reasoning` is on, it
    records which hand-off pieces and which placements would let the
    opponent win at once;
  - then choose among the rest with the generator.

  The method is proved to make only legal moves. Each move it returns
  satisfies a declarative description of the strategy (`FollowsStrategy`).
  The generator's state after a turn is pinned down too: it is the state
  after exactly the draws the strategy makes (`MoveDraws`), and a winning
  move draws nothing.
- **Safe moves** (`safe_moves.dfy`). The "loss is imminent" shortcut gives
  up when every remaining piece lets the opponent win after SOME placement.
  The second shortcut, taken when every placement lets SOME remaining piece
  win, hands over a random remaining piece although the potential pick it
  has drawn is safe everywhere. A safe move only needs one placement and one
  piece. A concrete state shows each gap (see "## Findings").
  `GuardedStrategy` and `ChooseSafe` give the corrected choice.

Behaviours of the code that the model keeps on purpose:

- `do_move` with no remaining pieces declares a draw without testing for a
  win, even when the last placement completes a line
  (`Games.DrawWithoutWinCheck`).
- `do_move` with a hand-off piece that is not among the remaining pieces
  fails after the forced piece is already on the board
  (`Games.UnknownHandoffBreaksInv`).
- `Piece::new_with_props` never sets shadow bits. So the byte-0 piece
  (`Piece::new()`) can never be part of a winning line
  (`Fields.ZeroPieceNeverWins`).
- The AI records its look-ahead results (`removals`, `non_picks`) only when
  `ai_reasoning` is on. With it off, the AI does not filter at all
  (`Ai.NoReasoningNoFilter`).
- `Game::round` is `(16 - remaining) / 2 + 1`. It counts hand-offs, not
  placements (`Games.RoundCountsHandoffs`).
- The `Collect` step of the AI picks the order of a hash set's elements
  arbitrarily, because the source's `HashSet` order depends on a randomly
  keyed hasher. So the AI is not reproducible from its seed alone. The
  model leaves that order unconstrained.
- There is no switch for the 2x2-block rule: the blocks always count.

## Model

| member | source | states |
|---|---|---|
| Pieces.Property.Bit | src/piece.rs:9-14 | each attribute is one non-zero bit of the low nibble |
| Pieces.BitsDisjoint | src/piece.rs:9-14 | two different attributes never share a bit |
| Pieces.Piece.New | src/piece.rs:18-20 | `Piece::new()` is byte 0 and has none of the four attributes |
| Pieces.Piece.NewWithProps | src/piece.rs:23-27 | with the high nibble clear (the source asserts it), the piece's byte is `props`; it has an attribute iff `props` has that attribute's bit; it has no shadow bit |
| Pieces.Piece.Get | src/piece.rs:39-41 | an attribute is present iff its bit is set in the low nibble; the shadow nibble never affects the answer |
| Pieces.Piece.Set | src/piece.rs:29-37 | afterwards the attribute reads back as `val`; its shadow bit is set iff `val` is false; every other attribute and every other bit is unchanged |
| Fields.PosOf | src/field.rs:8 | row-major indexing is a bijection between the 16 positions and 0..15 |
| Fields.IndexInjective | src/field.rs:8 | distinct positions have distinct cells |
| Fields.EmptyBoard | src/field.rs:16-18 | the default board has every cell empty |
| Fields.Field.constructor | src/field.rs:16-18 | `Field::new` has every cell empty |
| Fields.Field.Copy | src/field.rs:5 | a derived clone has its own array with the same cells |
| Fields.Field.Clone | src/field.rs:5 | the derived `clone` of a field is a fresh field with its own array holding the same cells |
| Fields.Field.Put | src/field.rs:20-26 | `put` succeeds iff the cell is empty; on success exactly that cell now holds the piece; on failure nothing changes |
| Fields.CellAfterPut | src/field.rs:20-26 | storing a piece changes only the cell at that position |
| Fields.PlacedAfterPut | src/field.rs:20-26 | filling an empty cell adds exactly that piece to the pieces on the board and one to the occupied count |
| Fields.WinsAfterPut | src/field.rs:20-26 | a won board stays won after a successful `put` |
| Fields.Field.Get | src/field.rs:28-30 | `get` reads the cell at the position |
| Fields.Field.Clear | src/field.rs:33-37 | `clear` returns the previous content of the cell and empties only that cell |
| Fields.Field.CheckArrayForWin | src/field.rs:87-101 | four cells win iff all are filled and the AND of their bytes is non-zero |
| Fields.FourWinByAnd | src/field.rs:87-101 | the running AND from all-ones over four filled cells is non-zero iff the line wins |
| Fields.FourWinSharedAttribute | src/field.rs:87-101 | for pieces without shadow bits, four filled cells win iff some attribute is present in all four |
| Fields.Field.CheckFieldForWin | src/field.rs:40-84 | the scan returns true iff a row, column, diagonal, anti-diagonal or 2x2 block wins |
| Fields.NoWinningLine | src/field.rs:40-84 | a board on which none of the nineteen lines wins is not won |
| Fields.Field.EmptySpaces | src/field.rs:103-115 | `empty_spaces` returns the value `EmptyPositions` of the board |
| Fields.EmptyPositionsSpec | src/field.rs:103-115 | the empty positions are exactly the in-bounds empty cells, each once, in strictly increasing row-major order, and there are 16 minus the occupied count of them |
| Fields.ZeroPieceNeverWins | src/field.rs:200-212 | a line holding the byte-0 piece never wins, as the board tests with `Piece::new()` show |
| Fields.LineCompletes | src/field.rs:184-197 | three pieces sharing an attribute on a line do not win, and adding a fourth with that attribute on the last cell does |
| Rng.RomuDuoJrRand.WithSeed | src/rng.rs:11-18 | `with_seed` yields the state derived from the seed, so equal seeds give equal streams |
| Rng.RomuDuoJrRand.SetSeed | src/rng.rs:20-23 | the state becomes the seed XOR-ed with the two fixed constants |
| Rng.RomuDuoJrRand.Next | src/rng.rs:27-32 | `next` returns the old x word and advances the state by one step of wrapping multiply, wrapping subtract and rotate |
| Rng.RomuDuoJrRand.Below | src/rng.rs:35-54 | `below` gives the result and final state of the rejection loop, allowed at most `fuel` draws |
| Rng.BelowTrivial | src/rng.rs:36-38 | `below(n)` with n <= 1 returns 0 and does not advance the generator |
| Rng.BelowInRange | src/rng.rs:45-53 | whatever `below(n)` returns is below n (0 when n <= 1) |
| Rng.DrawBelowAccepted | src/rng.rs:40-53 | an answer is the first draw of the stream below the acceptance bound, reduced modulo n, and the generator ends just after that draw; when the draws run out, every one was rejected and the generator has advanced by all of them |
| Rng.AcceptBoundMultiple | src/rng.rs:48 | the acceptance bound `u64::MAX - u64::MAX % n` is a positive multiple of n, and fewer than n values lie above it |
| Rng.AcceptedCount | src/rng.rs:40-53 | below q*n every residue modulo n is hit by exactly q values |
| Rng.AcceptedUniform | src/rng.rs:40-53 | rejection sampling is unbiased: every residue below n has the same number of accepted draws |
| Rng.ChooseSpec | src/rng.rs:61-78 | `choose` as a value: the generator ends where `below(len)` leaves it, an element is returned iff `below` answers, and that element belongs to the collection |
| Rng.RomuDuoJrRand.Choose | src/rng.rs:61-78 | `choose` returns the element at the index `below(len)` gives, which is an element of the collection; its result and new state are those of `ChooseSpec` |
| Games.Player.Next | src/game.rs:15-20 | `next` yields the other player |
| Games.NextInvolution | src/game.rs:15-20 | `next` has no fixed point and applying it twice is the identity |
| Games.ArrayBase.Based | src/game.rs:58-65 | `based` changes the value iff the base is one (it adds one, wrapping at 2^64) |
| Games.ArrayBase.Unbased | src/game.rs:69-75 | `unbased` changes the value iff the base is one, and `based` undoes it |
| Games.UnbasedBased | src/game.rs:58-75 | `unbased` undoes `based` for every value, including the wrap at 2^64 - 1 |
| Games.Status.Player | src/game.rs:112-119 | every status names exactly one player, the one its variant carries |
| Games.PlayerByQuery | src/game.rs:112-119 | while a piece is forced the status is `Move` of the named player; once the game is over it is `Won` or `Draw` of the named player; before the first hand-off it is `InitialMove` of the named player |
| Games.Status.Winner | src/game.rs:130-136 | there is a winner iff the game is won, and it is the player the status names |
| Games.Status.Running | src/game.rs:122-127 | a game runs iff it has no winner and is not a draw |
| Games.Status.IsInitialMove | src/game.rs:138-140 | the initial move is a running state |
| Games.Status.NextPiece | src/game.rs:142-148 | a forced piece exists iff the game runs and is past the initial move |
| Games.GameState.Round | src/game.rs:106-110 | with at most 16 remaining pieces the round is between 1 and 9, so the conversion to `u8` never fails |
| Games.RoundCountsHandoffs | src/game.rs:106-110 | in a reachable running state the round is the number of pieces handed over, halved, plus one |
| Games.IndexOf | src/game.rs:204-208 | `position` finds the first occurrence, or none iff the piece is absent |
| Games.Position | src/game.rs:204-208 | the linear scan returns the value `IndexOf` gives |
| Games.RemoveAt | src/game.rs:209 | `Vec::remove` drops one element, keeps the order of the others and removes one copy from the multiset |
| Games.CanonicalPieces | src/game.rs:92 | the sixteen starting pieces are the bytes 0 to 15 in order |
| Games.Game.New | src/game.rs:91-104 | `Game::new` has an empty board, the sixteen pieces and the initial-move status, with reasoning off |
| Games.NewGameInv | src/game.rs:91-104 | the new game satisfies the invariant of reachable states |
| Games.Game.Copy | src/game.rs:78 | a derived clone has the same state and its own board |
| Games.InitialMoveSpec | src/game.rs:202-218 | `initial_move` succeeds iff the status is the initial move and the piece remains; on success the first occurrence of the piece is removed and the other player must place it; on failure nothing changes |
| Games.Game.InitialMove | src/game.rs:202-218 | the method's result and new state are those of `InitialMoveSpec` |
| Games.InitialMovePreservesInv | src/game.rs:202-218 | a successful `initial_move` keeps every piece and the invariant |
| Games.InitialMoveHasAllPieces | src/game.rs:202-213 | in a reachable initial move all sixteen pieces remain |
| Games.DoMoveSpec | src/game.rs:222-259 | outside a move or on an occupied cell `do_move` fails and changes nothing; otherwise the forced piece is placed. No remaining pieces gives a draw of the mover, with no win test. A hand-off piece that is not remaining fails with only the forced piece placed. Otherwise the first occurrence of the hand-off piece is removed, the others keeping their order, and the mover wins iff the board wins, else the opponent must place it |
| Games.DrawWithoutWinCheck | src/game.rs:231-237 | placing the last piece so that a line is completed still ends the game in a draw of the mover, not a win |
| Games.Game.DoMove | src/game.rs:222-259 | the method's result and new state are those of `DoMoveSpec` |
| Games.DoMovePool | src/game.rs:222-259 | a successful `do_move` loses no piece while the game goes on, and a win only drops the hand-off piece |
| Games.DoMovePreservesInv | src/game.rs:222-259 | a successful `do_move` keeps the invariant of reachable states |
| Games.UnknownHandoffBreaksInv | src/game.rs:240-244 | the failure for an unknown hand-off piece leaves the forced piece both on the board and in the status, outside the invariant |
| Games.MoveHasEmptyCell | src/game.rs:224-230 | in a reachable move state the forced piece has an empty cell, and the remaining count is 15 minus the occupied count |
| Games.PlayerAfterMove | src/game.rs:247-254 | after a successful move the status names the opponent, unless the game ended |
| Games.UnmoveSpec | src/game.rs:263-289 | `unmove` clears the cell, puts its piece back at the end of the remaining pieces and makes it the forced piece again, or returns to the initial move with all sixteen back |
| Games.Game.Unmove | src/game.rs:263-289 | the method's new state is that of `UnmoveSpec` |
| Games.UnmoveRestoresBoard | src/game.rs:297-305 | `unmove` after a successful `do_move` at the same cell restores the board |
| Ai.CanWinWithByScan | src/ai.rs:140-165 | scanning every empty cell in row-major order decides whether the forced piece can win |
| Ai.ScanFirstWin | src/ai.rs:148-161 | the first hit of the scan is the first winning cell in row-major order |
| Ai.ScanFirstEmpty | src/ai.rs:228-234 | the head of the scan of empty cells is the first empty cell |
| Ai.Candidate | src/ai.rs:142-190 | one candidate (our placement at lines 142-149, and the opponent reply tried at lines 185-190) is a fresh clone with the piece placed on the empty cell, the same remaining pieces and status, and `win` tells whether that board is won |
| Ai.CandidateStates | src/ai.rs:138-165 | either it reports the first winning placement, or no placement wins and there is one candidate state per empty cell, in order, with the forced piece placed there |
| Ai.OpponentThreats | src/ai.rs:181-200 | for one candidate state, the remaining pieces that win on some empty cell, collected only when reasoning is on |
| Ai.ThreatsAt | src/ai.rs:179-201 | these are exactly the pieces that threaten after our placement on that cell |
| Ai.LookAhead | src/ai.rs:171-202 | `removals` lists exactly the placements after which some remaining piece wins at once; `non_picks` is exactly the set of pieces that win after some placement; both are empty with reasoning off |
| Ai.ScanRemovals | src/ai.rs:179-202 | the full scan records exactly the discarded placements |
| Ai.ScanAvoided | src/ai.rs:179-202 | the full scan collects exactly the avoided pieces |
| Ai.DiscardedIffThreats | src/ai.rs:193-199 | a placement is recorded iff some remaining piece threatens after it |
| Ai.NoReasoningNoFilter | src/ai.rs:193 | with reasoning off no piece is avoided and no placement is dropped |
| Ai.SafeHandoffNoImmediateLoss | src/ai.rs:213-216 | a piece that is not avoided cannot win at once after any placement of ours |
| Ai.Collect | src/ai.rs:213-216 | collecting a set lists every element exactly once |
| Ai.KeepStates | src/ai.rs:242-251 | the kept states are those whose index is not in `removals`, in their original order |
| Ai.KeptPositionsSpec | src/ai.rs:241-251 | a position is kept iff it is an empty in-bounds cell that is not discarded |
| Ai.KeepBelowPositions | src/ai.rs:241-251 | the kept states are, in order, one per kept position, each at that position |
| Ai.AllAvoided | src/ai.rs:222-224 | no potential pick means every remaining piece is avoided |
| Ai.NoneKept | src/ai.rs:253-254 | with no kept position every empty cell is discarded |
| Ai.ChooseProjection | src/ai.rs:266-267 | choosing among the kept states draws the same index, and so the same position, as choosing among their positions |
| Ai.LossDraws | src/ai.rs:228-235 | the shortcut draws nothing when no piece remains; otherwise one draw among the remaining pieces, whose result is the hand-off |
| Ai.FilteredDraws | src/ai.rs:239-272 | one draw among the potential picks, then the placement draws; a turn completes only if every draw answers |
| Ai.PlacementDraws | src/ai.rs:253-272 | with kept cells, one draw among them that gives the cell; otherwise the draws of `AnywhereDraws` |
| Ai.AnywhereDraws | src/ai.rs:258-262 | one draw among the remaining pieces for the hand-off, then one among the empty cells for the placement |
| Ai.MoveDrawsLoss | src/ai.rs:222-235 | without a win and with every piece avoided, the turn draws as the shortcut does |
| Ai.MoveDrawsFiltered | src/ai.rs:222-272 | without a win and with some piece not avoided, the turn draws as the filtered choice does, over as many picks as there are pieces not avoided |
| Ai.TakeWin | src/ai.rs:148-161 | the winning move is played on a clone: the first winning cell, handing over the first remaining piece (or the forced one if none is left) |
| Ai.Commit | src/ai.rs:271-273 | `do_move` on a legal choice, then a clone that equals the moved game |
| Ai.WinningFollows | src/ai.rs:148-161 | the early return is the strategy's first branch and leaves the caller's game unchanged |
| Ai.LossFollows | src/ai.rs:222-236 | the imminent-loss shortcut is the strategy's second branch |
| Ai.FilteredFollows | src/ai.rs:239-273 | the filtered choice is the strategy's third branch |
| Ai.SimpleAi.WithSeed | src/ai.rs:22-34 | the AI keeps its player and depth, and its generator is seeded with the given seed |
| Ai.SimpleAi.PlayIteratively | src/ai.rs:98-280 | the first turn hands over the remaining piece that one draw picks and leaves the board alone; every later turn makes a legal move chosen by the strategy, on the caller's game unless it wins, and advances the generator by exactly the strategy's draws; the invariant is kept |
| Ai.SimpleAi.PlayMove | src/ai.rs:117-274 | the `Move` arm makes a legal move that follows the strategy; a win leaves the generator untouched, any other move leaves it where `MoveDraws` says, with the drawn cell and piece |
| Ai.SimpleAi.PlayNoWin | src/ai.rs:167-274 | once no placement wins, the move follows the loss shortcut or the filtered choice, and the generator advances as `MoveDraws` says |
| Ai.SimpleAi.PlayLoss | src/ai.rs:224-236 | places on the first empty cell and hands over the remaining piece one draw picks (the forced one, with no draw, when none is left) |
| Ai.SimpleAi.PlayFiltered | src/ai.rs:239-273 | when some cell is kept, hands over a piece that is not avoided and places on a kept cell; otherwise any remaining piece on any empty cell; the generator advances as `FilteredDraws` says |
| Ai.SimpleAi.PlayPlacement | src/ai.rs:241-272 | after the potential pick, places it on the kept cell one draw picks, or, with nothing kept, makes the draws of `AnywhereDraws`; the generator ends as `PlacementDraws` says |
| Ai.SimpleAi.PlayKept | src/ai.rs:266-272 | places the chosen piece on the kept cell at the drawn index, a cell that is not discarded |
| Ai.SimpleAi.PlayAnywhere | src/ai.rs:253-263 | hands over the remaining piece one draw picks and places on the empty cell the next draw picks |
| SafeMoves.AvoidedByWitness | src/ai.rs:179-216 | a remaining piece that lets the opponent win after one of our placements is among the avoided pieces |
| SafeMoves.InLossBranch | src/ai.rs:222-236 | with no immediate win and every remaining piece avoided, a move follows the strategy iff it is the imminent-loss shortcut |
| SafeMoves.FirstEmptyOfShape | src/ai.rs:228-234 | on a board whose cell (0, 0) is taken and (0, 1) is empty, the shortcut's cell is exactly (0, 1) |
| SafeMoves.ShapeForcesShortcut | src/ai.rs:222-236 | on such a board with pieces 1 and 9 remaining, both avoided, the strategy allows exactly (0, 1) with piece 1 or piece 9 |
| SafeMoves.ExampleNotWon | src/field.rs:40-84 | the example board is not won |
| SafeMoves.ExampleForcedCannotWin | src/ai.rs:140-165 | on the example board the forced piece 8 wins on no empty cell |
| SafeMoves.ExampleFirstCellThreatened | src/ai.rs:179-201 | on the example, after piece 8 goes on (0, 1), piece 1 and piece 9 each let the opponent win |
| SafeMoves.ExampleSafeCorner | src/ai.rs:179-201 | on the example, placing piece 8 on (3, 2) and handing over piece 1 leaves the opponent no winning placement |
| SafeMoves.ExampleHasShape | src/ai.rs:204-224 | the example meets every premise of the shortcut: nothing wins, both remaining pieces are avoided, (0, 1) is the first empty cell |
| SafeMoves.ShortcutMissesSafeMove | src/ai.rs:222-236 | a game state with no won line where a safe move exists, yet every move the strategy allows hands the opponent a win |
| SafeMoves.AnywhereBranchHasSafeMove | src/ai.rs:239-264 | a remaining piece that is not avoided, which is what the potential pick is, forms a safe pair with every empty cell |
| SafeMoves.AnywhereAllowsAnyPiece | src/ai.rs:253-264 | with nothing to win, some piece not avoided and every cell discarded, the strategy allows any remaining piece on any empty cell |
| SafeMoves.DiscardNotWon | src/field.rs:40-84 | the second example board is not won |
| SafeMoves.DiscardForcedCannotWin | src/ai.rs:140-165 | on the second example the forced piece 0 wins on no empty cell |
| SafeMoves.DiscardEveryCellThreatened | src/ai.rs:179-201 | on the second example, wherever piece 0 goes, piece 15 then completes a 2x2 block, so every placement is discarded |
| SafeMoves.DiscardFourNotAvoided | src/ai.rs:179-216 | on the second example piece 4 wins after no placement, so it is a potential pick |
| SafeMoves.AnywhereMissesSafeMove | src/ai.rs:253-264 | a game state with no won line where every placement is discarded while piece 4 is still a potential pick; the strategy allows piece 15 on (1, 1), after which the opponent wins, although piece 4 there is safe; the corrected strategy forbids that move and allows the safe one |
| SafeMoves.GuardedAvoidsImmediateLoss | src/ai.rs:222-223 | when a safe move exists, the corrected strategy never lets the opponent win on their next placement |
| SafeMoves.GuardedAgreesWithoutSafeMove | src/ai.rs:222-236 | when no safe move exists, the corrected strategy and the strategy as written allow the same moves |
| SafeMoves.SafeOutsideThreats | src/ai.rs:179-201 | a remaining piece outside the threats of an empty cell forms a safe pair with it |
| SafeMoves.NoSafeWhenAllThreatened | src/ai.rs:222-223 | if every remaining piece threatens after every empty cell, no safe move exists |
| SafeMoves.SafePieceAt | src/ai.rs:179-201 | for one candidate state, either a remaining piece that is safe there, or the fact that every remaining piece threatens |
| SafeMoves.ChooseSafe | src/ai.rs:179-264 | returns a safe pair when one exists and None only when no safe move exists |

## Left out

- Printing is not modelled: the `pp` functions, the `ai_reasoning` messages and the `Instant` timing.
- `SimpleAi::new` seeds from the system clock; the model takes the seed as a parameter (`Ai.SimpleAi.WithSeed`).
- `SimpleAi::play` and `play_rec` are not modelled. The recursion is unfinished in the source and only `play_iteratively` makes moves.
- src/main.rs is not part of this model. It holds the console loop, input parsing and the `seed`, `pvp` and `array_base` settings. These fields of `Game` are left out. `ArrayBase`'s arithmetic is modelled.
- Rng.RomuDuoJrRand.Below: the source loops until a draw is accepted. The model allows at most `fuel` draws and returns None when they run out. Rng.RomuDuoJrRand.Choose and Ai.SimpleAi.PlayIteratively inherit this: None means the draws ran out.
- Rng: the 64-bit words are integers below 2^64 with wrapping written out, not machine bit-vectors.
- Ai.Collect: the order in which a `HashSet` yields its elements is left as an arbitrary choice, because the source's hasher is randomly keyed.
- Ai.SimpleAi.PlayFiltered: the potential pick is stated only to be one of the collected picks, not the element at the drawn index, because their order is that arbitrary choice. The number of draws, and so the generator's new state, does not depend on it.
- Ai.LookAhead: the source pushes a state's index into `removals` once per winning reply. The model records it once. Membership, the only use of `removals`, is the same.
- `remaining_pieces()` is a getter; the model reads the field directly.
- `Piece::set` updates its receiver; the model returns the updated piece, since `Piece` is a copyable value.
- The `Piece::with_props` mapped over 0..16 in `Game::new` is read as `Piece::new_with_props`.
- Panics become preconditions. These are `unreachable!` on a finished game, the assertion that the AI owns the initial move, `unwrap` in `unmove`, `choose` on an empty collection, the `assert!(props >> 4 == 0)` of `Piece::new_with_props` (`Pieces.Piece.NewWithProps`), and the `16 - len` subtraction and `try_into().unwrap()` of `Game::round` (`Games.GameState.Round`).
- Clones (`game.clone()`, `field.clone()`) are modelled as copy constructors with fresh arrays. The source's by-value clones are never aliased, and the model proves the same.
- `Games.Game.DoMove` proves nothing about `Field::put`'s bounds check. Positions are required to be in bounds; the source would panic on an index out of range.
- The example states of the findings (`SafeMoves.LossExample`, `SafeMoves.DiscardExample`) are not proved to satisfy the game invariant. Each board holds thirteen distinct pieces and no won line, and the other three pieces are the forced one and the two remaining.
- The corrected choice (`SafeMoves.GuardedStrategy`, `SafeMoves.ChooseSafe`) is not wired into the model of `play_iteratively`, which keeps the source's behaviour.

## Findings

| source | as written | input that shows it | evidently intended | confidence | as-written member | corrected member |
|---|---|---|---|---|---|---|
| src/ai.rs:222-236 | the shortcut is taken when every remaining piece lets the opponent win after some placement of ours; it then places on the first empty cell | board, row by row: 6 . 10 5 / . 0 12 11 / 4 13 7 3 / 2 15 . 14; forced piece 8, remaining 1 and 9. The shortcut puts 8 on (0, 1), and either piece then completes the block at (2, 1) on (3, 2). Putting 8 on (3, 2) and handing over 1 is safe | the comment above the shortcut says the opponent is then certain to win next round, so the shortcut should be taken only when no placement and piece together are safe, and a safe pair should be played otherwise | high: proved on the model; not executed | SafeMoves.ShortcutMissesSafeMove | SafeMoves.GuardedAvoidsImmediateLoss, SafeMoves.ChooseSafe |
| src/ai.rs:253-264 | when every placement lets some remaining piece win at once, the AI hands over a random remaining piece on a random empty cell | board, row by row: 13 7 10 2 / 9 . . 5 / 8 14 3 11 / 6 1 . 12; forced piece 0, remaining 4 and 15, reasoning on. After 0 on any empty cell, 15 completes a 2x2 block, so every cell is discarded; 4 wins nowhere, so it is the potential pick. Handing over 15 after 0 on (1, 1) loses; 4 there is safe | the comment says the loss is then unavoidable, but the potential pick drawn at line 239 is safe after every placement, so it should be handed over on any empty cell | high: proved on the model; not executed | SafeMoves.AnywhereMissesSafeMove | SafeMoves.AnywhereBranchHasSafeMove, SafeMoves.GuardedAvoidsImmediateLoss |
