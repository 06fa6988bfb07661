# Connect-4 game sessions, modelled in Dafny

This project models the server side of a two-player Connect-4 service. Two
HTTP routes hold all of its game logic:

- the **move route** (`src/app/api/moves/route.ts`) holds the grid helpers
  `dropPiece`, `checkWin` and `checkTie`, and the transition that validates
  and applies one move;
- the **room route** (`src/app/api/rooms/route.ts`) holds the `create`,
  `join` and `reset` actions on a game record, and the rejection of any
  other action.

Game records live in a `games` table keyed by room code. A record holds
`room_code`, `player1_username`, `player2_username`, `board`,
`current_turn` and `winner`. The board is a 6 x 7 grid: 0 is an empty
cell, 1 and 2 are the pieces of seat 1 and seat 2. Row 0 is the top row
and row 5 the bottom row.

Files:

- `wrappers.dfy`: `Option` (a null column) and `Result` (a record or an error).
- `board.dfy`, module `Board`: the grid helpers.
  - `DropPiece` and `CheckWin` are methods with the source's loops. They are
    proved equal to the specification functions `Drop` and `HasLine`.
  - `HasLine` is also proved equal to `SomeRun`, an independent definition:
    four cells in a straight line in any of the eight directions.
  - `IsFull` is the nested `every`.
- `session.dfy`, module `Session`: the record, the error messages and the
  pure transitions `NewGame`, `JoinGame`, `ResetGame` and `MoveGame`. It
  also holds the room-code derivation and the lemmas about these.
- `store.dfy`, module `Store`: class `GameTable`, whose field
  `games: map<string, Game>` stands for the table. Its methods `Create`,
  `Join`, `Reset`, `Post` (the room route's dispatch) and `Move` (the move
  route) each change the map and return the updated record or an error.
  Its invariant `Valid()` says that every record sits under its own code,
  has a 6 x 7 board without floating pieces, and has a non-zero turn.
- `scenarios.dfy`, module `Scenarios`: whole games played through the
  transitions.

## Behaviour worth knowing

The model follows the routes as written:

- **No game-over rejection.** A move is accepted by the seat whose turn it
  is, whether or not `winner` is already set. After a win the turn still
  flips. A later line replaces the winner
  (`Scenarios.MoveAfterWinReplacesWinner`). A tie can overwrite it in the
  same way. Only the client page refuses such clicks.
- **No separate out-of-range error.** A column outside 0..6 reads
  `undefined` in every row, so such a move fails with "Column full".
- **No waiting state.** Moves do not require seat 2 to be filled.
  `MoveAcceptedIff` names every condition a move must meet, and seat 2 is
  not one of them.
- **The reset starter is not validated.** `nextStarter || 1` takes any
  non-zero number as the next turn. After a reset to seat 3, both real
  seats are told "Not your turn" (`Scenarios.ResetToUnknownSeatBlocksBothSeats`).
- **Room codes can collide.** `create` neither checks the generated code
  against the table nor retries on a clash. The table is keyed by room
  code, so an insert under a code already present is the insert error of
  the create branch (`InsertFailed`).
- **Codes are looked up as given.** Lookups compare the whole room code
  exactly, with case kept.
- **Seat 2 counts as taken only when its name is non-empty.** An empty
  `player2_username` is falsy, so the seat still counts as free.

## Model

| member | source | states |
|---|---|---|
| `Board.LowestEmptyFrom` | src/app/api/moves/route.ts:16-20 | the row where the scan up the column (descending row index) stops is empty, and every row it passed is not; with no result, no row from the start up to 0 is empty |
| `Board.Drop` | src/app/api/moves/route.ts:14-23 | a successful drop yields a 6 x 7 board again |
| `Board.DropPiece` | src/app/api/moves/route.ts:14-23 | the copy-and-scan loop returns exactly the board `Drop` describes, or the "Column full" failure |
| `Board.DropFailsIff` | src/app/api/moves/route.ts:16-22 | the drop fails if and only if the column is outside 0..6 or every row of it is non-zero |
| `Board.DropPlacement` | src/app/api/moves/route.ts:15-20 | on success `player` is written into the lowest empty cell of the column (all cells below it occupied), and every other cell equals the input's |
| `Board.DropLandsAt` | src/app/api/moves/route.ts:16-20 | conversely, an empty cell whose cells below are all occupied is exactly where the piece lands |
| `Board.DropPreservesGravity` | src/app/api/moves/route.ts:16-19 | a board without floating pieces stays so after a drop |
| `Board.DropAddsOnePiece` | src/app/api/moves/route.ts:17-18 | dropping a non-zero piece increases the number of occupied cells by exactly one |
| `Board.NoPiecesOnEmptyCells` | src/app/api/rooms/route.ts:19 | a board of zeros holds no pieces |
| `Board.SomeRunFound` | src/app/api/moves/route.ts:25-63 | any run of four equal cells in any of the eight directions is found by one of the four scans |
| `Board.LineScansIffSomeRun` | src/app/api/moves/route.ts:25-63 | the four scan ranges (horizontal from columns 0..3, vertical from rows 0..2, `/` from rows 3..5, `\` from rows 0..2) find a line if and only if four cells in a straight line on the grid all equal the player |
| `Board.HasLine` | src/app/api/moves/route.ts:25-63 | the verdict of the four scans, true if and only if four cells in a straight line in any of the eight directions all hold the player's number |
| `Board.CheckWin` | src/app/api/moves/route.ts:25-63 | the nested loops with early return answer exactly `HasLine`, reading only cells within 0..5 x 0..6 |
| `Board.RowFull` | src/app/api/moves/route.ts:66 | true if and only if no cell of the row is 0 |
| `Board.IsFull` | src/app/api/moves/route.ts:65-67 | true if and only if no cell of the board is 0 |
| `Session.EmptyBoard` | src/app/api/rooms/route.ts:19 | the initial board is 6 x 7, all zero, without floating pieces and with no pieces |
| `Session.RoomCodeOf` | src/app/api/rooms/route.ts:18 | the code has the length of the first six characters of its input, each upper-cased |
| `Session.RoomCodeOfUuid` | src/app/api/rooms/route.ts:18 | for a UUID text the code is exactly six upper-case hexadecimal digits |
| `Session.StartingSeat` | src/app/api/rooms/route.ts:67 | the starter defaulting to 1: never 0, the given seat when non-zero, seat 1 when missing or 0 |
| `Session.NewGame` | src/app/api/rooms/route.ts:19-27 | the new record has the given code and host, no second player, turn 1, no winner and an empty, sound board |
| `Session.JoinGame` | src/app/api/rooms/route.ts:43-48 | refused with "Room full" if and only if `player2_username` is set to a non-empty name (JavaScript truthiness); otherwise only `player2_username` changes, to the joiner's name |
| `Session.ResetGame` | src/app/api/rooms/route.ts:65-76 | the board becomes all zero, the winner null, the turn the requested starter defaulting to 1; room code and both names are kept |
| `Session.NextTurn` | src/app/api/moves/route.ts:94 | the next turn is always seat 1 or 2: the other seat when the mover is 1 or 2, seat 1 for any other mover |
| `Session.MoveGame` | src/app/api/moves/route.ts:80-97 | an accepted move's record still has a 6 x 7 board |
| `Session.MoveAcceptedIff` | src/app/api/moves/route.ts:80-83 | a move is accepted if and only if it is the mover's turn and the column is in range with an empty cell; a wrong turn is "Not your turn" (checked first), any other refusal "Column full"; the winner plays no part |
| `Session.MoveApplies` | src/app/api/moves/route.ts:83-95 | an accepted move stores the board with the mover's piece in the lowest empty cell of the column and nothing else changed, sets the turn to `player === 1 ? 2 : 1`, and keeps code and names |
| `Session.MoveOutcome` | src/app/api/moves/route.ts:85-97 | the winner becomes the mover when there are four in a row (even on a full board), else 0 when no cell is empty, else it is left as it was |
| `Session.MoveAlternatesTurn` | src/app/api/moves/route.ts:94 | between seats 1 and 2 each accepted move hands the turn to the other seat |
| `Session.MoveKeepsSound` | src/app/api/moves/route.ts:83-95 | an accepted move on a sound record gives a sound record (shape, no floating pieces, non-zero turn) with exactly one more piece |
| `Session.RoomTransitionsKeepSound` | src/app/api/rooms/route.ts:65-76 | join and reset keep a record sound |
| `Store.GameTable.Create` | src/app/api/rooms/route.ts:17-32 | inserts the new record under the derived code; if that code is already present, the insert is refused and the table is unchanged |
| `Store.GameTable.Join` | src/app/api/rooms/route.ts:34-53 | an unknown code is "Room not found"; otherwise the result is `JoinGame` of the stored record, which is written back only on success |
| `Store.GameTable.Reset` | src/app/api/rooms/route.ts:55-81 | an unknown code is "Room not found"; otherwise the stored record is replaced by `ResetGame` of it |
| `Store.GameTable.Post` | src/app/api/rooms/route.ts:14-84 | dispatches create, join and reset as above; every other action is "Invalid action" and leaves the table unchanged |
| `Store.GameTable.Move` | src/app/api/moves/route.ts:69-111 | an unknown code is "Game not found"; otherwise the result is `MoveGame` of the stored record, written back only when accepted; the table invariant is kept |
| `Scenarios.HostWinsOnBottomRow` | src/app/api/moves/route.ts:80-97 | for any room code, host and guest name: create, join and seven alternating moves are all accepted and end with seat 1 winning on row 5, the turn passed to seat 2 and the guest still in seat 2 |
| `Scenarios.MoveAfterWinReplacesWinner` | src/app/api/moves/route.ts:80-97 | after seat 1 has won, seat 2's move is still accepted and its own line makes it the winner |
| `Scenarios.ResetToUnknownSeatBlocksBothSeats` | src/app/api/rooms/route.ts:67 | a reset with starter 3 leaves turn 3, so moves by seat 1 and seat 2 are both "Not your turn" |

## Left out

- HTTP handling is not modelled: request parsing, JSON responses and status codes.
- The database client, its construction and the environment-variable checks are not modelled. The table is an in-memory map.
- Database failures other than a duplicate room code on insert are not modelled, because the map cannot fail. These are the update errors of join, reset and move and a failing lookup. The duplicate-key refusal assumes the table is keyed by its room code, which every lookup of the source relies on.
- UUID generation is not modelled: the generated text is a parameter of `Create`, and no randomness is modelled.
- `Session.RoomCodeOf`: upper-cases ASCII letters only. Full Unicode case mapping is not modelled; UUID text is ASCII.
- Requests are handled one at a time. The source has no locking: two requests can both read the same turn before either writes. Their interleavings, and any mutual exclusion, are not modelled.
- Realtime change notification to the players' views is not modelled. It is not part of the route code.
- Request fields take only integer or text values: `player` and `column` are integers, `nextStarter` an optional integer, names and codes text. Other JavaScript values, such as a column given as a string or a fraction, or a `nextStarter` of `false`, are not modelled.
- The client pages (`src/app/page.tsx`, `src/app/game/[roomCode]/page.tsx`) and `src/components/LoadingScreen.tsx` are not modelled: they are presentation only.
