/**
 * A row of the `games` table and the transitions the two routes apply to
 * it: create, join and reset (room route) and a move (move route).
 */
module Session {
  import opened Wrappers
  import opened Board

  /** The columns of a `games` row. A null column is None. */
  datatype Game = Game(
    room_code: string,
    player1_username: string,
    player2_username: Option<string>,
    board: Grid,
    current_turn: int,
    winner: Option<int>)   // None while ongoing, Some(0) for a tie, Some(seat) for a win

  /** The error messages the two routes answer with. */
  datatype Error =
    | GameNotFound   // "Game not found"
    | NotYourTurn    // "Not your turn"
    | ColumnFull     // "Column full"
    | RoomNotFound   // "Room not found"
    | RoomFull       // "Room full"
    | InvalidAction  // "Invalid action"
    | InsertFailed   // the table refused the insert (the room code is already taken)

  /** The invariant every stored record keeps: a 6 x 7 board without floating pieces, and a turn that is a seat number, never 0. */
  ghost predicate Sound(g: Game) {
    WellFormed(g.board) && Gravity(g.board) && g.current_turn != 0
  }

  /** The board a new or reset room starts with: six rows of seven empty cells. */
  function EmptyBoard(): (b: Grid)
    ensures WellFormed(b) && Gravity(b) && Pieces(b) == 0
    ensures forall i, j :: 0 <= i < Rows && 0 <= j < Cols ==> b[i][j] == 0
  {
    var b := seq(Rows, _ => seq(Cols, _ => 0));
    NoPiecesOnEmptyCells(b);
    b
  }

  /** JavaScript truthiness of `player2_username`: null and "" count as an empty seat. */
  predicate Seated(name: Option<string>) {
    name.Some? && name.value != ""
  }

  /** One character upper-cased: lower-case ASCII letters become capitals, every other character stays. */
  function UpperChar(ch: char): (u: char)
    ensures 'a' <= ch <= 'z' ==> 'A' <= u <= 'Z' && u as int == ch as int - 32
    ensures !('a' <= ch <= 'z') ==> u == ch
  {
    if 'a' <= ch <= 'z' then (ch as int - 32) as char else ch
  }

  /** The room code made from a generated text: its first six characters (all of it when shorter), upper-cased. */
  function RoomCodeOf(uuid: string): (code: string)
    ensures |code| == if |uuid| < 6 then |uuid| else 6
    ensures forall i :: 0 <= i < |code| ==> code[i] == UpperChar(uuid[i])
  {
    var prefix := if |uuid| < 6 then uuid else uuid[..6];
    seq(|prefix|, i requires 0 <= i < |prefix| => UpperChar(prefix[i]))
  }

  predicate IsHexDigit(ch: char) {
    '0' <= ch <= '9' || 'a' <= ch <= 'f' || 'A' <= ch <= 'F'
  }

  /** Text shaped like a UUID: 36 characters, dashes at 8, 13, 18 and 23, hex digits elsewhere. */
  predicate IsUuidText(s: string) {
    |s| == 36 &&
    forall i :: 0 <= i < 36 ==>
      if i == 8 || i == 13 || i == 18 || i == 23 then s[i] == '-' else IsHexDigit(s[i])
  }

  /** The code of a room created from a UUID is six upper-case hexadecimal digits. */
  lemma RoomCodeOfUuid(uuid: string)
    requires IsUuidText(uuid)
    ensures var code := RoomCodeOf(uuid);
      |code| == 6 && forall i :: 0 <= i < 6 ==> '0' <= code[i] <= '9' || 'A' <= code[i] <= 'F'
  {
  }

  /** The seat a reset room starts with: a missing or zero starter means seat 1, any other number is taken as it is. */
  function StartingSeat(nextStarter: Option<int>): (seat: int)
    ensures seat != 0
    ensures nextStarter.Some? && nextStarter.value != 0 ==> seat == nextStarter.value
    ensures nextStarter.None? || nextStarter.value == 0 ==> seat == 1
  {
    match nextStarter
    case Some(n) => if n != 0 then n else 1
    case None => 1
  }

  /** The row `create` inserts. */
  function NewGame(code: string, username: string): (g: Game)
    ensures g.room_code == code && g.player1_username == username && !Seated(g.player2_username)
    ensures g.current_turn == 1 && g.winner.None?
    ensures Sound(g) && Pieces(g.board) == 0
    ensures forall i, j :: 0 <= i < Rows && 0 <= j < Cols ==> g.board[i][j] == 0
  {
    Game(code, username, None, EmptyBoard(), 1, None)
  }

  /** `join` on a found row: refused when seat 2 is taken, otherwise only `player2_username` changes. */
  function JoinGame(g: Game, username: string): (r: Result<Game, Error>)
    ensures r.Failure? <==> (g.player2_username.Some? && g.player2_username.value != "")
    ensures r.Failure? ==> r.error == RoomFull
    ensures r.Success? ==> r.value.player2_username == Some(username)
    ensures r.Success? ==> r.value.(player2_username := g.player2_username) == g
  {
    if Seated(g.player2_username) then Failure(RoomFull)
    else Success(g.(player2_username := Some(username)))
  }

  /** `reset` on a found row: fresh board, no winner, the requested starter; code and names are kept. */
  function ResetGame(g: Game, nextStarter: Option<int>): (r: Game)
    ensures r.room_code == g.room_code
    ensures r.player1_username == g.player1_username && r.player2_username == g.player2_username
    ensures r.winner.None? && r.current_turn == StartingSeat(nextStarter)
    ensures WellFormed(r.board) && Pieces(r.board) == 0
    ensures forall i, j :: 0 <= i < Rows && 0 <= j < Cols ==> r.board[i][j] == 0
  {
    g.(board := EmptyBoard(), current_turn := StartingSeat(nextStarter), winner := None)
  }

  /** The turn after an accepted move: seat 2 after seat 1, and seat 1 after any other mover. */
  function NextTurn(player: int): (next: int)
    ensures next == 1 || next == 2
    ensures player == 1 || player == 2 ==> next == 3 - player
    ensures player != 1 && player != 2 ==> next == 1
  {
    if player == 1 then 2 else 1
  }

  /**
   * The move route on a found row: the turn check, the drop, the win test,
   * the tie test (only without a win), the turn flip and the winner. There
   * is no check that the game is already over.
   */
  function MoveGame(g: Game, column: int, player: int): (r: Result<Game, Error>)
    requires WellFormed(g.board)
    ensures r.Success? ==> WellFormed(r.value.board)
  {
    if g.current_turn != player then Failure(NotYourTurn)
    else match Drop(g.board, column, player)
      case None => Failure(ColumnFull)
      case Some(newBoard) =>
        var isWin := HasLine(newBoard, player);
        var isTie := !isWin && IsFull(newBoard);
        Success(g.(
          board := newBoard,
          current_turn := NextTurn(player),
          winner := if isWin then Some(player) else if isTie then Some(0) else g.winner))
  }

  /**
   * A move is refused exactly when it is not the mover's turn ("Not your
   * turn", checked first) or the column has no empty cell or lies outside
   * 0..6 ("Column full"). Whether the game already has a winner plays no part.
   */
  lemma MoveAcceptedIff(g: Game, column: int, player: int)
    requires WellFormed(g.board)
    ensures MoveGame(g, column, player).Success? <==>
              player == g.current_turn && 0 <= column < Cols &&
              exists k :: 0 <= k < Rows && g.board[k][column] == 0
    ensures player != g.current_turn ==> MoveGame(g, column, player) == Failure(NotYourTurn)
    ensures player == g.current_turn && MoveGame(g, column, player).Failure? ==>
              MoveGame(g, column, player) == Failure(ColumnFull)
  {
    DropFailsIff(g.board, column, player);
  }

  /**
   * An accepted move stores the dropped board: the mover's piece sits in the
   * lowest empty cell of the column and no other cell changes. The turn
   * passes to `player === 1 ? 2 : 1`; room code and names are kept.
   */
  lemma MoveApplies(g: Game, column: int, player: int)
    requires WellFormed(g.board) && MoveGame(g, column, player).Success?
    ensures var g' := MoveGame(g, column, player).value;
      && g'.room_code == g.room_code
      && g'.player1_username == g.player1_username
      && g'.player2_username == g.player2_username
      && g'.current_turn == (if player == 1 then 2 else 1)
      && WellFormed(g'.board)
      && exists row ::
           && 0 <= row < Rows && g.board[row][column] == 0
           && (forall k :: row < k < Rows ==> g.board[k][column] != 0)
           && g'.board[row][column] == player
           && (forall i, j :: 0 <= i < Rows && 0 <= j < Cols && (i != row || j != column) ==>
                 g'.board[i][j] == g.board[i][j])
  {
    DropPlacement(g.board, column, player);
    var row := LowestEmpty(g.board, column).value;
    assert g.board[row][column] == 0;
  }

  /**
   * The winner after an accepted move: the mover when the new board has four
   * of the mover's pieces in a row in any direction, even if it is also
   * full; otherwise 0 when no cell is empty; otherwise as it was.
   */
  lemma MoveOutcome(g: Game, column: int, player: int)
    requires WellFormed(g.board) && MoveGame(g, column, player).Success?
    ensures var g' := MoveGame(g, column, player).value;
      && WellFormed(g'.board)
      && (SomeRun(g'.board, player) ==> g'.winner == Some(player))
      && ((!SomeRun(g'.board, player) &&
           forall i, j :: 0 <= i < Rows && 0 <= j < Cols ==> g'.board[i][j] != 0) ==>
            g'.winner == Some(0))
      && ((!SomeRun(g'.board, player) &&
           exists i, j :: 0 <= i < Rows && 0 <= j < Cols && g'.board[i][j] == 0) ==>
            g'.winner == g.winner)
  {
  }

  /** Between seats 1 and 2 the turn alternates with every accepted move. */
  lemma MoveAlternatesTurn(g: Game, column: int, player: int)
    requires WellFormed(g.board) && MoveGame(g, column, player).Success?
    requires g.current_turn == 1 || g.current_turn == 2
    ensures MoveGame(g, column, player).value.current_turn == 3 - g.current_turn
  {
  }

  /** An accepted move on a sound record yields a sound record with exactly one more piece. */
  lemma MoveKeepsSound(g: Game, column: int, player: int)
    requires Sound(g) && MoveGame(g, column, player).Success?
    ensures Sound(MoveGame(g, column, player).value)
    ensures Pieces(MoveGame(g, column, player).value.board) == Pieces(g.board) + 1
  {
    DropPreservesGravity(g.board, column, player);
    DropAddsOnePiece(g.board, column, player);
  }

  /** Join and reset keep a record sound. */
  lemma RoomTransitionsKeepSound(g: Game, username: string, nextStarter: Option<int>)
    requires Sound(g)
    ensures JoinGame(g, username).Success? ==> Sound(JoinGame(g, username).value)
    ensures Sound(ResetGame(g, nextStarter))
  {
  }
}
