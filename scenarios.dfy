/** Whole games played through the transitions, and the behaviour the routes show on them. */
module Scenarios {
  import opened Wrappers
  import opened Board
  import opened Session

  /** Replays move requests (column, player) in order; the first refusal ends the replay. */
  function Play(g: Game, moves: seq<(int, int)>): Result<Game, Error>
    requires WellFormed(g.board)
    decreases |moves|
  {
    if moves == [] then Success(g)
    else match MoveGame(g, moves[0].0, moves[0].1)
      case Failure(e) => Failure(e)
      case Success(g') => Play(g', moves[1..])
  }

  /** Replaying two request lists one after the other is replaying their concatenation. */
  lemma {:induction false} PlayAppend(g: Game, a: seq<(int, int)>, b: seq<(int, int)>, mid: Game)
    requires WellFormed(g.board) && WellFormed(mid.board)
    requires Play(g, a) == Success(mid)
    ensures Play(g, a + b) == Play(mid, b)
    decreases |a|
  {
    if a == [] {
      assert a + b == b;
    } else {
      assert (a + b)[0] == a[0] && (a + b)[1..] == a[1..] + b;
      var g1 := MoveGame(g, a[0].0, a[0].1).value;
      PlayAppend(g1, a[1..], b, mid);
    }
  }

  lemma {:induction false} PlayWellFormed(g: Game, a: seq<(int, int)>)
    requires WellFormed(g.board)
    ensures Play(g, a).Success? ==> WellFormed(Play(g, a).value.board)
    decreases |a|
  {
    if a != [] {
      match MoveGame(g, a[0].0, a[0].1)
      case Failure(_) =>
      case Success(g1) => PlayWellFormed(g1, a[1..]);
    }
  }

  /** Seat 1 plays column 0, seat 2 column 0, seat 1 column 1, on a fresh board with seat 1 to move. */
  lemma OpeningMoves(g0: Game) returns (g: Game)
    requires WellFormed(g0.board) && g0.current_turn == 1
    requires forall i, j :: 0 <= i < Rows && 0 <= j < Cols ==> g0.board[i][j] == 0
    ensures Play(g0, [(0, 1), (0, 2), (1, 1)]) == Success(g)
    ensures WellFormed(g.board) && g.current_turn == 2 && g.player2_username == g0.player2_username
    ensures g.board[5][0] == 1 && g.board[5][1] == 1
    ensures g.board[4][1] == 0 && g.board[5][2] == 0 && g.board[4][2] == 0 && g.board[5][3] == 0
  {
    var g1 := Accept(g0, 0, 1, 5);
    var g2 := Accept(g1, 0, 2, 4);
    g := Accept(g2, 1, 1, 5);
    assert Play(g2, [(1, 1)]) == Success(g);
    assert Play(g1, [(0, 2), (1, 1)]) == Success(g);
  }

  /** Seat 2 plays column 1, seat 1 column 2, seat 2 column 2, and seat 1's column 3 completes row 5. */
  lemma ClosingMoves(g: Game) returns (g': Game)
    requires WellFormed(g.board) && g.current_turn == 2
    requires g.board[5][0] == 1 && g.board[5][1] == 1
    requires g.board[4][1] == 0 && g.board[5][2] == 0 && g.board[4][2] == 0 && g.board[5][3] == 0
    ensures Play(g, [(1, 2), (2, 1), (2, 2), (3, 1)]) == Success(g')
    ensures g'.winner == Some(1) && g'.current_turn == 2 && g'.player2_username == g.player2_username
  {
    var g4 := Accept(g, 1, 2, 4);
    var g5 := Accept(g4, 2, 1, 5);
    var g6 := Accept(g5, 2, 2, 4);
    g' := Accept(g6, 3, 1, 5);
    assert LineAt(g'.board, 1, 5, 0, 0, 1);
    assert Play(g6, [(3, 1)]) == Success(g');
    assert Play(g5, [(2, 2), (3, 1)]) == Success(g');
    assert Play(g4, [(2, 1), (2, 2), (3, 1)]) == Success(g');
  }

  /**
   * A host creates a room and a guest joins; the host plays columns 0, 1,
   * 2, 3 while the guest answers in columns 0, 1, 2. Every move is
   * accepted and the host's fourth piece completes row 5, so seat 1 wins.
   */
  lemma HostWinsOnBottomRow(code: string, host: string, guest: string)
    ensures var joined := JoinGame(NewGame(code, host), guest);
      && joined.Success?
      && var end := Play(joined.value, [(0, 1), (0, 2), (1, 1), (1, 2), (2, 1), (2, 2), (3, 1)]);
      && end.Success?
      && end.value.winner == Some(1)
      && end.value.current_turn == 2
      && end.value.player2_username == Some(guest)
  {
    var g0 := JoinGame(NewGame(code, host), guest).value;
    var g3 := OpeningMoves(g0);
    var g7 := ClosingMoves(g3);
    PlayAppend(g0, [(0, 1), (0, 2), (1, 1)], [(1, 2), (2, 1), (2, 2), (3, 1)], g3);
  }

  /** One accepted move whose landing row is known: `player` lands in `row` of `column`. */
  lemma Accept(g: Game, column: int, player: int, row: int) returns (g': Game)
    requires WellFormed(g.board) && g.current_turn == player
    requires 0 <= column < Cols && 0 <= row < Rows && g.board[row][column] == 0
    requires forall k :: row < k < Rows ==> g.board[k][column] != 0
    ensures MoveGame(g, column, player) == Success(g')
    ensures g'.board == g.board[row := g.board[row][column := player]]
    ensures g'.current_turn == NextTurn(player) && g'.player2_username == g.player2_username
  {
    DropLandsAt(g.board, column, player, row);
    g' := MoveGame(g, column, player).value;
  }

  /**
   * The move route does not check for a finished game: after seat 1 has
   * won, seat 2 may still move, and a line of its own replaces the winner.
   */
  lemma MoveAfterWinReplacesWinner()
    ensures var b := EmptyBoard()[2 := EmptyBoard()[2][0 := 1]]
                                 [3 := EmptyBoard()[3][0 := 1][1 := 2]]
                                 [4 := EmptyBoard()[4][0 := 1][1 := 2]]
                                 [5 := EmptyBoard()[5][0 := 1][1 := 2]];
      var g := Game("AB12CD", "Ann", Some("Bo"), b, 2, Some(1));
      && HasLine(b, 1)
      && MoveGame(g, 1, 2).Success?
      && MoveGame(g, 1, 2).value.winner == Some(2)
  {
    var e := EmptyBoard();
    var b := e[2 := e[2][0 := 1]][3 := e[3][0 := 1][1 := 2]][4 := e[4][0 := 1][1 := 2]][5 := e[5][0 := 1][1 := 2]];
    assert LineAt(b, 1, 2, 0, 1, 0);
    var g := Game("AB12CD", "Ann", Some("Bo"), b, 2, Some(1));
    assert LowestEmpty(b, 1) == Some(2);
    var g' := MoveGame(g, 1, 2).value;
    assert LineAt(g'.board, 2, 2, 1, 1, 0);
  }

  /**
   * Reset takes any non-zero starter as it is: after a reset to seat 3 the
   * room answers "Not your turn" to both seats 1 and 2, whatever the column.
   */
  lemma ResetToUnknownSeatBlocksBothSeats(g: Game, column: int)
    requires WellFormed(g.board)
    ensures var g' := ResetGame(g, Some(3));
      && g'.current_turn == 3
      && MoveGame(g', column, 1) == Failure(NotYourTurn)
      && MoveGame(g', column, 2) == Failure(NotYourTurn)
  {
  }
}
