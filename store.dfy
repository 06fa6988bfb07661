/**
 * The `games` table behind the two routes, kept in memory as a map from
 * room code to record, with one method per request the routes serve.
 */
module Store {
  import opened Wrappers
  import opened Board
  import opened Session

  class GameTable {
    var games: map<string, Game>

    /** Every record is filed under its own room code and is sound. */
    ghost predicate Valid()
      reads this
    {
      forall code :: code in games ==> games[code].room_code == code && Sound(games[code])
    }

    constructor ()
      ensures Valid() && games == map[]
    {
      games := map[];
    }

    /**
     * `create`: the room code is the first six characters of the generated
     * UUID, upper-cased. The code is not checked against the table first;
     * an insert under a code already present is refused by the table.
     */
    method Create(username: string, uuid: string) returns (r: Result<Game, Error>)
      requires Valid()
      modifies this
      ensures Valid()
      ensures var code := RoomCodeOf(uuid);
        if code in old(games) then r == Failure(InsertFailed) && games == old(games)
        else r == Success(NewGame(code, username)) && games == old(games)[code := r.value]
    {
      var code := RoomCodeOf(uuid);
      if code in games {
        return Failure(InsertFailed);
      }
      var game := NewGame(code, username);
      games := games[code := game];
      return Success(game);
    }

    /** `join`: look the room up, refuse a taken seat 2, otherwise record the second player. */
    method Join(roomCode: string, username: string) returns (r: Result<Game, Error>)
      requires Valid()
      modifies this
      ensures Valid()
      ensures roomCode !in old(games) ==> r == Failure(RoomNotFound)
      ensures roomCode in old(games) ==> r == JoinGame(old(games)[roomCode], username)
      ensures games == if r.Success? then old(games)[roomCode := r.value] else old(games)
    {
      if roomCode !in games {
        return Failure(RoomNotFound);
      }
      var data := games[roomCode];
      if Seated(data.player2_username) {
        return Failure(RoomFull);
      }
      var updated := data.(player2_username := Some(username));
      games := games[roomCode := updated];
      return Success(updated);
    }

    /** `reset`: look the room up, then clear the board and the winner and set the starter. */
    method Reset(roomCode: string, nextStarter: Option<int>) returns (r: Result<Game, Error>)
      requires Valid()
      modifies this
      ensures Valid()
      ensures roomCode !in old(games) ==> r == Failure(RoomNotFound)
      ensures roomCode in old(games) ==> r == Success(ResetGame(old(games)[roomCode], nextStarter))
      ensures games == if r.Success? then old(games)[roomCode := r.value] else old(games)
    {
      if roomCode !in games {
        return Failure(RoomNotFound);
      }
      var data := games[roomCode];
      var initialBoard := EmptyBoard();
      var newStartingPlayer := StartingSeat(nextStarter);
      var updated := data.(board := initialBoard, current_turn := newStartingPlayer, winner := None);
      games := games[roomCode := updated];
      return Success(updated);
    }

    /** The room route: dispatch on `action`; any other action is refused and nothing changes. */
    method Post(action: string, username: string, roomCode: string, nextStarter: Option<int>, uuid: string)
      returns (r: Result<Game, Error>)
      requires Valid()
      modifies this
      ensures Valid()
      ensures action == "create" ==>
        var code := RoomCodeOf(uuid);
        if code in old(games) then r == Failure(InsertFailed) && games == old(games)
        else r == Success(NewGame(code, username)) && games == old(games)[code := r.value]
      ensures action == "join" ==>
        (roomCode !in old(games) ==> r == Failure(RoomNotFound)) &&
        (roomCode in old(games) ==> r == JoinGame(old(games)[roomCode], username)) &&
        games == if r.Success? then old(games)[roomCode := r.value] else old(games)
      ensures action == "reset" ==>
        (roomCode !in old(games) ==> r == Failure(RoomNotFound)) &&
        (roomCode in old(games) ==> r == Success(ResetGame(old(games)[roomCode], nextStarter))) &&
        games == if r.Success? then old(games)[roomCode := r.value] else old(games)
      ensures action != "create" && action != "join" && action != "reset" ==>
        r == Failure(InvalidAction) && games == old(games)
    {
      if action == "create" {
        r := Create(username, uuid);
      } else if action == "join" {
        r := Join(roomCode, username);
      } else if action == "reset" {
        r := Reset(roomCode, nextStarter);
      } else {
        r := Failure(InvalidAction);
      }
    }

    /**
     * The move route: look the game up, refuse a player whose turn it is
     * not, drop the piece, test for a win and then (only without a win)
     * for a tie, and store the new board, the flipped turn and the winner.
     */
    method Move(roomCode: string, column: int, player: int) returns (r: Result<Game, Error>)
      requires Valid()
      modifies this
      ensures Valid()
      ensures roomCode !in old(games) ==> r == Failure(GameNotFound)
      ensures roomCode in old(games) ==> r == MoveGame(old(games)[roomCode], column, player)
      ensures games == if r.Success? then old(games)[roomCode := r.value] else old(games)
    {
      if roomCode !in games {
        return Failure(GameNotFound);
      }
      var game := games[roomCode];
      if game.current_turn != player {
        return Failure(NotYourTurn);
      }
      var dropped := DropPiece(game.board, column, player);
      if dropped.None? {
        return Failure(ColumnFull);
      }
      var newBoard := dropped.value;
      var isWin := CheckWin(newBoard, player);
      var isTie := !isWin && IsFull(newBoard);
      var winner := game.winner;
      if isWin {
        winner := Some(player);
      }
      if isTie {
        winner := Some(0);
      }
      var updated := game.(board := newBoard, current_turn := NextTurn(player), winner := winner);
      MoveKeepsSound(game, column, player);
      games := games[roomCode := updated];
      return Success(updated);
    }
  }
}
