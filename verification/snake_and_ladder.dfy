/**
 * The snake-and-ladder game of snakeandladder.cpp.
 *
 * A board maps snake heads to tails and ladder starts to ends. A turn adds
 * the roll to the player's position; a roll that would pass square 100
 * leaves the player where they are, any other lands on a square and takes at
 * most one jump, a snake winning over a ladder on the same square. A player
 * wins on reaching the board's size. The roll is an input of the model.
 */
module SnakeAndLadder {

  /** The square the turn rule refuses to pass, whatever the board's size. */
  const LastSquare := 100

  class Player {
    var name: string
    var position: int

    constructor (name: string)
      ensures this.name == name && position == 0
    {
      this.name := name;
      position := 0;
    }

    method Move(steps: int)
      modifies this`position
      ensures position == old(position) + steps
    {
      position := position + steps;
    }
  }

  class Board {
    var size: int
    var snakes: map<int, int>
    var ladders: map<int, int>

    constructor (size: int)
      ensures this.size == size && snakes == map[] && ladders == map[]
    {
      this.size := size;
      snakes, ladders := map[], map[];
    }

    /** Puts a snake on `head`, replacing any earlier one there. */
    method AddSnake(head: int, tail: int)
      modifies this`snakes
      ensures snakes == old(snakes)[head := tail]
    {
      snakes := snakes[head := tail];
    }

    /** Puts a ladder on `start`, replacing any earlier one there. */
    method AddLadder(start: int, end: int)
      modifies this`ladders
      ensures ladders == old(ladders)[start := end]
    {
      ladders := ladders[start := end];
    }

    /** The square a player on `position` ends on: down the snake if there is
        one, else up the ladder if there is one, else where they are. */
    function GetNewPosition(position: int): (r: int)
      reads this
      ensures position in snakes ==> r == snakes[position]
      ensures position !in snakes && position in ladders ==> r == ladders[position]
      ensures position !in snakes && position !in ladders ==> r == position
    {
      if position in snakes then snakes[position]
      else if position in ladders then ladders[position]
      else position
    }

    function IsWinningPosition(position: int): (won: bool)
      reads this
      ensures won <==> size <= position
    {
      position >= size
    }

    /** Every snake and every ladder ends on a square of 0..LastSquare. */
    ghost predicate JumpsOnBoard()
      reads this
    {
      && (forall h :: h in snakes ==> 0 <= snakes[h] <= LastSquare)
      && (forall s :: s in ladders ==> 0 <= ladders[s] <= LastSquare)
    }
  }

  /** Where one turn takes a player on `position` who rolls `roll`: a roll
      past the last square leaves them where they are, any other lands on
      position + roll and takes that square's jump, if any. */
  function NextPosition(board: Board, position: int, roll: int): (r: int)
    reads board
    ensures position + roll > LastSquare ==> r == position
    ensures position + roll <= LastSquare && position + roll in board.snakes ==>
              r == board.snakes[position + roll]
    ensures position + roll <= LastSquare && position + roll !in board.snakes && position + roll in board.ladders ==>
              r == board.ladders[position + roll]
    ensures position + roll <= LastSquare && position + roll !in board.snakes && position + roll !in board.ladders ==>
              r == position + roll
  {
    if position + roll > LastSquare then position else board.GetNewPosition(position + roll)
  }

  /** The turn reaches the win check (it is not an overshoot) and passes it. */
  ghost predicate WinsTurn(board: Board, position: int, roll: int)
    reads board
  {
    position + roll <= LastSquare && board.IsWinningPosition(NextPosition(board, position, roll))
  }

  /** A player's position after taking the given rolls one turn after
      another, starting from square 0. */
  function PositionAfter(board: Board, rolls: seq<int>): int
    reads board
    decreases |rolls|
  {
    if rolls == [] then 0
    else NextPosition(board, PositionAfter(board, rolls[..|rolls| - 1]), rolls[|rolls| - 1])
  }

  predicate DieRoll(roll: int)
  {
    1 <= roll <= 6
  }

  /** A single turn never takes a player off the squares 0..LastSquare. */
  lemma TurnStaysOnBoard(board: Board, position: int, roll: int)
    requires board.JumpsOnBoard() && 0 <= position <= LastSquare && DieRoll(roll)
    ensures 0 <= NextPosition(board, position, roll) <= LastSquare
  {
  }

  /** However many turns a player takes, they stay on 0..LastSquare. */
  lemma {:induction false} StaysOnBoard(board: Board, rolls: seq<int>)
    requires board.JumpsOnBoard()
    requires forall i :: 0 <= i < |rolls| ==> DieRoll(rolls[i])
    ensures 0 <= PositionAfter(board, rolls) <= LastSquare
    decreases |rolls|
  {
    if rolls != [] {
      var k := |rolls| - 1;
      StaysOnBoard(board, rolls[..k]);
      TurnStaysOnBoard(board, PositionAfter(board, rolls[..k]), rolls[k]);
    }
  }

  const SetupSnakes: map<int, int> := map[17 := 7, 54 := 34, 62 := 19, 98 := 79]
  const SetupLadders: map<int, int> := map[3 := 22, 5 := 8, 20 := 29, 27 := 77, 39 := 58, 70 := 90]

  /** The board setupBoard lays out has every jump on 0..LastSquare, so no
      sequence of die rolls takes a player off it. */
  lemma SetupBoardStaysOnBoard(board: Board, rolls: seq<int>)
    requires board.snakes == SetupSnakes && board.ladders == SetupLadders
    requires forall i :: 0 <= i < |rolls| ==> DieRoll(rolls[i])
    ensures 0 <= PositionAfter(board, rolls) <= LastSquare
  {
    StaysOnBoard(board, rolls);
  }

  /** The updates setupBoard makes, one after the other, add the two tables
      to whatever the board held before. */
  lemma SetupTablesAsUpdates(snakes: map<int, int>, ladders: map<int, int>)
    ensures snakes[17 := 7][54 := 34][62 := 19][98 := 79] == snakes + SetupSnakes
    ensures ladders[3 := 22][5 := 8][20 := 29][27 := 77][39 := 58][70 := 90] == ladders + SetupLadders
  {
  }

  class Game {
    var players: seq<Player>
    var board: Board

    /** No player appears twice, so moving one leaves the others alone. */
    ghost predicate Valid()
      reads this
    {
      forall i, j :: 0 <= i < j < |players| ==> players[i] != players[j]
    }

    constructor (boardSize: int, playerNames: seq<string>)
      ensures Valid() && fresh(board)
      ensures board.size == boardSize && board.snakes == map[] && board.ladders == map[]
      ensures |players| == |playerNames|
      ensures forall i :: 0 <= i < |players| ==>
                fresh(players[i]) && players[i].name == playerNames[i] && players[i].position == 0
    {
      var created: seq<Player> := [];
      for i := 0 to |playerNames|
        invariant |created| == i
        invariant forall j :: 0 <= j < i ==>
                    fresh(created[j]) && created[j].name == playerNames[j] && created[j].position == 0
        invariant forall j, k :: 0 <= j < k < i ==> created[j] != created[k]
      {
        var player := new Player(playerNames[i]);
        created := created + [player];
      }
      players := created;
      board := new Board(boardSize);
    }

    /** Lays out the four snakes and six ladders of setupBoard in snakeandladder.cpp. */
    method SetupBoard()
      modifies board
      ensures board.snakes == old(board.snakes) + SetupSnakes
      ensures board.ladders == old(board.ladders) + SetupLadders
      ensures board.size == old(board.size)
    {
      var b := board;
      ghost var snakes0, ladders0 := b.snakes, b.ladders;
      SetupTablesAsUpdates(snakes0, ladders0);
      b.AddSnake(17, 7);
      b.AddSnake(54, 34);
      b.AddSnake(62, 19);
      b.AddSnake(98, 79);
      assert b.snakes == snakes0[17 := 7][54 := 34][62 := 19][98 := 79];

      b.AddLadder(3, 22);
      b.AddLadder(5, 8);
      b.AddLadder(20, 29);
      b.AddLadder(27, 77);
      b.AddLadder(39, 58);
      b.AddLadder(70, 90);
      assert b.ladders == ladders0[3 := 22][5 := 8][20 := 29][27 := 77][39 := 58][70 := 90];
    }

    /** One pass of startGame's loop over the players, player i rolling
        rolls[i]. Each player in turn takes NextPosition; the pass stops at
        the first one whose turn wins, and returns that index (-1 if none):
        the players after the winner do not move. */
    method PlayRound(rolls: seq<int>) returns (winner: int)
      requires Valid() && |rolls| == |players|
      modifies players
      ensures -1 <= winner < |players|
      ensures forall i :: 0 <= i < |players| ==>
                players[i].position == if winner == -1 || i <= winner
                                       then NextPosition(board, old(players[i].position), rolls[i])
                                       else old(players[i].position)
      ensures forall i :: 0 <= i < |players| ==> players[i].name == old(players[i].name)
      ensures forall i :: 0 <= i < |players| && (winner == -1 || i < winner) ==>
                !WinsTurn(board, old(players[i].position), rolls[i])
      ensures winner != -1 ==> WinsTurn(board, old(players[winner].position), rolls[winner])
    {
      winner := -1;
      for i := 0 to |players|
        invariant winner == -1
        invariant forall j :: 0 <= j < i ==>
                    players[j].position == NextPosition(board, old(players[j].position), rolls[j])
                    && !WinsTurn(board, old(players[j].position), rolls[j])
        invariant forall j :: i <= j < |players| ==> players[j].position == old(players[j].position)
        invariant forall j :: 0 <= j < |players| ==> players[j].name == old(players[j].name)
      {
        var player := players[i];
        var newPos := player.position + rolls[i];
        if newPos > LastSquare {
          continue;
        }
        newPos := board.GetNewPosition(newPos);
        player.Move(newPos - player.position);
        if board.IsWinningPosition(player.position) {
          winner := i;
          break;
        }
      }
    }
  }
}
