/**
 * The Game object: the session state machine on the two board objects.
 * Each method is specified by the Protocol function of the same name, so
 * every property proved there holds of the objects.
 */
module Games {
  import opened Wrappers
  import opened Cells
  import opened Ships
  import opened Messages
  import opened BoardModel
  import opened Boards
  import opened Protocol

  /** MyBoard.shipSizes as configured (the full fleet 5, 4, 4, 3, 3, 3, 2, 2, 2, 2 is commented out). */
  const ShipSizes: seq<int> := [2]

  class Game {
    var state: GameState
    const myBoard: MyBoard
    const enemyBoard: EnemyBoard
    var status: Status
    /** Every message passed to connection.send, oldest first. */
    var outbox: seq<Msg>

    ghost function Value(): Session
      reads this, myBoard, myBoard.cells, myBoard.ships, enemyBoard, enemyBoard.ships
      requires myBoard.cells.Length0 == 10 && myBoard.cells.Length1 == 10
    {
      Session(state, myBoard.Value(), myBoard.playerTurn, enemyBoard.Fleet(), enemyBoard.playerTurn, status, outbox)
    }

    /** The text updateStatus last put in the status line. */
    function StatusText(): string
      reads this
    {
      Text(status)
    }

    /** The own board is valid, the two boards share no ship object, and the turn flags agree with the state. */
    ghost predicate Valid()
      reads this, myBoard, myBoard.cells, myBoard.ships, enemyBoard
    {
      && myBoard.Valid()
      && (forall i, j :: 0 <= i < |myBoard.ships| && 0 <= j < |enemyBoard.ships| ==> myBoard.ships[i] != enemyBoard.ships[j])
      && TurnInv(state, myBoard.playerTurn, enemyBoard.playerTurn)
    }

    /** A valid game is a session satisfying the session invariant. */
    lemma ValidInv()
      requires Valid()
      ensures Inv(Value())
    {
    }

    /** The Game constructor: new boards, then randomize with the given draws. */
    constructor (rounds: seq<seq<(int, int, bool)>>)
      requires forall k :: 0 <= k < |rounds| ==> |rounds[k]| == |ShipSizes|
      ensures Valid()
      ensures Value() == Start(BoardModel.Randomize(InitialBoard(ShipSizes), rounds).board)
    {
      myBoard := new MyBoard(ShipSizes);
      enemyBoard := new EnemyBoard();
      state := Begin;
      status := GameStart;
      outbox := [];
      new;
      assert Value() == Start(InitialBoard(ShipSizes));
      RandomizeMyBoard(rounds);
    }

    /** myBoard.randomize() as the constructor calls it. */
    method RandomizeMyBoard(rounds: seq<seq<(int, int, bool)>>)
      requires Valid() && forall k :: 0 <= k < |rounds| ==> |rounds[k]| == |myBoard.ships|
      modifies myBoard.cells, myBoard.ships
      ensures Valid()
      ensures Value() == old(Value()).(me := BoardModel.Randomize(old(Value()).me, rounds).board)
    {
      var placed := myBoard.Randomize(rounds);
      assert enemyBoard.Fleet() == old(enemyBoard.Fleet());
    }

    /** myBoard.boardIsValid() as readyToStartGame calls it. */
    method CommitMyBoard() returns (valid: bool)
      requires Valid()
      modifies myBoard.cells, myBoard.ships
      ensures Valid()
      ensures Validated(valid, Value().me) == Validate(old(Value()).me)
      ensures Value() == old(Value()).(me := Validate(old(Value()).me).board)
    {
      valid := myBoard.BoardIsValid();
      assert enemyBoard.Fleet() == old(enemyBoard.Fleet());
    }

    method PassToken()
      requires Valid()
      modifies this, myBoard, enemyBoard
      ensures Valid()
      ensures Value() == Protocol.PassToken(old(Value()))
    {
      myBoard.playerTurn := true;
      enemyBoard.playerTurn := false;
      state := EnemyTurn;
      outbox := outbox + [Msg.PassToken];
    }

    method GetToken()
      requires Valid()
      modifies this, myBoard, enemyBoard
      ensures Valid()
      ensures Value() == Protocol.GetToken(old(Value()))
    {
      myBoard.playerTurn := false;
      enemyBoard.playerTurn := true;
      state := MyTurn;
      status := YourTurn;
    }

    method ReadyToStartGame()
      requires Valid() && (state == Begin || state == EnemyReady)
      modifies this, myBoard, myBoard.cells, myBoard.ships, enemyBoard
      ensures Valid()
      ensures Value() == Protocol.ReadyToStartGame(old(Value()))
    {
      var valid := CommitMyBoard();
      if valid {
        Announce();
      } else {
        status := InvalidPositions;
      }
    }

    /** The success branch of readyToStartGame. */
    method Announce()
      requires myBoard.Valid() && (state == Begin || state == EnemyReady)
      requires (forall i, j :: 0 <= i < |myBoard.ships| && 0 <= j < |enemyBoard.ships| ==> myBoard.ships[i] != enemyBoard.ships[j])
      requires TurnInv(state, myBoard.playerTurn, enemyBoard.playerTurn)
      modifies this, myBoard, enemyBoard
      ensures Valid()
      ensures Value() == Protocol.Announce(old(Value()))
    {
      outbox := outbox + [ReadyToPlay];
      if state == Begin {
        state := IAmReady;
        status := WaitForStart;
      } else {
        PassToken();
        status := Wait;
      }
    }

    /** The onEvent handler of the enemy board. */
    method OnEnemyBoardEvent(e: EnemyBoardEvent)
      requires Valid()
      modifies this, myBoard, myBoard.cells, myBoard.ships, enemyBoard
      ensures Valid()
      ensures Value() == Protocol.OnEnemyBoardEvent(old(Value()), e)
    {
      match e
      case Fire(p) =>
        outbox := outbox + [BombCell(p)];
      case Click =>
        match state
        case Begin => ReadyToStartGame();
        case EnemyReady => ReadyToStartGame();
        case IAmReady => status := WaitForStart;
        case EnemyTurn => status := Wait;
        case MyTurn =>
        case Finished =>
    }

    /** EnemyBoard.onCellClick; `target` is None when the click is not on a cell. */
    method ClickEnemyCell(target: Option<Pos>)
      requires Valid()
      modifies this, myBoard, myBoard.cells, myBoard.ships, enemyBoard
      ensures Valid()
      ensures Value() == Protocol.ClickEnemyCell(old(Value()), target)
    {
      if target.None? {
        return;
      }
      if !enemyBoard.playerTurn {
        OnEnemyBoardEvent(Click);
      }
      if enemyBoard.playerTurn {
        OnEnemyBoardEvent(Fire(target.value));
      }
    }

    /** The onEvent handler of the own board. */
    method OnMyBoardEvent(shot: ShotResult)
      requires Valid() && (shot.event == AllSunk ==> state == EnemyTurn && !enemyBoard.playerTurn)
      modifies this
      ensures Valid()
      ensures Value() == Protocol.OnMyBoardEvent(old(Value()), shot)
    {
      match shot.event
      case PlayerMissed =>
        outbox := outbox + [shot.response];
      case Hit =>
        outbox := outbox + [shot.response];
      case ShipSunk =>
        outbox := outbox + [shot.response];
        status := LostShip;
      case AllSunk =>
        status := LostGame;
        state := Finished;
        outbox := outbox + [shot.response];
    }

    /** The readyToPlay case of handleMessage. */
    method OnReadyToPlay()
      requires Valid()
      modifies this
      ensures Valid()
      ensures Value() == Protocol.OnReadyToPlay(old(Value()))
    {
      if state == IAmReady {
        status := GameOn;
      } else if state == Begin {
        state := EnemyReady;
      }
    }

    /** The bombResponse case of handleMessage. */
    method OnBombResponse(p: Pos, hit: bool, ship: Option<Placement>, allSunk: bool) returns (raised: bool)
      requires Valid()
      modifies this, myBoard, enemyBoard
      ensures Valid()
      ensures Handled(raised, Value()) == Protocol.OnBombResponse(old(Value()), p, hit, ship, allSunk)
    {
      raised := enemyBoard.UpdateBoard(p, ship);
      if !raised {
        ShowOutcome(hit, ship, allSunk);
      }
    }

    /** The part of the bombResponse case after the enemy board is updated. */
    method ShowOutcome(hit: bool, ship: Option<Placement>, allSunk: bool)
      requires Valid()
      modifies this, myBoard, enemyBoard
      ensures Valid()
      ensures Value() == Outcome(old(Value()), hit, ship, allSunk)
    {
      status := ResponseStatus(hit, ship);
      if allSunk {
        Win();
      } else if state != Finished {
        PassToken();
      }
    }

    /** The allSunk branch of bombResponse: the game is over and won. */
    method Win()
      requires Valid()
      modifies this, enemyBoard
      ensures Valid()
      ensures Value() == old(Value()).(state := Finished, enemyBoardTurn := false, status := Won)
    {
      state := Finished;
      enemyBoard.playerTurn := false;
      status := Won;
    }

    /** incomingBomb: fire on the own board; a position outside the grid throws. */
    method IncomingBomb(p: Pos) returns (raised: bool)
      requires Valid() && state == EnemyTurn
      modifies this, myBoard.cells, myBoard.ships
      ensures Valid()
      ensures Handled(raised, Value()) == Protocol.IncomingBomb(old(Value()), p)
    {
      ghost var s0 := Value();
      if !InRange(p) {
        return true;
      }
      raised := false;
      var shot := myBoard.BombCell(p);
      assert Value() == s0.(me := Bomb(s0.me, p).board);
      if shot.Some? {
        OnMyBoardEvent(shot.value);
      }
    }
  }

  /** handleMessage: dispatch one message from the opponent to the game. */
  method HandleMessage(game: Game, m: Incoming) returns (raised: bool)
    requires game.Valid()
    modifies game, game.myBoard, game.myBoard.cells, game.myBoard.ships, game.enemyBoard
    ensures game.Valid()
    ensures Handled(raised, game.Value()) == Protocol.HandleMessage(old(game.Value()), m)
  {
    raised := false;
    if !m.Known? {
      return;
    }
    match m.msg
    case ReadyToPlay =>
      game.OnReadyToPlay();
    case PassToken =>
      game.GetToken();
    case BombCell(p) =>
      if game.state == EnemyTurn {
        raised := game.IncomingBomb(p);
      }
    case BombResponse(p, hit, ship, allSunk) =>
      raised := game.OnBombResponse(p, hit, ship, allSunk);
  }
}
