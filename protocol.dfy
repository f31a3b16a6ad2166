/**
 * The session of one peer as a value: the game state, the two boards, the
 * status line and everything sent on the connection.  Each function below is
 * one method or handler of the game; the Game class implements them on
 * objects.  Sending is appending to `outbox`.
 */
module Protocol {
  import opened Wrappers
  import opened Cells
  import opened Ships
  import opened Fleets
  import opened Messages
  import opened BoardModel

  /** Game.gameState, in the order of its numeric codes 0 to 5. */
  datatype GameState = Begin | EnemyReady | IAmReady | EnemyTurn | MyTurn | Finished

  /** The status texts of Game.msgs. */
  datatype Status =
    | GameStart | InvalidPositions | WaitForStart | Wait | GameOn | YourTurn
    | GoodHit | Missed | SunkOne | LostShip | LostGame | Won

  function Text(s: Status): string {
    match s
    case GameStart => "Drag your ships to the desired location on your board (on the right), then bomb a square on the left board to start the game!"
    case InvalidPositions => "All ships must be in valid positions before the game can begin."
    case WaitForStart => "Wait until your enemy places all his ships."
    case Wait => "Wait your turn!"
    case GameOn => "Game on!"
    case YourTurn => "Your turn, bomb now!"
    case GoodHit => "Good hit!"
    case Missed => "Miss."
    case SunkOne => "You sunk a ship!"
    case LostShip => "You lost a ship!"
    case LostGame => "You lost this time."
    case Won => "Congratulations!  You won!"
  }

  /**
   * One peer: `me` is the own board (myBoard cells and ships), `myBoardTurn`
   * and `enemyBoardTurn` are the playerTurn flags of the two boards, `enemy`
   * the ships the opponent has revealed, `status` the last status text
   * shown, and `outbox` every message sent, oldest first.
   */
  datatype Session = Session(
    state: GameState,
    me: BoardV,
    myBoardTurn: bool,
    enemy: seq<ShipV>,
    enemyBoardTurn: bool,
    status: Status,
    outbox: seq<Msg>)

  /** A new game on a board whose ships have been placed. */
  function Start(me: BoardV): Session {
    Session(Begin, me, false, [], false, GameStart, [])
  }

  /**
   * The turn flags agree with the state: the enemy board accepts shots
   * exactly in myTurn, and the own board's flag is up in enemyTurn and only
   * then or after the game.
   */
  predicate TurnInv(state: GameState, myBoardTurn: bool, enemyBoardTurn: bool) {
    && (enemyBoardTurn <==> state == MyTurn)
    && (state == EnemyTurn ==> myBoardTurn)
    && (myBoardTurn ==> state == EnemyTurn || state == Finished)
  }

  /** What every reachable session satisfies: the turn flags agree and the own board keeps its damage invariant. */
  ghost predicate Inv(s: Session) {
    Consistent(s.me) && TurnInv(s.state, s.myBoardTurn, s.enemyBoardTurn)
  }

  // ---------------------------------------------------------------------
  // Game methods

  /** passToken: hand the turn to the opponent. */
  function PassToken(s: Session): Session {
    s.(myBoardTurn := true, enemyBoardTurn := false, state := EnemyTurn, outbox := s.outbox + [Msg.PassToken])
  }

  /** getToken: take the turn. */
  function GetToken(s: Session): Session {
    s.(myBoardTurn := false, enemyBoardTurn := true, state := MyTurn, status := YourTurn)
  }

  /**
   * The success branch of readyToStartGame: announce readiness; in begin
   * wait for the opponent, in enemyReady start by passing the turn.
   */
  function Announce(s: Session): Session
    requires s.state == Begin || s.state == EnemyReady
  {
    var s1 := s.(outbox := s.outbox + [ReadyToPlay]);
    if s.state == Begin then s1.(state := IAmReady, status := WaitForStart)
    else PassToken(s1).(status := Wait)
  }

  /**
   * readyToStartGame: commit the placement and announce readiness.  An
   * invalid placement only changes the status.
   */
  function ReadyToStartGame(s: Session): Session
    requires s.state == Begin || s.state == EnemyReady
  {
    var v := Validate(s.me);
    if !v.valid then s.(status := InvalidPositions)
    else Announce(s.(me := v.board))
  }

  /** What the enemy board reports: a click outside the player's turn, or a shot to send. */
  datatype EnemyBoardEvent = Click | Fire(cellPos: Pos)

  /** The onEvent handler of the enemy board. */
  function OnEnemyBoardEvent(s: Session, e: EnemyBoardEvent): Session {
    match e
    case Fire(p) => s.(outbox := s.outbox + [BombCell(p)])
    case Click =>
      match s.state
      case Begin => ReadyToStartGame(s)
      case EnemyReady => ReadyToStartGame(s)
      case IAmReady => s.(status := WaitForStart)
      case EnemyTurn => s.(status := Wait)
      case MyTurn => s
      case Finished => s
  }

  /**
   * EnemyBoard.onCellClick: `target` is the clicked cell, None when the
   * click hit something else.  Outside the player's turn the click is
   * reported first; if the turn flag is up afterwards the shot is sent.
   */
  function ClickEnemyCell(s: Session, target: Option<Pos>): Session {
    if target.None? then s
    else
      var s1 := if !s.enemyBoardTurn then OnEnemyBoardEvent(s, Click) else s;
      if s1.enemyBoardTurn then OnEnemyBoardEvent(s1, Fire(target.value)) else s1
  }

  /** The onEvent handler of the own board: send the response; a sunk ship or a lost game is shown. */
  function OnMyBoardEvent(s: Session, shot: ShotResult): Session {
    var s1 := s.(outbox := s.outbox + [shot.response]);
    match shot.event
    case PlayerMissed => s1
    case Hit => s1
    case ShipSunk => s1.(status := LostShip)
    case AllSunk => s1.(status := LostGame, state := Finished)
  }

  /** A handler result: `raised` when the handler throws (a cell outside the grid), with the state it leaves. */
  datatype Handled = Handled(raised: bool, session: Session)

  /**
   * incomingBomb: look up the cell and fire on it; a position outside the
   * grid throws before anything changes.  A cell already hit changes
   * nothing and sends nothing.
   */
  function IncomingBomb(s: Session, p: Pos): Handled
    requires StampsInRange(s.me)
  {
    if !InRange(p) then Handled(true, s)
    else
      var f := Bomb(s.me, p);
      var s1 := s.(me := f.board);
      if f.shot.None? then Handled(false, s1) else Handled(false, OnMyBoardEvent(s1, f.shot.value))
  }

  /** The status shown after a bombResponse: a miss, a hit, or a hit that sank a ship. */
  function ResponseStatus(hit: bool, ship: Option<Placement>): Status {
    if !hit then Missed else if ship.Some? then SunkOne else GoodHit
  }

  /** readyToPlay from the opponent: shown in iAmReady, remembered in begin, ignored otherwise. */
  function OnReadyToPlay(s: Session): Session {
    if s.state == IAmReady then s.(status := GameOn)
    else if s.state == Begin then s.(state := EnemyReady)
    else s
  }

  /**
   * The rest of a bombResponse once the enemy board is updated: show the
   * outcome, end the game on allSunk, and otherwise pass the turn unless
   * the game is over.
   */
  function Outcome(s: Session, hit: bool, ship: Option<Placement>, allSunk: bool): Session {
    var s1 := s.(status := ResponseStatus(hit, ship));
    var s2 := if allSunk then s1.(state := Finished, enemyBoardTurn := false, status := Won) else s1;
    if s2.state != Finished then PassToken(s2) else s2
  }

  /** bombResponse from the opponent: update the enemy board (which throws on a cell outside the grid), then the outcome. */
  function OnBombResponse(s: Session, p: Pos, hit: bool, ship: Option<Placement>, allSunk: bool): Handled {
    var r := Reveal(s.enemy, p, ship);
    if r.raised then Handled(true, s)
    else Handled(false, Outcome(s.(enemy := r.fleet), hit, ship, allSunk))
  }

  /** handleMessage: dispatch one message from the opponent. */
  function HandleMessage(s: Session, m: Incoming): (h: Handled)
    requires StampsInRange(s.me)
    ensures h.raised ==> h.session == s
    ensures h.session.me == s.me ||
            (m.Known? && m.msg.BombCell? && s.state == EnemyTurn && InRange(m.msg.cellPos) &&
             h.session.me == Bomb(s.me, m.msg.cellPos).board)
  {
    match m
    case Untyped => Handled(false, s)
    case OtherType => Handled(false, s)
    case Known(msg) =>
      match msg
      case ReadyToPlay => Handled(false, OnReadyToPlay(s))
      case PassToken => Handled(false, GetToken(s))
      case BombCell(p) => if s.state == EnemyTurn then IncomingBomb(s, p) else Handled(false, s)
      case BombResponse(p, hit, ship, allSunk) => OnBombResponse(s, p, hit, ship, allSunk)
  }

  // ---------------------------------------------------------------------
  // Properties of one peer

  /** The start of a game satisfies the session invariant when the board does. */
  lemma StartInv(me: BoardV)
    requires Consistent(me)
    ensures Inv(Start(me))
  {
  }

  /**
   * readyToStartGame: with an invalid placement only the status changes;
   * with a valid one the placement is committed and readyToPlay is sent,
   * then in begin the peer waits as iAmReady, and in enemyReady it also
   * passes the turn and moves to enemyTurn.
   */
  lemma ReadyToStartGameSpec(s: Session)
    requires Inv(s) && (s.state == Begin || s.state == EnemyReady)
    ensures var r := ReadyToStartGame(s);
      && Inv(r)
      && (!FleetIsValid(Places(s.me.fleet)) ==> r == s.(status := InvalidPositions))
      && (FleetIsValid(Places(s.me.fleet)) ==>
            && r.me == Validate(s.me).board
            && Committed(r.me)
            && r.enemy == s.enemy
            && (s.state == Begin ==>
                  r.state == IAmReady && r.outbox == s.outbox + [ReadyToPlay] && !r.myBoardTurn && !r.enemyBoardTurn)
            && (s.state == EnemyReady ==>
                  r.state == EnemyTurn && r.outbox == s.outbox + [ReadyToPlay, Msg.PassToken] &&
                  r.myBoardTurn && !r.enemyBoardTurn))
  {
    ConsistentSizes(s.me);
    ValidateConsistent(s.me);
    ValidateCommits(s.me);
  }

  /** A click on the enemy board keeps the session invariant. */
  lemma ClickInv(s: Session, target: Option<Pos>)
    requires Inv(s)
    ensures Inv(ClickEnemyCell(s, target))
  {
    if target.Some? && !s.enemyBoardTurn && (s.state == Begin || s.state == EnemyReady) {
      ReadyToStartGameSpec(s);
    }
  }

  /**
   * A click on the enemy board sends a bombCell for the clicked cell exactly
   * in myTurn, and then changes nothing else; outside myTurn it never fires.
   */
  lemma ClickFiresOnlyInMyTurn(s: Session, p: Pos)
    requires Inv(s)
    ensures s.state == MyTurn ==> ClickEnemyCell(s, Some(p)) == s.(outbox := s.outbox + [BombCell(p)])
    ensures s.state != MyTurn ==> BombCell(p) !in ClickEnemyCell(s, Some(p)).outbox[|s.outbox|..]
  {
    var r := ClickEnemyCell(s, Some(p));
    if s.state == Begin || s.state == EnemyReady {
      ReadyToStartGameSpec(s);
      assert r == ReadyToStartGame(s);
    }
  }

  /** Handling any message keeps the session invariant. */
  lemma MessageInv(s: Session, m: Incoming)
    requires Inv(s)
    ensures Inv(HandleMessage(s, m).session)
  {
    if m.Known? && m.msg.BombCell? && s.state == EnemyTurn && InRange(m.msg.cellPos) {
      BombConsistent(s.me, m.msg.cellPos);
    }
  }

  /**
   * handleMessage throws exactly on a bombCell in enemyTurn or a
   * bombResponse whose cell lies outside the grid, and then nothing has
   * changed.
   */
  lemma RaisedIff(s: Session, m: Incoming)
    requires StampsInRange(s.me)
    ensures var h := HandleMessage(s, m);
      && (h.raised <==>
            m.Known? &&
            ((m.msg.BombCell? && s.state == EnemyTurn) || m.msg.BombResponse?) &&
            !InRange(m.msg.cellPos))
      && (h.raised ==> h.session == s)
  {
  }

  /** Data without a type, and types other than the four messages, are dropped. */
  lemma UnknownDropped(s: Session, m: Incoming)
    requires StampsInRange(s.me) && !m.Known?
    ensures HandleMessage(s, m) == Handled(false, s)
  {
  }

  /** readyToPlay moves begin to enemyReady and leaves every other state as it is; it sends nothing. */
  lemma ReadyToPlayTransition(s: Session)
    requires StampsInRange(s.me)
    ensures var r := HandleMessage(s, Known(ReadyToPlay)).session;
      && r.state == (if s.state == Begin then EnemyReady else s.state)
      && r.outbox == s.outbox && r.me == s.me
  {
  }

  /** passToken from the opponent always yields myTurn with the enemy board armed. */
  lemma PassTokenTransition(s: Session)
    requires StampsInRange(s.me)
    ensures var r := HandleMessage(s, Known(Msg.PassToken)).session;
      && r.state == MyTurn && r.enemyBoardTurn && !r.myBoardTurn && r.outbox == s.outbox && r.me == s.me
  {
  }

  /**
   * A bombCell is applied only in enemyTurn; then the own board takes the
   * shot, and a reply (the bombResponse) is sent exactly when the cell had
   * not been hit before.
   */
  lemma BombCellTransition(s: Session, p: Pos)
    requires Inv(s)
    ensures var h := HandleMessage(s, Known(BombCell(p)));
      && (s.state != EnemyTurn ==> h == Handled(false, s))
      && (s.state == EnemyTurn && InRange(p) ==>
            && !h.raised
            && h.session.me == Bomb(s.me, p).board
            && (h.session.state == Finished <==> Bomb(s.me, p).shot.Some? && Bomb(s.me, p).shot.value.event == AllSunk)
            && (h.session.state != Finished ==> h.session.state == EnemyTurn)
            && (At(s.me.grid, p).hasHit ==> h.session.outbox == s.outbox)
            && (!At(s.me.grid, p).hasHit ==>
                  h.session.outbox == s.outbox + [Bomb(s.me, p).shot.value.response] &&
                  h.session.outbox[|s.outbox|] == BombResponse(p, At(s.me.grid, p).shipIndex >= 0,
                                                               h.session.outbox[|s.outbox|].ship,
                                                               h.session.outbox[|s.outbox|].allSunk)))
  {
    if s.state == EnemyTurn && InRange(p) {
      BombSpec(s.me, p);
    }
  }

  /**
   * A bombResponse with allSunk ends the game and disarms the enemy board;
   * any other one passes the turn, unless the game is already over.
   */
  lemma BombResponseTransition(s: Session, p: Pos, hit: bool, ship: Option<Placement>, allSunk: bool)
    requires StampsInRange(s.me) && InRange(p)
    ensures var h := HandleMessage(s, Known(BombResponse(p, hit, ship, allSunk)));
      && !h.raised
      && h.session.enemy == s.enemy + (if ship.Some? then [ShipV(ship.value, 0)] else [])
      && (allSunk ==> h.session.state == Finished && !h.session.enemyBoardTurn && h.session.status == Won &&
                      h.session.outbox == s.outbox)
      && (!allSunk && s.state != Finished ==>
            h.session.state == EnemyTurn && h.session.myBoardTurn && !h.session.enemyBoardTurn &&
            h.session.outbox == s.outbox + [Msg.PassToken])
      && (!allSunk && s.state == Finished ==> h.session.state == Finished && h.session.outbox == s.outbox)
  {
  }

  /**
   * Once finished, clicks change nothing and the only way out is a passToken
   * from the opponent (which, as the code stands, starts a new turn).
   */
  lemma FinishedIsFinal(s: Session, target: Option<Pos>, m: Incoming)
    requires Inv(s) && s.state == Finished
    ensures ClickEnemyCell(s, target) == s
    ensures HandleMessage(s, m).session.state != Finished ==> m == Known(Msg.PassToken)
  {
  }

  /** No message moves a ship or restamps a cell: a committed own board stays committed. */
  lemma MessageKeepsCommitted(s: Session, m: Incoming)
    requires StampsInRange(s.me) && Committed(s.me)
    ensures Committed(HandleMessage(s, m).session.me)
  {
    if m.Known? && m.msg.BombCell? && s.state == EnemyTurn && InRange(m.msg.cellPos) {
      BombKeepsCommitted(s.me, m.msg.cellPos);
    }
  }

  /** Every handler only appends to the outbox, at most one message per delivered message. */
  lemma OutboxAppendOnly(s: Session, m: Incoming)
    requires StampsInRange(s.me)
    ensures var r := HandleMessage(s, m).session;
      |s.outbox| <= |r.outbox| <= |s.outbox| + 1 && r.outbox[..|s.outbox|] == s.outbox
  {
  }
}

