/**
 * Two peers talking to each other.  Each message one peer sends is handed
 * to the other's handleMessage in the order sent; the lemmas follow the
 * opening handshake, a simultaneous start, and one exchange of fire.
 */
module Peers {
  import opened Wrappers
  import opened Cells
  import opened Ships
  import opened Fleets
  import opened Messages
  import opened BoardModel
  import opened Protocol

  /** Deliver one message to a peer. */
  function Receive(s: Session, m: Msg): Session
    requires StampsInRange(s.me)
  {
    HandleMessage(s, Known(m)).session
  }

  /**
   * The opening when one player is ready first: A clicks and announces
   * readiness, B learns of it, B clicks, commits and passes the turn, and A
   * receives both messages.  A ends up to move and B waits for the shot.
   */
  lemma HandshakeSequential(ma: BoardV, mb: BoardV, pa: Pos, pb: Pos)
    requires Consistent(ma) && Consistent(mb)
    requires FleetIsValid(Places(ma.fleet)) && FleetIsValid(Places(mb.fleet))
    ensures
      var a1 := ClickEnemyCell(Start(ma), Some(pa));
      var b1 := Receive(Start(mb), ReadyToPlay);
      var b2 := ClickEnemyCell(b1, Some(pb));
      && a1.state == IAmReady && a1.outbox == [ReadyToPlay]
      && b1.state == EnemyReady
      && b2.state == EnemyTurn && b2.outbox == [ReadyToPlay, Msg.PassToken]
      && StampsInRange(a1.me)
      && var a3 := Receive(Receive(a1, ReadyToPlay), Msg.PassToken);
         && a3.state == MyTurn && a3.enemyBoardTurn && a3.outbox == [ReadyToPlay]
         && Inv(a3) && Inv(b2) && Committed(a3.me) && Committed(b2.me)
  {
    var a0, b0 := Start(ma), Start(mb);
    StartInv(ma);
    StartInv(mb);
    ReadyToStartGameSpec(a0);
    var a1 := ClickEnemyCell(a0, Some(pa));
    assert a1 == ReadyToStartGame(a0);
    var b1 := Receive(b0, ReadyToPlay);
    MessageInv(b0, Known(ReadyToPlay));
    ReadyToStartGameSpec(b1);
    var b2 := ClickEnemyCell(b1, Some(pb));
    assert b2 == ReadyToStartGame(b1);
    ClickInv(a0, Some(pa));
    var a2 := Receive(a1, ReadyToPlay);
    MessageInv(a1, Known(ReadyToPlay));
    MessageInv(a2, Known(Msg.PassToken));
  }

  /**
   * When both players click before either hears from the other, both end in
   * iAmReady; the readyToPlay each then receives only shows a status, so
   * neither ever gets the turn: every further click sends nothing.
   */
  lemma SimultaneousReadyDeadlock(ma: BoardV, mb: BoardV, pa: Pos, pb: Pos)
    requires Consistent(ma) && Consistent(mb)
    requires FleetIsValid(Places(ma.fleet)) && FleetIsValid(Places(mb.fleet))
    ensures
      var a1 := ClickEnemyCell(Start(ma), Some(pa));
      var b1 := ClickEnemyCell(Start(mb), Some(pb));
      && a1.outbox == [ReadyToPlay] && b1.outbox == [ReadyToPlay]
      && StampsInRange(a1.me) && StampsInRange(b1.me)
      && var a2 := Receive(a1, ReadyToPlay);
         var b2 := Receive(b1, ReadyToPlay);
         && a2.state == IAmReady && b2.state == IAmReady
         && a2.outbox == [ReadyToPlay] && b2.outbox == [ReadyToPlay]
         && (forall t :: ClickEnemyCell(a2, t).state == IAmReady && ClickEnemyCell(a2, t).outbox == a2.outbox)
         && (forall t :: ClickEnemyCell(b2, t).state == IAmReady && ClickEnemyCell(b2, t).outbox == b2.outbox)
  {
    var a0, b0 := Start(ma), Start(mb);
    StartInv(ma);
    StartInv(mb);
    ReadyToStartGameSpec(a0);
    ReadyToStartGameSpec(b0);
    assert ClickEnemyCell(a0, Some(pa)) == ReadyToStartGame(a0);
    assert ClickEnemyCell(b0, Some(pb)) == ReadyToStartGame(b0);
  }

  /**
   * One exchange of fire at a cell not hit before: A sends bombCell, B takes
   * the shot and replies, A reads the reply.  If the shot sank B's last
   * ship both games are over; otherwise A has passed the turn and B, once
   * it receives the token, is to move.  B's reply says hit exactly when the
   * cell records a ship, which on B's committed board is exactly when a ship
   * of B's covers the cell.
   */
  lemma ExchangeOfFire(a: Session, b: Session, p: Pos)
    requires Inv(a) && Inv(b) && a.state == MyTurn && b.state == EnemyTurn && Committed(b.me)
    requires InRange(p) && !At(b.me.grid, p).hasHit
    ensures
      var a1 := ClickEnemyCell(a, Some(p));
      var b1 := Receive(b, BombCell(p));
      && a1.outbox == a.outbox + [BombCell(p)]
      && b1.me == Bomb(b.me, p).board
      && |b1.outbox| == |b.outbox| + 1
      && var reply := b1.outbox[|b.outbox|];
         && reply.BombResponse? && reply.cellPos == p
         && (reply.hit <==> At(b.me.grid, p).shipIndex >= 0)
         && (reply.hit <==> exists i :: 0 <= i < |b.me.fleet| && p in Covered(b.me.fleet[i].place))
         && StampsInRange(a1.me)
         && var a2 := Receive(a1, reply);
            && (reply.allSunk ==> a2.state == Finished && b1.state == Finished && a2.status == Won && b1.status == LostGame)
            && (!reply.allSunk ==>
                  && a2.state == EnemyTurn && a2.outbox == a1.outbox + [Msg.PassToken]
                  && StampsInRange(b1.me)
                  && var b2 := Receive(b1, Msg.PassToken);
                     b2.state == MyTurn && b2.enemyBoardTurn && b2.me == b1.me)
  {
    ClickFiresOnlyInMyTurn(a, p);
    BombCellTransition(b, p);
    MessageInv(b, Known(BombCell(p)));
    BombSpec(b.me, p);
    CommittedShipAt(b.me, p);
  }

  /**
   * A shot at a cell already hit gets no reply at all, so the shooter keeps
   * the turn (and its enemy board stays armed) until it fires elsewhere.
   */
  lemma RepeatedShotNoReply(a: Session, b: Session, p: Pos)
    requires Inv(a) && Inv(b) && a.state == MyTurn && b.state == EnemyTurn
    requires InRange(p) && At(b.me.grid, p).hasHit
    ensures Receive(b, BombCell(p)) == b
    ensures var a1 := ClickEnemyCell(a, Some(p)); a1.state == MyTurn && a1.enemyBoardTurn
  {
    BombCellTransition(b, p);
    ClickFiresOnlyInMyTurn(a, p);
  }

  /**
   * Firing does not end the turn: until the reply arrives a player can
   * fire again, and each click sends another bombCell.
   */
  lemma FireKeepsTurn(a: Session, p: Pos, q: Pos)
    requires Inv(a) && a.state == MyTurn
    ensures ClickEnemyCell(ClickEnemyCell(a, Some(p)), Some(q)).outbox == a.outbox + [BombCell(p), BombCell(q)]
  {
    ClickFiresOnlyInMyTurn(a, p);
    var a1 := ClickEnemyCell(a, Some(p));
    ClickFiresOnlyInMyTurn(a1, q);
  }
}
