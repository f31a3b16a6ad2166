/** The four protocol messages the two peers exchange, and what arrives from the connection. */
module Messages {
  import opened Wrappers
  import opened Cells
  import opened Ships

  /**
   * `{type: "readyToPlay"}`, `{type: "passToken"}`, `{type: "bombCell", cellPos}`
   * and `{type: "bombResponse", cellPos, hit, ship?, allSunk?}`.  An absent
   * `allSunk` and `allSunk: false` are handled alike, so it is a plain flag here.
   */
  datatype Msg =
    | ReadyToPlay
    | PassToken
    | BombCell(cellPos: Pos)
    | BombResponse(cellPos: Pos, hit: bool, ship: Option<Placement>, allSunk: bool)

  /** Data delivered by the connection: no `type` property at all (chat text, say), some other tag, or one of the four messages. */
  datatype Incoming = Untyped | OtherType | Known(msg: Msg)

  /** The `type` tag on the wire. */
  function Tag(m: Msg): string {
    match m
    case ReadyToPlay => "readyToPlay"
    case PassToken => "passToken"
    case BombCell(_) => "bombCell"
    case BombResponse(_, _, _, _) => "bombResponse"
  }

  /** The `type` tag tells the four messages apart, which is what the dispatch on `msg.type` relies on. */
  lemma TagIdentifies(m1: Msg, m2: Msg)
    ensures Tag(m1) == Tag(m2) <==>
      (m1.ReadyToPlay? && m2.ReadyToPlay?) || (m1.PassToken? && m2.PassToken?) ||
      (m1.BombCell? && m2.BombCell?) || (m1.BombResponse? && m2.BombResponse?)
  {
  }
}
