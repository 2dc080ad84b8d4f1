/**
 * The shared vocabulary of client and server: the player record, item
 * stacks, and the tagged messages that cross the datagram transport.
 * Messages are values of a datatype here; their JSON text form is not
 * modelled. The one exception is the PLAYER_ACTION message, which the
 * client builds by spreading an arbitrary `extraData` object over fixed
 * fields and the server reads field by field, so it is kept as a flat
 * field map of JavaScript scalar values.
 */
module Protocol {
  import opened Basics

  /** The server's session key: the id the client's socket chose when it was bound. */
  type ClientId = string

  datatype Quality = Common | Uncommon | Rare | Epic

  datatype ItemStack = ItemStack(id: string, name: string, quantity: int, quality: Quality, icon: string)

  /** One inventory slot: a stack or `null`. */
  type Slot = Option<ItemStack>

  /**
   * A JavaScript array of slots: its elements, and the named properties a
   * write under a non-index key (`inv[-1] = ...`, `inv["x"] = ...`) adds to
   * the array object. Named properties can be read back, but an array copy
   * (`[...inv]`) and every element-wise reader see only the elements.
   */
  datatype InventoryArray = InventoryArray(elements: seq<Slot>, named: map<string, Slot>)

  datatype PlayerState = PlayerState(
    playerId: string,
    health: int,
    maxHealth: int,
    exp: int,
    maxExp: int,
    level: int,
    position: Point,
    velocity: Point,
    skillCooldowns: map<int, int>,
    inventory: InventoryArray)

  /** A JavaScript scalar as it can appear in a message field. */
  datatype JsValue = Undefined | Null | Bool(b: bool) | Num(n: int) | Str(s: string)

  /** A flat JavaScript object. */
  type Fields = map<string, JsValue>

  /** Property read `o[key]`: a missing key reads as `undefined`. */
  function Get(o: Fields, key: string): (v: JsValue)
    ensures key !in o ==> v == Undefined
    ensures key in o ==> v == o[key]
  {
    if key in o then o[key] else Undefined
  }

  /** The string held by a field, if it holds one (what `=== 'literal'` can match). */
  function StrField(o: Fields, key: string): (r: Option<string>)
    ensures r.Some? <==> Get(o, key).Str?
    ensures r.Some? ==> Get(o, key) == Str(r.value)
  {
    match Get(o, key)
    case Str(s) => Some(s)
    case _ => None
  }

  // Message type tags.
  const LOGIN: int := 1
  const LOGIN_RESPONSE: int := 2
  const HEARTBEAT: int := 3
  const HEARTBEAT_RESPONSE: int := 4
  const PLAYER_STATE: int := 5
  const PLAYER_MOVE: int := 6
  const PLAYER_ACTION: int := 7
  const GAME_STATE: int := 8
  const ERROR: int := 99

  /** A `type` value the server's dispatcher has no case for. */
  type ServerUnknownTag = t: int | t != 1 && t != 3 && t != 6 && t != 7 witness 0

  /** A `type` value the client's dispatcher has no case for. */
  type ClientUnknownTag = t: int | t != 2 && t != 4 && t != 5 && t != 8 && t != 99 witness 0

  /** Client-to-server messages, as the server sees them after parsing. */
  datatype ClientMsg =
    | Login(playerId: string, timestamp: int, version: string)
    | Heartbeat(heartbeatPlayer: Option<string>, timestamp: int)
    | PlayerMove(movePlayer: Option<string>, position: Point, velocity: Point, timestamp: int)
    | PlayerAction(fields: Fields)
    | UnknownClientMsg(tag: ServerUnknownTag)

  function ClientTag(m: ClientMsg): (t: int)
    ensures m.UnknownClientMsg? <==> t !in {LOGIN, HEARTBEAT, PLAYER_MOVE, PLAYER_ACTION}
  {
    match m
    case Login(_, _, _) => LOGIN
    case Heartbeat(_, _) => HEARTBEAT
    case PlayerMove(_, _, _, _) => PLAYER_MOVE
    case PlayerAction(_) => PLAYER_ACTION
    case UnknownClientMsg(t) => t
  }

  /** What a skill or item did: a health change, or a "used <name>" message. */
  datatype Outcome = HealthChange(delta: int) | UsedMessage(name: JsValue)

  /** The optional effect summary spread into a PLAYER_STATE message. */
  datatype Effect = NoEffect | SkillEffect(skill: Outcome) | ItemEffect(item: Outcome)

  datatype RosterEntry = RosterEntry(rosterId: ClientId, rosterPosition: Point)

  /** Server-to-client messages. */
  datatype ServerMsg =
    | LoginResponse(success: bool, loginPlayer: string, playerState: PlayerState, timestamp: int)
    | HeartbeatResponse(timestamp: int)
    | PlayerStateMsg(state: PlayerState, effect: Effect, timestamp: int)
    | GameState(players: seq<RosterEntry>, gameTime: int, timestamp: int)
    | ErrorMsg(error: JsValue)
    | UnknownServerMsg(tag: ClientUnknownTag)

  function ServerTag(m: ServerMsg): (t: int)
    ensures m.UnknownServerMsg? <==> t !in {LOGIN_RESPONSE, HEARTBEAT_RESPONSE, PLAYER_STATE, GAME_STATE, ERROR}
  {
    match m
    case LoginResponse(_, _, _, _) => LOGIN_RESPONSE
    case HeartbeatResponse(_) => HEARTBEAT_RESPONSE
    case PlayerStateMsg(_, _, _) => PLAYER_STATE
    case GameState(_, _, _) => GAME_STATE
    case ErrorMsg(_) => ERROR
    case UnknownServerMsg(t) => t
  }
}
