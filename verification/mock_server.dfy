/**
 * The authoritative mock server: a session table keyed by the client's
 * socket id, message handlers that validate and apply client commands to
 * the session's player state, and the periodic broadcast.
 *
 * Every handler is a pure function from the table (and the message, the
 * sender and the current time `now`, which stands for `Date.now()`) to the
 * new table and the messages handed to `sendToClient`, in sending order.
 * The server keeps two JavaScript Maps, `connectedClients` and
 * `gameState.players`, whose entries share one player object; the model
 * keeps both and writes both whenever the shared object changes.
 */
module MockServer {
  import opened Basics
  import opened Protocol
  import opened JsKeys
  import opened Inventory
  import OM = OrderedMap

  datatype Client = Client(lastHeartbeat: int, playerState: PlayerState)

  datatype Server = Server(
    connectedClients: OM.OMap<ClientId, Client>,
    players: OM.OMap<ClientId, PlayerState>,
    gameTime: int)

  /** One `sendToClient(to, msg)` call. */
  datatype Outgoing = Outgoing(to: ClientId, msg: ServerMsg)

  /** A handler's result: the new table and the messages sent, in order. */
  datatype Step = Step(server: Server, out: seq<Outgoing>)

  /** The table as constructed: no clients, game time 0. */
  function Initial(): (s: Server)
    ensures Inv(s)
    ensures s.connectedClients.entries == map[] && s.players.entries == map[]
  {
    Server(OM.Empty(), OM.Empty(), 0)
  }

  // ---------------------------------------------------------------------
  // Invariants

  /** The invariants of one player record the server maintains. */
  ghost predicate ValidPlayer(ps: PlayerState) {
    && 0 <= ps.health <= ps.maxHealth
    && InWorld(ps.position)
    && StacksPositive(ps.inventory)
    && (forall k :: k in ps.skillCooldowns ==> 1 <= k <= 4 && ps.skillCooldowns[k] >= 0)
  }

  /** Both Maps list the same ids in the same order and share each player record. */
  ghost predicate Consistent(s: Server) {
    && OM.Valid(s.connectedClients)
    && OM.Valid(s.players)
    && s.connectedClients.keys == s.players.keys
    && (forall id :: id in s.connectedClients.entries ==>
          id in s.players.entries && s.players.entries[id] == s.connectedClients.entries[id].playerState)
  }

  ghost predicate Inv(s: Server) {
    && Consistent(s)
    && (forall id :: id in s.connectedClients.entries ==> ValidPlayer(s.connectedClients.entries[id].playerState))
  }

  predicate Known(s: Server, id: ClientId) {
    id in s.connectedClients.entries
  }

  /** Write a session's record into both Maps (the shared-object update). */
  function Store(s: Server, id: ClientId, c: Client): (r: Server)
    ensures Inv(s) && ValidPlayer(c.playerState) ==> Inv(r)
    ensures r.connectedClients.entries == s.connectedClients.entries[id := c]
    ensures r.players.entries == s.players.entries[id := c.playerState]
    ensures r.gameTime == s.gameTime
    ensures Consistent(s) && Known(s, id) ==> r.connectedClients.keys == s.connectedClients.keys
  {
    s.(connectedClients := OM.Put(s.connectedClients, id, c),
       players := OM.Put(s.players, id, c.playerState))
  }

  // ---------------------------------------------------------------------
  // Login, heartbeat, move

  const StartPosition: Point := Point(400, 300)

  /** The player record `handleLogin` creates. */
  function NewPlayerState(id: ClientId): (ps: PlayerState)
    ensures ValidPlayer(ps)
    ensures |ps.inventory.elements| == InventorySize
  {
    PlayerState(id, 100, 100, 0, 100, 1, StartPosition, Point(0, 0), map[], InitialInventory())
  }

  /**
   * `handleLogin`: install a fresh player record for the sender, whether or
   * not it already had one, and reply with LOGIN_RESPONSE.
   */
  function HandleLogin(s: Server, id: ClientId, now: int): (r: Step)
    ensures Inv(s) ==> Inv(r.server)
    ensures Known(r.server, id)
    ensures var ps := r.server.connectedClients.entries[id].playerState;
            && r.server.connectedClients.entries[id].lastHeartbeat == now
            && ps.playerId == id
            && ps.health == 100 && ps.maxHealth == 100
            && ps.exp == 0 && ps.maxExp == 100 && ps.level == 1
            && ps.position == Point(400, 300) && ps.velocity == Point(0, 0)
            && ps.skillCooldowns == map[]
            && ps.inventory == InitialInventory()
            && r.out == [Outgoing(id, LoginResponse(true, id, ps, now))]
    ensures forall other :: other != id ==>
              (Known(r.server, other) <==> Known(s, other)) &&
              (Known(s, other) ==> r.server.connectedClients.entries[other] == s.connectedClients.entries[other])
    ensures Consistent(s) && Known(s, id) ==> r.server.connectedClients.keys == s.connectedClients.keys
    ensures Consistent(s) && !Known(s, id) ==> r.server.connectedClients.keys == s.connectedClients.keys + [id]
  {
    var ps := NewPlayerState(id);
    Step(Store(s, id, Client(now, ps)), [Outgoing(id, LoginResponse(true, id, ps, now))])
  }

  /** `handleHeartbeat`: refresh the liveness stamp and acknowledge; unknown senders are ignored. */
  function HandleHeartbeat(s: Server, id: ClientId, now: int): (r: Step)
    ensures !Known(s, id) ==> r == Step(s, [])
    ensures Known(s, id) ==>
              && r.server.connectedClients.entries == s.connectedClients.entries[id := Client(now, s.connectedClients.entries[id].playerState)]
              && r.server.players == s.players
              && r.out == [Outgoing(id, HeartbeatResponse(now))]
    ensures Inv(s) ==> Inv(r.server)
  {
    if !Known(s, id) then Step(s, [])
    else
      var c := s.connectedClients.entries[id];
      Step(s.(connectedClients := OM.Put(s.connectedClients, id, c.(lastHeartbeat := now))),
           [Outgoing(id, HeartbeatResponse(now))])
  }

  /**
   * `handlePlayerMove`: take the client's position and velocity, then clamp
   * the position into the world; no reply. Unknown senders are ignored.
   */
  function HandlePlayerMove(s: Server, id: ClientId, position: Point, velocity: Point): (r: Step)
    ensures !Known(s, id) ==> r == Step(s, [])
    ensures r.out == []
    ensures Known(s, id) ==> Known(r.server, id)
    ensures Known(s, id) ==>
              var old_ := s.connectedClients.entries[id];
              var ps := r.server.connectedClients.entries[id].playerState;
              && InWorld(ps.position)
              && (InWorld(position) ==> ps.position == position)
              && ps.position == ClampToWorld(position)
              && ps.velocity == velocity
              && ps == old_.playerState.(position := ps.position, velocity := velocity)
              && r.server.connectedClients.entries[id].lastHeartbeat == old_.lastHeartbeat
              && (forall other :: other != id ==>
                    (Known(r.server, other) <==> Known(s, other)) &&
                    (Known(s, other) ==> r.server.connectedClients.entries[other] == s.connectedClients.entries[other]))
    ensures Inv(s) ==> Inv(r.server)
  {
    if !Known(s, id) then Step(s, [])
    else
      var c := s.connectedClients.entries[id];
      var ps := c.playerState.(position := ClampToWorld(position), velocity := velocity);
      Step(Store(s, id, c.(playerState := ps)), [])
  }

  // ---------------------------------------------------------------------
  // Skills

  /** The server's skill-id to skill-slot table (`getSkillIndex`'s `skillMap`). */
  function SkillSlot(skillId: string): Option<int> {
    match skillId
    case "fireball" => Some(0)
    case "heal" => Some(1)
    case "lightning" => Some(2)
    case "frost" => Some(3)
    case "summon" => Some(4)
    case _ => None
  }

  /**
   * `getSkillIndex`: `skillMap[skillId] || -1`. The `||` falls back to -1 for
   * every falsy table value, and slot 0 is falsy, so `fireball` yields -1.
   */
  function GetSkillIndex(skillId: Option<string>): (r: int)
    ensures r == -1 <==> skillId !in {Some("heal"), Some("lightning"), Some("frost"), Some("summon")}
    ensures skillId == Some("fireball") ==> r == -1
    ensures r != -1 ==> 1 <= r <= 4 && SkillSlot(skillId.value) == Some(r)
  {
    var looked := if skillId.Some? then SkillSlot(skillId.value) else None;
    if looked.Some? && looked.value != 0 then looked.value else -1
  }

  const SkillCooldownSeconds: int := 3
  const HealAmount: int := 20
  const FireballDamage: int := 10
  const PotionHealAmount: int := 30

  datatype Applied = Applied(state: PlayerState, outcome: Outcome)

  /**
   * `handleSkillUse`'s effect on the player: `heal` restores 20 health up
   * to the maximum, `fireball` costs 10 health down to 0, any other skill
   * changes no health; then the skill's slot (if `GetSkillIndex` finds one)
   * gets a 3-second cooldown.
   */
  function UseSkill(ps: PlayerState, fields: Fields): (r: Applied)
    ensures var h := ps.health; var h' := r.state.health; var id := StrField(fields, "skillId");
            && (id == Some("heal") ==>
                  h' <= ps.maxHealth && h' <= h + HealAmount && (h' == ps.maxHealth || h' == h + HealAmount)
                  && r.outcome == HealthChange(HealAmount))
            && (id == Some("fireball") ==>
                  h' >= 0 && h' >= h - FireballDamage && (h' == 0 || h' == h - FireballDamage)
                  && r.outcome == HealthChange(-FireballDamage))
            && (id != Some("heal") && id != Some("fireball") ==>
                  h' == h && r.outcome == UsedMessage(Get(fields, "skillName")))
    ensures var idx := GetSkillIndex(StrField(fields, "skillId"));
            && (idx != -1 ==> r.state.skillCooldowns == ps.skillCooldowns[idx := SkillCooldownSeconds])
            && (idx == -1 ==> r.state.skillCooldowns == ps.skillCooldowns)
    ensures r.state == ps.(health := r.state.health, skillCooldowns := r.state.skillCooldowns)
    ensures ValidPlayer(ps) ==> ValidPlayer(r.state)
  {
    var skillId := StrField(fields, "skillId");
    var effected :=
      if skillId == Some("heal") then
        Applied(ps.(health := Min(ps.maxHealth, ps.health + HealAmount)), HealthChange(HealAmount))
      else if skillId == Some("fireball") then
        Applied(ps.(health := Max(0, ps.health - FireballDamage)), HealthChange(-FireballDamage))
      else
        Applied(ps, UsedMessage(Get(fields, "skillName")));
    var idx := GetSkillIndex(skillId);
    if idx != -1 then
      effected.(state := effected.state.(skillCooldowns := effected.state.skillCooldowns[idx := SkillCooldownSeconds]))
    else effected
  }

  // ---------------------------------------------------------------------
  // Items

  /**
   * `handleItemUse`'s effect: for item id `potion_heal`, restore 30 health
   * up to the maximum and consume one unit from the slot the `slotIndex`
   * value addresses, whatever that slot holds; any other item id changes
   * nothing.
   */
  function UseItem(ps: PlayerState, fields: Fields): (r: Applied)
    ensures StrField(fields, "itemId") == Some("potion_heal") ==>
              var h' := r.state.health;
              && h' <= ps.maxHealth && h' <= ps.health + PotionHealAmount
              && (h' == ps.maxHealth || h' == ps.health + PotionHealAmount)
              && r.state.inventory == ConsumeItem(ps.inventory, KeyOf(Get(fields, "slotIndex")))
              && r.state == ps.(health := h', inventory := r.state.inventory)
              && r.outcome == HealthChange(PotionHealAmount)
    ensures StrField(fields, "itemId") != Some("potion_heal") ==>
              r.state == ps && r.outcome == UsedMessage(Get(fields, "itemName"))
    ensures ValidPlayer(ps) ==> ValidPlayer(r.state)
  {
    if StrField(fields, "itemId") == Some("potion_heal") then
      var healed := ps.(health := Min(ps.maxHealth, ps.health + PotionHealAmount));
      Applied(healed.(inventory := ConsumeItem(healed.inventory, KeyOf(Get(fields, "slotIndex")))),
              HealthChange(PotionHealAmount))
    else
      Applied(ps, UsedMessage(Get(fields, "itemName")))
  }

  // ---------------------------------------------------------------------
  // Actions

  /** `handleSkillUse`: apply the skill and reply with the full state and the skill's effect. */
  function HandleSkillUse(s: Server, id: ClientId, fields: Fields, now: int): (r: Step)
    requires Known(s, id)
    ensures var c := s.connectedClients.entries[id];
            var a := UseSkill(c.playerState, fields);
            && r.server.connectedClients.entries == s.connectedClients.entries[id := c.(playerState := a.state)]
            && r.out == [Outgoing(id, PlayerStateMsg(a.state, SkillEffect(a.outcome), now))]
    ensures Inv(s) ==> Inv(r.server)
  {
    var c := s.connectedClients.entries[id];
    var a := UseSkill(c.playerState, fields);
    Step(Store(s, id, c.(playerState := a.state)), [Outgoing(id, PlayerStateMsg(a.state, SkillEffect(a.outcome), now))])
  }

  /** `handleItemUse`: apply the item and reply with the full state and the item's effect. */
  function HandleItemUse(s: Server, id: ClientId, fields: Fields, now: int): (r: Step)
    requires Known(s, id)
    ensures var c := s.connectedClients.entries[id];
            var a := UseItem(c.playerState, fields);
            && r.server.connectedClients.entries == s.connectedClients.entries[id := c.(playerState := a.state)]
            && r.out == [Outgoing(id, PlayerStateMsg(a.state, ItemEffect(a.outcome), now))]
    ensures Inv(s) ==> Inv(r.server)
  {
    var c := s.connectedClients.entries[id];
    var a := UseItem(c.playerState, fields);
    Step(Store(s, id, c.(playerState := a.state)), [Outgoing(id, PlayerStateMsg(a.state, ItemEffect(a.outcome), now))])
  }

  /**
   * `handleItemMove`: when the move passes its check, store the new
   * inventory and reply with the full state; otherwise change nothing and
   * send nothing.
   */
  function HandleItemMove(s: Server, id: ClientId, fields: Fields, now: int): (r: Step)
    requires Known(s, id)
    ensures var c := s.connectedClients.entries[id];
            var moved := MoveItem(c.playerState.inventory, KeyOf(Get(fields, "fromIndex")),
                                  KeyOf(Get(fields, "toIndex")), StrField(fields, "itemId"));
            && (moved.None? ==> r == Step(s, []))
            && (moved.Some? ==>
                  var ps := c.playerState.(inventory := moved.value);
                  && r.server.connectedClients.entries == s.connectedClients.entries[id := c.(playerState := ps)]
                  && r.out == [Outgoing(id, PlayerStateMsg(ps, NoEffect, now))])
    ensures Inv(s) ==> Inv(r.server)
  {
    var c := s.connectedClients.entries[id];
    var moved := MoveItem(c.playerState.inventory, KeyOf(Get(fields, "fromIndex")),
                          KeyOf(Get(fields, "toIndex")), StrField(fields, "itemId"));
    if moved.None? then Step(s, [])
    else
      var ps := c.playerState.(inventory := moved.value);
      Step(Store(s, id, c.(playerState := ps)), [Outgoing(id, PlayerStateMsg(ps, NoEffect, now))])
  }

  /**
   * `handlePlayerAction`: route by `actionType` to the three sub-handlers;
   * other action types and unknown senders change nothing and get no reply.
   */
  function HandlePlayerAction(s: Server, id: ClientId, fields: Fields, now: int): (r: Step)
    ensures !Known(s, id) ==> r == Step(s, [])
    ensures Known(s, id) ==>
              var kind := StrField(fields, "actionType");
              && (kind == Some("skill_use") ==> r == HandleSkillUse(s, id, fields, now))
              && (kind == Some("item_use") ==> r == HandleItemUse(s, id, fields, now))
              && (kind == Some("item_move") ==> r == HandleItemMove(s, id, fields, now))
              && (kind !in {Some("skill_use"), Some("item_use"), Some("item_move")} ==> r == Step(s, []))
    ensures Inv(s) ==> Inv(r.server)
  {
    if !Known(s, id) then Step(s, [])
    else
      match StrField(fields, "actionType")
      case Some("skill_use") => HandleSkillUse(s, id, fields, now)
      case Some("item_use") => HandleItemUse(s, id, fields, now)
      case Some("item_move") => HandleItemMove(s, id, fields, now)
      case _ => Step(s, [])
  }

  // ---------------------------------------------------------------------
  // Dispatch, disconnect, broadcast

  /**
   * `handleClientMessage`: `msg` is `None` when the datagram did not parse.
   * Only LOGIN, HEARTBEAT, PLAYER_MOVE and PLAYER_ACTION are routed; all
   * other input leaves the table alone and sends nothing.
   */
  function HandleClientMessage(s: Server, id: ClientId, msg: Option<ClientMsg>, now: int): (r: Step)
    ensures msg.None? ==> r == Step(s, [])
    ensures msg.Some? && ClientTag(msg.value) !in {LOGIN, HEARTBEAT, PLAYER_MOVE, PLAYER_ACTION} ==> r == Step(s, [])
    ensures msg.Some? && msg.value.Login? ==> r == HandleLogin(s, id, now)
    ensures msg.Some? && msg.value.Heartbeat? ==> r == HandleHeartbeat(s, id, now)
    ensures msg.Some? && msg.value.PlayerMove? ==> r == HandlePlayerMove(s, id, msg.value.position, msg.value.velocity)
    ensures msg.Some? && msg.value.PlayerAction? ==> r == HandlePlayerAction(s, id, msg.value.fields, now)
    ensures Inv(s) ==> Inv(r.server)
    ensures r.server.gameTime == s.gameTime
    ensures forall o :: o in r.out ==> o.to == id
    ensures forall other :: other != id ==> (Known(r.server, other) <==> Known(s, other))
  {
    match msg
    case None => Step(s, [])
    case Some(m) =>
      match m
      case Login(_, _, _) => HandleLogin(s, id, now)
      case Heartbeat(_, _) => HandleHeartbeat(s, id, now)
      case PlayerMove(_, position, velocity, _) => HandlePlayerMove(s, id, position, velocity)
      case PlayerAction(fields) => HandlePlayerAction(s, id, fields, now)
      case UnknownClientMsg(_) => Step(s, [])
  }

  /** `disconnectClient`: forget the session in both Maps. */
  function DisconnectClient(s: Server, id: ClientId): (r: Server)
    ensures !Known(r, id) && id !in r.players.entries
    ensures forall other :: other != id ==>
              (Known(r, other) <==> Known(s, other)) &&
              (Known(s, other) ==> r.connectedClients.entries[other] == s.connectedClients.entries[other])
    ensures Inv(s) ==> Inv(r)
    ensures Consistent(s) && !Known(s, id) ==> r == s
  {
    s.(connectedClients := OM.Delete(s.connectedClients, id), players := OM.Delete(s.players, id))
  }

  /** The GAME_STATE roster: every player's id and position, in Map order. */
  function Roster(s: Server): (r: seq<RosterEntry>)
    requires Consistent(s)
    ensures |r| == |s.players.keys|
    ensures forall i :: 0 <= i < |r| ==>
              r[i] == RosterEntry(s.players.keys[i], s.players.entries[s.players.keys[i]].position)
  {
    seq(|s.players.keys|, i requires 0 <= i < |s.players.keys| =>
      RosterEntry(s.players.keys[i], s.players.entries[s.players.keys[i]].position))
  }

  /**
   * The roster lists every connected client exactly once, in the order the
   * clients first logged in, each with its own current position, and no
   * one else.
   */
  lemma RosterListsEachPlayerOnce(s: Server)
    requires Consistent(s)
    ensures var r := Roster(s);
            && |r| == |s.connectedClients.keys|
            && (forall i :: 0 <= i < |r| ==> r[i].rosterId == s.connectedClients.keys[i])
            && (forall i, j :: 0 <= i < j < |r| ==> r[i].rosterId != r[j].rosterId)
            && (forall id :: Known(s, id) <==> exists i :: 0 <= i < |r| && r[i].rosterId == id)
            && (forall i :: 0 <= i < |r| ==>
                  r[i].rosterPosition == s.connectedClients.entries[r[i].rosterId].playerState.position)
  {
  }

  /** The broadcast tick falls in the first 100 ms of a 5-second period. */
  predicate RosterWindow(now: nat) {
    now % 5000 < 100
  }

  /** What one broadcast sends one client: its PLAYER_STATE, then (in the window) the roster. */
  function BroadcastBlock(s: Server, id: ClientId, now: nat): (r: seq<Outgoing>)
    requires Consistent(s)
    requires id in s.connectedClients.entries
    ensures |r| >= 1 && r[0] == Outgoing(id, PlayerStateMsg(s.connectedClients.entries[id].playerState, NoEffect, now))
    ensures RosterWindow(now) ==> |r| == 2 && r[1] == Outgoing(id, GameState(Roster(s), now, now))
    ensures !RosterWindow(now) ==> |r| == 1
  {
    [Outgoing(id, PlayerStateMsg(s.connectedClients.entries[id].playerState, NoEffect, now))]
    + (if RosterWindow(now) then [Outgoing(id, GameState(Roster(s), now, now))] else [])
  }

  /** The messages of one broadcast to the clients `ids`, in order. */
  function BroadcastTo(s: Server, ids: seq<ClientId>, now: nat): (r: seq<Outgoing>)
    requires Consistent(s)
    requires forall i :: 0 <= i < |ids| ==> ids[i] in s.connectedClients.entries
    ensures RosterWindow(now) ==>
              && |r| == 2 * |ids|
              && (forall i :: 0 <= i < |ids| ==>
                    && r[2 * i] == Outgoing(ids[i], PlayerStateMsg(s.connectedClients.entries[ids[i]].playerState, NoEffect, now))
                    && r[2 * i + 1] == Outgoing(ids[i], GameState(Roster(s), now, now)))
    ensures !RosterWindow(now) ==>
              && |r| == |ids|
              && (forall i :: 0 <= i < |ids| ==>
                    r[i] == Outgoing(ids[i], PlayerStateMsg(s.connectedClients.entries[ids[i]].playerState, NoEffect, now)))
  {
    if |ids| == 0 then []
    else BroadcastBlock(s, ids[0], now) + BroadcastTo(s, ids[1..], now)
  }

  /** A broadcast to `ids` addresses nobody outside `ids`. */
  lemma {:induction false} BroadcastToRecipients(s: Server, ids: seq<ClientId>, now: nat)
    requires Consistent(s)
    requires forall i :: 0 <= i < |ids| ==> ids[i] in s.connectedClients.entries
    ensures forall o :: o in BroadcastTo(s, ids, now) ==> o.to in ids
    decreases |ids|
  {
    if |ids| > 0 {
      BroadcastToRecipients(s, ids[1..], now);
      var block := BroadcastBlock(s, ids[0], now);
      assert forall o :: o in block ==> o.to == ids[0];
      assert forall i :: 0 <= i < |ids[1..]| ==> ids[1..][i] == ids[i + 1];
    }
  }

  /**
   * `broadcastGameState`: stamp the game time, then send every connected
   * client its own PLAYER_STATE, followed (inside the roster window) by a
   * GAME_STATE roster.
   */
  function Broadcast(s: Server, now: nat): (r: Step)
    requires Consistent(s)
    ensures r.server == s.(gameTime := now)
    ensures Inv(s) ==> Inv(r.server)
    ensures forall o :: o in r.out ==> Known(s, o.to)
  {
    BroadcastToRecipients(s.(gameTime := now), s.connectedClients.keys, now);
    Step(s.(gameTime := now), BroadcastTo(s.(gameTime := now), s.connectedClients.keys, now))
  }

  /** Number of messages in `out` addressed to `id` with type tag `tag`. */
  function CountSent(out: seq<Outgoing>, id: ClientId, tag: int): nat {
    if |out| == 0 then 0
    else (if out[0].to == id && ServerTag(out[0].msg) == tag then 1 else 0) + CountSent(out[1..], id, tag)
  }

  lemma {:induction false} CountSentAppend(a: seq<Outgoing>, b: seq<Outgoing>, id: ClientId, tag: int)
    ensures CountSent(a + b, id, tag) == CountSent(a, id, tag) + CountSent(b, id, tag)
    decreases |a|
  {
    if |a| == 0 {
      assert a + b == b;
    } else {
      assert (a + b)[1..] == a[1..] + b;
      CountSentAppend(a[1..], b, id, tag);
    }
  }

  lemma BroadcastBlockCounts(s: Server, first: ClientId, now: nat, id: ClientId)
    requires Consistent(s)
    requires first in s.connectedClients.entries
    ensures CountSent(BroadcastBlock(s, first, now), id, PLAYER_STATE) == (if id == first then 1 else 0)
    ensures CountSent(BroadcastBlock(s, first, now), id, GAME_STATE) == (if id == first && RosterWindow(now) then 1 else 0)
  {
    var r := BroadcastBlock(s, first, now);
    assert ServerTag(r[0].msg) == PLAYER_STATE;
    if RosterWindow(now) {
      assert ServerTag(r[1].msg) == GAME_STATE;
      assert r[1..][1..] == [];
      assert r[1..][0] == r[1];
      assert CountSent(r[1..], id, PLAYER_STATE) == 0;
      assert CountSent(r[1..], id, GAME_STATE) == (if id == first then 1 else 0);
    } else {
      assert r[1..] == [];
    }
  }

  lemma {:induction false} BroadcastToCounts(s: Server, ids: seq<ClientId>, now: nat, id: ClientId)
    requires Consistent(s)
    requires forall i :: 0 <= i < |ids| ==> ids[i] in s.connectedClients.entries
    requires OM.Distinct(ids)
    ensures CountSent(BroadcastTo(s, ids, now), id, PLAYER_STATE) == (if id in ids then 1 else 0)
    ensures CountSent(BroadcastTo(s, ids, now), id, GAME_STATE) == (if id in ids && RosterWindow(now) then 1 else 0)
    decreases |ids|
  {
    if |ids| > 0 {
      var block := BroadcastBlock(s, ids[0], now);
      var rest := BroadcastTo(s, ids[1..], now);
      CountSentAppend(block, rest, id, PLAYER_STATE);
      CountSentAppend(block, rest, id, GAME_STATE);
      BroadcastBlockCounts(s, ids[0], now, id);
      BroadcastToCounts(s, ids[1..], now, id);
      assert id in ids <==> id == ids[0] || id in ids[1..];
      assert ids[0] !in ids[1..];
    }
  }

  /**
   * A broadcast sends exactly one PLAYER_STATE to each connected client and
   * none to anyone else, and one GAME_STATE per connected client exactly
   * when the tick falls in the roster window.
   */
  lemma BroadcastCounts(s: Server, now: nat, id: ClientId)
    requires Consistent(s)
    ensures CountSent(Broadcast(s, now).out, id, PLAYER_STATE) == (if Known(s, id) then 1 else 0)
    ensures CountSent(Broadcast(s, now).out, id, GAME_STATE) == (if Known(s, id) && RosterWindow(now) then 1 else 0)
  {
    BroadcastToCounts(s.(gameTime := now), s.connectedClients.keys, now, id);
  }

  // ---------------------------------------------------------------------
  // Runs

  /** Inputs that drive the server: a datagram, a broadcast tick, a socket close. */
  datatype ServerEvent =
    | Datagram(from: ClientId, msg: Option<ClientMsg>, at: int)
    | BroadcastTick(tick: nat)
    | SocketClosed(closed: ClientId)

  function Apply(s: Server, e: ServerEvent): (r: Step)
    requires Consistent(s)
    ensures Inv(s) ==> Inv(r.server)
  {
    match e
    case Datagram(from, msg, at) => HandleClientMessage(s, from, msg, at)
    case BroadcastTick(tick) => Broadcast(s, tick)
    case SocketClosed(id) => Step(DisconnectClient(s, id), [])
  }

  /** The table after a sequence of events, starting from `s`. */
  function Run(s: Server, events: seq<ServerEvent>): Server
    requires Inv(s)
    decreases |events|
  {
    if |events| == 0 then s
    else Run(Apply(s, events[0]).server, events[1..])
  }

  /**
   * The player invariants (health within [0, maxHealth], position inside the
   * world, no stack below quantity one, no negative cooldown) and the
   * agreement of the two Maps hold after any sequence of events.
   */
  lemma {:induction false} RunPreservesInv(s: Server, events: seq<ServerEvent>)
    requires Inv(s)
    ensures Inv(Run(s, events))
    decreases |events|
  {
    if |events| > 0 {
      RunPreservesInv(Apply(s, events[0]).server, events[1..]);
    }
  }

  /** The messages sent over a sequence of events, in sending order. */
  function RunOut(s: Server, events: seq<ServerEvent>): seq<Outgoing>
    requires Inv(s)
    decreases |events|
  {
    if |events| == 0 then []
    else Apply(s, events[0]).out + RunOut(Apply(s, events[0]).server, events[1..])
  }

  /** The event is a LOGIN datagram from `id`. */
  predicate LogsIn(e: ServerEvent, id: ClientId) {
    e.Datagram? && e.from == id && e.msg.Some? && e.msg.value.Login?
  }

  /** One event that is not a LOGIN from an unknown `id` leaves it unknown and sends it nothing. */
  lemma ApplyWithoutLogin(s: Server, e: ServerEvent, id: ClientId)
    requires Consistent(s)
    requires !Known(s, id) && !LogsIn(e, id)
    ensures !Known(Apply(s, e).server, id)
    ensures forall o :: o in Apply(s, e).out ==> o.to != id
  {
    match e
    case Datagram(from, msg, at) =>
      if from == id {
        assert Apply(s, e) == Step(s, []);
      }
    case BroadcastTick(tick) =>
    case SocketClosed(closed) =>
  }

  /**
   * Sessions exist only through LOGIN: a client the table does not know
   * stays unknown, and is sent nothing, for as long as no LOGIN from it
   * arrives, whatever it and everyone else send meanwhile.
   */
  lemma {:induction false} NoSessionWithoutLogin(s: Server, events: seq<ServerEvent>, id: ClientId)
    requires Inv(s) && !Known(s, id)
    requires forall i :: 0 <= i < |events| ==> !LogsIn(events[i], id)
    ensures !Known(Run(s, events), id)
    ensures forall o :: o in RunOut(s, events) ==> o.to != id
    decreases |events|
  {
    if |events| > 0 {
      var st := Apply(s, events[0]);
      ApplyWithoutLogin(s, events[0], id);
      NoSessionWithoutLogin(st.server, events[1..], id);
      assert forall i :: 0 <= i < |events[1..]| ==> events[1..][i] == events[i + 1];
      assert RunOut(s, events) == st.out + RunOut(st.server, events[1..]);
    }
  }
}
