/**
 * The client-side state kept by the React `App` component, and the small
 * pure steps its handlers perform: merging server state into the local
 * copy, the game loop's movement prediction and move-send throttle, the
 * local skill cooldowns and the one-second cooldown tick. Rendering,
 * keyboard listeners and animation frames are not modelled; their inputs
 * (the pressed keys, the frame time) are parameters.
 */
module App {
  import opened Basics
  import opened Protocol

  /** The fields of App's `playerState` that the UI reads. */
  datatype LocalPlayer = LocalPlayer(
    health: int, maxHealth: int, exp: int, maxExp: int, level: int,
    position: Point, velocity: Point)

  datatype ConnectionStatus = Disconnected | Connecting | Connected | Failed

  /** App's synchronised state: player, skill cooldowns, inventory, connection status. */
  datatype View = View(
    player: LocalPlayer,
    cooldowns: map<int, int>,
    inventory: seq<Slot>,
    status: ConnectionStatus)

  /** App's state on mount: placeholder stats, no cooldowns, the starter inventory, disconnected. */
  function InitialView(): (v: View)
    ensures v.status == Disconnected && v.cooldowns == map[]
    ensures |v.inventory| == 20
    ensures 0 <= v.player.health <= v.player.maxHealth
  {
    View(
      LocalPlayer(85, 100, 250, 500, 5, Point(400, 300), Point(0, 0)),
      map[],
      [ Some(ItemStack("potion_heal", "治疗药水", 3, Uncommon, "🧪")),
        Some(ItemStack("scroll_magic", "魔法卷轴", 1, Rare, "📜")),
        Some(ItemStack("sword_iron", "铁剑", 1, Common, "⚔️")),
        Some(ItemStack("ring_gold", "金戒指", 1, Epic, "💍")) ]
      + seq(16, _ => None),
      Disconnected)
  }

  /**
   * What moves the connection indicator, other than a login success. The
   * login success is `ApplyLoginSuccess`, applied only when a successful
   * LOGIN_RESPONSE arrives, so it is deliberately not one of these events.
   */
  datatype StatusEvent =
    | StartConnecting
    | ConnectReturned(connected: bool)
    | LoginFailed
    | ConnectionLost

  /**
   * The connection indicator: `connecting` when the network is initialised,
   * `failed` when `connect` returns false or the login is refused,
   * `disconnected` on `connectionLost`; a successful `connect` leaves it as
   * it is (only a login success, `ApplyLoginSuccess`, shows `connected`).
   */
  function NextStatus(st: ConnectionStatus, e: StatusEvent): (r: ConnectionStatus)
    ensures e == StartConnecting ==> r == Connecting
    ensures e == ConnectReturned(true) ==> r == st
    ensures e == ConnectReturned(false) || e == LoginFailed ==> r == Failed
    ensures e == ConnectionLost ==> r == Disconnected
    ensures r == Connected ==> st == Connected
  {
    match e
    case StartConnecting => Connecting
    case ConnectReturned(ok) => if ok then st else Failed
    case LoginFailed => Failed
    case ConnectionLost => Disconnected
  }

  /**
   * A PLAYER_STATE message as `handlePlayerStateUpdate` reads it: every
   * field may be missing (`undefined`).
   */
  datatype StateUpdate = StateUpdate(
    health: Option<int>, maxHealth: Option<int>, exp: Option<int>, maxExp: Option<int>, level: Option<int>,
    position: Option<Point>, velocity: Option<Point>,
    skillCooldowns: Option<map<int, int>>, inventory: Option<seq<Slot>>)

  /**
   * The update a server PLAYER_STATE carries: it spreads the whole record,
   * so every field is present. The inventory crosses as JSON, which keeps
   * only the array's elements.
   */
  function UpdateOf(ps: PlayerState): (u: StateUpdate)
    ensures u.health == Some(ps.health) && u.maxHealth == Some(ps.maxHealth)
    ensures u.exp == Some(ps.exp) && u.maxExp == Some(ps.maxExp) && u.level == Some(ps.level)
    ensures u.position == Some(ps.position) && u.velocity == Some(ps.velocity)
    ensures u.skillCooldowns == Some(ps.skillCooldowns) && u.inventory == Some(ps.inventory.elements)
  {
    StateUpdate(Some(ps.health), Some(ps.maxHealth), Some(ps.exp), Some(ps.maxExp), Some(ps.level),
                Some(ps.position), Some(ps.velocity), Some(ps.skillCooldowns), Some(ps.inventory.elements))
  }

  /** The local copy of the server record's UI fields. */
  function LocalOf(ps: PlayerState): LocalPlayer {
    LocalPlayer(ps.health, ps.maxHealth, ps.exp, ps.maxExp, ps.level, ps.position, ps.velocity)
  }

  /** `data.f !== undefined ? data.f : prev.f`. */
  function Pick<T>(u: Option<T>, prev: T): T {
    match u
    case Some(v) => v
    case None => prev
  }

  /**
   * `handlePlayerStateUpdate`: each present field replaces the local one,
   * each absent field keeps it; cooldowns and inventory, when present,
   * replace the local copies wholesale. The connection status is untouched.
   */
  function ApplyStateUpdate(v: View, u: StateUpdate): (r: View)
    ensures u.health.Some? ==> r.player.health == u.health.value
    ensures u.health.None? ==> r.player.health == v.player.health
    ensures u.maxHealth.Some? ==> r.player.maxHealth == u.maxHealth.value
    ensures u.maxHealth.None? ==> r.player.maxHealth == v.player.maxHealth
    ensures u.exp.Some? ==> r.player.exp == u.exp.value
    ensures u.exp.None? ==> r.player.exp == v.player.exp
    ensures u.maxExp.Some? ==> r.player.maxExp == u.maxExp.value
    ensures u.maxExp.None? ==> r.player.maxExp == v.player.maxExp
    ensures u.level.Some? ==> r.player.level == u.level.value
    ensures u.level.None? ==> r.player.level == v.player.level
    ensures u.position.Some? ==> r.player.position == u.position.value
    ensures u.position.None? ==> r.player.position == v.player.position
    ensures u.velocity.Some? ==> r.player.velocity == u.velocity.value
    ensures u.velocity.None? ==> r.player.velocity == v.player.velocity
    ensures u.skillCooldowns.Some? ==> r.cooldowns == u.skillCooldowns.value
    ensures u.skillCooldowns.None? ==> r.cooldowns == v.cooldowns
    ensures u.inventory.Some? ==> r.inventory == u.inventory.value
    ensures u.inventory.None? ==> r.inventory == v.inventory
    ensures r.status == v.status
  {
    var p := v.player;
    View(
      LocalPlayer(Pick(u.health, p.health), Pick(u.maxHealth, p.maxHealth), Pick(u.exp, p.exp),
                  Pick(u.maxExp, p.maxExp), Pick(u.level, p.level),
                  Pick(u.position, p.position), Pick(u.velocity, p.velocity)),
      Pick(u.skillCooldowns, v.cooldowns),
      Pick(u.inventory, v.inventory),
      v.status)
  }

  /** Applying the same update twice is the same as applying it once (duplicate delivery is harmless). */
  lemma ApplyStateUpdateIdempotent(v: View, u: StateUpdate)
    ensures ApplyStateUpdate(ApplyStateUpdate(v, u), u) == ApplyStateUpdate(v, u)
  {
  }

  /**
   * A server PLAYER_STATE overwrites everything it carries: the result
   * depends only on the server record, so of two such messages the one
   * applied last wins.
   */
  lemma FullUpdateOverwrites(v: View, ps: PlayerState, ps': PlayerState)
    ensures ApplyStateUpdate(v, UpdateOf(ps)) == View(LocalOf(ps), ps.skillCooldowns, ps.inventory.elements, v.status)
    ensures ApplyStateUpdate(ApplyStateUpdate(v, UpdateOf(ps)), UpdateOf(ps')) == ApplyStateUpdate(v, UpdateOf(ps'))
  {
  }

  /**
   * `handleLoginSuccess`: mark connected and, when the response carries a
   * player record, spread it over the local player. Cooldowns and inventory
   * are left as they were.
   */
  function ApplyLoginSuccess(v: View, ps: Option<PlayerState>): (r: View)
    ensures r.status == Connected
    ensures ps.Some? ==> r.player == LocalOf(ps.value)
    ensures ps.None? ==> r.player == v.player
    ensures r.cooldowns == v.cooldowns && r.inventory == v.inventory
  {
    match ps
    case Some(p) => v.(status := Connected, player := LocalOf(p))
    case None => v.(status := Connected)
  }

  /**
   * A login success and a later PLAYER_STATE carrying the same record agree
   * on the player, but only the PLAYER_STATE replaces the cooldowns and the
   * inventory, and only the login success shows `connected`.
   */
  lemma LoginSuccessVsStateUpdate(v: View, ps: PlayerState)
    ensures ApplyLoginSuccess(v, Some(ps)).player == ApplyStateUpdate(v, UpdateOf(ps)).player
    ensures ApplyLoginSuccess(v, Some(ps)).cooldowns == v.cooldowns
    ensures ApplyStateUpdate(v, UpdateOf(ps)).cooldowns == ps.skillCooldowns
    ensures ApplyLoginSuccess(v, Some(ps)).inventory == v.inventory
    ensures ApplyStateUpdate(v, UpdateOf(ps)).inventory == ps.inventory.elements
    ensures ApplyLoginSuccess(v, Some(ps)).status == Connected
    ensures ApplyStateUpdate(v, UpdateOf(ps)).status == v.status
  {
  }

  /** What the connection indicator shows after a sequence of status events. */
  function StatusAfter(st: ConnectionStatus, events: seq<StatusEvent>): ConnectionStatus
    decreases |events|
  {
    if |events| == 0 then st else StatusAfter(NextStatus(st, events[0]), events[1..])
  }

  /**
   * Only a login success shows `connected`: no sequence of the other status
   * events leads there from any other state.
   */
  lemma {:induction false} StatusNeverConnectsWithoutLogin(st: ConnectionStatus, events: seq<StatusEvent>)
    requires st != Connected
    ensures StatusAfter(st, events) != Connected
    decreases |events|
  {
    if |events| > 0 {
      StatusNeverConnectsWithoutLogin(NextStatus(st, events[0]), events[1..]);
    }
  }

  // ---------------------------------------------------------------------
  // Game loop

  /** The WASD keys currently held. */
  datatype Keys = Keys(w: bool, a: bool, s: bool, d: bool)

  const MoveSpeed: int := 5
  const MoveSendInterval: int := 100

  /**
   * The keydown handler's effect on the held keys: the lower-cased key is
   * marked held; only `w`, `a`, `s` and `d` matter to movement.
   */
  function PressKey(k: Keys, key: string): (r: Keys)
    ensures key == "w" ==> r == k.(w := true)
    ensures key == "a" ==> r == k.(a := true)
    ensures key == "s" ==> r == k.(s := true)
    ensures key == "d" ==> r == k.(d := true)
    ensures key !in {"w", "a", "s", "d"} ==> r == k
  {
    match key
    case "w" => k.(w := true)
    case "a" => k.(a := true)
    case "s" => k.(s := true)
    case "d" => k.(d := true)
    case _ => k
  }

  /** The keyup handler's effect: the lower-cased key is no longer held. */
  function ReleaseKey(k: Keys, key: string): (r: Keys)
    ensures key == "w" ==> !r.w
    ensures key == "a" ==> !r.a
    ensures key == "s" ==> !r.s
    ensures key == "d" ==> !r.d
    ensures key !in {"w", "a", "s", "d"} ==> r == k
  {
    match key
    case "w" => k.(w := false)
    case "a" => k.(a := false)
    case "s" => k.(s := false)
    case "d" => k.(d := false)
    case _ => k
  }

  /**
   * Pressing a movement key moves the player that way unless the opposite
   * key is held; releasing it again restores the velocity it had before
   * the press, if the key was not held then; other keys do not move.
   */
  lemma PressedKeyMoves(k: Keys, key: string)
    ensures key == "w" && !k.s ==> Velocity(PressKey(k, key)) == Point(Velocity(k).x, -MoveSpeed)
    ensures key == "s" && !k.w ==> Velocity(PressKey(k, key)) == Point(Velocity(k).x, MoveSpeed)
    ensures key == "a" && !k.d ==> Velocity(PressKey(k, key)) == Point(-MoveSpeed, Velocity(k).y)
    ensures key == "d" && !k.a ==> Velocity(PressKey(k, key)) == Point(MoveSpeed, Velocity(k).y)
    ensures key !in {"w", "a", "s", "d"} ==> Velocity(PressKey(k, key)) == Velocity(k)
    ensures key == "w" && !k.w ==> Velocity(ReleaseKey(PressKey(k, key), key)) == Velocity(k)
    ensures key == "s" && !k.s ==> Velocity(ReleaseKey(PressKey(k, key), key)) == Velocity(k)
    ensures key == "a" && !k.a ==> Velocity(ReleaseKey(PressKey(k, key), key)) == Velocity(k)
    ensures key == "d" && !k.d ==> Velocity(ReleaseKey(PressKey(k, key), key)) == Velocity(k)
  {
  }

  /** The skill-bar hotkeys, in slot order. */
  const SkillHotkeys: seq<string> := ["q", "w", "e", "r", "t"]

  /** The keydown handler's skill lookup: the slot of the key among the hotkeys, if any. */
  function HotkeySkill(key: string): (r: Option<int>)
    ensures r.Some? <==> key in SkillHotkeys
    ensures r.Some? ==> 0 <= r.value < |SkillHotkeys| && SkillHotkeys[r.value] == key
  {
    if key == "q" then Some(0)
    else if key == "w" then Some(1)
    else if key == "e" then Some(2)
    else if key == "r" then Some(3)
    else if key == "t" then Some(4)
    else None
  }

  /** One axis: minus speed for the negative key, plus speed for the positive key. */
  function Axis(negative: bool, positive: bool): (v: int)
    ensures v == -MoveSpeed <==> negative && !positive
    ensures v == MoveSpeed <==> positive && !negative
    ensures v == 0 <==> negative == positive
  {
    (if negative then -MoveSpeed else 0) + (if positive then MoveSpeed else 0)
  }

  /** The game loop's velocity: `w`/`s` move up/down, `a`/`d` left/right. */
  function Velocity(k: Keys): (v: Point)
    ensures v.x in {-MoveSpeed, 0, MoveSpeed} && v.y in {-MoveSpeed, 0, MoveSpeed}
    ensures k.a && k.d ==> v.x == 0
    ensures k.w && k.s ==> v.y == 0
    ensures v.x < 0 <==> k.a && !k.d
    ensures v.y < 0 <==> k.w && !k.s
  {
    Point(Axis(k.a, k.d), Axis(k.w, k.s))
  }

  /** The locally predicted position: one velocity step, clamped into the world. */
  function Predict(position: Point, velocity: Point): (r: Point)
    ensures InWorld(r)
    ensures InWorld(Point(position.x + velocity.x, position.y + velocity.y)) ==>
              r == Point(position.x + velocity.x, position.y + velocity.y)
  {
    ClampToWorld(Point(position.x + velocity.x, position.y + velocity.y))
  }

  /** App's `localInput` plus `lastMoveTimeRef`. */
  datatype LocalInput = LocalInput(position: Point, velocity: Point, lastMoveTime: int)

  /** A `sendPlayerMove(position, velocity)` call. */
  datatype MoveRequest = MoveRequest(position: Point, velocity: Point)

  datatype Frame = Frame(input: LocalInput, send: Option<MoveRequest>)

  /**
   * One game-loop frame at time `now`: predict the new position, and send
   * it only if more than 100 ms have passed since the last send and the
   * player is moving; the send time is recorded only when a move is sent.
   */
  function GameLoopStep(li: LocalInput, keys: Keys, now: int): (r: Frame)
    ensures InWorld(r.input.position)
    ensures r.input.velocity == Velocity(keys)
    ensures r.input.position == Predict(li.position, Velocity(keys))
    ensures r.send.Some? <==> now - li.lastMoveTime > MoveSendInterval && Velocity(keys) != Point(0, 0)
    ensures r.send.Some? ==> r.send.value == MoveRequest(r.input.position, r.input.velocity) && r.input.lastMoveTime == now
    ensures r.send.None? ==> r.input.lastMoveTime == li.lastMoveTime
  {
    var vel := Velocity(keys);
    var pos := Predict(li.position, vel);
    if now - li.lastMoveTime > MoveSendInterval && (vel.x != 0 || vel.y != 0) then
      Frame(LocalInput(pos, vel, now), Some(MoveRequest(pos, vel)))
    else
      Frame(LocalInput(pos, vel, li.lastMoveTime), None)
  }

  /** One animation frame's inputs: the keys held and the frame time. */
  datatype Tick = Tick(keys: Keys, now: int)

  /** The times at which moves are sent over a run of frames. */
  function SendTimes(li: LocalInput, ticks: seq<Tick>): seq<int>
    decreases |ticks|
  {
    if |ticks| == 0 then []
    else
      var f := GameLoopStep(li, ticks[0].keys, ticks[0].now);
      (if f.send.Some? then [ticks[0].now] else []) + SendTimes(f.input, ticks[1..])
  }

  /** Every time in `ts` lies more than 100 ms after `t`. */
  predicate AllAfter(ts: seq<int>, t: int) {
    forall i :: 0 <= i < |ts| ==> ts[i] - t > MoveSendInterval
  }

  /** Consecutive times in `ts` lie more than 100 ms apart. */
  predicate Spaced(ts: seq<int>) {
    forall i :: 0 <= i < |ts| - 1 ==> ts[i + 1] - ts[i] > MoveSendInterval
  }

  /**
   * The throttle: over any run of frames, every move is sent more than
   * 100 ms after the previous one (and after the last send recorded
   * before the run).
   */
  lemma {:induction false} SendTimesSpaced(li: LocalInput, ticks: seq<Tick>)
    ensures AllAfter(SendTimes(li, ticks), li.lastMoveTime)
    ensures Spaced(SendTimes(li, ticks))
    decreases |ticks|
  {
    if |ticks| > 0 {
      var f := GameLoopStep(li, ticks[0].keys, ticks[0].now);
      SendTimesSpaced(f.input, ticks[1..]);
      var rest := SendTimes(f.input, ticks[1..]);
      var ts := SendTimes(li, ticks);
      if f.send.Some? {
        var now := ticks[0].now;
        assert ts == [now] + rest;
        assert now - li.lastMoveTime > MoveSendInterval;
        assert AllAfter(rest, now);
        forall i | 0 <= i < |ts|
          ensures ts[i] - li.lastMoveTime > MoveSendInterval
        {
          if i > 0 { assert ts[i] == rest[i - 1]; }
        }
        forall i | 0 <= i < |ts| - 1
          ensures ts[i + 1] - ts[i] > MoveSendInterval
        {
          if i > 0 { assert ts[i] == rest[i - 1]; }
        }
      } else {
        assert ts == rest;
      }
    }
  }

  // ---------------------------------------------------------------------
  // Skills and cooldowns

  datatype Skill = Skill(name: string, keybind: string, manaCost: int, icon: string, id: string)

  /** App's skill bar, in slot order. */
  const DefaultSkills: seq<Skill> := [
    Skill("火球术", "Q", 10, "🔥", "fireball"),
    Skill("治疗术", "W", 15, "💚", "heal"),
    Skill("闪电链", "E", 20, "⚡", "lightning"),
    Skill("冰霜新星", "R", 25, "❄️", "frost"),
    Skill("召唤宠物", "T", 30, "🐺", "summon")]

  const LocalCooldownSeconds: int := 3

  /** Each hotkey's slot holds the skill bound to that key (upper-cased). */
  lemma HotkeysMatchSkillBar(key: string)
    requires HotkeySkill(key).Some?
    ensures |DefaultSkills| == |SkillHotkeys|
    ensures var i := HotkeySkill(key).value;
            DefaultSkills[i].keybind == [SkillHotkeys[i][0] - 'a' + 'A']
  {
  }

  /**
   * The movement key `w` is also the hotkey of the second skill slot: one
   * press both starts moving up and casts `heal`.
   */
  lemma UpKeyAlsoCastsHeal(k: Keys)
    requires !k.s
    ensures Velocity(PressKey(k, "w")).y < 0
    ensures HotkeySkill("w") == Some(1) && DefaultSkills[1].id == "heal"
  {
  }


  /** A `sendPlayerAction(actionType, targetId, extraData)` call. */
  datatype ActionRequest = ActionRequest(actionType: string, targetId: JsValue, extra: Fields)

  datatype SkillClick = SkillClick(cooldowns: map<int, int>, action: Option<ActionRequest>)

  /**
   * `handleSkillClick(skill, index)`: with no skill or while the service is
   * not connected, nothing happens; otherwise a `skill_use` action carrying
   * the skill's id and name is sent and the local cooldown of `index` is set
   * to 3 seconds.
   */
  function HandleSkillClick(skill: Option<Skill>, index: int, connected: bool, cooldowns: map<int, int>): (r: SkillClick)
    ensures skill.None? || !connected ==> r == SkillClick(cooldowns, None)
    ensures skill.Some? && connected ==>
              && r.action == Some(ActionRequest("skill_use", Null,
                                                map["skillId" := Str(skill.value.id), "skillName" := Str(skill.value.name)]))
              && index in r.cooldowns && r.cooldowns[index] == LocalCooldownSeconds
              && (forall k :: k != index ==> (k in r.cooldowns <==> k in cooldowns))
              && (forall k :: k != index && k in cooldowns ==> r.cooldowns[k] == cooldowns[k])
  {
    if skill.None? || !connected then SkillClick(cooldowns, None)
    else
      SkillClick(cooldowns[index := LocalCooldownSeconds],
                 Some(ActionRequest("skill_use", Null,
                                    map["skillId" := Str(skill.value.id), "skillName" := Str(skill.value.name)])))
  }

  /**
   * `handleItemClick(item, index)`: an `item_use` action for a present item
   * while connected, carrying the item's id and name and the clicked slot,
   * with no target.
   */
  function HandleItemClick(item: Option<ItemStack>, index: int, connected: bool): (r: Option<ActionRequest>)
    ensures r.Some? <==> item.Some? && connected
    ensures r.Some? ==>
              && r.value.actionType == "item_use"
              && r.value.targetId == Null
              && Get(r.value.extra, "itemId") == Str(item.value.id)
              && Get(r.value.extra, "itemName") == Str(item.value.name)
              && Get(r.value.extra, "slotIndex") == Num(index)
              && r.value.extra.Keys == {"itemId", "itemName", "slotIndex"}
  {
    if item.None? || !connected then None
    else Some(ActionRequest("item_use", Null,
                            map["itemId" := Str(item.value.id), "itemName" := Str(item.value.name), "slotIndex" := Num(index)]))
  }

  /**
   * `handleItemDrag(from, to, item)`: an `item_move` action while
   * connected, carrying both slots and the dragged item's id, with no
   * target.
   */
  function HandleItemDrag(fromIndex: int, toIndex: int, item: ItemStack, connected: bool): (r: Option<ActionRequest>)
    ensures r.Some? <==> connected
    ensures r.Some? ==>
              && r.value.actionType == "item_move"
              && r.value.targetId == Null
              && r.value.extra.Keys == {"fromIndex", "toIndex", "itemId"}
              && Get(r.value.extra, "fromIndex") == Num(fromIndex)
              && Get(r.value.extra, "toIndex") == Num(toIndex)
              && Get(r.value.extra, "itemId") == Str(item.id)
  {
    if !connected then None
    else Some(ActionRequest("item_move", Null,
                            map["fromIndex" := Num(fromIndex), "toIndex" := Num(toIndex), "itemId" := Str(item.id)]))
  }

  /** The one-second cooldown timer: every positive entry drops by one, the rest stay. */
  function TickCooldowns(cd: map<int, int>): (r: map<int, int>)
    ensures r.Keys == cd.Keys
    ensures forall k :: k in cd && cd[k] > 0 ==> r[k] == cd[k] - 1
    ensures forall k :: k in cd && cd[k] <= 0 ==> r[k] == cd[k]
    ensures (forall k :: k in cd ==> cd[k] >= 0) ==> (forall k :: k in r ==> r[k] >= 0)
  {
    map k | k in cd :: if cd[k] > 0 then cd[k] - 1 else cd[k]
  }

  /** `n` cooldown ticks in a row. */
  function TickCooldownsN(cd: map<int, int>, n: nat): map<int, int>
    decreases n
  {
    if n == 0 then cd else TickCooldownsN(TickCooldowns(cd), n - 1)
  }

  /**
   * After `n` ticks a non-negative cooldown `c` reads `max(0, c - n)`: it
   * counts down by one per second and stops at zero.
   */
  lemma {:induction false} TickCooldownsNCountsDown(cd: map<int, int>, n: nat, k: int)
    requires k in cd && cd[k] >= 0
    ensures k in TickCooldownsN(cd, n)
    ensures TickCooldownsN(cd, n)[k] == Max(0, cd[k] - n)
    ensures TickCooldownsN(cd, n).Keys == cd.Keys
    decreases n
  {
    if n > 0 {
      TickCooldownsNCountsDown(TickCooldowns(cd), n - 1, k);
    }
  }
}
