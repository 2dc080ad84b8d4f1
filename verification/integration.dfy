/**
 * Properties that only show when the pieces are put together: the client
 * UI builds an action, the network service frames and sends it, the mock
 * server applies it, and the reply is merged back into the UI state.
 */
module Integration {
  import opened Basics
  import opened Protocol
  import Srv = MockServer
  import Net = NetworkService
  import App
  import opened JsKeys
  import Inventory

  /**
   * The first `connect` of a fresh service binds and reports success, yet
   * sends nothing: the login is put through the send guard before the
   * service marks itself connected, so the server never gets a LOGIN and
   * (by `MockServer.NoSessionWithoutLogin`) never opens a session for it.
   */
  lemma FirstConnectSendsNoLogin(socketId: ClientId, loginId: string, now: int, transportOk: bool)
    ensures var r := Net.Connect(Net.Initial(), socketId, true, loginId, now, transportOk);
            && r.ok && r.net.isConnected
            && r.effects == []
            && r.net.orphanHeartbeats == 0
  {
  }

  /**
   * The login does get out when `connect` is called on a service that is
   * already connected, and then the heartbeat interval it held keeps
   * running unowned next to the new one.
   */
  lemma ReconnectSendsLoginAndLeaksHeartbeat(n: Net.Net, socketId: ClientId, loginId: string, now: int)
    requires Net.Inv(n) && n.isConnected
    requires n.socket.Some? && n.socket.value.isBound
    ensures var r := Net.Connect(n, socketId, true, loginId, now, true);
            && r.effects == [Net.SentDatagram(Login(loginId, now, Net.ProtocolVersion))]
            && r.net.orphanHeartbeats == n.orphanHeartbeats + 1
  {
  }

  /**
   * The client's skill bar and the server's skill table agree on every
   * slot except the first: the server's `fireball` lookup yields -1.
   */
  lemma SkillSlotsAgreeExceptFireball(k: int)
    requires 0 <= k < |App.DefaultSkills|
    ensures k != 0 ==> Srv.GetSkillIndex(Some(App.DefaultSkills[k].id)) == k
    ensures k == 0 ==> Srv.GetSkillIndex(Some(App.DefaultSkills[k].id)) == -1
  {
  }

  /** The PLAYER_ACTION object a skill click produces on a connected service. */
  function SkillActionFields(n: Net.Net, skill: App.Skill, now: int): (f: Fields)
    ensures StrField(f, "actionType") == Some("skill_use")
    ensures StrField(f, "skillId") == Some(skill.id)
    ensures Get(f, "skillName") == Str(skill.name)
    ensures Get(f, "targetId") == Null
    ensures Get(f, "type") == Num(PLAYER_ACTION)
  {
    Net.ActionObject(n.playerId, "skill_use", Null, now,
                     map["skillId" := Str(skill.id), "skillName" := Str(skill.name)])
  }

  /**
   * A skill click on a connected service with a working transport sends
   * exactly one PLAYER_ACTION, which the server routes to its skill
   * handler; the reply is the sender's full state with the skill applied.
   */
  lemma SkillClickReachesServer(n: Net.Net, skill: App.Skill, index: int, cooldowns: map<int, int>,
                                now: int, s: Srv.Server, at: int)
    requires n.isConnected && n.socket.Some? && n.socket.value.isBound
    requires Srv.Known(s, n.socket.value.clientId)
    ensures var click := App.HandleSkillClick(Some(skill), index, true, cooldowns);
            var a := click.action.value;
            var sent := Net.SendPlayerAction(n, a.actionType, a.targetId, a.extra, now, true);
            var f := SkillActionFields(n, skill, now);
            var id := n.socket.value.clientId;
            var ps := s.connectedClients.entries[id].playerState;
            var applied := Srv.UseSkill(ps, f);
            && sent.ok
            && sent.effects == [Net.SentDatagram(PlayerAction(f))]
            && Srv.HandleClientMessage(s, id, Some(PlayerAction(f)), at).out
               == [Srv.Outgoing(id, PlayerStateMsg(applied.state, SkillEffect(applied.outcome), at))]
  {
  }

  /**
   * The local cooldown the client sets for `fireball` does not survive the
   * server's reply: the server never records a fireball cooldown, and the
   * reply's cooldown map replaces the local one wholesale.
   */
  lemma FireballCooldownLostOnSync(v: App.View, n: Net.Net, now: int, ps: PlayerState)
    requires Srv.ValidPlayer(ps)
    ensures var fireball := App.DefaultSkills[0];
            var click := App.HandleSkillClick(Some(fireball), 0, true, v.cooldowns);
            var applied := Srv.UseSkill(ps, SkillActionFields(n, fireball, now));
            var merged := App.ApplyStateUpdate(v.(cooldowns := click.cooldowns), App.UpdateOf(applied.state));
            && 0 in click.cooldowns && click.cooldowns[0] == App.LocalCooldownSeconds
            && 0 !in merged.cooldowns
  {
    var fireball := App.DefaultSkills[0];
    assert fireball.id == "fireball";
    assert Srv.GetSkillIndex(Some(fireball.id)) == -1;
  }

  /**
   * For every other skill the server's cooldown agrees with the client's
   * local prediction: after the merge the slot reads 3 seconds.
   */
  lemma OtherSkillCooldownSurvivesSync(v: App.View, n: Net.Net, now: int, ps: PlayerState, k: int)
    requires 1 <= k < |App.DefaultSkills|
    ensures var skill := App.DefaultSkills[k];
            var click := App.HandleSkillClick(Some(skill), k, true, v.cooldowns);
            var applied := Srv.UseSkill(ps, SkillActionFields(n, skill, now));
            var merged := App.ApplyStateUpdate(v.(cooldowns := click.cooldowns), App.UpdateOf(applied.state));
            && click.cooldowns[k] == App.LocalCooldownSeconds
            && k in merged.cooldowns && merged.cooldowns[k] == App.LocalCooldownSeconds
  {
    SkillSlotsAgreeExceptFireball(k);
  }

  /** The inventory the UI shows before any server state arrives is the one the server hands out at login. */
  lemma ClientStartsWithServerInventory()
    ensures App.InitialView().inventory == Inventory.InitialInventory().elements
  {
  }

  /**
   * With the first login dropped, the indicator of a freshly mounted App
   * whose `connect` succeeds stays at `connecting` and never shows
   * `connected`: `connect` sends nothing, so no LOGIN reaches the server,
   * no LOGIN_RESPONSE comes back, and no other status event leads to
   * `connected`.
   */
  lemma StatusStuckAtConnecting(st: App.ConnectionStatus, socketId: ClientId, loginId: string, now: int,
                                transportOk: bool, later: seq<App.StatusEvent>)
    ensures var r := Net.Connect(Net.Initial(), socketId, true, loginId, now, transportOk);
            var shown := App.NextStatus(App.NextStatus(st, App.StartConnecting), App.ConnectReturned(r.ok));
            && r.effects == []
            && shown == App.Connecting
            && App.StatusAfter(shown, later) != App.Connected
  {
    App.StatusNeverConnectsWithoutLogin(App.Connecting, later);
  }

  /** The PLAYER_ACTION object an item click produces on a connected service. */
  function ItemActionFields(n: Net.Net, item: ItemStack, index: int, now: int): (f: Fields)
    ensures StrField(f, "actionType") == Some("item_use")
    ensures StrField(f, "itemId") == Some(item.id)
    ensures Get(f, "itemName") == Str(item.name)
    ensures Get(f, "slotIndex") == Num(index)
    ensures Get(f, "targetId") == Null
  {
    Net.ActionObject(n.playerId, "item_use", Null, now,
                     map["itemId" := Str(item.id), "itemName" := Str(item.name), "slotIndex" := Num(index)])
  }

  /**
   * An item click on slot `index` of a connected service sends exactly one
   * PLAYER_ACTION; the server routes it to its item handler, which (for a
   * potion) consumes from element `index` of the sender's inventory, and
   * answers with the applied state.
   */
  lemma ItemClickReachesServer(n: Net.Net, item: ItemStack, index: int, now: int, s: Srv.Server, at: int)
    requires n.isConnected && n.socket.Some? && n.socket.value.isBound
    requires Srv.Known(s, n.socket.value.clientId)
    requires 0 <= index < ArrayIndexBound
    ensures var a := App.HandleItemClick(Some(item), index, true).value;
            var sent := Net.SendPlayerAction(n, a.actionType, a.targetId, a.extra, now, true);
            var f := ItemActionFields(n, item, index, now);
            var id := n.socket.value.clientId;
            var ps := s.connectedClients.entries[id].playerState;
            var applied := Srv.UseItem(ps, f);
            && sent.ok
            && sent.effects == [Net.SentDatagram(PlayerAction(f))]
            && KeyOf(Get(f, "slotIndex")) == ElementKey(index)
            && (item.id == "potion_heal" ==>
                  applied.state.inventory == Inventory.ConsumeItem(ps.inventory, ElementKey(index)))
            && Srv.HandleClientMessage(s, id, Some(PlayerAction(f)), at).out
               == [Srv.Outgoing(id, PlayerStateMsg(applied.state, ItemEffect(applied.outcome), at))]
  {
    NumberKeys(index);
  }

  /** The PLAYER_ACTION object a drag produces on a connected service. */
  function DragActionFields(n: Net.Net, fromIndex: int, toIndex: int, item: ItemStack, now: int): (f: Fields)
    ensures StrField(f, "actionType") == Some("item_move")
    ensures StrField(f, "itemId") == Some(item.id)
    ensures Get(f, "fromIndex") == Num(fromIndex)
    ensures Get(f, "toIndex") == Num(toIndex)
    ensures Get(f, "targetId") == Null
  {
    Net.ActionObject(n.playerId, "item_move", Null, now,
                     map["fromIndex" := Num(fromIndex), "toIndex" := Num(toIndex), "itemId" := Str(item.id)])
  }

  /**
   * A drag from slot `fromIndex` to slot `toIndex` on a connected service
   * sends exactly one PLAYER_ACTION, which the server turns into a move
   * between those two elements of the sender's inventory, guarded by the
   * dragged item's id. Dropping a stack back onto its own slot passes the
   * check and empties the slot.
   */
  lemma ItemDragReachesServer(n: Net.Net, fromIndex: int, toIndex: int, item: ItemStack, now: int,
                              s: Srv.Server, at: int)
    requires n.isConnected && n.socket.Some? && n.socket.value.isBound
    requires Srv.Known(s, n.socket.value.clientId)
    requires 0 <= fromIndex < ArrayIndexBound && 0 <= toIndex < ArrayIndexBound
    ensures var a := App.HandleItemDrag(fromIndex, toIndex, item, true).value;
            var sent := Net.SendPlayerAction(n, a.actionType, a.targetId, a.extra, now, true);
            var f := DragActionFields(n, fromIndex, toIndex, item, now);
            var id := n.socket.value.clientId;
            var inv := s.connectedClients.entries[id].playerState.inventory;
            var moved := Inventory.MoveItem(inv, ElementKey(fromIndex), ElementKey(toIndex), Some(item.id));
            && sent.ok
            && sent.effects == [Net.SentDatagram(PlayerAction(f))]
            && Srv.HandleClientMessage(s, id, Some(PlayerAction(f)), at) == Srv.HandleItemMove(s, id, f, at)
            && KeyOf(Get(f, "fromIndex")) == ElementKey(fromIndex)
            && KeyOf(Get(f, "toIndex")) == ElementKey(toIndex)
            && (fromIndex == toIndex && Inventory.ReadSlot(inv, ElementKey(fromIndex)) == Some(item) ==>
                  moved.Some? && Inventory.ReadSlot(moved.value, ElementKey(fromIndex)) == None)
  {
    NumberKeys(fromIndex);
    NumberKeys(toIndex);
  }
}
