# Game client and mock server, modelled in Dafny

A model of a small browser MMO front end. It has three cooperating pieces:

- **MockServer.** An in-page authoritative server. It keeps a session table keyed by the client socket's id. It validates and applies login, heartbeat, move and action messages, and every tick it broadcasts each player's state plus, every five seconds, a roster.
- **NetworkService.** The client connection. It covers the connect/login/heartbeat sequence, the send guard, reconnect with a five-attempt cap, inbound dispatch to named events and numeric-tag handlers, and the simulated `UDPSocket`.
- **App.** The React component's pure steps:
  - merging server state into the local copy;
  - WASD movement prediction and the 100 ms move-send throttle;
  - the skill, item and drag actions it sends;
  - the local one-second skill cooldown timer.

Every operation is a pure function. It maps the current state plus the message, the sender and the current time to the new state. It also returns what was sent or invoked, in order.

Values the JavaScript takes from its environment become parameters:

- `Date.now()`;
- the random socket and player ids;
- whether binding or the transport threw;
- which keys are held.

Timers are counted, not run. A scheduled reconnect, a live heartbeat interval or a broadcast tick fires only when the matching event is applied.

Modules:

- `Basics` — options, min/max/clamp, points and the 800×600 world.
- `OrderedMap` — an insertion-ordered map for JavaScript `Map`. Broadcast and roster order is Map order.
- `Protocol` — the player record, item stacks, message tags and the client/server message types. A PLAYER_ACTION is kept as a flat field map of JavaScript scalars, because the client spreads arbitrary `extraData` into it and the server reads it field by field.
- `JsKeys` — how JavaScript turns a value used as `array[key]` into a property key (ToPropertyKey, section 7.1.19 of ECMA-262). A key addresses an array element exactly when its property name is an array index (section 6.1.7): the canonical decimal numeral of an integer below 2^32 − 1. So `3` and `"3"` are the same element, while `-1`, `"03"` and `undefined` are named properties.
- `Inventory` — slot reads and writes with JavaScript array semantics:
  - writing an element past the end grows the array, and the gap reads as empty;
  - writing under a named key adds a named property, which reads back under the same key but is not an element. JSON and array copies keep only the elements.

  It also covers `consumeItem`, the item-move check and unit counting.
- `MockServer` — the session table, the handlers, the broadcast, and runs of events.
- `NetworkService` — the client service as a state machine with effects.
- `App` — the UI-side reconciliation and input steps.
- `Integration` — properties of the pieces put together: the client click, the send, the server's handler and the merge of the reply.

Behaviour the code has, which the model keeps and states as lemmas:

- **The first login is dropped.** The login is sent before `isConnected` is set, so the send guard drops it. A fresh client therefore never gets a session, because the server only opens sessions on LOGIN. The connection indicator stays at `connecting`.
- **Fireball gets no server cooldown.** `getSkillIndex` uses `||`, so `fireball` (slot 0) maps to -1. The server never records a fireball cooldown, and the next PLAYER_STATE erases the client's local one.
- **Item moves can lose, hide or grow the inventory.**
  - An item move overwrites whatever occupied the destination.
  - A move onto its own slot clears it.
  - A destination index past the end grows the inventory.
  - A destination that is not an array index (say `-1`) parks the stack in a named property. The server can still read it there, but it is gone from every inventory the client sees.
- **Re-login resets the session.** A repeated LOGIN creates a fresh player record; the old record is dropped, not re-bound (`src/services/MockServer.js`, lines 47-58).
- **Reconnect leaks a heartbeat.** Calling `connect` while connected starts a second heartbeat interval without clearing the first.
- **Disconnect does not cancel reconnects.** `disconnect` leaves scheduled reconnects pending.
- **A failed re-login schedules a retry on a live connection.** When `connect` runs while connected and the login send fails, the error path schedules a reconnect, and `connect` then marks the service connected anyway and returns true.
- **`W` is two keys at once.** It moves the player up and is also the hotkey of the `heal` skill.

## Model

| member | source | states |
|---|---|---|
| Basics.ClampToWorld | src/services/MockServer.js:104-105 | the result lies in [0,800]×[0,600]; a point already inside is unchanged; each coordinate saturates at the nearer bound |
| OrderedMap.Put | src/services/MockServer.js:60-65 | `Map.set`: the key maps to the new value and other keys keep theirs; an existing key keeps its place in iteration order; a new key is appended; keys stay distinct |
| OrderedMap.Delete | src/services/MockServer.js:299-301 | `Map.delete`: the key is gone, every other key keeps its value; the order is the old one with the key taken out; deleting an absent key changes nothing |
| OrderedMap.DeleteKeepsOrder | src/services/MockServer.js:299-301 | deleting a present key cuts exactly its one position from the iteration order: the keys before and after it stay, in the same order |
| OrderedMap.RemoveKeyKeepsOrder | src/services/MockServer.js:299-301 | in an order listing each key once, removing a key leaves the prefix before it followed by the suffix after it |
| Protocol.ClientTag | src/services/MockServer.js:21-36 | a client message is of an unknown kind exactly when its tag is none of LOGIN 1, HEARTBEAT 3, PLAYER_MOVE 6, PLAYER_ACTION 7 |
| Protocol.ServerTag | src/services/NetworkService.js:15-25 | a server message is of an unknown kind exactly when its tag is none of 2, 4, 5, 8, 99 |
| JsKeys.KeyOf | src/services/MockServer.js:206-211 | a key addresses an element exactly when its property name is the canonical numeral of an index below 2^32−1, and that index's numeral is the name; any other key addresses the named property of that name |
| JsKeys.NumberKeys | src/services/MockServer.js:289-294 | a number in [0, 2^32−2] and its numeral as a string both address that element; a negative number addresses a named property such as "-1" |
| JsKeys.KeyOfSameName | src/services/MockServer.js:206-211 | two key values reach the same slot exactly when they have the same property name |
| JsKeys.ArrayIndexOfNatToString | src/services/MockServer.js:206-211 | every index below 2^32−1 is denoted by its own numeral |
| JsKeys.NatToStringOfDigitsValue | src/services/MockServer.js:206-211 | a canonical numeral is the decimal form of its own value (decimal parse then print is the identity) |
| JsKeys.DigitsValueOfNatToString | src/services/MockServer.js:206-211 | printing a number in decimal and reading the digits back gives the number |
| Inventory.ReadOverWrite | src/services/MockServer.js:206-211 | a read after a write under the same key gives the written value; under any other key it gives what it gave before the write |
| Inventory.WriteSlot | src/services/MockServer.js:210-211 | writing element i grows the array to i+1 if needed, the gap empty, and leaves the named properties; writing a named key leaves the elements unchanged |
| Inventory.WriteSlotPositive | src/services/MockServer.js:210-211 | writing a stack of at least one unit, or null, keeps every stack positive |
| Inventory.InitialInventory | src/services/MockServer.js:264-274 | twenty elements: healing potions ×3 in slot 0, four starter stacks in slots 0–3, slots 4–19 empty, no named properties, no stack below one |
| Inventory.ConsumeItem | src/services/MockServer.js:289-296 | read back under the same key, a stack of more than one has one unit less and anything else (a single item, an empty slot) reads empty; every other key reads as before; an element keeps the length, a named key keeps the elements; no stack drops below one |
| Inventory.ConsumeItemUnits | src/services/MockServer.js:289-296 | consuming from an occupied element removes exactly one unit from the elements' total; from an empty slot or a named property it removes none |
| Inventory.MoveItem | src/services/MockServer.js:205-211 | the move happens exactly when the source key reads a stack whose id equals the claimed id; then the source reads empty, the target (if different) reads the stack, every other key reads as before, stacks stay positive |
| Inventory.MoveItemRoundTrip | src/services/MockServer.js:205-211 | moving a stack from a to b and back with the same id succeeds and restores every key except b, which ends empty |
| Inventory.MoveItemUnits | src/services/MockServer.js:208-211 | a successful move between distinct elements loses exactly the units of the destination's former occupant; a move onto itself loses the moved stack |
| Inventory.MoveItemGrows | src/services/MockServer.js:210 | a move to an index at or past the end grows the inventory to that index, with the gap empty and the source cleared |
| Inventory.MoveItemToNamedKeyHides | src/services/MockServer.js:210-211 | a move from an element to a key that is not an array index empties the element and leaves all other elements; the stack reads back only under that named key |
| MockServer.Initial | src/services/MockServer.js:3-8 | the table starts empty and satisfies the server invariant |
| MockServer.Store | src/services/MockServer.js:60-65 | writing a session's record into both Maps keeps them listing the same ids and sharing the record, keeps the server invariant, and keeps the order of a known id |
| MockServer.NewPlayerState | src/services/MockServer.js:47-58 | a fresh record is valid (health within max, in the world, stacks positive) with a twenty-slot inventory |
| MockServer.HandleLogin | src/services/MockServer.js:43-77 | the sender gets a fresh record (100/100 health, level 1, at (400,300), no cooldowns, starter inventory) whether or not it had one; reply LOGIN_RESPONSE with that record; other sessions untouched; Map order kept or the id appended |
| MockServer.HandleHeartbeat | src/services/MockServer.js:80-91 | a known sender's liveness stamp becomes `now` and it gets HEARTBEAT_RESPONSE; an unknown sender changes nothing and gets nothing |
| MockServer.HandlePlayerMove | src/services/MockServer.js:94-111 | a known sender's position becomes the clamped claimed position and its velocity the claimed one, nothing else changes, no reply; unknown senders are ignored |
| MockServer.GetSkillIndex | src/services/MockServer.js:277-286 | the index is -1 exactly when the id is not heal, lightning, frost or summon (so also for fireball); otherwise it is the table slot, 1–4 |
| MockServer.UseSkill | src/services/MockServer.js:136-162 | heal adds 20 health capped at the maximum; fireball subtracts 10 floored at 0; other skills change no health; the skill's slot (when found) gets a 3-second cooldown, no other field changes, validity is kept |
| MockServer.UseItem | src/services/MockServer.js:174-189 | a potion restores 30 health capped at the maximum and consumes one unit at the slot the `slotIndex` value addresses, element or named; any other item changes nothing; validity is kept |
| MockServer.HandleSkillUse | src/services/MockServer.js:136-171 | the sender's record is replaced by the skill's result and it alone gets a PLAYER_STATE with the skill effect; invariant kept |
| MockServer.HandleItemUse | src/services/MockServer.js:174-198 | the sender's record is replaced by the item's result and it gets a PLAYER_STATE with the item effect; invariant kept |
| MockServer.HandleItemMove | src/services/MockServer.js:201-221 | a failed check changes nothing and sends nothing; a passed one stores the moved inventory and replies with the full state |
| MockServer.HandlePlayerAction | src/services/MockServer.js:114-133 | unknown senders and unknown action types change nothing; skill_use, item_use and item_move go to their handlers |
| MockServer.HandleClientMessage | src/services/MockServer.js:17-40 | unparsed input and unknown tags change nothing; the four known tags are routed; every reply goes to the sender; no other session appears or disappears; invariant kept |
| MockServer.DisconnectClient | src/services/MockServer.js:299-303 | the session is gone from both Maps; every other session is unchanged; disconnecting an unknown id changes nothing |
| MockServer.RosterListsEachPlayerOnce | src/services/MockServer.js:239-242 | the roster lists every connected client exactly once, in Map order, each with its own position, and nobody else |
| MockServer.BroadcastBlockCounts | src/services/MockServer.js:229-246 | one client's block holds exactly one PLAYER_STATE for it, and one GAME_STATE for it exactly inside the first 100 ms of each 5-second period; nothing for anyone else |
| MockServer.BroadcastTo | src/services/MockServer.js:227-247 | the i-th client in order receives messages 2i and 2i+1 inside the roster window, message i outside it |
| MockServer.BroadcastToRecipients | src/services/MockServer.js:227-247 | a broadcast addresses nobody outside the listed clients |
| MockServer.Broadcast | src/services/MockServer.js:224-248 | the game time becomes the tick; nothing else changes; only connected clients are addressed |
| MockServer.BroadcastCounts | src/services/MockServer.js:227-247 | each connected client gets exactly one PLAYER_STATE and, inside the window, exactly one GAME_STATE; others get none |
| MockServer.RunPreservesInv | src/services/MockServer.js:17-40 | after any sequence of datagrams, ticks and closes: health in [0,max], positions in the world, stacks positive, cooldowns only on slots 1–4 and non-negative, both Maps agree |
| MockServer.ApplyWithoutLogin | src/services/MockServer.js:80-116 | one event other than a LOGIN from an unknown client leaves it unknown and sends it nothing |
| MockServer.NoSessionWithoutLogin | src/services/MockServer.js:80-116 | an unknown client stays unknown and is sent nothing for as long as no LOGIN from it arrives |
| NetworkService.ConnectedSendFailsOnlyOnTransport | src/services/NetworkService.js:306-309 | on a valid connected service the socket is bound, so the unbound throw never fires: a send fails exactly when the transport throws |
| NetworkService.CloseSocket | src/services/NetworkService.js:330-336 | a closed socket is unbound, so every later send fails |
| NetworkService.Initial | src/services/NetworkService.js:3-26 | the service starts disconnected, without a socket, with no attempts, satisfying its invariant |
| NetworkService.On | src/services/NetworkService.js:259-264 | registering appends the handler to that event's list only |
| NetworkService.EmitAfterOn | src/services/NetworkService.js:259-270 | after registering a handler, emitting its event invokes the earlier handlers and then it; other events are unaffected |
| NetworkService.EmitAfterOnAll | src/services/NetworkService.js:259-270 | handlers registered one after another are invoked in exactly that order, after the earlier ones |
| NetworkService.StopThenStartLeaksNothing | src/services/NetworkService.js:206-243 | stopping before starting orphans no interval; starting twice in a row orphans the first one |
| NetworkService.OrphanHeartbeatsNeverCleared | src/services/NetworkService.js:206-216 | over any sequence of events the number of orphaned heartbeat intervals never decreases |
| NetworkService.StopHeartbeatIdempotent | src/services/NetworkService.js:238-243 | stopping the heartbeat twice is the same as once |
| NetworkService.HandleConnectionError | src/services/NetworkService.js:219-235 | always disconnected with no heartbeat; below the cap one more attempt and one retry are scheduled; at the cap `connectionLost` is emitted and nothing is scheduled; invariant kept |
| NetworkService.SendMessage | src/services/NetworkService.js:71-89 | without socket or connection the message is dropped with result false; otherwise it is sent exactly when the socket is bound and the transport works, and a failure goes through the connection-error path |
| NetworkService.SendPlayerMove | src/services/NetworkService.js:179-189 | a PLAYER_MOVE with the stored player id is sent under the send guard's conditions and dropped otherwise |
| NetworkService.ActionObject | src/services/NetworkService.js:192-200 | the extra fields override the fixed ones; absent from the extras, type is 7, actionType and timestamp are as given, targetId defaults to null; no other keys |
| NetworkService.SendPlayerAction | src/services/NetworkService.js:192-203 | exactly that action object is sent under the send guard's conditions and dropped otherwise |
| NetworkService.Connect | src/services/NetworkService.js:29-55 | returns true exactly when binding succeeds; then connected, attempts reset, heartbeat held; from a disconnected state the login is dropped and no interval leaks; while connected the login is sent, or, if that send fails, a retry is scheduled (or connectionLost emitted at the cap) and it still returns true; a failed bind takes the connection-error path; invariant kept |
| NetworkService.FireRetry | src/services/NetworkService.js:228-230 | a pending retry is used up and reruns `connect`; with none pending nothing happens |
| NetworkService.FireHeartbeat | src/services/NetworkService.js:207-215 | a live (or orphaned) interval sends a HEARTBEAT with the stored player id through the send guard |
| NetworkService.Disconnect | src/services/NetworkService.js:246-256 | disconnected, no heartbeat, socket closed (telling the server) and forgotten; pending retries and everything else unchanged |
| NetworkService.DisconnectIdempotent | src/services/NetworkService.js:246-256 | disconnecting a second time changes nothing and has no effect |
| NetworkService.HandleReceivedMessage | src/services/NetworkService.js:114-154 | a successful login records the player id; the message's named event is emitted first, then the handlers of its numeric tag; unknown tags only reach tag handlers |
| NetworkService.RunPreservesInv | src/services/NetworkService.js:219-235 | after any events the attempt counter stays within 5, a connected service has a bound socket, and a heartbeat runs exactly while connected |
| App.InitialView | src/App.js:14-55 | the UI starts disconnected with no cooldowns and twenty inventory slots |
| App.NextStatus | src/App.js:61-79 | connecting on start, failed on a false `connect` or a refused login, disconnected on connection loss; a successful `connect` alone never shows connected |
| App.StatusNeverConnectsWithoutLogin | src/App.js:61-138 | from any state but connected, no sequence of start, connect-result, login-failure and connection-loss events shows connected |
| App.ApplyStateUpdate | src/App.js:107-129 | each present field replaces the local one, each absent one keeps it; cooldowns and inventory are replaced wholesale when present; the status is untouched |
| App.ApplyStateUpdateIdempotent | src/App.js:107-129 | applying the same update twice equals applying it once |
| App.FullUpdateOverwrites | src/App.js:107-129 | a full server state determines the local state entirely; of two, the later one wins |
| App.LoginSuccessVsStateUpdate | src/App.js:92-129 | a login success and a PLAYER_STATE with the same record agree on the player; only the PLAYER_STATE replaces cooldowns and inventory (with the record's elements), only the login success shows connected |
| App.PressedKeyMoves | src/App.js:147-166 | pressing w, a, s or d moves the player that way unless the opposite key is held; releasing a key not held before restores the velocity; other keys do not move |
| App.HotkeySkill | src/App.js:157-161 | a key selects a skill slot exactly when it is one of q w e r t, and the slot is its position in that list |
| App.HotkeysMatchSkillBar | src/App.js:32-38 | the slot a hotkey selects holds the skill bound to that key |
| App.UpKeyAlsoCastsHeal | src/App.js:147-161 | pressing w both moves the player up and casts the heal skill |
| App.Velocity | src/App.js:181-191 | each component is -5, 0 or 5; opposing keys cancel; a component is negative exactly when only its negative key is held |
| App.Predict | src/App.js:192-195 | the predicted position is inside the world and equals the unclamped step when that step stays inside |
| App.GameLoopStep | src/App.js:179-209 | the new local position is the prediction; a move is sent exactly when more than 100 ms passed since the last send and the velocity is nonzero; the send time is recorded only on a send |
| App.SendTimesSpaced | src/App.js:203-209 | over any run of frames, every sent move lies more than 100 ms after the previous one |
| App.HandleSkillClick | src/App.js:279-294 | without a skill or a connection nothing happens; otherwise a skill_use carrying the skill's id and name is sent and that slot's local cooldown becomes 3, other cooldowns unchanged |
| App.HandleItemClick | src/App.js:297-308 | an item_use with no target, carrying exactly the item's id and name and the clicked slot, is sent exactly when an item is present and the service is connected |
| App.HandleItemDrag | src/App.js:311-320 | an item_move with no target, carrying exactly both slots and the item id, is sent exactly when connected |
| App.TickCooldowns | src/App.js:323-334 | same skills; positive cooldowns drop by one; others stay; non-negative stays non-negative |
| App.TickCooldownsNCountsDown | src/App.js:323-334 | after n ticks a cooldown c ≥ 0 reads max(0, c−n) |
| Integration.FirstConnectSendsNoLogin | src/services/NetworkService.js:41-46 | the first successful connect of a fresh service sends nothing at all |
| Integration.ReconnectSendsLoginAndLeaksHeartbeat | src/services/NetworkService.js:206-216 | connecting while connected does send the login, and leaves one more orphaned heartbeat interval |
| Integration.SkillSlotsAgreeExceptFireball | src/services/MockServer.js:277-286 | the server's skill index agrees with the client's skill bar slot for every skill except fireball, which gets -1 |
| Integration.SkillClickReachesServer | src/App.js:279-294 | a connected skill click sends exactly one action, which the server routes to its skill handler and answers with the applied state |
| Integration.FireballCooldownLostOnSync | src/services/MockServer.js:157-162 | the client's local fireball cooldown is erased by the server's reply |
| Integration.OtherSkillCooldownSurvivesSync | src/App.js:291-293 | for the other skills the server's reply keeps the 3-second cooldown the client predicted |
| Integration.ClientStartsWithServerInventory | src/App.js:43-51 | the inventory the UI shows before syncing is the one the server hands out at login |
| Integration.StatusStuckAtConnecting | src/App.js:62-79 | a fresh service's successful connect sends nothing, leaves the indicator at connecting, and no later status event shows connected |
| Integration.ItemClickReachesServer | src/App.js:297-308 | a connected click on slot i sends exactly one action; its slotIndex addresses element i; for a potion the server consumes from element i; the server answers with the applied state |
| Integration.ItemDragReachesServer | src/App.js:311-320 | a connected drag sends exactly one action, which the server handles as a move between elements from and to guarded by the item id; dropping a stack on its own slot empties it |

## Left out

- **JSON and text encoding.** Message text, `JSON.stringify`/`parse` and `TextEncoder`/`TextDecoder` are not modelled. Messages are values; a datagram that does not parse is `None`. One effect of the encoding is kept: an inventory crosses as its elements only (`App.UpdateOf` takes `inventory.elements`).
- **Concurrency and timing.** Network delays (`setTimeout`, awaited sends), async interleavings and out-of-order delivery are not modelled. Also left out: the 20–70 ms delay on the server's replies, and the aliasing that delay causes: every delayed reply spreads the live record, so it shares the live inventory, which a later `consumeItem` changes in place (`item.quantity -= 1`).
- **Timers.** `setInterval`/`setTimeout` are counted and fired explicitly. The server's 100 ms broadcast interval becomes the caller's `BroadcastTick`.
- **Randomness and the clock.** `Date.now()`, `Math.random`, the generated player id and the socket id are parameters.
- **The socket callback.** The global `mockServerCallback` registration, which lets the most recently bound socket receive replies, is not modelled. Neither are the socket's address and port.
- **UI and logging.** Rendering, canvas drawing, the components under `src/components`, `activeSkill`, the inventory toggle and console logging are not modelled.
- **The old socket on reconnect.** `connect` replaces the socket without closing the old one. The old one is simply forgotten.
- **The game-loop closure.** The React effect's re-registration is not modelled; each frame sees the latest local position.
- Inventory.ReadSlot: keys that name properties an array inherits (`length`, the `Array.prototype` methods) are treated as ordinary named properties that start empty. In JavaScript `inventory["length"]` reads 20, and writing `null` to it empties the array.
- JsKeys.PropertyName: numbers are integers, so fractional keys, `NaN`, `-0` and numerals in exponent form (1e21 and up) are not modelled. Neither are the string forms of object keys.
- JsKeys.ArrayIndexBound: writing element 2^32 − 2 makes the length 2^32 − 1, the largest JavaScript allows; the model's sequences have no such ceiling, but no key the model produces reaches past it.
- MockServer.HandlePlayerMove: does not model a move without a position or with non-numeric coordinates (JavaScript would throw or store `NaN`), nor a move without a velocity (JavaScript stores `undefined` as the velocity). Coordinates are integers and both fields are always present.
- MockServer.GetSkillIndex: does not model ids that name inherited object properties (such as `toString`), which JavaScript would look up on the prototype.
- MockServer.HandlePlayerAction: an `extraData` that overrides `type` or `actionType` is carried in the field map. It is not re-routed at the transport level.
- MockServer.UseSkill: only string `skillId`s are matched, as the source's strict `switch` does. A non-string id finds no slot.
- App.ApplyLoginSuccess: the login record's other fields (player id, cooldowns, inventory) are also spread into the JavaScript `playerState`. No UI reads them there, and they are not modelled.
- App.HandleSkillClick: the `cooldowns` object's keys are strings in JavaScript; here they are integers.
- NetworkService.Disconnect: the JavaScript `disconnect` returns `undefined`; the model's result carries `ok == true`. No caller reads it.
