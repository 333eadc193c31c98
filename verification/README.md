# warcube-web in Dafny

A model of the game-state core of warcube-web, a browser shooter with a Socket.IO
server, together with proofs about it.

The model covers:

- **The authoritative server.** It keeps a registry of sessions keyed by socket id and a pool of
  items on the ground. Each socket event is a pure transition
  `(State, sender, event) -> (State, outbound messages)`. Every outbound message carries its
  target: the sender only, all but the sender, everyone, or the rename acknowledgement.
  - There are two variants. The current one is `server/src/server-elysia.ts`, modelled in `ElysiaServer`. The older one
    is `server/src/server.ts`, modelled in `LegacyServer`.
  - Both variants use the same handlers for connect, movement, the three relays, death, pickup and
    disconnect. These are written once, in `Protocol`.
  - The variants differ in how they spawn items and in how they rename.
- **The supporting pieces they use.** These are:
  - the bounded random helpers (`Random`);
  - the item catalog and its instantiation (`Catalog`);
  - the JavaScript `trim` (`Text`);
  - the insertion-ordered keyed registry `ObjectMap` (`ObjectMaps`).
- **The client's state machines.** These are:
  - the ammunition/reload/fire machine, shared by the player entity and the older controller
    (`Combat`, `Fighters`, `Controllers`);
  - bullet damage and death, and item pickup with the capacity check (`Fighters`);
  - the inventory reset (`Inventories`);
  - the world registry built on `ObjectMap` (`GameMaps`);
  - the kill-feed id counter (`ActionFeed`);
  - the random string generator (`StringGen`);
  - the handler logic of the generic input dialog and of the rename window (`Dialogs`, `ChangeName`).

Randomness, the clock and the socket are parameters:

- Each `Math.random()` call is a `Random.Draw`, a real in [0, 1), passed in call order.
- `Date.now()` is an `int`.
- Whether the client's socket is connected is a `bool`.
- The socket's id is an `Option<string>`.

A disconnect for an id with no session still broadcasts. Both servers delete the key and emit
`playerDisconnected` unconditionally (server/src/server-elysia.ts:157-162,
server/src/server.ts:192-197), so `Protocol.Disconnect` always broadcasts.

The older server calls the rename acknowledgement once per session holding the name, and then
once more. The model records every call. A Socket.IO acknowledgement is delivered at most once,
so the client sees only the first reply.

## Model

| member | source | states |
|---|---|---|
| Text.TrimEmptyIffBlank | server/src/server-elysia.ts:120 | `newName.trim()` is empty exactly when every character is JavaScript white space or a line terminator, so `IsBlank` is the servers' and dialogs' emptiness test |
| Text.DropLast | client/src/ui/windows/dialog.tsx:120 | `slice(0, -1)` leaves the empty string empty and otherwise removes exactly the last character |
| Text.OrDefault | client/src/ui/windows/dialog.tsx:92 | the JavaScript `or` of the message and a fallback: a present non-empty message wins, and a missing or empty one gives the fallback |
| Random.ScaledIndex | server/src/utils.ts:18 | `Math.floor(r * n)` with r in [0, 1) is an index in [0, n) when n is at least 1 |
| Random.GetRandomInt | server/src/utils.ts:17-19 | for min <= max the result lies in [min, max], both ends included |
| Random.GetRandomIntReaches | server/src/utils.ts:17-19 | every integer of [min, max] is produced by some draw |
| Random.GetRandomIntEndpoints | server/src/utils.ts:18 | the draw 0 gives min, and some draw gives max |
| Random.GetRandomPositions | server/src/utils.ts:3-15 | x lies within the x bounds and y within the y bounds |
| Random.DefaultPosition | server/src/utils.ts:4-7 | without arguments the point lies in [0, 1280] x [0, 720], whatever the map size |
| Random.PositionAxesIndependent | server/src/utils.ts:12-13 | x depends only on the first draw and y only on the second |
| ObjectMaps.Empty | client/src/utils/object-map.ts:10-14 | a new registry holds no key and has no duplicate keys |
| ObjectMaps.Get | client/src/utils/object-map.ts:22-25 | `get(k)` finds a value exactly when k is stored, and then returns k's value |
| ObjectMaps.Search | client/src/utils/object-map.ts:60-63 | `search(k)` behaves exactly as `get(k)` |
| ObjectMaps.Add | client/src/utils/object-map.ts:16-20 | after `add(k, v)` the content is the old content with k mapped to v. A present key keeps its place; a new key is appended; other entries do not move |
| ObjectMaps.AddThenGet | client/src/utils/object-map.ts:16-25 | after `add(k, v)`: `get(k)` is v, every other key reads as before, and no key is duplicated |
| ObjectMaps.Remove | client/src/utils/object-map.ts:27-37 | returns true exactly when k was stored. Afterwards the content is the old content without k; with an absent key nothing changes |
| ObjectMaps.RemoveThenGet | client/src/utils/object-map.ts:27-37 | after `remove(k)`: k reads as absent, every other key reads as before, and no key is duplicated |
| ObjectMaps.Clear | client/src/utils/object-map.ts:39-43 | after `clear()` no key is stored |
| ObjectMaps.Filter | client/src/utils/object-map.ts:55-58 | returns as many values as satisfy the predicate. Every returned value is stored and satisfies it, and every stored value that satisfies it is returned |
| ObjectMaps.FilterOne | client/src/utils/object-map.ts:55-58 | a single entry gives its value when the predicate holds and nothing otherwise |
| ObjectMaps.FilterAppend | client/src/utils/object-map.ts:55-58 | filtering two runs of entries one after the other gives the first run's result followed by the second's. With `FilterOne`, this fixes the result exactly: insertion order, every occurrence kept once |
| ObjectMaps.SearchByCondition | client/src/utils/object-map.ts:65-68 | returns exactly what `filter` returns for the same predicate |
| ObjectMaps.MapEntries | client/src/utils/object-map.ts:78-83 | returns one result per entry, in insertion order, each the callback of that entry's value and key |
| ObjectMaps.FromEntries | server/src/server.ts:52-59 | `new Map(entries)` has no duplicate key, and each key holds the value of its last occurrence |
| Catalog.CatalogIds | client/src/entities/ItemDatabase.ts:4-417 | the catalog holds 24 templates, whose ids are 1..24 in table order |
| Catalog.CatalogKeysDistinct | client/src/entities/ItemDatabase.ts:4-417 | the 24 keys are pairwise distinct |
| Catalog.GetItemByLabel | client/src/entities/ItemDatabase.ts:424-427 | finds a template exactly when the argument is a table key, and returns the template stored under that key |
| Catalog.GetItemById | client/src/entities/ItemDatabase.ts:419-422 | a template it finds carries the requested id |
| Catalog.GetItemByIdExact | client/src/entities/ItemDatabase.ts:4-422 | for n in 1..24, `getItemById(n)` is the n-th template; for every other n it is undefined |
| Catalog.LabelsAreNotKeys | client/src/entities/ItemDatabase.ts:248-251 | `storm_crossbow` has the label "ranged_weapon", which is not a key, and two armour pieces share the label "armor", so looking up a label is not a lookup by the `label` field |
| Catalog.CreateItemInstance | client/src/entities/ItemDatabase.ts:429-439 | null exactly for an unknown key. Otherwise the position is the argument, the id lies in [now, now + 999], and every other field equals the template's |
| Catalog.CatalogKeysInstantiate | client/src/entities/ItemDatabase.ts:429-433 | every catalog key instantiates |
| Catalog.InstanceIdsReachable | client/src/entities/ItemDatabase.ts:437 | every id in [now, now + 999] is the id of some instance |
| Protocol.Connect | server/src/server-elysia.ts:61-70 | registers exactly one session under the socket id: id = socket id, name "Игрок " + id, no kills, no deaths, inside 1280 x 720. Other sessions and the pool are unchanged. The snapshot sent to the new socket holds every session, the new one included, and the whole pool; `newPlayer` goes to all but the sender |
| Protocol.Move | server/src/server-elysia.ts:72-78 | a sender without a session changes nothing and sends nothing. Otherwise only position, rotation and reload flag are overwritten, and the updated session goes to all but the sender |
| Protocol.Shoot | server/src/server-elysia.ts:80-86 | the state is untouched, and the shot goes to every socket tagged with the shooter's id |
| Protocol.Reload | server/src/server-elysia.ts:88-91 | the state is untouched, and the sender's id goes to every socket |
| Protocol.ReloadComplete | server/src/server-elysia.ts:93-96 | the state is untouched, and the sender's id goes to every socket |
| Protocol.Dead | server/src/server-elysia.ts:98-116 | see "Protocol.Dead in detail" below the table |
| Protocol.SelfKill | server/src/server-elysia.ts:103-115 | a session that kills itself ends with one more death and one more kill, and the broadcast shows the kill |
| Protocol.FirstIndex | server/src/server-elysia.ts:150-153 | `find` followed by `indexOf` gives the first position holding the id, or none when no item holds it |
| Protocol.Pickup | server/src/server-elysia.ts:145-155 | removes the first item with the id, keeps the order of the rest, and tells everyone. An unknown id or a sender without a session changes nothing and sends nothing. Sessions are never touched |
| Protocol.PickupRemovesExactlyOne | server/src/server-elysia.ts:150-153 | a successful pickup leaves one item fewer: one fewer with that id, the same number with every other id, and a sub-multiset of the pool |
| Protocol.PickupTwice | server/src/server-elysia.ts:145-155 | with distinct ids on the ground, picking the same id up again changes nothing and sends nothing, and the ids stay distinct. The older server's pool has distinct ids (`LegacyServer.InitialPickupOnce`); the current server's pool usually does not (see Findings) |
| Protocol.Disconnect | server/src/server-elysia.ts:157-162 | removes the sender's key, leaves every other session and the pool as they were, and always tells all but the sender |
| ElysiaServer.SpawnOne | server/src/server-elysia.ts:37-53 | one iteration always yields an item, because its key comes from the catalog. The position lies in [0, width] x [0, height] and the rotation in [0, 360] |
| ElysiaServer.SpawnOneCopiesTemplate | server/src/server-elysia.ts:45-48 | a spawned item equals some catalog template except for its id and position |
| ElysiaServer.SpawnAll | server/src/server-elysia.ts:37-54 | one item per iteration, in order, each the item of that iteration's draws |
| ElysiaServer.SpawnGroundItems | server/src/server-elysia.ts:32-55 | between minItems and maxItems items, each inside the map and with rotation in [0, 360] |
| ElysiaServer.InitialState | server/src/server-elysia.ts:57 | the server starts with no session and 64 to 128 items inside 4000 x 4000 |
| ElysiaServer.SameMillisecondSameId | client/src/entities/ItemDatabase.ts:437 | the id is `now` plus the floor of 1000 times the jitter draw, so two iterations in the same millisecond with the same jitter draw give the same id, whatever template and position they draw |
| ElysiaServer.DuplicateIdPickedTwice | server/src/server-elysia.ts:145-155 | counterexample: with two such items on the ground, picking up their id succeeds twice; the second pickup takes the other item and announces the pickup again |
| ElysiaServer.Rename | server/src/server-elysia.ts:118-143 | exactly one reply. It succeeds exactly when the name is not blank, no session (the sender included) holds it, and the sender has a session. A refusal changes nothing and says why; a success changes only the sender's name |
| ElysiaServer.RenameKeepsNamesDistinct | server/src/server-elysia.ts:126-142 | if names are pairwise distinct before a rename, they are after it |
| ElysiaServer.Step | server/src/server-elysia.ts:57-162 | only a connection adds a session; every other event keeps or shrinks the key set |
| ElysiaServer.StepKeepsNamesDistinct | server/src/server-elysia.ts:61-162 | every event keeps names distinct, except a connection whose placeholder name someone already holds |
| ElysiaServer.RunKeepsNamesDistinct | server/src/server-elysia.ts:72-162 | over any trace without connections, distinct names stay distinct |
| ElysiaServer.RunOnlyShrinksPool | server/src/server-elysia.ts:145-155 | over any trace the pool only shrinks, as a multiset: no item is ever added or duplicated |
| ElysiaServer.DisconnectedStaysGone | server/src/server-elysia.ts:157-162 | after a disconnect, no later event except a connection brings the session back |
| ElysiaServer.RunNeverAddsSessions | server/src/server-elysia.ts:72-162 | a trace without connections never adds a session |
| LegacyServer.TemplatesCollapse | server/src/server.ts:52-59 | the five-entry `Map` holds four entries, pistol, rifle, shotgun, sniper, because the second 'shotgun' only overwrites the first |
| LegacyServer.TemplateLabels | server/src/server.ts:52-59 | iterating the templates visits four distinct labels in that order |
| LegacyServer.SpawnOne | server/src/server.ts:66-83 | iteration i yields an item with id i and a position inside the map |
| LegacyServer.SpawnOneCopiesTemplate | server/src/server.ts:75-80 | a spawned item equals one of the four templates except for its id and position |
| LegacyServer.SpawnAll | server/src/server.ts:66-83 | one item per iteration, the j-th being iteration j's item |
| LegacyServer.SpawnGroundItems | server/src/server.ts:62-84 | between minItems and maxItems items, whose ids are 0..n-1 in pool order |
| LegacyServer.InitialState | server/src/server.ts:86 | the server starts with no session and 24 to 64 items, whose ids are 0..n-1 and so pairwise distinct |
| LegacyServer.InitialPickupOnce | server/src/server.ts:86-150 | on the starting pool, once a pickup of an id succeeds, picking that id up again changes nothing and announces nothing, and the ids left stay distinct |
| LegacyServer.Rename | server/src/server.ts:152-178 | see "LegacyServer.Rename in detail" below the table |
| LegacyServer.RenameDuplicateAccepted | server/src/server.ts:160-177 | counterexample: names "Bob" and "Игрок b" are distinct; after "b" renames to "Bob", two sessions are named "Bob", and the replies are "name taken" then "success" |
| LegacyServer.Step | server/src/server.ts:88-197 | only a connection adds a session |
| Inventories.Clear | client/src/entities/Inventory.ts:16-23 | after `clear()`: no items, a hotbar of two empty slots, no special item, three empty armour slots, and capacity 6 |
| Inventories.New | client/src/entities/Inventory.ts:11-14 | a new inventory is empty, with capacity 6 |
| Inventories.ClearForgets | client/src/entities/Inventory.ts:11-23 | clearing gives the new inventory whatever came before, so clearing is idempotent; a cleared inventory has room |
| Combat.Decide | client/src/entities/Player.ts:90-104 | see "Combat.Decide in detail" below the table |
| Combat.Fire | client/src/entities/Player.ts:171-185 | one round fewer and the shot's time recorded; nothing else changes |
| Combat.StartReload | client/src/entities/Player.ts:187-196 | the reloading flag goes up, and nothing else changes |
| Combat.FinishReload | client/src/entities/Player.ts:197-204 | a full magazine and the flag down; the timings are untouched |
| Combat.DecisionsKeepSound | client/src/entities/Player.ts:100-103 | a decided shot, a reload start and a completion all keep the ammunition in [0, maxAmmo] |
| Combat.MoveBy | client/src/entities/Player.ts:73-79 | zero input leaves the position. In every case the displacement is input times speed, so the non-zero guard does not change the outcome |
| Fighters.New | client/src/entities/Player.ts:18-37 | a new player has 10 of 10 rounds, 300 ms between shots, is not reloading, is alive and has 100 health |
| Fighters.Movement | client/src/entities/Player.ts:71-88 | moves by input times speed and always reports the new position, rotation and reload flag |
| Fighters.Shooting | client/src/entities/Player.ts:90-104 | nothing while reloading. A reload starts (and is reported) exactly when `Decide` says so. A shot happens only when decided and the socket has a non-empty id: one round fewer and the shot's time recorded, with every other field of the player and its gun unchanged, reported with the remaining count. Otherwise nothing |
| Fighters.ReloadComplete | client/src/entities/Player.ts:197-204 | a full magazine, the flag and the text down, and the completion reported; every other field of the player and its gun, `maxAmmo` and `lastFired` included, is unchanged |
| Fighters.SwitchingWeapons | client/src/entities/Player.ts:106-112 | slot 3 beats slot 2, which beats slot 1. With no slot key held nothing changes; only the active weapon ever changes |
| Fighters.OnCollideWithBullet | client/src/entities/Player.ts:114-134 | see "Fighters.OnCollideWithBullet in detail" below the table |
| Fighters.DeathReportedOnce | client/src/entities/Player.ts:120 | a dead player sends nothing and stays unchanged under any number of hits |
| Fighters.OnCollideWithItem | client/src/entities/Player.ts:136-145 | the item is stored and the pickup reported exactly when the player is local, the pickup key is held and the inventory has room; otherwise nothing |
| Fighters.PickupWithinCapacity | client/src/entities/Player.ts:141-144 | a pickup never takes the inventory past its capacity |
| Fighters.Respawn | client/src/entities/Player.ts:213-218 | at the given point, alive, with 100 health; nothing else changes |
| Fighters.Destroy | client/src/entities/Player.ts:220-225 | destroying a player empties the shared inventory |
| Fighters.InvariantHolds | client/src/entities/Player.ts:59-69 | over any sequence of frames, reload timers, hits, pickups and respawns: ammunition stays in [0, maxAmmo], maxAmmo never changes, and the inventory never exceeds capacity |
| Fighters.NewSatisfiesInvariant | client/src/entities/Player.ts:18-37 | a new player with a new inventory satisfies that invariant |
| Controllers.New | client/src/player-controller.ts:11-40 | the controller walks 3 per frame, allows a shot every 500 ms, reloads in 2000 ms, and starts with 10 of 10 rounds |
| Controllers.Movement | client/src/player-controller.ts:49-66 | moves by input times speed and always reports the position |
| Controllers.Shooting | client/src/player-controller.ts:68-82 | follows `Decide` with no socket check: every decided shot is fired and reported |
| Controllers.ReloadComplete | client/src/player-controller.ts:144-151 | a full magazine, the flag and the text down, the completion reported; every other field of the controller and its gun is unchanged |
| Controllers.Update | client/src/player-controller.ts:42-47 | the movement report comes first. Ammunition drops only by a shot: one round, at this frame's time |
| Controllers.ShotsSpendRounds | client/src/player-controller.ts:101-129 | over frames without reload completions, the magazine stays in [0, maxAmmo] and the shot reports sent equal the rounds spent |
| GameMaps.New | client/src/entities/GameMap.ts:16-23 | three empty registries and empty groups, with the shared inventory as given |
| GameMaps.Clear | client/src/entities/GameMap.ts:66-76 | `clear()` and `destroy()` empty bullets, players and ground items. The group destroys every player entity it holds, so the shared inventory is emptied when a player is registered or a displaced one lingers in the group, and kept otherwise |
| GameMaps.SpawnItem | client/src/entities/GameMap.ts:78-84 | the item is registered under its own id, and nothing else changes |
| GameMaps.AddPlayer | client/src/entities/GameMap.ts:86-91 | a new player entity is registered under the reported id and returned. An entity already under that id leaves the record but stays in the group |
| GameMaps.RemovePlayer | client/src/entities/GameMap.ts:93-99 | an unknown id changes nothing. A known id is unregistered, and the shared inventory is emptied |
| GameMaps.UpdatePlayerPosition | client/src/entities/GameMap.ts:101-107 | a known player gets the new position and rotation; an unknown id changes nothing |
| GameMaps.AddBullet | client/src/entities/GameMap.ts:109-113 | the bullet is registered under its shooter's id, so a shooter's newer bullet replaces the older entry |
| GameMaps.SetPlayerReloading | client/src/entities/GameMap.ts:115-120 | a known player's reload text follows the flag; an unknown id changes nothing |
| GameMaps.RemoveItem | client/src/entities/GameMap.ts:122-128 | the id is gone afterwards; an unknown id changes nothing |
| GameMaps.SpawnThenRemove | client/src/entities/GameMap.ts:122-128 | removing a freshly spawned item gives back the ground as it was for a new id |
| GameMaps.RemovingAnyPlayerEmptiesInventory | client/src/entities/GameMap.ts:93-99 | removing any player, remote or local, empties the one inventory all player entities share |
| GameMaps.ApplyKeepsValid | client/src/entities/GameMap.ts:78-128 | every registry operation keeps all three registries free of duplicate keys |
| GameMaps.ApplyAllKeepsValid | client/src/entities/GameMap.ts:66-128 | so does any sequence of them |
| ActionFeed.Initial | client/src/stores/map-data-store.ts:19-21 | no actions, and the counter at 1 |
| ActionFeed.NewAction | client/src/stores/map-data-store.ts:23-34 | the action takes the counter's value (its colour defaulting to 'text-red-600') and is appended after the earlier actions, which stay unchanged. The counter moves on by one, and the returned action is the appended one |
| ActionFeed.SetActions | client/src/stores/map-data-store.ts:22 | replaces the list and leaves the counter |
| ActionFeed.NewActionNumbered | client/src/stores/map-data-store.ts:27-32 | a new action keeps ids strictly increasing and below the counter |
| ActionFeed.SetActionsNumbered | client/src/stores/map-data-store.ts:22 | replacing the list with a filtered copy keeps that order |
| ActionFeed.FeedIdsUnique | client/src/stores/map-data-store.ts:19-34 | through any announcements and prunings, ids stay strictly increasing and unique, and the counter never goes back |
| StringGen.New | client/src/utils/string-generator.ts:5-8 | the default alphabet has 62 characters |
| StringGen.SetCharacters | client/src/utils/string-generator.ts:11-14 | the alphabet is replaced by the argument |
| StringGen.CharAt | client/src/utils/string-generator.ts:24 | `charAt` gives the character at an index inside the string, and the empty string outside it |
| StringGen.Generate | client/src/utils/string-generator.ts:17-27 | over a non-empty alphabet, n characters (none for negative n), the i-th chosen by the i-th draw, and all from the alphabet. Over the empty alphabet, the empty string |
| StringGen.GenerateMultiple | client/src/utils/string-generator.ts:30-38 | exactly c strings (none for negative c), each meeting the `generate(n)` contract for its own draws |
| StringGen.EveryStringReachable | client/src/utils/string-generator.ts:21-25 | every string over a non-empty alphabet is the output for some draws |
| Dialogs.Initial | client/src/ui/windows/dialog.tsx:45-48 | the dialog opens with `initialValue`, no flags and no error |
| Dialogs.ValidationError | client/src/ui/windows/dialog.tsx:58-66 | only a non-empty message from a given validation counts as an error |
| Dialogs.HandleSubmit | client/src/ui/windows/dialog.tsx:50-73 | a blank value sets 'Поле не может быть пустым'; a validation error becomes the error. Neither submits. The value is submitted exactly when neither applies, with loading on and the error cleared |
| Dialogs.OnResponse | client/src/ui/windows/dialog.tsx:74-94 | success raises the success flag. Failure shows the message or 'Произошла ошибка' and stops loading |
| Dialogs.OnConnectionError | client/src/ui/windows/dialog.tsx:95-99 | a rejected submission shows 'Ошибка соединения' and stops loading |
| Dialogs.OnSuccessTimeout | client/src/ui/windows/dialog.tsx:77-89 | the flags drop. With `onSuccessClose` that callback runs and the value stays; otherwise the value goes back to `initialValue` |
| Dialogs.HandleChange | client/src/ui/windows/dialog.tsx:102-106 | editing sets the value and clears any error |
| Dialogs.HandleKeyDown | client/src/ui/windows/dialog.tsx:108-126 | Enter submits. With keyboard input off, nothing else happens. Backspace drops the last character; named keys are ignored; a character key is appended |
| Dialogs.OnOpenChange | client/src/ui/windows/dialog.tsx:128-136 | closing resets value, error and success, and opening changes nothing |
| Dialogs.TypingAppends | client/src/ui/windows/dialog.tsx:118-125 | typing characters one key at a time appends exactly them |
| Dialogs.BackspaceUndoesKey | client/src/ui/windows/dialog.tsx:118-125 | Backspace undoes the character just typed |
| Dialogs.CloseForgetsTyping | client/src/ui/windows/dialog.tsx:128-136 | closing after any typing returns to the initial view |
| ChangeName.Initial | client/src/ui/windows/change-name.tsx:16-19 | an empty name, no flags and no error |
| ChangeName.HandleSave | client/src/ui/windows/change-name.tsx:21-46 | in order, a blank name, a name over 16 characters (untrimmed) and a missing socket set their error and emit nothing. The name is emitted exactly when none applies, as typed, with loading on |
| ChangeName.OnReply | client/src/ui/windows/change-name.tsx:46-63 | success raises the flag. Failure shows the server's message or 'Это имя уже занято' and stops loading |
| ChangeName.OnSuccessTimeout | client/src/ui/windows/change-name.tsx:51-57 | the flags drop, the window closes, and the name is cleared |
| ChangeName.HandleKey | client/src/ui/windows/change-name.tsx:73-89 | Enter saves, Backspace drops the last character, named keys are ignored, and a character key is appended |
| ChangeName.OnOpenChange | client/src/ui/windows/change-name.tsx:91-100 | closing clears the name, the error and the success flag |
| ChangeName.TypingAppends | client/src/ui/windows/change-name.tsx:87-88 | typing a run of character keys appends exactly those characters and changes nothing else in the window |
| ChangeName.TypingIsUncapped | client/src/ui/windows/change-name.tsx:21-46 | the field itself has no limit: a name typed past 16 characters is kept as typed, and saving it emits nothing |
| ChangeName.EmittedNamesPassServerCheck | client/src/ui/windows/change-name.tsx:23-46 | a name the window emits is never refused by the server as empty |

### Protocol.Dead in detail

- A sender without a session changes nothing.
- Otherwise the sender gets exactly one more death and a new position inside 1280 x 720. The rest of the sender's record is unchanged, except one more kill when the sender is its own killer.
- Sessions other than the sender and the killer are unchanged.
- If the killer has a session:
  - a killer other than the sender gets exactly one more kill, and the rest of its record is unchanged;
  - the death is announced to everyone with the killer's name.
- If the killer has no session, nothing is announced.

### LegacyServer.Rename in detail

- A blank name: one failure reply and no change.
- Otherwise, one "name taken" failure per session holding the name, followed by one more reply:
  - without a session: "not found" and no change;
  - with a session: "success", and the sender's name is set even when it is taken.

### Combat.Decide in detail

- Nothing happens while reloading.
- A reload starts exactly when reload is held and the magazine is not full.
- A shot happens exactly when all of these hold:
  - the player is not reloading;
  - no reload starts;
  - fire is held;
  - a round is left;
  - more than `fireRate` has passed since the last shot (a strict comparison).

### Fighters.OnCollideWithBullet in detail

- The player's own bullet passes through and is not destroyed.
- Any other bullet is destroyed.
- A remote or dead player is otherwise unaffected.
- On the local living player:
  - if health minus damage stays above 0, health becomes that value;
  - otherwise health is kept, the player is dead, and the death is reported with the bullet's owner as killer.

## Left out

- Transport and process setup: the HTTP/Socket.IO servers, CORS, ports and logging. Outbound messages are an abstract list with a target, and events are processed one at a time in arrival order.
- The sessions registry is a Dafny `map`. The JavaScript `Map`'s order is only visible through `Object.fromEntries` in the snapshot, and a plain object's key order is not part of the protocol.
- Protocol.Move takes the four typed fields of `PlayerMovementData`. The source spreads whatever object the client sends over the session, so an untyped client could also overwrite `name`, `kills` or `deaths`.
- Protocol.Dead: the broadcast carries the sender's updated session record. The model does not spell out the JavaScript object merge of `killerId`, session fields and `killerName`.
- The server-side `./ItemDatabase` that `server-elysia.ts` imports is not part of this model. `ElysiaServer` uses the client catalog in its place.
- Catalog.Item keeps id, label, name, icon, quantity, durability, rarity, position, kind and slot. The per-kind stat, effect, benefit and drawback blocks are not modelled. `{...template}` is a shallow copy, so an instance shares those blocks with its catalog template by reference.
- Catalog.GetItemByLabel: inherited `Object.prototype` properties (`ItemDatabase['toString']`) are not modelled. Spawning only uses `Object.keys`, so it never meets them.
- Floating point is modelled as `real`. Positions and times carry no rounding claims.
- Lengths are counted in Unicode scalar values, not UTF-16 code units. This affects the 16-character limit and the "named key" test `key.length > 1` for characters outside the Basic Multilingual Plane.
- Fighters.OnCollideWithBullet takes the bullet's damage as a parameter. `Bullet.ts` is not part of this model, and the `Bullet` class shown declares no `getDamage`.
- Health is the game store's value, which `Fighters` carries as a field.
- Not modelled, because they only draw or are rendering state:
  - rotation towards the pointer;
  - the reload text's position;
  - bullet sprites, their velocity and their 1500 ms expiry;
  - the Phaser groups inside `ObjectMap`, except that clearing a registry destroys every player entity in its group (see `GameMaps.Clear`); destroying bullets and ground items has no modelled effect;
  - the physics overlap wiring of `GameMap`.
- `ObjectMap.sort` and `ObjectMap.forEach` are left out. `forEach` visits entries in the order `MapEntries` states.
- GameMaps: each registered player entity carries a snapshot of the shared inventory, taken when it was registered. The registry's operations read and write the shared one, `GameMap.inventory`, and the snapshots are not kept in sync with it.
- GameMaps.SpawnItem registers the catalog item itself under its id. The `GroundItem` sprite its constructor would build, from a call that does not match that constructor's signature, is not modelled.
- The player entity's `kills`, `deaths`, `score` and `armor` fields are never read or written by the modelled code, and are left out.
- Dialogs: the submission promise is split into the value handed to `onSubmit` and the later `OnResponse` or `OnConnectionError`. `handleChange` and `handleKeyDown` are modelled as separate handlers; how a browser orders their effects for one keystroke is not modelled.
- Dialogs: the input's `maxLength` (16 by default) and `disabled={isLoading}` attributes, which limit which browser events reach the handlers, are not modelled. `HandleKeyDown` therefore also accepts keys, Enter included, while a submission is loading, which the disabled input never delivers; the model is more permissive than the page.
- ChangeName: the network store's socket is reduced to whether it exists and is connected.
- StringGen.New: states the alphabet's length, 62, but not as a proved fact that it is exactly the ASCII letters and digits.
- ElysiaServer.RunKeepsNamesDistinct: holds for traces without connections. A connection's placeholder "Игрок " + id can equal a name chosen earlier, as `StepKeepsNamesDistinct` states in its side condition.
- StringGen.EveryStringReachable: stated for a non-empty alphabet; over the empty alphabet `Generate` returns only the empty string.

## Findings

| source | as written | input that shows it | evidently intended | confidence | as-written member | corrected member |
|---|---|---|---|---|---|---|
| server/src/server.ts:160-177 | the `return` inside the `players.forEach` callback ends only the callback. A taken name gets a failure acknowledgement, and the handler then renames the sender and acknowledges success | sessions a named "Bob" and b named "Игрок b"; b sends `playerRename("Bob")` | refuse a name some session holds and change nothing, as `server-elysia.ts` does with `for … of` | high, not executed | LegacyServer.Rename, LegacyServer.RenameDuplicateAccepted | ElysiaServer.Rename, ElysiaServer.RenameKeepsNamesDistinct |
| server/src/server-elysia.ts:37-52 | every item's id is `Date.now() + Math.floor(Math.random() * 1000)`, and the loop draws 64 to 128 of them in one go, so they usually fall in the same millisecond. That leaves 1000 possible ids for up to 128 items, and two items share an id with high probability. A pickup then takes only the first item with the id, and the same id can be picked up again. The id formula is that of the client's `createItemInstance`, which stands in for the server's own catalog module | two iterations with the same `Date.now()` and the same jitter draw; the pool holds both items, and the id is picked up twice | every item on the ground has its own id, so an id is picked up at most once, as in `server.ts`, which numbers items by loop index | medium, not executed | ElysiaServer.SameMillisecondSameId, ElysiaServer.DuplicateIdPickedTwice | LegacyServer.InitialState, LegacyServer.InitialPickupOnce, Protocol.PickupTwice |
