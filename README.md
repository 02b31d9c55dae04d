# A verified model of the ECS core and the multiplayer server tick

This project models the core of a small Python game: an entity–component store
(a `World`), the player factory, the movement and input systems that run over
it, and the tick of the multiplayer server that builds on them. It is written
in Dafny and proves properties of that model.

- **Store.** A world holds two things: a counter that hands out entity ids, and
  one table per component kind mapping entity ids to components.
  - `Ecs.World` is the shared version, with `destroy_entity`.
  - `LegacyEcs.World` is the earlier version, without it.
  - Both are classes whose methods update `next` and `tables` in place.
  - The module `Store` gives the value-level meaning of those tables:
    - `Lookup` is `get_component`.
    - `Insert` is `add_component`.
    - `RemoveEntity` is `destroy_entity`.
    - `Query` is `get_components`.
    - `Collect` is the `get_components` algorithm itself.
  - A table that was never created is kept apart from one that is present but
    empty, as in the source.
- **Player factories.** `PlayerFactory` has the seven-component bundle with
  `Health`. `LegacyPlayerFactory` has the earlier six-component bundle. Each
  `CreatePlayer` makes one `create_entity` call and then one `add_component`
  call per component, in source order.
- **Systems.** `Movement`, `InputSystem` and `LegacyInputSystem` are loops over
  a query. Each loop writes updated components back into the world.
  - Each is proved equal to a specification function on the tables: `Moved`,
    `Controlled` or `Steered`.
  - The held keys are a `set<Key>` parameter.
- **Server.** `Server.ServerState` is a class. It keeps the world, the client
  registry (player id, entity, receive buffer) and the player-id counter.
  - `Tick` runs the server loop's body in order:
    1. accept;
    2. receive, split into lines and dispatch;
    3. reap the closed connections;
    4. move;
    5. snapshot;
    6. send the one state payload to every client;
    7. reap the failed sends.
  - Newline framing (`Framing`) is specified by `Lines` and `Remainder`.
  - What the operating system and the JSON codec would report comes in as
    parameters:
    - whether a connection is waiting;
    - what each client's `recv` returns;
    - how a line decodes;
    - which sends fail.

The registry invariant `ServerState.Valid` is preserved by every step:
- ids and entities increase along the registry;
- ids lie in `1 .. nextPlayerId-1`;
- every registered entity holds a Position and an Input, so the snapshot has
  exactly one entry per client.

A malformed line is not dropped. Several steps at server/server_main.py:115-119 can raise:
- `line.decode("utf-8")` raises `UnicodeDecodeError` on bytes that are not UTF-8;
- `json.loads` raises `ValueError` on text that is not JSON;
- `.get` on a JSON value that is not an object raises `AttributeError`;
- `float(...)` raises `ValueError` on a non-numeric string, and `TypeError` on
  `null`, a list or an object.

The `except` clauses at server/server_main.py:125-137 catch none of these
exceptions, so any of them ends the server. The model reports this as
`crashed` and says nothing about the state afterwards.

## Model

| member | source | states |
|---|---|---|
| Ecs.World.constructor | shared/ecs.py:58-60 | a new world has counter 0 and no table at all |
| Ecs.World.CreateEntity | shared/ecs.py:63-66 | returns the old counter and advances it by exactly one; the tables are untouched |
| Ecs.World.AddComponent | shared/ecs.py:68-72 | the new tables are `Insert(old tables, e, c)` and every stored component stays in its own kind's table |
| Store.LookupInsert | shared/ecs.py:68-75 | after add_component(e, c), get_component(e, kind(c)) is c, overwriting any earlier one; every other (entity, kind) reads as before |
| Store.InsertKeys | shared/ecs.py:70-71 | add_component creates the kind's table when it is missing, and no other table |
| Store.InsertKeepsEntries | shared/ecs.py:68-72 | add_component never removes an entry |
| Store.InsertCommute | shared/ecs.py:68-72 | two add_component calls of different kinds on one entity commute |
| Ecs.World.GetComponent | shared/ecs.py:74-75 | absent exactly when the kind has no table or the entity no entry; otherwise the stored component, of the requested kind; a function, so it changes nothing |
| Store.Lookup | shared/ecs.py:74-75 | present exactly when the table exists and holds the entity; in a well-kinded store the result has the requested kind |
| Ecs.World.GetComponents | shared/ecs.py:77-98 | changes nothing (no modifies clause) and returns `Query(tables, kinds)`, each row as long as the kind list |
| Store.Collect | shared/ecs.py:77-98 | the loop algorithm (give up on no kinds or a missing/empty table, intersect the key sets, gather rows) returns exactly the entities holding every kind, each with its row in request order, and equals `Query` |
| Store.QueryNoKinds | shared/ecs.py:79-80 | get_components with no kinds yields nothing |
| Store.QueryMissingOrEmpty | shared/ecs.py:84-87 | a missing or empty table among the requested kinds yields nothing |
| Store.QueryMembers | shared/ecs.py:90-98 | an entity is yielded iff kinds are given and it has every requested kind; its row holds, in request order, what get_component returns |
| Store.QueryRowKind | shared/ecs.py:94-98 | in a well-kinded store the i-th component of a row has the i-th requested kind |
| Ecs.World.DestroyEntity | shared/ecs.py:100-102 | the new tables are `RemoveEntity(old tables, e)`; the counter and the set of tables are kept |
| Store.LookupRemove | shared/ecs.py:100-102 | after destroy_entity(e) nothing is found on e; every other entity reads as before |
| Store.RemoveIdempotent | shared/ecs.py:100-102 | a second destroy_entity of the same entity changes nothing |
| Store.RemoveEntity | shared/ecs.py:100-102 | destroy_entity keeps every table, including emptied ones, and keeps the store well-kinded |
| Ecs.IdsAreNotReissued | shared/ecs.py:59-66 | create, destroy, create returns ids 0 and then 1: a destroyed id is not handed out again |
| LegacyEcs.World.constructor | src/ecs.py:38-40 | a new earlier world has counter 0 and no table |
| LegacyEcs.World.CreateEntity | src/ecs.py:43-46 | returns the old counter and advances it by one |
| LegacyEcs.World.AddComponent | src/ecs.py:48-52 | inserts or overwrites; no entry present before is lost, and get_component then returns the added value |
| LegacyEcs.World.GetComponent | src/ecs.py:54-55 | absent exactly for a missing table or entry, otherwise the stored component of that kind |
| LegacyEcs.World.GetComponents | src/ecs.py:57-78 | read-only; the rows of exactly the entities holding every requested kind, in request order |
| PlayerFactory.CreatePlayer | shared/player.py:14-28 | returns the id create_entity allocated, advances the counter by one, and the new tables are the old ones plus the seven-component bundle added to that entity in order |
| PlayerFactory.PlayerHoldsBundle | shared/player.py:20-26 | the new entity holds Position(x, y), Velocity(0, 0), Renderable(32, 32, color), PlayerControlled, Input(0, 0), Player(id) and Health(100, 100) |
| PlayerFactory.PlayerLeavesOthers | shared/player.py:18-26 | no other entity's components change |
| PlayerFactory.PlayerIsMovable | shared/player.py:20-24 | the new entity matches the Position/Velocity/Input query |
| PlayerFactory.CreateDefaultPlayer | shared/player.py:15 | without a colour the player is drawn (0, 200, 0) |
| PlayerFactory.PlayerBundleDistinct | shared/player.py:20-26 | the bundle's seven components have pairwise distinct kinds, so none overwrites another |
| LegacyPlayerFactory.CreatePlayer | src/player.py:5-18 | returns the fresh id, advances the counter by one, and adds the six-component bundle in order |
| LegacyPlayerFactory.LegacyPlayerHoldsBundle | src/player.py:11-16 | the new entity holds Position, Velocity(0, 0), Renderable(32, 32, color), PlayerControlled, Input() and Player(id), and its Health entry is what it was before |
| LegacyPlayerFactory.LegacyBundleHasNoHealth | src/player.py:11-16 | the earlier bundle carries no Health |
| LegacyPlayerFactory.LegacyPlayerLeavesOthers | src/player.py:9-16 | other entities' components are unchanged |
| Movement.MovementSystem | shared/systems/movement_system.py:6-16 | the loop over the query leaves exactly `Moved(old tables, dt)`, keeping the counter |
| Movement.MoveEntity | shared/systems/movement_system.py:12-16 | one entity's step writes its new velocity and then its new position, extending the handled set by that entity |
| Movement.MovedEffect | shared/systems/movement_system.py:7-16 | every entity with Position, Velocity and Input ends with velocity (move_x·200, move_y·200) and position moved by (move_x·200·dt, move_y·200·dt) |
| Movement.LookupMoved | shared/systems/movement_system.py:9-16 | after the run a movable entity reads its new velocity and position, every other entry reads as before, and no table appears or disappears |
| Movement.MovedFrame | shared/systems/movement_system.py:9-16 | entities lacking one of the three kinds are untouched, and no kind but Velocity and Position is written, so Input never changes |
| Movement.VelocityIgnored | shared/systems/movement_system.py:12-13 | replacing a movable entity's velocity beforehand gives the same store after the run: the velocity is overwritten, not accumulated |
| Movement.ZeroIntentStays | shared/systems/movement_system.py:12-16 | zero intent leaves the position unchanged |
| Movement.MovedKeepsEntries | shared/systems/movement_system.py:9-16 | the run removes no entry |
| Movement.QueryMembersMovable | shared/systems/movement_system.py:9-11 | the query yields exactly the entities holding Position, Velocity and Input |
| InputSystem.InputSystem | shared/systems/input_system.py:7-42 | the loop over the query leaves exactly `Controlled(old tables, keys)`, keeping the counter |
| InputSystem.ControlEntity | shared/systems/input_system.py:16-42 | one entity's turn writes its player's intent into its Input, extending the handled set by that entity; the counter is kept |
| InputSystem.ReadIntent | shared/systems/input_system.py:16-39 | the sequential key tests compute `Intent(id, keys)` |
| InputSystem.AxisCases | shared/systems/input_system.py:19-28 | an axis is +1 iff its positive key is held, -1 iff only its negative key is, 0 iff neither |
| InputSystem.PlayerOneKeys | shared/systems/input_system.py:19-28 | player 1 reads WASD: W gives -1 and S +1 on y, A -1 and D +1 on x, with S beating W and D beating A |
| InputSystem.PlayerTwoKeys | shared/systems/input_system.py:30-39 | player 2 reads the arrows, with Down beating Up and Right beating Left |
| InputSystem.PlayersIgnoreTheOtherKeys | shared/systems/input_system.py:19-39 | player 2 ignores WASD and player 1 ignores the arrows |
| InputSystem.OtherIdsRest | shared/systems/input_system.py:16-17 | any other player id gets (0, 0) whatever is held |
| InputSystem.IntentIsUnit | shared/systems/input_system.py:16-39 | every written value is -1, 0 or 1 |
| InputSystem.LookupControlled | shared/systems/input_system.py:12-14 | after the run a controllable entity reads its player's intent, every other entry reads as before, and no table is created |
| InputSystem.ControlledFrame | shared/systems/input_system.py:12-14 | only the Input of entities holding Input, PlayerControlled and Player is written |
| InputSystem.InputOverwritten | shared/systems/input_system.py:41-42 | the previous Input plays no part: it is overwritten wholesale |
| InputSystem.QueryMembersControllable | shared/systems/input_system.py:12-14 | the query yields exactly the entities holding Input, PlayerControlled and Player |
| LegacyInputSystem.LegacyInputSystem | src/systems/input_system.py:7-26 | the loop leaves exactly `Steered(old tables, keys)` on the earlier world |
| LegacyInputSystem.ReadSharedIntent | src/systems/input_system.py:12-22 | the sequential key tests compute `SharedIntent(keys)` |
| LegacyInputSystem.SharedVertical | src/systems/input_system.py:15-18 | W or Up gives -1 and S or Down +1 on y, the latter winning |
| LegacyInputSystem.SharedHorizontal | src/systems/input_system.py:19-22 | A or Left gives -1 and D or Right +1 on x, the latter winning |
| LegacyInputSystem.NoKeysRest | src/systems/input_system.py:12-13 | with no key held the intent is (0, 0) |
| LegacyInputSystem.SameIntentForAll | src/systems/input_system.py:24-26 | every entity holding Input and PlayerControlled receives the same intent |
| LegacyInputSystem.LookupSteered | src/systems/input_system.py:24-26 | a steerable entity reads the shared intent; every other entry reads as before |
| LegacyInputSystem.SteeredFrame | src/systems/input_system.py:24 | entities lacking either kind, and every kind but Input, are unchanged |
| Framing.FramingLossless | server/server_main.py:109-112 | the extracted lines, each followed by a newline, then the remaining buffer, are the old buffer plus the received data |
| Framing.RemainderHasNoNewline | server/server_main.py:111-112 | the buffer left after the split loop holds no newline |
| Framing.LinesHaveNoNewline | server/server_main.py:111-112 | no extracted line holds a newline |
| Framing.JoinThenFrame | server/server_main.py:109-112 | framing inverts joining: newline-free lines and tail come back out as they went in |
| Framing.FirstNewlineFrom | server/server_main.py:111-112 | the first newline at or after position i, or the length when there is none: every byte before it is not a newline |
| Framing.FirstNewline | server/server_main.py:111-112 | the split point of `split(b"\n", 1)`: the index of the first newline, or the length exactly when the buffer holds none |
| Framing.SplitFirst | server/server_main.py:112 | splitting at the first newline gives the head as the next line and frames on from the rest |
| Server.SpawnSeparates | server/server_main.py:66 | a later id spawns at least 100 further right, so distinct ids spawn at distinct x |
| Server.GreenOnlyForFirst | server/server_main.py:69 | the colour is green iff the id is 1, and red otherwise |
| Server.Dispatch | server/server_main.py:115-123 | an undecodable line crashes; an input message overwrites the entity's Input (fields defaulting to 0.0) when it has one; any other message changes nothing |
| Server.Drain | server/server_main.py:111-123 | the split-and-dispatch loop crashes iff some non-empty line is undecodable; otherwise it leaves `Remainder(buffer)` and applies the lines in order, skipping empty ones |
| Server.ApplyLinesEffect | server/server_main.py:113-123 | dispatching a client's lines writes only that client's entity's Input, only when it has one, and leaves it at the last input message's values |
| Server.ReceiveFrom | server/server_main.py:100-137 | an empty recv or a recv error marks the client closed; data is appended, framed and dispatched; it crashes iff a line is undecodable |
| Server.DispatchedFrame | server/server_main.py:96-123 | the receive pass writes no entity outside the registry and no kind but Input |
| Server.DispatchedOwn | server/server_main.py:96-123 | each client's Input is written only by that client's own lines |
| Server.DisconnectedExact | server/server_main.py:102-107 | exactly the clients whose recv reported closed or failed are marked for removal: every such client is marked, and every marked id is a registered client's with a closed or failed recv |
| Server.IndexOf | server/server_main.py:145-146 | `client in clients`: finds the position of the client with that id, or none exactly when no registered client has it |
| Server.RemoveAll | server/server_main.py:140-146 | the removal loop returns the registry without every marked id, order kept |
| Server.WithoutMembers | server/server_main.py:140-146 | a client survives reaping iff it was registered and its id was not marked |
| Server.WithoutIncreasing | server/server_main.py:140-146 | reaping keeps ids and entities increasing, so relative order is kept |
| Server.RemoveIsWithout | server/server_main.py:145-146 | `clients.remove` of the one client with an id is reaping that id |
| Server.ReapedNotGone | server/server_main.py:140-146 | after the first reap no registered client has a closed or failed recv |
| Server.FailedSendsExact | server/server_main.py:168-180 | exactly the clients whose send fails are marked: every such client is marked, and every marked id is a registered client's whose send failed |
| Server.ReapedNotFailed | server/server_main.py:182-188 | after the second reap no registered client had a failed send |
| Server.SnapshotPerClient | server/server_main.py:155-161 | when every client's entity has a Position, the snapshot has one entry per client, in registry order, with its id and its position |
| Server.MovedRegistered | server/server_main.py:152 | the movement step keeps the registry invariant |
| Server.ServerState.constructor | server/server_main.py:34-38 | a fresh world, an empty registry and id counter 1 |
| Server.ServerState.Accept | server/server_main.py:62-82 | the id is the counter, which advances by one; the player spawns at (200 + (id-1)·100, 300), green for id 1 and red otherwise; the client is appended with an empty buffer; the invariant is kept |
| Server.ServerState.ReceiveAll | server/server_main.py:93-137 | crashes iff some client's new data holds an undecodable line; otherwise buffers become the framing remainders, the store is `Dispatched`, and the closed clients are listed in registry order |
| Server.ServerState.Reap | server/server_main.py:139-146 | the registry becomes `Without(old, marked ids)`; the world is not touched, so no entity is destroyed |
| Server.ServerState.BuildSnapshot | server/server_main.py:154-161 | the entries equal `Snapshot(clients, tables)` |
| Server.ServerState.Broadcast | server/server_main.py:166-180 | one delivery of the same payload to each registered client, in order, and the failed sends are the marked ones |
| Server.ServerState.SendAll | server/server_main.py:166-188 | every client registered before the send receives the payload, in order; the registry becomes exactly the old one without the clients whose send failed, order kept |
| Server.ServerState.Advance | server/server_main.py:151-164 | the store moves by one step of 1/60 and the counter is kept; the payload is the snapshot after the move, one entry per registered client, in order, with its id |
| Server.ServerState.Publish | server/server_main.py:151-188 | the store moves by one step of 1/60; the payload holds one entry per client, in order; each delivery carries that payload; the registry becomes the old one without the clients whose send failed |
| Server.ServerState.Tick | server/server_main.py:51-188 | the player-id and entity counters advance iff a connection was waiting; crashes iff an undecodable line arrives, and then nothing is sent. Otherwise: the store is the accepted store, dispatched client by client, then moved by 1/60. The payload is the snapshot of the clients left after the first reap, one entry each, in order, and each of them receives it. The registry is those clients without the ones whose send failed |
| Server.TickSurvivors | server/server_main.py:93-188 | a client is registered at the end of a tick iff it was registered after accept, its recv neither closed nor failed, and its send did not fail; it keeps its refreshed buffer |

## Left out

- Sockets are not modelled: non-blocking accept, recv, sendall and close, the 4096-byte recv limit, and `BlockingIOError`. Whether a connection waits, each client's recv outcome, and which sends fail are parameters of `Tick`.
- The welcome message after accept is not modelled. Its send outcome is only logged and changes no state.
- The console thread and the `SERVER_RUNNING` flag, with the break at server/server_main.py:148-149, are not modelled. The model runs the whole tick body.
- Tick pacing with `time.time` and `time.sleep` is not modelled. The step is the constant `Dt = 1/60`.
- JSON encoding and decoding are not modelled. A line's decoding is a function parameter returning an input message, another message or an error. The state payload is a datatype value, not bytes.
- The decode failures listed above are all folded into "undecodable": undecodable UTF-8, invalid JSON, a value that is not an object, and a `float(...)` that raises `ValueError` or `TypeError`.
- Server.ServerState.ReceiveAll: after a crash the model does not say what the state is, because the uncaught exception ends the server.
- Server.Drain: after a crash the model does not say what the state is, for the same reason.
- Registry membership in the source compares whole client dictionaries. The model compares player ids, which are unique in the registry by its invariant.
- Floating point is modelled as `real`: positions, velocities, intents and `dt` are exact reals, not IEEE doubles.
- `pygame.key.get_pressed()` is modelled as a `set<Key>` parameter.
- Rendering and the pygame clients are not part of this model.
- get_components yields rows in Python set-iteration order. The model returns a map from entity to row, which keeps "each entity once, row in request order" but not the yield order.
- Systems in the source mutate the component objects a query hands out. The model writes the updated value back with `AddComponent`, which has the same effect on the store.
- The source's imports do not resolve as written. shared/player.py imports `Health`. src/player.py imports `Input` and `Player`, and src/systems/input_system.py:4 imports `Input`, from src/ecs.py, which defines neither. The model declares those components with the shapes their call sites use.
