# distrain-tracker device registry, in Dafny

This project models the core of the distrain-tracker WebSocket server. Worker devices
connect over WebSockets. The server keeps their records in a graph database (DEVICE and
TASK nodes, WORKS_ON and WORKS_WITH relationships) and their status in a Redis cache.
It also keeps the live socket of each device, and answers the few messages the devices
send.

The external stores are in-memory Dafny state:

- `Store.Graph` is the graph database. DEVICE and TASK nodes are sequences in creation
  order. Relationships are sequences of endpoint ids in creation order. `MATCH ... {id}`
  finds every node with that id. `CREATE` never merges nodes. A relationship is created
  once for every matched pair of endpoint nodes.
- `Devices.DeviceRepository` holds the Redis cache as a map, the `socketStore` as a map
  from device id to a socket or null, and the public `devices` list.
- `Base.Socket` is a WebSocket reduced to its outbox, the list of `{type, data}`
  envelopes sent on it.

A store or cache operation that can fail takes a `storeFails` or `cacheFails` flag as a
parameter. A failed write leaves the state unchanged, and a failed read returns what the
source's `catch` returns. The clock (`new Date()`) and the uuid generator are also
parameters (`now`, `freshId`). `JSON.parse` is a parameter too (`parsed`, which is None
when the parse throws).

Modules, one per source component:

- `EditString`: `_makeEditString`.
- `Devices`: both revisions of `DeviceRepository`. The `src/common` revision is the one
  `src/index.ts` uses. The `src/device` revision behaves the same on every operation the
  two share, and adds the WORKS_ON/WORKS_WITH operations, `getAllDevices` and
  `resetAllDevicesStatus`. One class models both.
- `Tasks`: `TaskRepository`.
- `Messages`: `MessageFactory`, `JoinMessage` and `WorkMessage`. The messages are a closed
  tagged union that holds the socket and data each was built with.
- `Server`: the `connection` handler of `src/index.ts` and its listeners.
- `LegacyServer`: the older `dist/index.js` server with its `connected_devices` list.
- `Seqs` and `Base`: shared helpers (filter, JSON values, envelopes, sockets).

Behaviour worth stating plainly:

- `getMinTask` does not filter by status. It may return an ongoing task.
- Resuming a known device id does not change the stored address.
- Resuming with a supplied id that no record has creates no record. The cache still
  says idle (unless its write fails) and the socket is still registered under the id.
- The code contains no scheduler, task matching, ranks or peer lists.
  `makeDevicesMesh` adds edges from one source only.
- The source does not keep "socket is null exactly when the status is disconnected" as
  an invariant. The model proves it for the cache entry only, after a connection or a
  disconnect whose cache write succeeded (`CacheMatchesSocket`).
- A reconnect is not safe against a late close. If a device reconnects with its id on
  a new socket and the old socket's `close` then fires, `disconnectDevice` runs for
  that id: the socket entry of the new connection becomes null and the cache says
  disconnected. `Server.OnConnection` followed by `Server.OnSocketEvent` on the old
  session's socket gives exactly this state.

## Model

| member | source | states |
|---|---|---|
| EditString.EditStringIsJoin | src/device/DeviceRepository.ts:48-58 | The reduce returns "" when no entry survives the filter. Otherwise it returns "SET " + `v.k = $k` for each kept key, in entry order, joined by ", " with no comma after the last, plus one trailing blank |
| EditString.EditStringEmptyIff | src/common/DeviceRepository.ts:51-61 | The result is "" exactly when every entry is `id` or undefined (both directions). A non-empty result begins with "SET " |
| EditString.KeptKeys | src/common/DeviceRepository.ts:54 | An entry is kept exactly when it is in the object, its key is not `id` and its value is defined |
| Devices.KeptOfPatch | src/device/DeviceRepository.ts:113 | For a `Partial<Device>`, the kept entries are address, status and last_login, each exactly when defined, in that order. `id` is never kept |
| Devices.EditStringOfPatch | src/device/DeviceRepository.ts:113-116 | The string `_makeEditString(device, 'd')` puts into the update query is "" when no key is edited, and otherwise "SET " followed by `d.k = $k` for each edited key, in order, joined by ", ", plus a trailing blank. So the clause the query runs assigns exactly the keys of `EditedKeys` |
| Devices.EditedKeysOfPatch | src/common/DeviceRepository.ts:94 | The keys the generated SET clause assigns (by `EditStringOfPatch`) are exactly the defined fields other than id, in field order |
| Devices.UpdateWritesPatchedFieldsOnly | src/device/DeviceRepository.ts:110-116 | Running the generated SET clause (its keys are `EditedKeys`, by `EditStringOfPatch`) with the parameter object `{...device, last_login}` writes exactly the fields the patch defines. It never writes id. It does not write the defaulted last_login unless the patch carries one |
| Devices.DeviceRepository.UpdateDevice | src/common/DeviceRepository.ts:87-105 | Every node whose id is the patch's id gets exactly the patch's defined fields. Other nodes are unchanged. A failed write, or a patch without an id, changes nothing |
| Devices.DeviceRepository.constructor | src/common/DeviceRepository.ts:26-38 | Starts with an empty socket map, an empty `devices` list and the cache's current content |
| Devices.DeviceRepository.CreateDevice | src/common/DeviceRepository.ts:63-85 | The node is stored, and the device is pushed onto `devices` only when the write succeeds. On failure neither changes |
| Devices.DeviceRepository.GetAllDevices | src/device/DeviceRepository.ts:84-105 | Returns every DEVICE node, or [] when the read fails |
| Devices.DeviceRepository.SetStatus | src/common/DeviceRepository.ts:107-117 | The cache maps the key to the value, unless the write fails |
| Devices.DeviceRepository.GetStatus | src/common/DeviceRepository.ts:119-129 | Returns the cached status. Returns null when the read fails or the key is absent |
| Devices.DeviceRepository.GetNIdleDevices | src/device/DeviceRepository.ts:153-170 | Returns at most n devices, all idle and all stored: the first min(n, #idle) idle nodes. Returns [] when the read fails or n is negative |
| Devices.DeviceRepository.ConnectDeviceToTask | src/device/DeviceRepository.ts:172-183 | Adds one WORKS_ON {number} edge per matched device/task node pair. That is exactly one edge when each id names one node. Nothing else changes |
| Devices.UnlinkedRemovesPairOnly | src/device/DeviceRepository.ts:188 | After deletion, no WORKS_ON edge from the device to the task remains. Every other edge keeps its multiplicity. Deleting undoes any number of `connectDeviceToTask` calls for that pair |
| Devices.DeviceRepository.DisconnectDeviceFromTask | src/device/DeviceRepository.ts:185-194 | The WORKS_ON edges become `Unlinked(old, device, task)`, or stay unchanged when the write fails |
| Devices.MeshWrite | src/device/DeviceRepository.ts:201-208 | A single mesh write creates only source→destination edges tagged with the task. A failed write creates none. When both ids name exactly one node, it creates exactly one edge |
| Devices.MeshEdges | src/device/DeviceRepository.ts:199-212 | Every WORKS_WITH edge the mesh creates goes from the source, is tagged with the task, and points to one of `otherDevicesId` |
| Devices.MeshOneEdgePerDevice | src/device/DeviceRepository.ts:196-210 | When every id names one node and no write fails, the mesh adds exactly one edge source→d per d, in order. So the edge count grows by exactly \|otherDevicesId\| |
| Devices.DeviceRepository.MakeDevicesMesh | src/device/DeviceRepository.ts:196-218 | The loop over `otherDevicesId` appends `MeshEdges(...)` to WORKS_WITH and changes nothing else |
| Devices.DeviceRepository.ResetAllDevicesStatus | src/device/DeviceRepository.ts:221-236 | Every DEVICE node's status becomes disconnected and its other fields are kept. The cache is untouched. A failed write changes nothing |
| Devices.DeviceRepository.GetSocket | src/common/DeviceRepository.ts:155-158 | Returns undefined for an unregistered id, and otherwise the stored socket or null |
| Devices.DeviceRepository.SetSocket | src/common/DeviceRepository.ts:150-153 | Afterwards `getSocket(id)` returns s, and every other id's entry is unchanged |
| Devices.DeviceRepository.DisconnectDevice | src/device/DeviceRepository.ts:248-255 | Every node with the id gets status disconnected, with last_login not written. The cache says disconnected. The socket entry becomes null, so `getSocket(id)` returns null. Each store write is lost only if it fails |
| Tasks.MinTask | src/task/TaskRepository.ts:55-57 | Returns None exactly for an empty table. Otherwise it returns a stored task whose devices_count is ≤ every stored task's |
| Tasks.MinTaskIgnoresStatus | src/task/TaskRepository.ts:55 | An ongoing task with fewer devices is chosen over a new one: there is no status filter |
| Tasks.TaskRepository.constructor | src/task/TaskRepository.ts:18-20 | The repository works on the given graph store, which stands for the database client it opens |
| Tasks.TaskRepository.GetMinTask | src/task/TaskRepository.ts:51-63 | Returns null exactly when the read fails or the table is empty (`records[0]` throws). Otherwise it returns a stored task with minimal devices_count, whatever its status |
| Tasks.TaskRepository.AddTask | src/task/TaskRepository.ts:22-37 | Appends a node with the task's id, devices_count, params, status, dataType, dataTypeParams and multipleFiles. The error is swallowed and a failed write changes nothing |
| Tasks.TaskRepository.UpdateTask | src/task/TaskRepository.ts:39-49 | Only the status of the nodes with the given id changes. A failed write changes nothing |
| Messages.CreateMessageSpec | src/message/MessageFactory.ts:7-31 | A message is built exactly for type "join" or "work". It is then always a JoinMessage, bound to the given socket and carrying `body`. Any other type, an unparseable input or a null input gives null without throwing |
| Messages.HandleJoin | src/message/JoinMessage.ts:8-15 | Sends exactly one envelope, on the socket given at construction. Its type is "deviceId" and its data is "", whatever the message's data |
| Messages.Handle | src/index.ts:46 | `msgInstance?.handle()` dispatches on the message's class: a JoinMessage sends one `{deviceId, ""}` envelope and a WorkMessage one `{work, data}` envelope, each on the message's own socket |
| Messages.HandleWork | src/message/WorkMessage.ts:6-14 | Sends exactly one envelope, on its own socket. Its type is "work" and its data is the constructor's data, unchanged and unchecked |
| Server.OnConnection | src/index.ts:18-42 | Mints the fresh id exactly when `x-device-id` is "", null or undefined. A new id gets an idle record with the given address (unless the store write fails) and exactly one `{deviceId, id}` reply, sent either way. A known id is set idle with a new last_login (unless the store write fails), keeps its address and gets no reply. Afterwards the cache says idle unless the cache write fails, and the socket map always holds this socket |
| Server.OnMessage | src/index.ts:44-47 | A "join" or "work" message gets one `{deviceId, ""}` reply. Anything for which the factory returns null gets no handler call and no reply |
| Server.OnSocketEvent | src/index.ts:49-58 | Both close and error run `disconnectDevice` for the connection's id: every record with the id gets status disconnected unless the store write fails, the cache says disconnected unless the cache write fails, and the socket entry is always null |
| LegacyServer.NewDevice | dist/index.js:14-23 | A new record has the fresh id and the socket, offer/answer null, offer_done/answer_done false, role "" and no ices |
| LegacyServer.Server.constructor | dist/index.js:8 | The server starts with an empty `connected_devices` list |
| LegacyServer.Server.OnConnection | dist/index.js:12-26 | Appends exactly one new record, leaves the existing records unchanged, sends the id with type 'id-', and returns the record the connection's listeners close over |
| LegacyServer.WithoutSpec | dist/index.js:37 | The filter removes every record with the id and keeps every other record as often as before. It preserves order, because filtering a concatenation filters each part |
| LegacyServer.ConnectThenClose | dist/index.js:25-37 | When no other record has the fresh id, connecting and then closing leaves the list as it was |
| LegacyServer.Server.OnEvent | dist/index.js:27-42 | Close filters out every record with the id of the connection's own record. A message, whose listener throws before its switch, and an error leave the list unchanged |

## Left out

- Neo4j and Redis clients, sessions and connection set-up (`_connect`, `DBClient`, `MemoryStorage`) are in-memory state here. A store failure is a flag that leaves the state unchanged.
- Asynchrony and concurrency are not modelled. The un-awaited `updateDevice` in the connection handler and the un-awaited writes inside `makeDevicesMesh`'s `forEach` run in order. A failed mesh write is an unhandled promise rejection in the source, and here it is only a write with no effect.
- Devices.DeviceRepository.UpdateDevice: a patch without an id is modelled as changing nothing. The query then lacks its `$id` parameter, which the database rejects or matches nothing for.
- Devices.DeviceRepository.GetNIdleDevices: returns the first idle nodes in creation order. The database gives no order without ORDER BY. A negative n is taken to be rejected by LIMIT. The `!storeFails` branch describes the query as if n reached LIMIT as an integer. The JavaScript driver sends a number as a float, which a Neo4j server may reject for LIMIT; every call would then take the catch and return [], which the model admits only through `storeFails`.
- Tasks.TaskRepository.GetMinTask: ties between tasks with equal devices_count are left open by the contract. The body picks the earliest node.
- `Partial<Device>` objects are read in the field order of `Device` (id, address, status, last_login). The source's callers all write their object literals in that order. Other key orders are not modelled.
- A missing `x-device-address` header, and a header given more than once, are not distinguished from a given address string.
- `last_login` values are opaque integers. `neo4j.types.DateTime` conversion, `Date.now()` and uuid generation are parameters.
- Logging, `JSON.stringify` and the WebSocket transport are not modelled. A socket is its outbox. JSON numbers are reals.
- The legacy server's message listener calls `JSON.parse` on the event object, not on its data. The object's string form, "[object Object]", is never valid JSON, so the parse always throws before the `switch`, and the logging default is never reached. The exception escapes the listener, and what the WebSocket runtime then does is not modelled. The model's `Message` event carries no payload and stands for this path: the list is unchanged.
- `src/common/scheduler.ts` only logs on a timer. `s3.js`, `server.js`, `parse_images.py`, `src/helpers.ts` and the `@Singleton` decorator are not part of this model.
- The type-only files `src/common/TaskRepository.ts`, `src/device/DeviceStatus.ts` and `src/message/MessageBase.ts` appear only as datatypes and shared fields.
