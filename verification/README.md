# Device sync server: a Dafny model

This project models the core of a radar device server. Field devices check in with a *sync*
request that carries a batch of radar targets. The server then does four things:

- It stores every target except the all-zero "no detection" sentinel as a tracking log.
- It hands the device its oldest pending command, which becomes SENT.
- It builds the `radar_data` message for the device's live viewers.
- It answers with a fixed-shape response.

Beside the sync, the model covers three more operations:

- enqueueing a command, after validation;
- the active-viewer counter of a device shadow, raised on connect and lowered on disconnect;
- the online status that the device list derives from the last heartbeat.

The tables are in-memory state of the class `App.Server`:

- the tracking logs, as a sequence;
- the command queue, as a sequence;
- the device shadows, as a map keyed by device MAC;
- the next command id.

Time is integer milliseconds.

Files:

- `schema.dfy`: the table records (models.py).
- `filtering.dfy`: the sentinel test, and `BatchLogs`, the logs one batch produces.
- `command_queue.dfy`: command validation, the earliest-pending search, and the `Dequeued` relation with its lemmas.
- `viewers.dfy`: the viewer counter as functions on the shadow map, and the replay of any event sequence.
- `device_status.dfy`: the online predicate and the device list.
- `app.dfy`: the handlers as methods of `App.Server`. Each method is proved against the functions above.

In four places the model follows what the code does rather than what one might expect:

- A sync never writes `last_heartbeat`.
- A viewer connecting to an unknown device does not create a shadow.
- Pending commands with equal `created_at` have no tie-break by id. `Dequeued` allows any earliest one. `FindEarliestPending` happens to return the first, but its contract does not promise that.
- The dequeue is not atomic with respect to concurrent syncs. The model is sequential.

Inputs from the environment become parameters:

- the clock, as `now` in milliseconds;
- the `YYYYMMDDHHMMSS` rendering of the clock, as `stamp`, used for the default batch id `"batch_" + stamp`;
- the device list's table, passed to `ListDevices`.

## Model

| member | source | states |
|---|---|---|
| Filtering.IsSentinel | app.py:29-33 | a target is the sentinel iff each of x, y, speed and resolution is absent or 0 |
| Filtering.BatchLogs | app.py:28-47 | the logs one sync writes, in input order; never more logs than targets, all with the batch's MAC, batch id and time. Its meaning is stated by BatchLogsSound, BatchLogsComplete and BatchLogsAccount |
| Filtering.BatchLogsSound | app.py:28-46 | every stored log comes from a non-sentinel target. Its `target_id` is that target's 0-based index + 1. It keeps the target's fields, with absent ones as 0. All logs share the batch's MAC, batch id and time. Ordinals strictly increase, so no target is stored twice |
| Filtering.BatchLogsComplete | app.py:28-47 | every non-sentinel target at index i is stored, with `target_id` i + 1, even when earlier targets were filtered |
| Filtering.BatchLogsAccount | app.py:27-36 | stored count + filtered (sentinel) count = number of targets |
| Filtering.SentinelThenTarget | app.py:28-46 | the batch [sentinel, {5,3,10,1}] stores exactly one log, with `target_id` 2 |
| CommandQueue.ParseKind | app.py:229-231 | a command type is accepted iff it is one of REBOOT, SET_MODE, SET_ZONE; the kind and its name round-trip |
| CommandQueue.ValidateCommand | app.py:225-231 | accepted iff the MAC and type are present and non-empty and the type is in the closed set. A missing or empty field is reported as such, before the type check |
| CommandQueue.FindEarliestPending | app.py:51-54 | finds a PENDING command of the device whose `created_at` is minimal among them, or none iff the device has no PENDING command |
| CommandQueue.MarkSent | app.py:57 | the queue with one command's status set to SENT; DequeueOnlySendsOnePending and MarkSentLowersPendingCount state what that changes |
| CommandQueue.Dequeued | app.py:51-65 | the dequeue step of a sync: some pending command of the device with the earliest created_at becomes SENT and is handed out, or nothing changes when none is pending. Its properties are stated by DequeueOnlySendsOnePending, DequeueLowersPendingCount, SecondSyncGetsNothing and EnqueuedThenDequeued |
| CommandQueue.DequeueOnlySendsOnePending | app.py:51-58 | a dequeue changes at most one command, and only from PENDING (of the syncing device) to SENT. It hands out exactly the changed command's type, payload and id. Other devices' commands and SENT/EXECUTED ones are unchanged |
| CommandQueue.MarkSentLowersPendingCount | app.py:56-57 | marking a pending command SENT lowers the device's pending count by exactly one |
| CommandQueue.DequeueLowersPendingCount | app.py:51-65 | a sync hands out a command iff the device has one pending. It lowers the pending count by one, or leaves it unchanged when nothing was handed out |
| CommandQueue.SecondSyncGetsNothing | app.py:51-65 | with one queued command, the first sync receives it, and a second sync receives null and leaves the queue as it was |
| CommandQueue.EnqueuedThenDequeued | app.py:51-63 | a command enqueued for a device with nothing else pending is what its next sync receives (type, payload, id), and it becomes SENT |
| Viewers.AfterConnect | app.py:257-260 | connect raises an existing shadow's count to (count or 0) + 1 and changes nothing else. A missing or empty MAC, or an unknown device, leaves the table unchanged, and no shadow is created |
| Viewers.AfterDisconnect | app.py:269-272 | disconnect lowers the count by one only when it is present and > 0. An unknown MAC leaves the table unchanged |
| Viewers.ConnectDisconnectKeepCounts | app.py:257-272 | neither event makes a count negative; after a connect the device has at least one viewer |
| Viewers.DisconnectUndoesConnect | app.py:257-272 | a disconnect right after a connect restores the table when the count was present |
| Viewers.ReplayKeepsViewersNonNegative | app.py:251-273 | no sequence of connects and disconnects, extra disconnects included, makes a count negative or adds or removes a shadow |
| DeviceStatus.IsOnline | app.py:91-94 | online iff a heartbeat is recorded and less than 300 s have passed since it; stated by OnlineBoundary and OfflineStaysOffline |
| DeviceStatus.OnlineBoundary | app.py:91-94 | exactly 300 s after the heartbeat a device is offline, and 299.999 s after it online; without a heartbeat it is offline |
| DeviceStatus.OfflineStaysOffline | app.py:91-94 | an offline device stays offline as time advances, until a new heartbeat |
| DeviceStatus.ViewOf | app.py:96-102 | the device-list entry of one shadow; stated by ViewOfReports |
| DeviceStatus.ViewOfReports | app.py:96-102 | a list entry reports online iff a heartbeat exists and less than 300 s have passed. Firmware shows as "unknown" when missing or empty. Heartbeat and viewer count are shown as stored |
| DeviceStatus.ListDevices | app.py:86-107 | the device list has exactly one entry per shadow, each the entry of that shadow |
| Schema.WholeSecondMs | models.py:50 | a DATETIME column without fractional seconds keeps the clock to the nearest whole second: a multiple of 1000 ms within half a second of it |
| App.SameSecondCommandsTie | app.py:234-240 | two commands enqueued at 1600 ms and 1700 ms get the same stored creation time, so either may be the earliest pending one that the next sync hands out |
| App.ServerTime | app.py:79 | `server_time` is the clock in whole seconds, truncated toward zero |
| App.Server.constructor | models.py:43-53 | the tables start from given contents whose command ids are distinct and below the next id, and whose viewer counts are non-negative |
| App.Server.DeviceSync | app.py:20-83 | appends exactly `BatchLogs` of the targets (defaults: no targets, MAC "unknown", batch id "batch_" + stamp). It dequeues per `Dequeued`, leaves the shadows untouched, and answers code 200, next_interval 1000, `server_time` and the dequeued command or null. It broadcasts the unfiltered targets |
| App.Server.DeviceCommand | app.py:218-248 | an invalid request gets a 400 with the validation error and leaves the queue unchanged. A valid one appends exactly one PENDING command with the given MAC and type, the payload defaulting to {}, the creation time kept to the whole second, and a fresh id, which is returned |
| App.Server.HandleConnect | app.py:251-261 | the shadow table becomes `AfterConnect` of the old one; the logs and commands are unchanged |
| App.Server.HandleDisconnect | app.py:263-273 | the shadow table becomes `AfterDisconnect` of the old one; the logs and commands are unchanged |

## Left out

- HTTP routing, JSON request parsing and serialisation, CORS and process startup (app.py:1-19, app.py:275-276). They are framework plumbing. A body that is not a JSON object, which makes the handler fail, is not modelled.
- Target fields whose values are not integers (strings, floats, booleans), and extra target fields, are not modelled. A target is its four optional integer fields.
- A JSON key of the sync body or of a target given as null is not told apart from a missing key; both are `None`, and the model applies the default to both. The program applies a default only to a missing key, which changes four cases:
  - a target such as `{"x": null, "y": 0, "speed": 0, "resolution": 0}` is stored by the program, because null is not 0 (app.py:33), while `Filtering.IsSentinel` filters it;
  - `"device_mac": null` stores the logs under a NULL MAC (app.py:25), not under "unknown";
  - `"batch_id": null` stores the logs under a NULL batch id (app.py:24), while the model uses `"batch_" + stamp`, since `TrackingLog.batchId` is a string and cannot be NULL;
  - `"targets": null` makes the handler fail at the loop (app.py:28), while the model stores nothing and answers.
- A command request's `"payload": null` is not a missing key: it is passed to `App.Server.DeviceCommand` as `Some(JNull)`, which is stored as is and handed out as `payload: null` by the next sync (app.py:223, app.py:61). Only an absent payload, `None`, becomes `{}`.
- Device identities are matched by exact string equality: the dequeue (`CommandQueue.IsPendingFor`) and the viewer counter (`Viewers.AfterConnect`, `Viewers.AfterDisconnect`). The program matches them in the database (app.py:51-53, app.py:257, app.py:269), and the columns declare no collation (models.py:9, models.py:23, models.py:46). Under MySQL's usual case-insensitive collations, a sync from `aa:bb:cc:dd:ee:ff` receives a command queued for `AA:BB:CC:DD:EE:FF`, and a viewer connecting with the lower-case MAC counts on the upper-case shadow; the model treats them as different devices. The collation is a deployment setting that the source does not fix.
- DeviceStatus.ListDevices: reads the clock once for the whole list, while the program reads it again for each device (app.py:93); an entry's online status is computed at that one instant rather than at the moment the loop reaches it.
- Column widths are not modelled: TINYINT `target_id`, SMALLINT positions and speed, VARCHAR(17) MACs. A batch of more than 127 targets would overflow `target_id` in the database.
- The ids of tracking-log rows are not modelled. Command ids come from a counter. The model promises only that each new id is fresh, not the database's exact auto-increment values.
- The `strftime` rendering of the default batch id is the `stamp` parameter. ISO-8601 rendering of timestamps with the trailing `Z` is not modelled; timestamps stay integers.
- Float timestamps are integer milliseconds. The broadcast `timestamp` is the clock in milliseconds rather than float seconds.
- `print` logging is left out.
- Socket.IO rooms (`join_room`, `leave_room`) and the `emit` transport are left out. Only the broadcast message value is produced.
- Database sessions, commits and batch atomicity are left out. Each handler updates the in-memory tables as one step.
- Concurrency, including two simultaneous syncs dequeuing the same command, is left out because the code has no locking.
- `radar_history` and `guard_events` (app.py:131-216) are left out. They are read-only queries whose logic is timestamp parsing and database ordering.
- The code after the `return` in `device_list` (app.py:109-129) is unreachable and is left out.
- The EXECUTED status is left out as a transition, because no code path sets it. Commands may hold it, and a dequeue leaves them alone.
