# Chat relay: a Dafny model

This project models the real-time chat of the developer portal
(`app/routers/chat.py`): one admin and many users exchange short text
messages over websockets, and every message is stored in the `messages`
table. Three parts share state:

- **the connection list** (`ConnectionManager`): a process-wide list of open
  sockets. It is not keyed by participant. `connect` appends,
  `disconnect` removes the first occurrence if present, and `broadcast`
  tries every socket in order.
- **the two session loops** (admin at `/ws/chat/0`, user at
  `/ws/chat/{user_id}`): each inbound frame is dispatched on its `type`,
  validated, and stored as one row (the admin as sender 1 with `is_owner`
  false, a user as sender with receiver 1 and `is_owner` true). The session
  then writes a `new_message` echo to its own socket and relays the same
  frame to every *other* open socket, whoever the addressee is. A failed
  commit rolls back and the loop goes on. Teardown cancels the keepalive
  task and unregisters the socket.
- **the read paths**: the history of one participant (404 for an unknown
  user; otherwise the rows they sent or received, ordered by creation time,
  with `is_from_admin = not is_owner`) and the total message count.

The model handles one frame at a time. Sockets are opaque integers and
timestamps are naturals. Every outcome decided outside the program is an
argument: whether a commit succeeds, whether each write succeeds
(`sendOk: SocketId -> bool`), whether the greeting goes out, and the clock.

Files, one module each:

- `wrappers.dfy`: `Option`, `Result`.
- `messages.dfy`: the `Message` row, id allocation, the history query
  (filter, ordering, entries), and the `MessageStore` class (commit,
  history, count).
- `frames.dfy`: inbound and outbound frame shapes. `AdminDecide` and
  `UserDecide` are the pure per-frame dispatch and validation.
- `connections.dfy`: the `ConnectionManager` class, `list.remove` as
  `RemoveFirst`, and the relay target list `Others` / `RelayPlan`.
- `sessions.dfy`: `Step`, the specification of one frame. `HandleFrame`
  and `RelayNewMessage` are the imperative frame handler and relay loop.
  `RunLoop` / `ReceiveLoop` are the receive loop. The two endpoints
  repeat the same loop around different frame handling, so the model
  writes it once and runs it with the endpoint's handler, `Handler(v)`
  (`Decide` for that endpoint). Its lemmas hold for any handler.
  `RunSession` covers a whole session, teardown included.

### Behaviour of the code worth knowing

- The connection list is not keyed by participant. Every `new_message` goes
  to every open socket except the sender's own, so users also receive each
  other's messages.
- `is_from_admin` is reported as `not is_owner`, not derived from the
  sender. A user session opened with id 1 therefore stores rows from sender
  1 that history reports as not from the admin
  (`FlagFollowsEndpointNotSender`).
- The client's `message_id` is never read, and no frame echoes it.
- A decoding error is skipped on the admin session: it calls `json.loads`
  itself, inside a `JSONDecodeError` handler. On the user session it ends
  the loop, because `receive_json` raises into the generic handler. A JSON
  value that is not an object ends both loops, because `.get` raises.
- The user loop slices `content` for its log line before looking at the
  type. An explicit `"content": null` therefore raises and ends the
  session, even on a `pong` frame.
- The echo write is inside the same `try` as the commit. When the echo
  fails, the row is already committed (the rollback has nothing to undo),
  the relay is skipped, and the loop continues.

## Model

| member | source | states |
|---|---|---|
| `Messages.NextId` | app/models.py:59 | a new row's id exceeds every id already in the table |
| `Messages.MaxId` | app/models.py:59 | the largest stored id: bounds every row's id and is attained by some row (0 for an empty table) |
| `Messages.Saved` | app/routers/chat.py:226-232 | the stored row carries the id and time it is given, and both its sender and its receiver are involved in it |
| `Messages.AppendKeepsIdsIncreasing` | app/routers/chat.py:226-234 | inserting a committed row keeps ids strictly increasing and leaves earlier rows untouched |
| `Messages.Involving` | app/routers/chat.py:114-115 | the filter keeps a row iff the participant is its sender or its (non-null) receiver |
| `Messages.InvolvingMultiplicity` | app/routers/chat.py:114-115 | each matching row is kept as many times as it is stored, every other row zero times |
| `Messages.InsertByTime` | app/routers/chat.py:116 | insertion adds exactly the one row (length and multiset) |
| `Messages.SortByTime` | app/routers/chat.py:116 | the ORDER BY returns a permutation of its input |
| `Messages.InsertByTimeOrdered` | app/routers/chat.py:116 | inserting into a time-ordered list keeps it time-ordered |
| `Messages.SortByTimeOrdered` | app/routers/chat.py:116 | ordering by `created_at` yields non-decreasing timestamps |
| `Messages.EntryOf` | app/routers/chat.py:123-130 | an entry determines its row: `RowOf` recovers the row, so `is_from_admin` is exactly `not is_owner` |
| `Messages.HistoryOf` | app/routers/chat.py:114-130 | the history has one entry per row that matches the filter |
| `Messages.BuildEntries` | app/routers/chat.py:120-130 | the response is built one entry per sorted row, in the same order, each entry that row's fields |
| `Messages.EntriesMembership` | app/routers/chat.py:120-130 | building the response loses no row and invents none; each entry maps back to its row |
| `Messages.HistoryOrdered` | app/routers/chat.py:114-130 | a participant's history is in non-decreasing `created_at` order |
| `Messages.HistoryContents` | app/routers/chat.py:114-130 | history holds one entry per row the participant sent or received, every such row and no other, each with `is_from_admin == not is_owner` |
| `Messages.MessageStore.constructor` | app/models.py:57-64 | a fresh table is empty |
| `Messages.MessageStore.Commit` | app/routers/chat.py:226-234 | a successful commit appends exactly the drafted row with the next id and the given time; a failed one leaves the table unchanged |
| `Messages.MessageStore.ChatHistory` | app/routers/chat.py:94-133 | error (404) iff the user does not exist; otherwise exactly `HistoryOf(rows, userId)` |
| `Messages.MessageStore.TotalMessages` | app/routers/chat.py:147-155 | the count equals the number of stored rows |
| `Frames.AdminDecide` | app/routers/chat.py:203-232 | ends the loop iff disconnected or not a JSON object (decode errors skip); persists iff `admin_message` with non-zero `user_id` and non-empty `content`, as sender 1, receiver the target, `is_owner` false, announced with `is_from_admin` true |
| `Frames.UserDecide` | app/routers/chat.py:344-368 | ends the loop iff no JSON object arrived or `content` is null; persists iff `message` with non-empty `content` (default ""), as sender the user, receiver 1, `is_owner` true, announced with `is_from_admin` false |
| `Connections.RemoveFirst` | app/routers/chat.py:22-24 | removing an absent socket changes nothing; removing a present one shortens the list by one |
| `Connections.RemoveFirstKeepsOrder` | app/routers/chat.py:22-24 | removal drops only the first occurrence and keeps the order of the rest |
| `Connections.RemoveFirstMultiset` | app/routers/chat.py:22-24 | removal drops exactly one copy of the socket |
| `Connections.RemoveFirstOfAppended` | app/routers/chat.py:17-24 | connecting a new socket and disconnecting it restores the list |
| `Connections.RemoveFirstIdempotent` | app/routers/chat.py:22-24 | for a socket held at most once, disconnecting twice equals disconnecting once |
| `Connections.Others` | app/routers/chat.py:251-252 | the relay targets are exactly the open sockets other than the sender's |
| `Connections.OthersMultiplicity` | app/routers/chat.py:251-252 | each other socket is targeted as often as it is listed, the sender never |
| `Connections.RelayDeliveredIff` | app/routers/chat.py:250-262 | the relay reaches someone iff some other open socket accepts the write |
| `Connections.RelayPlanTargets` | app/routers/chat.py:251-262 | every relay write goes to an open socket other than the sender, with the same frame and that socket's outcome |
| `Connections.ConnectionManager.constructor` | app/routers/chat.py:14-15 | the list starts empty |
| `Connections.ConnectionManager.Connect` | app/routers/chat.py:17-19 | appends the socket at the end; earlier entries unchanged |
| `Connections.ConnectionManager.Disconnect` | app/routers/chat.py:22-24 | removes the first occurrence if present; an absent socket leaves the list unchanged |
| `Connections.ConnectionManager.Broadcast` | app/routers/chat.py:30-35 | one write per listed socket, in list order, each with its own outcome: a failure does not stop the rest |
| `Sessions.Welcome` | app/routers/chat.py:174-178 | the greeting is never a chat message; the user greeting (lines 315-319) is `connected` with the user's id, the admin one is not |
| `Sessions.Step` | app/routers/chat.py:224-275 | one frame adds one row exactly when it persists and the commit succeeds, otherwise none, and its first write (the echo) goes to the sender's own socket |
| `Sessions.StepAppendsAtMostOne` | app/routers/chat.py:224-234 | a frame appends exactly one row when it asks to persist and the commit succeeds, otherwise none; old rows and increasing ids are kept |
| `Sessions.StepControl` | app/routers/chat.py:201-286 | only an ending frame breaks the loop; ignored frames and failed commits store and send nothing |
| `Sessions.DurabilityPrecedesDelivery` | app/routers/chat.py:224-265 | a step writes only after appending a row, and each written frame announces that row |
| `Sessions.EchoThenRelay` | app/routers/chat.py:240-265 | the echo goes first, to the sender's socket; then one write per other open socket in list order, never to the sender, all with the same frame |
| `Sessions.DeliveredIff` | app/routers/chat.py:250-267 | `admin_sent`/`user_sent` is true iff the row was committed, the echo succeeded and some other open socket accepted the relay |
| `Sessions.AdminFrameRules` | app/routers/chat.py:206-234 | pong, other types, a zero or missing `user_id`, empty content and decode errors leave the table alone and continue; otherwise the admin row is appended |
| `Sessions.UserFrameRules` | app/routers/chat.py:344-370 | null content and decode errors end the loop; pong, other types and empty content change nothing; otherwise the user row is appended |
| `Sessions.UserMessageInHistory` | app/routers/chat.py:360-370 | a committed user message appears in the user's and the admin's history, as not from the admin, even if nobody received it live |
| `Sessions.AdminMessageInHistory` | app/routers/chat.py:224-234 | a committed admin message appears in the target's history, as from the admin, even if the target was offline |
| `Sessions.FlagFollowsEndpointNotSender` | app/routers/chat.py:362-366 | a user session with id 1 stores a row from sender 1 that history reports as not from the admin |
| `Sessions.RelayNewMessage` | app/routers/chat.py:387-402 | the relay loop writes to every other socket in order, and the flag is true iff some write succeeded |
| `Sessions.HandleFrame` | app/routers/chat.py:224-275 | handling a frame commits, echoes and relays exactly as `Step` specifies |
| `Sessions.RunLoopAppendOnly` | app/routers/chat.py:342-420 | the receive loop only appends, at most one row per frame handled, keeping ids increasing |
| `Sessions.RunLoopHandled` | app/routers/chat.py:201-286 | the receive loop (`RunLoop`) handles at most the frames that arrived, and at least one when any arrived |
| `Sessions.ReceiveLoop` | app/routers/chat.py:342-420 | the loop handles frames in arrival order until one ends it, exactly as `RunLoop` specifies |
| `Sessions.RunSession` | app/routers/chat.py:160-298 | the socket is registered for the loop and unregistered on every exit path; the keepalive task is cancelled iff it was started; a failed greeting stores nothing |

## Left out

- The keepalive task's timing (20-second sleep, ping writes, the cancellation
  it handles) and asyncio scheduling: only its start and its cancellation in
  `finally` are modelled, as `PingTask`.
- Concurrency: other sessions changing `active_connections` or the table
  while a session awaits. Each frame is handled atomically.
- `websocket.accept()` failing inside `connect`: the socket is then never
  listed. This is I/O.
- `send_personal_message`: an unused one-line wrapper over a write.
- `check_db` and `test_users`: diagnostic dumps of the users table.
- Database failures on the read paths (HTTP 500) and `db.close()`. Only the
  commit outcome of the write path is an argument.
- History entries whose `created_at` is null, and the ISO formatting of
  timestamps. The model's rows always carry a time.
- Each write stamping its own `datetime.now()`: frames carry no timestamp
  in the model.
- Frame fields of JSON types other than those the protocol declares (a
  numeric `content`, a string or boolean `user_id`), and binary websocket
  frames.
- The database's tie order for equal `created_at` values, which it does
  not fix. The model keeps table order for ties.
- NextId: follows SQLite's rowid rule (max id + 1) of the default engine.
  An engine selected through `DATABASE_URL` that draws ids from a sequence
  may skip an id after a failed insert.
- RunSession: models a finite run of frames, where running out of frames
  stands for the peer disconnecting. A session that never ends is not
  modelled.
- app/database.py, app/models.py beyond the `Message` fields,
  app/schemas.py, app/main.py, app/routers/auth.py, app/routers/admin.py,
  migrate_db.py, init_db.py and the static JavaScript files are not part of
  this model.
