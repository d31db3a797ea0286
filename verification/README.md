# RFID bridge alias store — a Dafny model

This project models the core of `bridge.js`, a Node.js bridge between a
contactless card reader and browser clients connected over WebSocket. The
bridge keeps one process-global alias table in memory. The table maps a card
identifier (UID) to a display name and is written through to `aliases.json`.
The model covers:

- the four mutating operations `saveAlias`, `saveBatch`, `deleteBatch` and
  `deleteAlias`. Each changes the in-memory table and then tries to rewrite
  the whole file. The deletes skip both steps when no listed entry is
  truthy. When the write returns, the operation broadcasts an
  `aliases-update` snapshot, and a save also replies `save-success` to the
  originating socket. When the write throws, nothing is broadcast, and a
  save replies `error` to the originating socket;
- `loadAliases` at start-up, reduced to what it leaves in memory and on disk;
- `broadcast`, which sends only to sockets whose `readyState` is OPEN;
- the `connection` handler, which sends every new socket one snapshot;
- the `message` handler, which parses a frame and dispatches on its `type`
  string;
- the `card` handler, which upper-cases the UID and broadcasts it with the
  known name (`aliases[uid] || null`).

Modules:

- `AliasTable`: the table, JavaScript truthiness of an entry, the two batch
  loops as functions (`AssignAll`, `DeleteTruthy`), and `Load`.
- `Messages`: sockets and their ready states, outgoing messages, the
  delivery log `broadcast` produces, and what one socket receives.
- `Dispatch`: incoming frames, the four commands, and the `type` dispatch.
- `CardRead`: UID upper-casing and the `card-read` event.
- `Store`: the whole state (table, file, delivery log, client set) as a
  value. It has one function per handler, and lemmas stating what each
  handler promises.
- `Server`: the class `Bridge`. It holds the table in a `map` field, the
  file and the delivery log in ghost fields, and the client set in a `seq`.
  Its methods are the handlers, with the source's loops. Each method is
  proved to produce the state the matching `Store` function describes, and
  to keep the invariant `Store.Wellformed`: every connected socket was sent
  a snapshot before anything else.

Whether `fs.writeFileSync` returns or throws is a parameter of each mutating
operation (`FsOutcome`). Client state changes made by the WebSocket library
are a method of their own (`SetReadyState`).

Behaviour of the code that the model keeps as it is:

- On a failed write the in-memory table is not rolled back. The assignment
  precedes the `try` (bridge.js:29, bridge.js:42), so memory can be ahead
  of the file (`Store.FailedSaveLeavesMemoryAhead`). A failed batch save
  leaves every listed identifier updated in memory.
- Deletions test JavaScript truthiness (bridge.js:57, bridge.js:73). An
  entry whose name is the empty string is not deleted, and a card read
  reports it as unknown.
- Only the two saves reply to the originating socket. The deletes send no
  acknowledgement, neither on success nor on failure.
- Batch lists are not checked for being non-empty. A `save-batch-alias`
  with an empty list still rewrites the file and broadcasts. A
  `delete-batch-alias` with an empty list does nothing.
- The `card-read` message carries `uid` and `knownName` and no source tag.

## Model

| member | source | states |
|---|---|---|
| `AliasTable.Truthy` | bridge.js:57 | definition: `aliases[uid]` is truthy when the key is present and its name is not "" (the same test as bridge.js:73 and bridge.js:137) |
| `AliasTable.KnownName` | bridge.js:137 | definition: the value of `aliases[uid]` or else null: the name when truthy, null otherwise |
| `AliasTable.Load` | bridge.js:14-26 | definition: the table `loadAliases` leaves in memory, the stored table or empty for a missing or unparsable file |
| `AliasTable.FileAfterLoad` | bridge.js:15-18 | definition: a missing file is created holding `{}`; any other file is left as it is |
| `AliasTable.AssignAll` | bridge.js:42 | after the assignment loop every listed identifier names `name`; every unlisted key keeps its entry or its absence |
| `AliasTable.DeleteTruthy` | bridge.js:55-61 | after the deletion loop exactly the listed keys with a non-empty name are gone; listed keys mapped to "" stay; no value changes |
| `AliasTable.DeleteTruthyChangesIff` | bridge.js:55-62 | the deletion loop alters the table if and only if some listed entry was truthy, i.e. iff `changed` ends up true |
| `Messages.Ack` | bridge.js:34 | definition: `if (clientWs) clientWs.send(m)`, one delivery to the originating socket or none |
| `Messages.BroadcastLog` | bridge.js:90-94 | a broadcast sends only `m`, only to clients in the set with state OPEN, and makes at most as many deliveries as there are clients (the exact count per client is `Messages.BroadcastReceived`) |
| `Messages.BroadcastReceived` | bridge.js:90-94 | with distinct sockets, a client receives exactly `[m]` from a broadcast when it is OPEN and nothing otherwise |
| `Messages.AckReceived` | bridge.js:34 | a direct reply reaches the originating socket only, and nothing is sent when no socket was given |
| `Dispatch.Kind` | bridge.js:106-115 | definition: the `type` string that selects each command |
| `Dispatch.Decode` | bridge.js:102-121 | an unparsable frame or one whose `type` is none of the four command strings selects nothing; otherwise the selected command's `type` string is the frame's |
| `Dispatch.DecodeEncode` | bridge.js:105-117 | every command a browser sends is dispatched to that same command |
| `Dispatch.DecodeReadsUsedFields` | bridge.js:105-117 | dispatch reads exactly the fields its command uses: re-encoding the selected command gives back the frame with only the unused fields cleared (`uid` is used by save-alias and delete-alias, `uids` by the two batches, `name` by the two saves) |
| `CardRead.ToUpper` | bridge.js:130 | upper-casing keeps the length, maps each character by `UpperChar`, and leaves no lower-case ASCII letter |
| `CardRead.ToUpperIdempotent` | bridge.js:130 | normalising an already normalised UID changes nothing |
| `CardRead.ToUpperIgnoresCase` | bridge.js:130 | UIDs that differ only in letter case normalise to the same identifier |
| `CardRead.ToUpperHexExample` | bridge.js:130 | the reader UID "a1b2c3" is reported as "A1B2C3" |
| `CardRead.CardReadEvent` | bridge.js:128-138 | the event carries the upper-cased UID; `knownName` is the table's name when that entry is truthy and null otherwise |
| `CardRead.LowerCaseKeyNeverRead` | bridge.js:130-137 | an entry whose key has a lower-case letter is never the one a card read looks up |
| `Store.Boot` | bridge.js:14-26 | definition: the state at process start, the loaded table and file with no socket and nothing sent |
| `Store.Commit` | bridge.js:30-38 | definition: the shared `try`/`catch`; a returning write stores the table, broadcasts a snapshot and replies `save-success`; a throwing write replies the error text; memory is never rolled back |
| `Store.SaveAlias` | bridge.js:28-39 | definition: assign `uid` before the `try`, then commit with the originating socket |
| `Store.SaveBatch` | bridge.js:41-52 | definition: assign every listed uid, then commit once with the originating socket |
| `Store.DeleteBatch` | bridge.js:54-70 | definition: delete the truthy listed entries, then commit without a reply only if `changed` |
| `Store.DeleteAlias` | bridge.js:72-82 | definition: when the entry is truthy, delete it and commit without a reply; otherwise do nothing |
| `Store.Apply` | bridge.js:106-117 | definition: run the selected command; the saves pass the sending socket as origin, the deletes pass none |
| `Store.Handle` | bridge.js:102-121 | definition: a frame that selects no command changes nothing; otherwise apply the selected command |
| `Store.Connect` | bridge.js:96-99 | definition: the new socket joins the set as OPEN and is sent a snapshot of the current table |
| `Store.SetReadyState` | bridge.js:91-92 | definition: one socket moves to CLOSING or CLOSED, as the WebSocket library does |
| `Store.OnCard` | bridge.js:128-138 | definition: broadcast the card-read event built from the current table |
| `Store.BootState` | bridge.js:14-26 | at start the table is the stored one, or empty when the file is missing or does not parse; the file agrees with memory unless it did not parse; no socket is connected and nothing has been sent |
| `Store.CommitSucceeded` | bridge.js:30-34 | when the write returns, the file holds the table and reloads to it; each socket receives one snapshot if OPEN, then `save-success` if it originated the command, and nothing else |
| `Store.CommitFailed` | bridge.js:35-38 | when the write throws, memory and file are both left as they are; nothing is broadcast; only the originating socket receives the error text |
| `Store.SaveAliasUpdatesKey` | bridge.js:28-29 | `saveAlias` names `uid` and leaves every other key unchanged, whether or not the write succeeds |
| `Store.FailedSaveLeavesMemoryAhead` | bridge.js:29-38 | from a synced state, a save of a new name whose write throws leaves the file no longer holding the table (no rollback) |
| `Store.SaveBatchUpdatesKeys` | bridge.js:41-47 | `saveBatch` names every listed uid, leaves unlisted keys unchanged, and is followed by exactly one commit regardless of list length |
| `Store.DeleteBatchEffect` | bridge.js:54-70 | no listed uid stays truthy and unlisted keys are unchanged; with no truthy listed entry nothing happens at all; otherwise the file is rewritten if the write succeeds; no socket gets a reply, only OPEN sockets get one snapshot |
| `Store.DeleteAliasEffect` | bridge.js:72-82 | a missing or falsy entry makes `deleteAlias` a no-op; otherwise exactly that key is removed, one write is attempted, OPEN sockets get one snapshot if it succeeds, and no socket gets a reply |
| `Store.HandleIgnoresUnknown` | bridge.js:102-121 | a frame that does not parse or has an unknown `type` leaves the whole state unchanged and sends nothing |
| `Store.HandleKeepsInSync` | bridge.js:102-121 | with a write that returns, any frame keeps the file equal to the in-memory table |
| `Store.ReplayKeepsInSync` | bridge.js:102-121 | over any sequence of frames whose writes all return, the file never drifts from memory |
| `Store.HandlePreservesWellformed` | bridge.js:96-121 | a frame from a connected socket keeps the invariant, and that socket had been sent its snapshot before the command is handled |
| `Store.ConnectGreets` | bridge.js:96-99 | a new socket receives exactly one message, the current snapshot, before anything else; table and file are unchanged |
| `Store.SetReadyStatePreservesWellformed` | bridge.js:91-92 | a socket moving to CLOSING or CLOSED (the only moves allowed) keeps the set of sockets and the invariant |
| `Store.OnCardEffect` | bridge.js:128-138 | a card read changes neither table nor file; each OPEN socket receives the `card-read` event exactly once and other sockets nothing |
| `Store.CardReadSeesSavedName` | bridge.js:134-137 | after a non-empty name is saved for a normalised UID a card read reports it, whatever the write did; after its deletion a card read reports null |
| `Store.EndToEnd` | bridge.js:96-138 | empty start, connect, save "X1" as "Widget", read card "x1": the socket receives `{}`, `{"X1":"Widget"}`, `save-success`, then a card read naming "Widget" |
| `Server.Bridge.constructor` | bridge.js:14-26 | the object starts in the state `loadAliases` leaves, with no socket connected |
| `Server.Bridge.Send` | bridge.js:92 | `ws.send(m)` appends exactly one delivery to the log |
| `Server.Bridge.Broadcast` | bridge.js:90-94 | the loop over the client set appends exactly `BroadcastLog(clients, m)` to the delivery log |
| `Server.Bridge.WriteAliasFile` | bridge.js:31 | a write that returns stores the whole table; one that throws leaves the file as it was |
| `Server.Bridge.Commit` | bridge.js:30-38 | the write-broadcast-reply tail produces the state of `Store.Commit` |
| `Server.Bridge.SaveAlias` | bridge.js:28-39 | produces the state of `Store.SaveAlias` and keeps the invariant |
| `Server.Bridge.AssignEach` | bridge.js:42 | the `forEach` assignment loop leaves the table `AssignAll(old table, uids, name)` |
| `Server.Bridge.SaveBatch` | bridge.js:41-52 | produces the state of `Store.SaveBatch` and keeps the invariant |
| `Server.Bridge.DeleteEach` | bridge.js:55-61 | the deletion loop leaves the table `DeleteTruthy(old table, uids)` and `changed` true iff some listed entry was truthy |
| `Server.Bridge.DeleteBatch` | bridge.js:54-70 | produces the state of `Store.DeleteBatch` and keeps the invariant |
| `Server.Bridge.DeleteAlias` | bridge.js:72-82 | produces the state of `Store.DeleteAlias` and keeps the invariant |
| `Server.Bridge.HandleMessage` | bridge.js:102-121 | produces the state of `Store.Handle` for a frame from a connected socket and keeps the invariant |
| `Server.Bridge.Connect` | bridge.js:96-99 | adds the socket as OPEN, sends it the snapshot, and keeps the invariant |
| `Server.Bridge.SetReadyState` | bridge.js:91-92 | moves one socket to CLOSING or CLOSED and keeps the invariant |
| `Server.Bridge.OnCard` | bridge.js:128-138 | broadcasts the normalised UID with its known name, leaving table and file unchanged |

## Left out

- The `nfc-pcsc` reader driver: the `reader` and `error` events and their logging (bridge.js:1, bridge.js:125-126, bridge.js:141-144). Only the UID normalisation and lookup of the `card` handler are modelled, as a card read taking the reader's UID string.
- The `ws` server and `JSON.stringify`/`JSON.parse` (bridge.js:2, bridge.js:8, bridge.js:92, bridge.js:105). Messages are datatypes, sends are a ghost delivery log, and a frame is either unparsable or a parsed object with `type`, `uid`, `uids` and `name`.
- Socket removal: the `ws` library removes closed sockets from `wss.clients`. The model keeps them with state CLOSED, which `broadcast` skips in the same way.
- Replies to the originating socket (bridge.js:34, bridge.js:37) are delivered whatever that socket's state is, since it has just sent the command. A `send` that throws inside the `try`, and so ends in the `catch`, is not modelled.
- `fs` and the JSON file format (bridge.js:15-21, bridge.js:31, bridge.js:44, bridge.js:64, bridge.js:76). The file is an abstract whole-table value. A missing file is created as `{}` at start; a creation write that throws at start-up, which ends the process, is not modelled.
- Server.Bridge.WriteAliasFile: a write that throws leaves the file as it was. A partially written or truncated file is not modelled.
- CardRead.ToUpper: maps only the ASCII letters a-z. JavaScript's full Unicode `toUpperCase` (for example "ß" to "SS", which changes the length) is not modelled, because reader UIDs are hexadecimal.
- JavaScript dynamic typing: a `name` that is not a string, missing fields (`undefined` keys or values), `uids` that is not an array (its `forEach` throws and the `catch` at bridge.js:118 logs it), prototype keys, and a file that parses to something other than an object of strings. Keys and names are strings, and "falsy" means the empty string.
- Console logging throughout.
- Event-loop scheduling: each handler runs to completion, so each is one atomic method. Interleavings across handlers are sequences of such calls (`Store.Replay`).
