/**
 * The whole observable state of bridge.js as a value, and the effect of
 * each event handler on it: the four mutating commands with their shared
 * write-then-broadcast-then-reply tail, the command dispatch, a socket
 * connecting or changing state, and a card being read.
 */
module Store {
  import opened Wrappers
  import opened AliasTable
  import opened Messages
  import opened Dispatch
  import opened CardRead

  /** What `fs.writeFileSync` does when the table is written: it returns, or throws with a message. */
  datatype FsOutcome = WriteSucceeds | WriteThrows(message: string)

  /**
   * The in-memory table, the alias file, every message sent so far, and the
   * server's client set in insertion order.
   */
  datatype World = World(aliases: Table, disk: StoredFile, outbox: seq<Delivery>, clients: seq<Client>)

  /** The alias file holds exactly the in-memory table. */
  predicate InSync(w: World)
  {
    w.disk == Holds(w.aliases)
  }

  /** The first message a client received is an `aliases-update` snapshot. */
  predicate Greeted(log: seq<Delivery>, id: ClientId)
  {
    var r := Received(log, id);
    r != [] && r[0].AliasesUpdate?
  }

  /**
   * Sockets are distinct, messages only ever went to connected sockets, and
   * every connected socket was sent a snapshot before anything else.
   */
  predicate Wellformed(w: World)
  {
    && DistinctIds(w.clients)
    && (forall i :: 0 <= i < |w.outbox| ==> w.outbox[i].to in Ids(w.clients))
    && (forall id :: id in Ids(w.clients) ==> Greeted(w.outbox, id))
  }

  /** Process start: `loadAliases()`, nothing sent, no client connected. */
  function Boot(file: StoredFile): World
  {
    World(Load(file), FileAfterLoad(file), [], [])
  }

  /**
   * The `try` block shared by the four mutating operations: write the whole
   * table; if that returns, broadcast a snapshot and reply `save-success` to
   * the originating socket; if it throws, reply the error text to it. The
   * in-memory table is left as it is either way.
   */
  function Commit(w: World, origin: Option<ClientId>, fs: FsOutcome): World
  {
    match fs
    case WriteSucceeds =>
      w.(disk := Holds(w.aliases),
         outbox := w.outbox + BroadcastLog(w.clients, AliasesUpdate(w.aliases)) + Ack(origin, SaveSuccess))
    case WriteThrows(message) =>
      w.(outbox := w.outbox + Ack(origin, Error(message)))
  }

  /** `saveAlias(uid, name, clientWs)`: assign before the `try`, then commit. */
  function SaveAlias(w: World, uid: string, name: string, origin: Option<ClientId>, fs: FsOutcome): World
  {
    Commit(w.(aliases := w.aliases[uid := name]), origin, fs)
  }

  /** `saveBatch(uids, name, clientWs)`: assign every listed identifier, then commit once. */
  function SaveBatch(w: World, uids: seq<string>, name: string, origin: Option<ClientId>, fs: FsOutcome): World
  {
    Commit(w.(aliases := AssignAll(w.aliases, uids, name)), origin, fs)
  }

  /** `deleteBatch(uids)`: delete the truthy entries; commit without a reply only if one was deleted. */
  function DeleteBatch(w: World, uids: seq<string>, fs: FsOutcome): World
  {
    var w' := w.(aliases := DeleteTruthy(w.aliases, uids));
    if AnyTruthy(w.aliases, uids) then Commit(w', None, fs) else w'
  }

  /** `deleteAlias(uid)`: when the entry is truthy, delete it and commit without a reply. */
  function DeleteAlias(w: World, uid: string, fs: FsOutcome): World
  {
    if Truthy(w.aliases, uid) then Commit(w.(aliases := w.aliases - {uid}), None, fs) else w
  }

  /** A decoded command from socket `from`; the saves reply to it, the deletes do not. */
  function Apply(w: World, from: ClientId, c: Command, fs: FsOutcome): World
  {
    match c
    case AssignAlias(uid, name) => SaveAlias(w, uid, name, Some(from), fs)
    case AssignBatch(uids, name) => SaveBatch(w, uids, name, Some(from), fs)
    case RemoveBatch(uids) => DeleteBatch(w, uids, fs)
    case RemoveAlias(uid) => DeleteAlias(w, uid, fs)
  }

  /** The `message` handler of one socket: parse, compare `type`, run the selected operation. */
  function Handle(w: World, from: ClientId, m: Incoming, fs: FsOutcome): World
  {
    match Decode(m)
    case None => w
    case Some(c) => Apply(w, from, c, fs)
  }

  /** The `connection` handler: the new socket joins the set OPEN and is sent a snapshot. */
  function Connect(w: World, id: ClientId): World
  {
    w.(clients := w.clients + [Client(id, Open)],
       outbox := w.outbox + [Delivery(id, AliasesUpdate(w.aliases))])
  }

  /** The client set with the state of socket `id` replaced by `s`. */
  function WithState(cs: seq<Client>, id: ClientId, s: ReadyState): seq<Client>
  {
    seq(|cs|, i requires 0 <= i < |cs| => if cs[i].id == id then Client(id, s) else cs[i])
  }

  /** A socket starts closing or has closed (driven by the WebSocket library, not by bridge.js). */
  function SetReadyState(w: World, id: ClientId, s: ReadyState): World
    requires s == Closing || s == Closed
  {
    w.(clients := WithState(w.clients, id, s))
  }

  /** The `card` handler: broadcast the normalised UID and its known name. */
  function OnCard(w: World, rawUid: string): World
  {
    w.(outbox := w.outbox + BroadcastLog(w.clients, CardReadEvent(w.aliases, rawUid)))
  }

  // ---------------------------------------------------------------------
  // Process start

  /**
   * After `loadAliases` the table is the stored one (empty when the file is
   * missing or does not parse), and the file agrees with memory unless it
   * did not parse: that file is left as it is.
   */
  lemma BootState(file: StoredFile)
    ensures Wellformed(Boot(file))
    ensures Boot(file).aliases == if file.Holds? then file.table else map[]
    ensures InSync(Boot(file)) <==> !file.Unparsable?
    ensures Boot(file).clients == [] && Boot(file).outbox == []
  {
  }

  // ---------------------------------------------------------------------
  // The shared commit

  /**
   * A write that returns leaves the file equal to memory, and each socket
   * receives exactly: one snapshot of the table if it is OPEN, then
   * `save-success` if it originated the command; nothing else is sent.
   */
  lemma CommitSucceeded(w: World, origin: Option<ClientId>)
    requires DistinctIds(w.clients)
    ensures var r := Commit(w, origin, WriteSucceeds);
      && r.aliases == w.aliases && r.clients == w.clients
      && InSync(r) && Load(r.disk) == r.aliases
      && w.outbox <= r.outbox
      && forall id: ClientId :: Received(r.outbox[|w.outbox|..], id) ==
           (if Client(id, Open) in w.clients then [AliasesUpdate(w.aliases)] else [])
           + (if origin == Some(id) then [SaveSuccess] else [])
  {
    var r := Commit(w, origin, WriteSucceeds);
    var b, a := BroadcastLog(w.clients, AliasesUpdate(w.aliases)), Ack(origin, SaveSuccess);
    assert r.outbox == w.outbox + (b + a);
    assert r.outbox[|w.outbox|..] == b + a;
    forall id: ClientId
      ensures Received(b + a, id) ==
        (if Client(id, Open) in w.clients then [AliasesUpdate(w.aliases)] else [])
        + (if origin == Some(id) then [SaveSuccess] else [])
    {
      SnapshotThenReply(w.clients, AliasesUpdate(w.aliases), origin, id);
    }
  }

  /** What one socket receives from a broadcast of `m` followed by a `save-success` reply. */
  lemma SnapshotThenReply(cs: seq<Client>, m: Outgoing, origin: Option<ClientId>, id: ClientId)
    requires DistinctIds(cs)
    ensures Received(BroadcastLog(cs, m) + Ack(origin, SaveSuccess), id) ==
      (if Client(id, Open) in cs then [m] else []) + (if origin == Some(id) then [SaveSuccess] else [])
  {
    ReceivedAppend(BroadcastLog(cs, m), Ack(origin, SaveSuccess), id);
    BroadcastReceived(cs, m, id);
    AckReceived(origin, SaveSuccess, id);
  }

  /**
   * A write that throws leaves the file as it was and the in-memory table as
   * it is (no rollback); nothing is broadcast, and only the originating
   * socket is sent the error text.
   */
  lemma CommitFailed(w: World, origin: Option<ClientId>, message: string)
    ensures var r := Commit(w, origin, WriteThrows(message));
      && r.aliases == w.aliases && r.clients == w.clients && r.disk == w.disk
      && w.outbox <= r.outbox
      && forall id: ClientId :: Received(r.outbox[|w.outbox|..], id) ==
           if origin == Some(id) then [Error(message)] else []
  {
  }

  // ---------------------------------------------------------------------
  // The four commands

  /**
   * `saveAlias` names `uid` and touches no other key, whether or not the
   * write then succeeds, since the assignment precedes the `try`.
   */
  lemma SaveAliasUpdatesKey(w: World, uid: string, name: string, origin: Option<ClientId>, fs: FsOutcome)
    ensures var r := SaveAlias(w, uid, name, origin, fs);
      && uid in r.aliases && r.aliases[uid] == name
      && (forall k :: k != uid ==> (k in r.aliases <==> k in w.aliases))
      && (forall k :: k != uid && k in w.aliases ==> r.aliases[k] == w.aliases[k])
  {
  }

  /**
   * A failed save leaves memory ahead of the file: starting in sync, saving a
   * new name whose write throws leaves a file that no longer holds the table.
   */
  lemma FailedSaveLeavesMemoryAhead(w: World, uid: string, name: string, origin: Option<ClientId>, message: string)
    requires InSync(w)
    requires uid !in w.aliases || w.aliases[uid] != name
    ensures !InSync(SaveAlias(w, uid, name, origin, WriteThrows(message)))
  {
  }

  /**
   * `saveBatch` names every listed identifier and leaves every other key as
   * it was; one commit follows, however long the list, so an OPEN socket
   * receives at most one snapshot.
   */
  lemma SaveBatchUpdatesKeys(w: World, uids: seq<string>, name: string, origin: Option<ClientId>, fs: FsOutcome)
    ensures var r := SaveBatch(w, uids, name, origin, fs);
      && (forall u :: u in uids ==> u in r.aliases && r.aliases[u] == name)
      && (forall k :: k !in uids ==> (k in r.aliases <==> k in w.aliases))
      && (forall k :: k !in uids && k in w.aliases ==> r.aliases[k] == w.aliases[k])
      && r == Commit(w.(aliases := r.aliases), origin, fs)
  {
  }

  /**
   * `deleteBatch`: afterwards no listed identifier is truthy and the unlisted
   * keys are as they were; when no listed entry was truthy nothing at all
   * happens (no write, no broadcast). No socket is ever sent a reply: the
   * only message is a snapshot to the OPEN sockets, and only when something
   * was deleted and the write returned.
   */
  lemma DeleteBatchEffect(w: World, uids: seq<string>, fs: FsOutcome)
    requires DistinctIds(w.clients)
    ensures var r := DeleteBatch(w, uids, fs);
      && (forall u :: u in uids ==> !Truthy(r.aliases, u))
      && (forall k :: k !in uids ==> (k in r.aliases <==> k in w.aliases))
      && (forall k :: k in r.aliases ==> r.aliases[k] == w.aliases[k])
      && (!AnyTruthy(w.aliases, uids) ==> r == w)
      && (AnyTruthy(w.aliases, uids) ==> r.aliases != w.aliases)
      && r.disk == (if AnyTruthy(w.aliases, uids) && fs.WriteSucceeds? then Holds(r.aliases) else w.disk)
      && w.outbox <= r.outbox
      && forall id: ClientId :: Received(r.outbox[|w.outbox|..], id) ==
           if AnyTruthy(w.aliases, uids) && fs.WriteSucceeds? && Client(id, Open) in w.clients
           then [AliasesUpdate(r.aliases)] else []
  {
    var r := DeleteBatch(w, uids, fs);
    DeleteTruthyChangesIff(w.aliases, uids);
    var w' := w.(aliases := DeleteTruthy(w.aliases, uids));
    if !AnyTruthy(w.aliases, uids) {
      assert r.outbox[|w.outbox|..] == [];
    } else if fs.WriteSucceeds? {
      CommitSucceeded(w', None);
    } else {
      CommitFailed(w', None, fs.message);
    }
  }

  /**
   * `deleteAlias`: a missing or falsy entry makes it a no-op (no write, no
   * broadcast); otherwise exactly that key is removed and one commit
   * follows. No socket is ever sent a reply.
   */
  lemma DeleteAliasEffect(w: World, uid: string, fs: FsOutcome)
    requires DistinctIds(w.clients)
    ensures var r := DeleteAlias(w, uid, fs);
      && (!Truthy(w.aliases, uid) ==> r == w)
      && (Truthy(w.aliases, uid) ==> r.aliases.Keys == w.aliases.Keys - {uid})
      && (forall k :: k in r.aliases ==> r.aliases[k] == w.aliases[k])
      && r.disk == (if Truthy(w.aliases, uid) && fs.WriteSucceeds? then Holds(r.aliases) else w.disk)
      && w.outbox <= r.outbox
      && forall id: ClientId :: Received(r.outbox[|w.outbox|..], id) ==
           if Truthy(w.aliases, uid) && fs.WriteSucceeds? && Client(id, Open) in w.clients
           then [AliasesUpdate(r.aliases)] else []
  {
    var r := DeleteAlias(w, uid, fs);
    var w' := w.(aliases := w.aliases - {uid});
    if !Truthy(w.aliases, uid) {
      assert r.outbox[|w.outbox|..] == [];
    } else if fs.WriteSucceeds? {
      CommitSucceeded(w', None);
    } else {
      CommitFailed(w', None, fs.message);
    }
  }

  // ---------------------------------------------------------------------
  // Dispatch

  /** A frame that does not parse or names no known `type` changes nothing and sends nothing. */
  lemma HandleIgnoresUnknown(w: World, from: ClientId, m: Incoming, fs: FsOutcome)
    requires m.Unparsable? || m.kind !in {SaveAliasKind, SaveBatchKind, DeleteBatchKind, DeleteAliasKind}
    ensures Handle(w, from, m, fs) == w
  {
  }

  /**
   * Write-through: from a state whose file holds the table, any frame
   * handled with a write that returns leaves the file holding the table.
   */
  lemma HandleKeepsInSync(w: World, from: ClientId, m: Incoming)
    requires InSync(w)
    ensures InSync(Handle(w, from, m, WriteSucceeds))
  {
  }

  /** A frame from one socket together with what the file system does if it is written. */
  datatype Input = Input(from: ClientId, frame: Incoming, fs: FsOutcome)

  /** Frames handled one after another, each to completion. */
  function Replay(w: World, inputs: seq<Input>): World
    decreases |inputs|
  {
    if inputs == [] then w
    else Replay(Handle(w, inputs[0].from, inputs[0].frame, inputs[0].fs), inputs[1..])
  }

  /** No drift: as long as every write returns, the file equals memory after every frame. */
  lemma {:induction false} ReplayKeepsInSync(w: World, inputs: seq<Input>)
    requires InSync(w)
    requires forall i :: 0 <= i < |inputs| ==> inputs[i].fs == WriteSucceeds
    ensures InSync(Replay(w, inputs))
    decreases |inputs|
  {
    if inputs != [] {
      HandleKeepsInSync(w, inputs[0].from, inputs[0].frame);
      ReplayKeepsInSync(Handle(w, inputs[0].from, inputs[0].frame, inputs[0].fs), inputs[1..]);
    }
  }

  // ---------------------------------------------------------------------
  // The invariant Wellformed

  /** Sending further messages to connected sockets keeps the state well formed. */
  lemma {:induction false} SendPreservesWellformed(w: World, extra: seq<Delivery>)
    requires Wellformed(w)
    requires forall d :: d in extra ==> d.to in Ids(w.clients)
    ensures Wellformed(w.(outbox := w.outbox + extra))
  {
    var log := w.outbox + extra;
    forall i | 0 <= i < |log| ensures log[i].to in Ids(w.clients) {
      if i >= |w.outbox| {
        assert log[i] == extra[i - |w.outbox|];
      }
    }
    forall id | id in Ids(w.clients) ensures Greeted(log, id) {
      ReceivedAppend(w.outbox, extra, id);
    }
  }

  /** The commit only sends to connected sockets. */
  lemma CommitPreservesWellformed(w: World, origin: Option<ClientId>, fs: FsOutcome)
    requires Wellformed(w)
    requires origin.Some? ==> origin.value in Ids(w.clients)
    ensures Wellformed(Commit(w, origin, fs))
  {
    match fs
    case WriteSucceeds =>
      var b := BroadcastLog(w.clients, AliasesUpdate(w.aliases));
      var extra := b + Ack(origin, SaveSuccess);
      assert forall d :: d in b ==> d.to in Ids(w.clients);
      assert w.outbox + b + Ack(origin, SaveSuccess) == w.outbox + extra;
      SendPreservesWellformed(w.(aliases := w.aliases, disk := Holds(w.aliases)), extra);
    case WriteThrows(message) =>
      SendPreservesWellformed(w, Ack(origin, Error(message)));
  }

  /**
   * Handling a frame from a connected socket keeps every invariant: that
   * socket, like every other, was sent its snapshot before anything else.
   */
  lemma HandlePreservesWellformed(w: World, from: ClientId, m: Incoming, fs: FsOutcome)
    requires Wellformed(w)
    requires from in Ids(w.clients)
    ensures Wellformed(Handle(w, from, m, fs))
    ensures Greeted(w.outbox, from)
  {
    if Decode(m).Some? {
      ApplyPreservesWellformed(w, from, Decode(m).value, fs);
    }
  }

  /** Each of the four commands from a connected socket keeps the invariant. */
  lemma ApplyPreservesWellformed(w: World, from: ClientId, c: Command, fs: FsOutcome)
    requires Wellformed(w)
    requires from in Ids(w.clients)
    ensures Wellformed(Apply(w, from, c, fs))
  {
    var t := match c
      case AssignAlias(uid, name) => w.aliases[uid := name]
      case AssignBatch(uids, name) => AssignAll(w.aliases, uids, name)
      case RemoveBatch(uids) => DeleteTruthy(w.aliases, uids)
      case RemoveAlias(uid) => w.aliases - {uid};
    var origin := if c.AssignAlias? || c.AssignBatch? then Some(from) else None;
    assert Wellformed(w.(aliases := t));
    CommitPreservesWellformed(w.(aliases := t), origin, fs);
  }

  /**
   * A connecting socket receives exactly one message, the snapshot of the
   * current table, before anything else; the invariant is kept.
   */
  lemma ConnectGreets(w: World, id: ClientId)
    requires Wellformed(w)
    requires id !in Ids(w.clients)
    ensures Wellformed(Connect(w, id))
    ensures Received(Connect(w, id).outbox, id) == [AliasesUpdate(w.aliases)]
    ensures Connect(w, id).aliases == w.aliases && Connect(w, id).disk == w.disk
  {
    var d := Delivery(id, AliasesUpdate(w.aliases));
    var log := w.outbox + [d];
    ConnectAddsId(w.clients, id);
    ReceivedNothing(w.outbox, id);
    ReceivedAppend(w.outbox, [d], id);
    assert [d][..0] == [];
    forall i | 0 <= i < |log| ensures log[i].to in Ids(w.clients) + {id} {
      if i < |w.outbox| {
        assert log[i] == w.outbox[i];
      }
    }
    forall k | k in Ids(w.clients) ensures Greeted(log, k) {
      ReceivedAppend(w.outbox, [d], k);
    }
  }

  /** Adding a socket whose id is new keeps the ids distinct and adds exactly that id. */
  lemma ConnectAddsId(cs: seq<Client>, id: ClientId)
    requires DistinctIds(cs)
    requires id !in Ids(cs)
    ensures DistinctIds(cs + [Client(id, Open)])
    ensures Ids(cs + [Client(id, Open)]) == Ids(cs) + {id}
  {
    var cs' := cs + [Client(id, Open)];
    assert forall c :: c in cs' <==> c in cs || c == Client(id, Open);
    forall i, j | 0 <= i < j < |cs'| ensures cs'[i].id != cs'[j].id {
      if j == |cs| {
        assert cs'[i] in cs;
      }
    }
  }

  /** A socket changing state keeps the set of sockets and the invariant. */
  lemma SetReadyStatePreservesWellformed(w: World, id: ClientId, s: ReadyState)
    requires Wellformed(w)
    requires s == Closing || s == Closed
    ensures Wellformed(SetReadyState(w, id, s))
    ensures Ids(SetReadyState(w, id, s).clients) == Ids(w.clients)
  {
    var cs, cs' := w.clients, SetReadyState(w, id, s).clients;
    assert forall i :: 0 <= i < |cs| ==> cs'[i].id == cs[i].id;
    forall k ensures k in Ids(cs') <==> k in Ids(cs) {
      if k in Ids(cs') {
        var c :| c in cs' && c.id == k;
        var i :| 0 <= i < |cs'| && cs'[i] == c;
        assert cs[i] in cs;
      }
      if k in Ids(cs) {
        var c :| c in cs && c.id == k;
        var i :| 0 <= i < |cs| && cs[i] == c;
        assert cs'[i] in cs';
      }
    }
  }

  // ---------------------------------------------------------------------
  // Card reads

  /**
   * A card read changes neither the table nor the file, and each socket
   * receives the `card-read` event exactly once if it is OPEN, otherwise
   * nothing.
   */
  lemma OnCardEffect(w: World, rawUid: string)
    requires Wellformed(w)
    ensures var r := OnCard(w, rawUid);
      && r.aliases == w.aliases && r.disk == w.disk && r.clients == w.clients
      && Wellformed(r)
      && w.outbox <= r.outbox
      && forall id: ClientId :: Received(r.outbox[|w.outbox|..], id) ==
           if Client(id, Open) in w.clients then [CardReadEvent(w.aliases, rawUid)] else []
  {
    var r := OnCard(w, rawUid);
    var b := BroadcastLog(w.clients, CardReadEvent(w.aliases, rawUid));
    assert r.outbox[|w.outbox|..] == b;
    forall id: ClientId ensures Received(r.outbox[|w.outbox|..], id) ==
      if Client(id, Open) in w.clients then [CardReadEvent(w.aliases, rawUid)] else []
    {
      BroadcastReceived(w.clients, CardReadEvent(w.aliases, rawUid), id);
    }
    assert forall d :: d in b ==> d.to in Ids(w.clients);
    SendPreservesWellformed(w, b);
  }

  /**
   * After a name is saved for an upper-case UID, a card read of that UID
   * (in any letter case) reports the name, whether or not the write
   * succeeded; after its deletion it reports null.
   */
  lemma CardReadSeesSavedName(w: World, rawUid: string, name: string, origin: Option<ClientId>, fs: FsOutcome)
    requires name != ""
    ensures CardReadEvent(SaveAlias(w, ToUpper(rawUid), name, origin, fs).aliases, rawUid).knownName == Some(name)
    ensures CardReadEvent(DeleteAlias(w, ToUpper(rawUid), fs).aliases, rawUid).knownName.None?
  {
  }

  /**
   * An empty start, one browser connecting and saving "Widget" for "X1":
   * the browser sees the empty table, then the table {"X1": "Widget"}, then
   * `save-success`, then a read of card "x1" reporting "Widget".
   */
  lemma EndToEnd()
    ensures var w0 := Connect(Boot(Absent), 7);
      var w1 := Handle(w0, 7, Json(SaveAliasKind, "X1", [], "Widget"), WriteSucceeds);
      var w2 := OnCard(w1, "x1");
      && w1.aliases == map["X1" := "Widget"]
      && InSync(w1)
      && Received(w2.outbox, 7) ==
           [AliasesUpdate(map[]), AliasesUpdate(map["X1" := "Widget"]), SaveSuccess,
            CardRead("X1", Some("Widget"))]
  {
    var t0, t1 := map[], map["X1" := "Widget"];
    var cs := [Client(7, Open)];
    var card := CardRead("X1", Some("Widget"));
    var log0 := [Delivery(7, AliasesUpdate(t0))];
    var log1 := log0 + [Delivery(7, AliasesUpdate(t1)), Delivery(7, SaveSuccess)];
    var w0 := Connect(Boot(Absent), 7);
    assert w0 == World(t0, Holds(t0), log0, cs) by {
      EndToEndConnect();
    }
    var w1 := Handle(w0, 7, Json(SaveAliasKind, "X1", [], "Widget"), WriteSucceeds);
    assert w1 == World(t1, Holds(t1), log1, cs) by {
      EndToEndSave();
    }
    var w2 := OnCard(w1, "x1");
    assert w2.outbox == log1 + [Delivery(7, card)] by {
      EndToEndCard();
    }
    EndToEndReceived(w2.outbox, AliasesUpdate(t0), AliasesUpdate(t1), card);
  }

  lemma EndToEndReceived(log: seq<Delivery>, m0: Outgoing, m1: Outgoing, m3: Outgoing)
    requires log == [Delivery(7, m0), Delivery(7, m1), Delivery(7, SaveSuccess), Delivery(7, m3)]
    ensures Received(log, 7) == [m0, m1, SaveSuccess, m3]
  {
    ReceivedAllTo(log, 7);
  }

  lemma EndToEndConnect()
    ensures Connect(Boot(Absent), 7) == World(map[], Holds(map[]), [Delivery(7, AliasesUpdate(map[]))], [Client(7, Open)])
  {
  }

  lemma EndToEndSave()
    ensures var w0 := World(map[], Holds(map[]), [Delivery(7, AliasesUpdate(map[]))], [Client(7, Open)]);
      var t1 := map["X1" := "Widget"];
      Handle(w0, 7, Json(SaveAliasKind, "X1", [], "Widget"), WriteSucceeds)
        == World(t1, Holds(t1), w0.outbox + [Delivery(7, AliasesUpdate(t1)), Delivery(7, SaveSuccess)], w0.clients)
  {
  }

  lemma EndToEndCard()
    ensures var t1 := map["X1" := "Widget"];
      var cs := [Client(7, Open)];
      forall log :: OnCard(World(t1, Holds(t1), log, cs), "x1").outbox == log + [Delivery(7, CardRead("X1", Some("Widget")))]
  {
    var cs := [Client(7, Open)];
    var card := CardRead("X1", Some("Widget"));
    assert ToUpper("x1") == "X1" by {
      assert "x1"[1..] == "1";
    }
    assert BroadcastLog(cs, card) == [Delivery(7, card)] by {
      assert cs[..0] == [];
    }
  }

  /** When every delivery of a log goes to `id`, `id` receives every message of it. */
  lemma {:induction false} ReceivedAllTo(log: seq<Delivery>, id: ClientId)
    requires forall i :: 0 <= i < |log| ==> log[i].to == id
    ensures Received(log, id) == seq(|log|, i requires 0 <= i < |log| => log[i].msg)
    decreases |log|
  {
    if log != [] {
      var init, last := log[..|log| - 1], log[|log| - 1];
      ReceivedAllTo(init, id);
      assert Received(log, id) == Received(init, id) + [last.msg];
      assert seq(|log|, i requires 0 <= i < |log| => log[i].msg)
        == seq(|init|, i requires 0 <= i < |init| => init[i].msg) + [last.msg];
    }
  }
}
