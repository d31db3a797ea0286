/**
 * bridge.js as a stateful object: the global `aliases` map, the alias file,
 * the server's client set and everything sent to its sockets. Each handler
 * runs to completion, so each is one method; each is proved to produce the
 * state that the matching function of module Store describes.
 */
module Server {
  import opened Wrappers
  import opened AliasTable
  import opened Messages
  import opened Dispatch
  import opened CardRead
  import Store

  class Bridge {
    /** `let aliases = {}` */
    var aliases: Table
    /** The content of aliases.json. */
    ghost var disk: StoredFile
    /** Every message sent to any socket, in order. */
    ghost var outbox: seq<Delivery>
    /** `wss.clients`, in insertion order. */
    var clients: seq<Client>

    ghost function State(): Store.World
      reads this
    {
      Store.World(aliases, disk, outbox, clients)
    }

    ghost predicate Valid()
      reads this
    {
      Store.Wellformed(State())
    }

    /** Process start: `loadAliases()` with no socket connected yet. */
    constructor (file: StoredFile)
      ensures Valid() && State() == Store.Boot(file)
    {
      aliases := Load(file);
      disk := FileAfterLoad(file);
      outbox := [];
      clients := [];
    }

    /** `ws.send(m)` */
    method Send(to: ClientId, m: Outgoing)
      modifies this`outbox
      ensures outbox == old(outbox) + [Delivery(to, m)]
    {
      outbox := outbox + [Delivery(to, m)];
    }

    /** `broadcast(m)`: send to every client whose state is OPEN. */
    method Broadcast(m: Outgoing)
      modifies this`outbox
      ensures outbox == old(outbox) + BroadcastLog(clients, m)
    {
      var i := 0;
      while i < |clients|
        invariant 0 <= i <= |clients|
        invariant outbox == old(outbox) + BroadcastLog(clients[..i], m)
      {
        assert clients[..i + 1] == clients[..i] + [clients[i]];
        if clients[i].state == Open {
          Send(clients[i].id, m);
        }
        i := i + 1;
      }
      assert clients[..|clients|] == clients;
    }

    /** `fs.writeFileSync(ALIAS_FILE, JSON.stringify(aliases))`; `ok` is false when it throws. */
    method WriteAliasFile(fs: Store.FsOutcome) returns (ok: bool)
      modifies this`disk
      ensures ok <==> fs.WriteSucceeds?
      ensures disk == if ok then Holds(aliases) else old(disk)
    {
      ok := fs.WriteSucceeds?;
      if ok {
        disk := Holds(aliases);
      }
    }

    /** The `try`/`catch` that ends each mutating operation. */
    method Commit(origin: Option<ClientId>, fs: Store.FsOutcome)
      modifies this`disk, this`outbox
      ensures State() == Store.Commit(old(State()), origin, fs)
    {
      var ok := WriteAliasFile(fs);
      if ok {
        Broadcast(AliasesUpdate(aliases));
        if origin.Some? {
          Send(origin.value, SaveSuccess);
        }
      } else if origin.Some? {
        Send(origin.value, Error(fs.message));
      }
    }

    /** `saveAlias(uid, name, clientWs)` */
    method SaveAlias(uid: string, name: string, origin: Option<ClientId>, fs: Store.FsOutcome)
      requires Valid()
      requires origin.Some? ==> origin.value in Ids(clients)
      modifies this
      ensures Valid()
      ensures State() == Store.SaveAlias(old(State()), uid, name, origin, fs)
    {
      aliases := aliases[uid := name];
      Store.CommitPreservesWellformed(State(), origin, fs);
      Commit(origin, fs);
    }

    /** `uids.forEach(uid => { aliases[uid] = name; })` */
    method AssignEach(uids: seq<string>, name: string)
      modifies this`aliases
      ensures aliases == AssignAll(old(aliases), uids, name)
    {
      var i := 0;
      while i < |uids|
        invariant 0 <= i <= |uids|
        invariant aliases == AssignAll(old(aliases), uids[..i], name)
      {
        assert uids[..i + 1] == uids[..i] + [uids[i]];
        aliases := aliases[uids[i] := name];
        i := i + 1;
      }
      assert uids[..|uids|] == uids;
    }

    /** `saveBatch(uids, name, clientWs)` */
    method SaveBatch(uids: seq<string>, name: string, origin: Option<ClientId>, fs: Store.FsOutcome)
      requires Valid()
      requires origin.Some? ==> origin.value in Ids(clients)
      modifies this
      ensures Valid()
      ensures State() == Store.SaveBatch(old(State()), uids, name, origin, fs)
    {
      AssignEach(uids, name);
      Store.CommitPreservesWellformed(State(), origin, fs);
      Commit(origin, fs);
    }

    /**
     * The deletion loop of `deleteBatch`: each listed identifier whose entry
     * is truthy is deleted, and `changed` records whether any was.
     */
    method DeleteEach(uids: seq<string>) returns (changed: bool)
      modifies this`aliases
      ensures aliases == DeleteTruthy(old(aliases), uids)
      ensures changed <==> AnyTruthy(old(aliases), uids)
    {
      changed := false;
      var i := 0;
      while i < |uids|
        invariant 0 <= i <= |uids|
        invariant aliases == DeleteTruthy(old(aliases), uids[..i])
        invariant changed <==> AnyTruthy(old(aliases), uids[..i])
      {
        var uid := uids[i];
        assert uids[..i + 1] == uids[..i] + [uid];
        AnyTruthyExtend(old(aliases), uids[..i], uid);
        DeleteTruthyExtend(old(aliases), uids[..i], uid);
        if uid in aliases && aliases[uid] != "" {
          aliases := aliases - {uid};
          changed := true;
        }
        i := i + 1;
      }
      assert uids[..|uids|] == uids;
    }

    /** `deleteBatch(uids)` */
    method DeleteBatch(uids: seq<string>, fs: Store.FsOutcome)
      requires Valid()
      modifies this
      ensures Valid()
      ensures State() == Store.DeleteBatch(old(State()), uids, fs)
    {
      var changed := DeleteEach(uids);
      if changed {
        Store.CommitPreservesWellformed(State(), None, fs);
        Commit(None, fs);
      }
    }

    /** `deleteAlias(uid)` */
    method DeleteAlias(uid: string, fs: Store.FsOutcome)
      requires Valid()
      modifies this
      ensures Valid()
      ensures State() == Store.DeleteAlias(old(State()), uid, fs)
    {
      if uid in aliases && aliases[uid] != "" {
        aliases := aliases - {uid};
        Store.CommitPreservesWellformed(State(), None, fs);
        Commit(None, fs);
      }
    }

    /** The `message` handler of socket `from`, which is connected since it registered the handler. */
    method HandleMessage(from: ClientId, m: Incoming, fs: Store.FsOutcome)
      requires Valid()
      requires from in Ids(clients)
      modifies this
      ensures Valid()
      ensures State() == Store.Handle(old(State()), from, m, fs)
    {
      match Decode(m)
      case None =>
      case Some(AssignAlias(uid, name)) => SaveAlias(uid, name, Some(from), fs);
      case Some(AssignBatch(uids, name)) => SaveBatch(uids, name, Some(from), fs);
      case Some(RemoveBatch(uids)) => DeleteBatch(uids, fs);
      case Some(RemoveAlias(uid)) => DeleteAlias(uid, fs);
    }

    /** The `connection` handler for a new socket `id`. */
    method Connect(id: ClientId)
      requires Valid()
      requires id !in Ids(clients)
      modifies this
      ensures Valid()
      ensures State() == Store.Connect(old(State()), id)
    {
      Store.ConnectGreets(State(), id);
      clients := clients + [Client(id, Open)];
      Send(id, AliasesUpdate(aliases));
    }

    /** Socket `id` starts closing or has closed. */
    method SetReadyState(id: ClientId, s: ReadyState)
      requires Valid()
      requires s == Closing || s == Closed
      modifies this
      ensures Valid()
      ensures State() == Store.SetReadyState(old(State()), id, s)
    {
      Store.SetReadyStatePreservesWellformed(State(), id, s);
      clients := Store.WithState(clients, id, s);
    }

    /** The `card` handler of a reader. */
    method OnCard(rawUid: string)
      requires Valid()
      modifies this`outbox
      ensures Valid()
      ensures State() == Store.OnCard(old(State()), rawUid)
    {
      Store.OnCardEffect(State(), rawUid);
      var uid := ToUpper(rawUid);
      Broadcast(CardRead(uid, KnownName(aliases, uid)));
    }
  }
}
