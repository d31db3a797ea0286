/**
 * The browser-to-server commands of bridge.js and the string comparison on
 * the `type` field that selects one of them (the `ws.on('message')` handler).
 */
module Dispatch {
  import opened Wrappers

  /** The four observer commands, in their decoded form. */
  datatype Command =
    | AssignAlias(uid: string, name: string)
    | AssignBatch(uids: seq<string>, name: string)
    | RemoveBatch(uids: seq<string>)
    | RemoveAlias(uid: string)

  /**
   * An incoming frame: text that `JSON.parse` rejects, or an object with a
   * `type` string and the `uid`, `uids` and `name` fields the commands read.
   */
  datatype Incoming =
    | Unparsable
    | Json(kind: string, uid: string, uids: seq<string>, name: string)

  const SaveAliasKind: string := "save-alias"
  const SaveBatchKind: string := "save-batch-alias"
  const DeleteBatchKind: string := "delete-batch-alias"
  const DeleteAliasKind: string := "delete-alias"

  /** The `type` string that selects each command. */
  function Kind(c: Command): string
  {
    match c
    case AssignAlias(_, _) => SaveAliasKind
    case AssignBatch(_, _) => SaveBatchKind
    case RemoveBatch(_) => DeleteBatchKind
    case RemoveAlias(_) => DeleteAliasKind
  }

  /**
   * The dispatch: a frame that does not parse, or whose `type` is none of the
   * four command strings, selects nothing; otherwise the command whose string
   * equals `type`, built from the fields that command reads.
   */
  function Decode(m: Incoming): (r: Option<Command>)
    ensures r.None? <==> m.Unparsable? || m.kind !in {SaveAliasKind, SaveBatchKind, DeleteBatchKind, DeleteAliasKind}
    ensures r.Some? ==> Kind(r.value) == m.kind
  {
    if m.Unparsable? then None
    else if m.kind == SaveAliasKind then Some(AssignAlias(m.uid, m.name))
    else if m.kind == SaveBatchKind then Some(AssignBatch(m.uids, m.name))
    else if m.kind == DeleteBatchKind then Some(RemoveBatch(m.uids))
    else if m.kind == DeleteAliasKind then Some(RemoveAlias(m.uid))
    else None
  }

  /** The frame a browser sends for a command; fields the command does not use are left empty. */
  function Encode(c: Command): Incoming
  {
    match c
    case AssignAlias(uid, name) => Json(SaveAliasKind, uid, [], name)
    case AssignBatch(uids, name) => Json(SaveBatchKind, "", uids, name)
    case RemoveBatch(uids) => Json(DeleteBatchKind, "", uids, "")
    case RemoveAlias(uid) => Json(DeleteAliasKind, uid, [], "")
  }

  /** Every command a browser sends is dispatched to itself. */
  lemma DecodeEncode(c: Command)
    ensures Decode(Encode(c)) == Some(c)
  {
  }

  /**
   * Dispatch reads exactly the fields its command uses: re-encoding the
   * selected command gives back the frame with only the unused fields
   * cleared (`uid` for the two saves and deletes of one identifier, `uids`
   * for the two batches, `name` for the two saves).
   */
  lemma DecodeReadsUsedFields(m: Incoming)
    requires Decode(m).Some?
    ensures Encode(Decode(m).value) ==
      m.(uid := if m.kind in {SaveAliasKind, DeleteAliasKind} then m.uid else "",
         uids := if m.kind in {SaveBatchKind, DeleteBatchKind} then m.uids else [],
         name := if m.kind in {SaveAliasKind, SaveBatchKind} then m.name else "")
  {
  }
}
