/**
 * The in-memory alias table of bridge.js (`let aliases = {}`) and the pure
 * parts of the operations that rewrite it: the batch assignment loop of
 * `saveBatch`, the truthiness-guarded deletion loop of `deleteBatch`, and
 * `loadAliases` reduced to what it leaves in memory.
 */
module AliasTable {
  import opened Wrappers

  /** Identifier (card UID or barcode text) to display name. */
  type Table = map<string, string>

  /**
   * JavaScript truthiness of `aliases[uid]`: the key is present and its name
   * is not the empty string (names are modelled as strings only).
   */
  predicate Truthy(t: Table, uid: string)
  {
    uid in t && t[uid] != ""
  }

  /** `aliases[uid] || null`: the name when truthy, otherwise null. */
  function KnownName(t: Table, uid: string): Option<string>
  {
    if Truthy(t, uid) then Some(t[uid]) else None
  }

  /**
   * `uids.forEach(uid => { aliases[uid] = name; })`, applied in list order.
   * Every listed identifier ends up naming `name`; every other key keeps its
   * entry (or its absence).
   */
  function AssignAll(t: Table, uids: seq<string>, name: string): (r: Table)
    ensures forall u :: u in uids ==> u in r && r[u] == name
    ensures forall k :: k !in uids ==> (k in r <==> k in t) && (k in t ==> r[k] == t[k])
    decreases |uids|
  {
    if uids == [] then t
    else
      var init, last := uids[..|uids| - 1], uids[|uids| - 1];
      assert uids == init + [last];
      AssignAll(t, init, name)[last := name]
  }

  /**
   * The deletion loop of `deleteBatch`: each listed identifier is deleted
   * when its current entry is truthy. Exactly the listed keys with a
   * non-empty name disappear; a listed key mapped to "" stays; nothing else
   * changes and no value is altered.
   */
  function DeleteTruthy(t: Table, uids: seq<string>): (r: Table)
    ensures forall k :: k in r <==> k in t && !(k in uids && t[k] != "")
    ensures forall k :: k in r ==> r[k] == t[k]
    decreases |uids|
  {
    if uids == [] then t
    else
      var init, last := uids[..|uids| - 1], uids[|uids| - 1];
      assert uids == init + [last];
      var r0 := DeleteTruthy(t, init);
      if Truthy(r0, last) then r0 - {last} else r0
  }

  /** Some listed identifier has a truthy entry: the final value of `changed` in `deleteBatch`. */
  predicate AnyTruthy(t: Table, uids: seq<string>)
  {
    exists u :: u in uids && Truthy(t, u)
  }

  /** One more identifier sets `changed` exactly when its entry was truthy. */
  lemma AnyTruthyExtend(t: Table, uids: seq<string>, u: string)
    ensures AnyTruthy(t, uids + [u]) <==> AnyTruthy(t, uids) || Truthy(t, u)
  {
  }

  /** One more step of the deletion loop deletes the next identifier exactly when its entry is still truthy. */
  lemma DeleteTruthyExtend(t: Table, uids: seq<string>, u: string)
    ensures DeleteTruthy(t, uids + [u]) ==
      if Truthy(DeleteTruthy(t, uids), u) then DeleteTruthy(t, uids) - {u} else DeleteTruthy(t, uids)
  {
  }

  /** The deletion loop alters the table exactly when `changed` ends up true. */
  lemma DeleteTruthyChangesIff(t: Table, uids: seq<string>)
    ensures DeleteTruthy(t, uids) != t <==> AnyTruthy(t, uids)
  {
  }

  /** What the alias file holds: nothing, text that does not parse, or a table. */
  datatype StoredFile = Absent | Unparsable | Holds(table: Table)

  /**
   * `loadAliases`: a missing file is first created holding `{}`; an unreadable
   * or unparsable file yields the empty table; otherwise the stored table.
   */
  function Load(file: StoredFile): Table
  {
    match file
    case Holds(t) => t
    case _ => map[]
  }

  /** The file after `loadAliases`: only a missing file is rewritten (as `{}`). */
  function FileAfterLoad(file: StoredFile): StoredFile
  {
    if file.Absent? then Holds(map[]) else file
  }
}
