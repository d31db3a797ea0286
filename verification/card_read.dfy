/**
 * The card handler of bridge.js: the UID reported by the reader is
 * upper-cased and broadcast together with the name it is known by.
 */
module CardRead {
  import opened Wrappers
  import opened AliasTable
  import opened Messages

  predicate IsLower(c: char)
  {
    'a' <= c <= 'z'
  }

  /** `toUpperCase` on one character, for the ASCII letters a card UID is written in. */
  function UpperChar(c: char): char
  {
    if IsLower(c) then (c as int - 'a' as int + 'A' as int) as char else c
  }

  /** `card.uid.toUpperCase()`. */
  function ToUpper(s: string): (r: string)
    ensures |r| == |s|
    ensures forall i :: 0 <= i < |s| ==> r[i] == UpperChar(s[i])
    ensures forall i :: 0 <= i < |r| ==> !IsLower(r[i])
    decreases |s|
  {
    if s == [] then [] else [UpperChar(s[0])] + ToUpper(s[1..])
  }

  /** Upper-casing an upper-cased UID changes nothing. */
  lemma ToUpperIdempotent(s: string)
    ensures ToUpper(ToUpper(s)) == ToUpper(s)
  {
  }

  /** UIDs that differ only in letter case are the same identifier. */
  lemma ToUpperIgnoresCase(a: string, b: string)
    requires |a| == |b|
    requires forall i :: 0 <= i < |a| ==> UpperChar(a[i]) == UpperChar(b[i])
    ensures ToUpper(a) == ToUpper(b)
  {
  }

  /** A lower-case hex UID from the reader, as in "a1b2c3", becomes "A1B2C3". */
  lemma ToUpperHexExample()
    ensures ToUpper("a1b2c3") == "A1B2C3"
  {
  }

  /**
   * The `card-read` message: `uid` is the upper-cased UID and `knownName` is
   * `aliases[uid]` when that is truthy, otherwise null.
   */
  function CardReadEvent(t: Table, rawUid: string): (r: Outgoing)
    ensures r.CardRead? && r.uid == ToUpper(rawUid)
    ensures r.knownName.Some? <==> Truthy(t, ToUpper(rawUid))
    ensures r.knownName.Some? ==> r.knownName.value == t[ToUpper(rawUid)]
  {
    var uid := ToUpper(rawUid);
    CardRead(uid, KnownName(t, uid))
  }

  /**
   * An entry saved under a key with a lower-case letter is never reported by
   * a card read: no reader UID upper-cases to that key.
   */
  lemma LowerCaseKeyNeverRead(t: Table, key: string, rawUid: string)
    requires exists i :: 0 <= i < |key| && IsLower(key[i])
    ensures CardReadEvent(t, rawUid).uid != key
  {
  }
}
