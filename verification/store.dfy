/**
 The key-value store the cluster connection talks to, reduced to the effect of
 the single-key commands the cluster logic issues: DUMP, TTL, RESTORE, DEL,
 EXISTS, GET, SET and the native RENAME/RENAMENX. A store maps each key to its
 value and its expiry. The DUMP serialization format is abstract: a dumped
 value is the stored payload itself, so RESTORE of a DUMP reply recreates the
 payload unchanged.
 */
module Store {
  import opened ClusterTypes

  datatype Expiry = Persistent | ExpiresInMs(ms: nat)

  datatype Entry = Entry(data: Value, expiry: Expiry)

  type KeySpace = map<Key, Entry>

  /** DUMP: the serialized value, or nil when the key is missing. */
  function Dump(s: KeySpace, k: Key): Option<Value> {
    if k in s then Some(s[k].data) else None
  }

  /** The TTL reply for an expiry: -1 when there is none, else the remaining milliseconds rounded to the nearest second. */
  function TtlOfExpiry(e: Expiry): int {
    match e
    case Persistent => -1
    case ExpiresInMs(ms) => (ms + 500) / 1000
  }

  /** TTL: -2 for a missing key, otherwise the TTL reply of its expiry. */
  function Ttl(s: KeySpace, k: Key): int {
    if k in s then TtlOfExpiry(s[k].expiry) else -2
  }

  /** The expiry RESTORE gives a key for its ttl argument: 0 means none. */
  function ExpiryOfRestoreTtl(ttlMs: nat): Expiry {
    if ttlMs == 0 then Persistent else ExpiresInMs(ttlMs)
  }

  /** RESTORE without REPLACE: refused with BUSYKEY when the key exists. */
  function Restore(s: KeySpace, k: Key, ttlMs: nat, payload: Value): Result<KeySpace> {
    if k in s then Failure(BusyKey)
    else Success(s[k := Entry(payload, ExpiryOfRestoreTtl(ttlMs))])
  }

  /** DEL of one key: the store without it. */
  function Del(s: KeySpace, k: Key): KeySpace {
    s - {k}
  }

  /** The DEL reply for one key: how many keys it removed. */
  function DelCount(s: KeySpace, k: Key): nat {
    if k in s then 1 else 0
  }

  function Exists(s: KeySpace, k: Key): bool {
    k in s
  }

  /** GET: the value, or nil when the key is missing. */
  function Get(s: KeySpace, k: Key): Option<Value> {
    if k in s then Some(s[k].data) else None
  }

  /** SET without options: the key holds the value and loses any expiry. */
  function Set(s: KeySpace, k: Key, v: Value): KeySpace {
    s[k := Entry(v, Persistent)]
  }

  /** The store after `src`'s entry, with expiry `e`, is moved to `dst`. */
  function Moved(s: KeySpace, src: Key, dst: Key, e: Expiry): KeySpace
    requires src in s
  {
    (s - {src})[dst := Entry(s[src].data, e)]
  }

  /** Native RENAME within one slot: the entry moves with its expiry; a missing source is an error. */
  function NativeRename(s: KeySpace, src: Key, dst: Key): Result<KeySpace> {
    if src !in s then Failure(NoSuchKey)
    else if src == dst then Success(s)
    else Success(Moved(s, src, dst, s[src].expiry))
  }

  /** Native RENAMENX within one slot: like RENAME, but answers false and changes nothing when `dst` exists. */
  function NativeRenameNX(s: KeySpace, src: Key, dst: Key): Result<(bool, KeySpace)> {
    if src !in s then Failure(NoSuchKey)
    else if dst in s then Success((false, s))
    else Success((true, Moved(s, src, dst, s[src].expiry)))
  }
}
