/**
 Multi-key del, mGet and mSet on a cluster. Deferred (queueing or pipelined):
 one command per key is enqueued on the connection and the call answers null
 (true for mSet). Immediate: one batch with a command per key is sent, its
 replies come back in submission order and are aggregated.
 */
module Batch {
  import opened ClusterTypes
  import opened Store

  datatype Command = DelCmd(key: Key) | GetCmd(key: Key) | SetCmd(key: Key, value: Value)

  datatype Reply = Count(n: nat) | Bulk(v: Option<Value>) | Ok

  /** The connection: its mode, the store it reaches, and the commands it has enqueued. */
  datatype Conn = Conn(mode: Mode, store: KeySpace, queued: seq<Command>)

  /** A call's answer (None for Java null) and the connection afterwards. */
  datatype Call<T> = Call(answer: Option<T>, conn: Conn)

  /** One command against the store: its reply and the store afterwards. */
  function Apply(s: KeySpace, c: Command): (Reply, KeySpace) {
    match c
    case DelCmd(k) => (Count(DelCount(s, k)), Del(s, k))
    case GetCmd(k) => (Bulk(Get(s, k)), s)
    case SetCmd(k, v) => (Ok, Set(s, k, v))
  }

  /** The batch facility: the commands run in order, one reply each, in submission order. */
  function ExecBatch(s: KeySpace, cmds: seq<Command>): (out: (seq<Reply>, KeySpace))
    ensures |out.0| == |cmds|
    decreases |cmds|
  {
    if |cmds| == 0 then ([], s)
    else
      var (reply, s1) := Apply(s, cmds[0]);
      var (replies, s2) := ExecBatch(s1, cmds[1..]);
      ([reply] + replies, s2)
  }

  function DelCommands(keys: seq<Key>): seq<Command> {
    seq(|keys|, i requires 0 <= i < |keys| => DelCmd(keys[i]))
  }

  function GetCommands(keys: seq<Key>): seq<Command> {
    seq(|keys|, i requires 0 <= i < |keys| => GetCmd(keys[i]))
  }

  function SetCommands(pairs: seq<(Key, Value)>): seq<Command> {
    seq(|pairs|, i requires 0 <= i < |pairs| => SetCmd(pairs[i].0, pairs[i].1))
  }

  /** Sum of the count replies; other replies add nothing. */
  function SumCounts(replies: seq<Reply>): nat {
    if |replies| == 0 then 0
    else (if replies[0].Count? then replies[0].n else 0) + SumCounts(replies[1..])
  }

  /** The value replies, in order; other replies read as nil. */
  function Values(replies: seq<Reply>): seq<Option<Value>> {
    seq(|replies|, i requires 0 <= i < |replies| => if replies[i].Bulk? then replies[i].v else None)
  }

  function KeySet(keys: seq<Key>): set<Key> {
    set k | k in keys
  }

  // ---------------------------------------------------------------------
  // The batches, executed
  // ---------------------------------------------------------------------

  lemma KeySetCons(keys: seq<Key>)
    requires |keys| > 0
    ensures KeySet(keys) == {keys[0]} + KeySet(keys[1..])
  {
  }

  /** The first DEL of a batch runs against the whole store, the rest against what it leaves. */
  lemma DelUnfold(s: KeySpace, keys: seq<Key>)
    requires |keys| > 0
    ensures var tail := ExecBatch(Del(s, keys[0]), DelCommands(keys[1..]));
      ExecBatch(s, DelCommands(keys)) == ([Count(DelCount(s, keys[0]))] + tail.0, tail.1)
  {
    assert DelCommands(keys)[1..] == DelCommands(keys[1..]);
  }

  /** Deleting `k` first accounts for exactly its own share of the existing keys. */
  lemma DelCountStep(s: KeySpace, k: Key, rest: set<Key>)
    ensures |({k} + rest) * s.Keys| == DelCount(s, k) + |rest * Del(s, k).Keys|
  {
    var keys := s.Keys;
    var there := rest * (keys - {k});
    assert Del(s, k).Keys == keys - {k};
    if k in keys {
      assert ({k} + rest) * keys == {k} + there by {
        forall x ensures x in ({k} + rest) * keys <==> x in {k} + there {
        }
      }
      assert k !in there;
      assert |{k} + there| == 1 + |there|;
    } else {
      assert ({k} + rest) * keys == there by {
        forall x ensures x in ({k} + rest) * keys <==> x in there {
        }
      }
    }
  }

  /** A batch of DELs removes exactly the listed keys. */
  lemma {:induction false} DelBatchStore(s: KeySpace, keys: seq<Key>)
    ensures ExecBatch(s, DelCommands(keys)).1 == s - KeySet(keys)
    decreases |keys|
  {
    if |keys| == 0 {
      assert KeySet(keys) == {};
    } else {
      DelUnfold(s, keys);
      DelBatchStore(Del(s, keys[0]), keys[1..]);
      KeySetCons(keys);
    }
  }

  /** The DEL replies of a batch sum to the number of distinct listed keys that existed. */
  lemma {:induction false} DelBatchCount(s: KeySpace, keys: seq<Key>)
    ensures SumCounts(ExecBatch(s, DelCommands(keys)).0) == |KeySet(keys) * s.Keys|
    decreases |keys|
  {
    if |keys| == 0 {
      assert KeySet(keys) == {};
    } else {
      var tail := ExecBatch(Del(s, keys[0]), DelCommands(keys[1..]));
      DelUnfold(s, keys);
      DelBatchCount(Del(s, keys[0]), keys[1..]);
      KeySetCons(keys);
      DelCountStep(s, keys[0], KeySet(keys[1..]));
      assert ([Count(DelCount(s, keys[0]))] + tail.0)[1..] == tail.0;
    }
  }

  /** A batch of GETs leaves the store unchanged and answers each key's value at its position. */
  lemma {:induction false} GetBatch(s: KeySpace, keys: seq<Key>)
    ensures ExecBatch(s, GetCommands(keys)).1 == s
    ensures forall i :: 0 <= i < |keys| ==> ExecBatch(s, GetCommands(keys)).0[i] == Bulk(Get(s, keys[i]))
    decreases |keys|
  {
    if |keys| > 0 {
      assert GetCommands(keys)[1..] == GetCommands(keys[1..]);
      GetBatch(s, keys[1..]);
      var replies := ExecBatch(s, GetCommands(keys)).0;
      forall i | 0 <= i < |keys|
        ensures replies[i] == Bulk(Get(s, keys[i]))
      {
        if i > 0 {
          assert keys[1..][i - 1] == keys[i];
        }
      }
    }
  }

  /** The value the pairs assign to `k` last, if they assign one. */
  function LastAssigned(pairs: seq<(Key, Value)>, k: Key): Option<Value>
    decreases |pairs|
  {
    if |pairs| == 0 then None
    else
      var later := LastAssigned(pairs[1..], k);
      if later.Some? then later
      else if pairs[0].0 == k then Some(pairs[0].1)
      else None
  }

  /** The store after the pairs are SET: assigned keys hold their last value without expiry; the rest is unchanged. */
  ghost predicate SetAll(s: KeySpace, pairs: seq<(Key, Value)>, s': KeySpace) {
    forall k ::
      && (k in s' <==> k in s || LastAssigned(pairs, k).Some?)
      && (k in s' ==> s'[k] == (if LastAssigned(pairs, k).Some? then Entry(LastAssigned(pairs, k).value, Persistent) else s[k]))
  }

  /** A batch of SETs leaves every key with its last assigned value, and no other key changes. */
  lemma {:induction false} SetBatch(s: KeySpace, pairs: seq<(Key, Value)>)
    ensures SetAll(s, pairs, ExecBatch(s, SetCommands(pairs)).1)
    decreases |pairs|
  {
    if |pairs| > 0 {
      assert SetCommands(pairs)[1..] == SetCommands(pairs[1..]);
      var s1 := Set(s, pairs[0].0, pairs[0].1);
      SetBatch(s1, pairs[1..]);
    }
  }

  // ---------------------------------------------------------------------
  // del, mGet, mSet
  // ---------------------------------------------------------------------

  /**
   del(keys). Deferred: a DEL per key is enqueued and the answer is null.
   Immediate: the answer is the number of distinct given keys that existed,
   and all of them are gone.
   */
  function DelKeys(conn: Conn, keys: seq<Key>): (r: Call<nat>)
    ensures conn.mode.Deferred() ==>
      && r.answer.None?
      && r.conn.store == conn.store
      && r.conn.queued == conn.queued + DelCommands(keys)
    ensures !conn.mode.Deferred() ==>
      && r.answer == Some(|KeySet(keys) * conn.store.Keys|)
      && r.conn.store == conn.store - KeySet(keys)
      && r.conn.queued == conn.queued
    ensures r.conn.mode == conn.mode
  {
    if conn.mode.Deferred() then
      Call(None, conn.(queued := conn.queued + DelCommands(keys)))
    else
      DelBatchStore(conn.store, keys);
      DelBatchCount(conn.store, keys);
      var (replies, s') := ExecBatch(conn.store, DelCommands(keys));
      Call(Some(SumCounts(replies)), conn.(store := s'))
  }

  /**
   mGet(keys). Deferred: a GET per key is enqueued and the answer is null.
   Immediate: the answer holds, at each position, the value of the key at that
   position, or nil when it is missing.
   */
  function MGet(conn: Conn, keys: seq<Key>): (r: Call<seq<Option<Value>>>)
    ensures conn.mode.Deferred() ==>
      && r.answer.None?
      && r.conn.queued == conn.queued + GetCommands(keys)
    ensures !conn.mode.Deferred() ==>
      && r.answer.Some?
      && |r.answer.value| == |keys|
      && (forall i :: 0 <= i < |keys| ==>
            r.answer.value[i] == (if keys[i] in conn.store then Some(conn.store[keys[i]].data) else None))
      && r.conn.queued == conn.queued
    ensures r.conn.store == conn.store && r.conn.mode == conn.mode
  {
    if conn.mode.Deferred() then
      Call(None, conn.(queued := conn.queued + GetCommands(keys)))
    else
      GetBatch(conn.store, keys);
      var (replies, s') := ExecBatch(conn.store, GetCommands(keys));
      Call(Some(Values(replies)), conn.(store := s'))
  }

  /**
   mSet(pairs), the pairs in the map's iteration order. The answer is always
   true. Deferred: a SET per pair is enqueued. Immediate: every pair is SET.
   */
  function MSet(conn: Conn, pairs: seq<(Key, Value)>): (r: Call<bool>)
    ensures r.answer == Some(true)
    ensures conn.mode.Deferred() ==>
      && r.conn.store == conn.store
      && r.conn.queued == conn.queued + SetCommands(pairs)
    ensures !conn.mode.Deferred() ==>
      && SetAll(conn.store, pairs, r.conn.store)
      && r.conn.queued == conn.queued
    ensures r.conn.mode == conn.mode
  {
    if conn.mode.Deferred() then
      Call(Some(true), conn.(queued := conn.queued + SetCommands(pairs)))
    else
      SetBatch(conn.store, pairs);
      var s' := ExecBatch(conn.store, SetCommands(pairs)).1;
      Call(Some(true), conn.(store := s'))
  }
}
