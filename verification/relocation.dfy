/**
 Cluster-aware rename and renameNX. When both keys hash to the same slot the
 native command is used; otherwise the rename is emulated on the two owning
 masters by DUMP of the source, TTL of the source, RESTORE of the dumped value
 under the destination, and DEL of the source. The emulation is not atomic.
 */
module Relocation {
  import opened ClusterTypes
  import opened Store

  /** The RESTORE ttl, in milliseconds, derived from the source's TTL reply in seconds. */
  function RestoreTtlMs(ttlSeconds: int): nat {
    if ttlSeconds > 0 then ttlSeconds * 1000 else 0
  }

  /** The expiry the destination receives for a source entry with expiry `e`. */
  function RelocatedExpiry(e: Expiry): Expiry {
    ExpiryOfRestoreTtl(RestoreTtlMs(TtlOfExpiry(e)))
  }

  /** The dump, ttl, restore, del sequence; a missing source leaves the store as it is. */
  function CrossSlotRename(s: KeySpace, src: Key, dst: Key): Result<KeySpace> {
    match Dump(s, src)
    case None => Success(s)
    case Some(payload) =>
      var restored :- Restore(s, dst, RestoreTtlMs(Ttl(s, src)), payload);
      Success(Del(restored, src))
  }

  /**
   rename(src, dst). A failure leaves the store as it was: every error is
   raised before the first write.
   */
  function Rename(mode: Mode, slotOf: Key -> Slot, s: KeySpace, src: Key, dst: Key): (r: Result<KeySpace>)
    ensures mode.pipelined ==> r == Failure(RenameInPipeline)
    ensures !mode.pipelined && slotOf(src) == slotOf(dst) ==> r == NativeRename(s, src, dst)
    ensures !mode.pipelined && slotOf(src) != slotOf(dst) && src !in s ==> r == Success(s)
    ensures !mode.pipelined && slotOf(src) != slotOf(dst) && src in s && dst in s ==> r == Failure(BusyKey)
    ensures !mode.pipelined && slotOf(src) != slotOf(dst) && src in s && dst !in s ==>
      && r.Success?
      && r.value.Keys == s.Keys - {src} + {dst}
      && r.value[dst] == Entry(s[src].data, RelocatedExpiry(s[src].expiry))
      && (forall k :: k in s && k != src && k != dst ==> r.value[k] == s[k])
  {
    if mode.pipelined then Failure(RenameInPipeline)
    else if slotOf(src) == slotOf(dst) then NativeRename(s, src, dst)
    else CrossSlotRename(s, src, dst)
  }

  /** The dump, exists, ttl, restore, del sequence of renameNX across slots. */
  function CrossSlotRenameNX(s: KeySpace, src: Key, dst: Key): Result<(bool, KeySpace)> {
    var dumped := Dump(s, src);
    if dumped.Some? && !Exists(s, dst) then
      var restored :- Restore(s, dst, RestoreTtlMs(Ttl(s, src)), dumped.value);
      Success((true, Del(restored, src)))
    else
      Success((false, s))
  }

  /** renameNX(src, dst): true when the source was moved, false when nothing changed. */
  function RenameNX(mode: Mode, slotOf: Key -> Slot, s: KeySpace, src: Key, dst: Key): (r: Result<(bool, KeySpace)>)
    ensures mode.pipelined ==> r == Failure(RenameInPipeline)
    ensures !mode.pipelined && slotOf(src) == slotOf(dst) ==> r == NativeRenameNX(s, src, dst)
    ensures !mode.pipelined && slotOf(src) != slotOf(dst) && (src !in s || dst in s) ==>
      r == Success((false, s))
    ensures !mode.pipelined && slotOf(src) != slotOf(dst) && src in s && dst !in s ==>
      && r.Success?
      && r.value.0
      && r.value.1.Keys == s.Keys - {src} + {dst}
      && r.value.1[dst] == Entry(s[src].data, RelocatedExpiry(s[src].expiry))
      && (forall k :: k in s && k != src && k != dst ==> r.value.1[k] == s[k])
  {
    if mode.pipelined then Failure(RenameInPipeline)
    else if slotOf(src) == slotOf(dst) then NativeRenameNX(s, src, dst)
    else CrossSlotRenameNX(s, src, dst)
  }

  // ---------------------------------------------------------------------
  // What the emulation preserves, and where it differs from the native rename
  // ---------------------------------------------------------------------

  /**
   The relocated expiry: none stays none; a remaining time of at least half a
   second is kept to within half a second; a shorter one is dropped, so the
   destination never expires.
   */
  lemma RelocatedExpiryBounds(e: Expiry)
    ensures e.Persistent? ==> RelocatedExpiry(e) == Persistent
    ensures e.ExpiresInMs? && e.ms >= 500 ==>
      && RelocatedExpiry(e).ExpiresInMs?
      && e.ms - 500 < RelocatedExpiry(e).ms <= e.ms + 500
      && RelocatedExpiry(e).ms % 1000 == 0
    ensures e.ExpiresInMs? && e.ms < 500 ==> RelocatedExpiry(e) == Persistent
  {
  }

  /** An expiry that a round trip through the seconds-valued TTL reply keeps exactly. */
  predicate WholeSeconds(e: Expiry) {
    e.Persistent? || (e.ms > 0 && e.ms % 1000 == 0)
  }

  /** For expiries that are whole seconds, the emulation ends where the native RENAME would. */
  lemma CrossSlotMatchesNative(s: KeySpace, src: Key, dst: Key)
    requires src in s && dst !in s
    requires WholeSeconds(s[src].expiry)
    ensures CrossSlotRename(s, src, dst) == NativeRename(s, src, dst)
  {
    var e := s[src].expiry;
    if e.ExpiresInMs? {
      var q := e.ms / 1000;
      assert e.ms == q * 1000;
      assert (e.ms + 500) / 1000 == q;
    }
    assert RelocatedExpiry(e) == e;
    var restored := (s[dst := Entry(s[src].data, e)]);
    assert Del(restored, src) == Moved(s, src, dst, e);
  }

  /**
   Where the emulated rename departs from the native one: a missing source is
   no error, and an existing destination is refused rather than overwritten.
   */
  lemma CrossSlotRenameDiffers(s: KeySpace, src: Key, dst: Key)
    ensures src !in s ==>
      NativeRename(s, src, dst) == Failure(NoSuchKey) && CrossSlotRename(s, src, dst) == Success(s)
    ensures src in s && dst in s && src != dst ==>
      NativeRename(s, src, dst).Success? && CrossSlotRename(s, src, dst) == Failure(BusyKey)
  {
  }

  /** For expiries that are whole seconds and a present source, the emulated renameNX answers and ends as the native RENAMENX. */
  lemma CrossSlotNXMatchesNative(s: KeySpace, src: Key, dst: Key)
    requires src in s && src != dst
    requires WholeSeconds(s[src].expiry)
    ensures CrossSlotRenameNX(s, src, dst) == NativeRenameNX(s, src, dst)
  {
    if dst !in s {
      CrossSlotMatchesNative(s, src, dst);
    }
  }

  /** Where the two differ: with the source missing the native RENAMENX fails, the emulation answers false. */
  lemma CrossSlotNXMissingSource(s: KeySpace, src: Key, dst: Key)
    requires src !in s
    ensures NativeRenameNX(s, src, dst) == Failure(NoSuchKey)
    ensures CrossSlotRenameNX(s, src, dst) == Success((false, s))
  {
  }

  /**
   The crash window of the emulation: after RESTORE and before DEL both keys
   hold the source's value, and after DEL only the destination does. At no step
   is the value held by neither key.
   */
  lemma CrossSlotNeverLosesValue(s: KeySpace, src: Key, dst: Key)
    requires src in s && dst !in s && src != dst
    ensures
      var restored := Restore(s, dst, RestoreTtlMs(Ttl(s, src)), s[src].data);
      && restored.Success?
      && Dump(restored.value, src) == Some(s[src].data)
      && Dump(restored.value, dst) == Some(s[src].data)
      && Dump(Del(restored.value, src), src) == None
      && Dump(Del(restored.value, src), dst) == Some(s[src].data)
      && CrossSlotRename(s, src, dst) == Success(Del(restored.value, src))
  {
  }
}
