/** The content-addressed message store: one `messages` row per message key with its
    `occurrence_count`, one `trace_messages` row per slot of a trace. `SaveMessages` is the loop of
    `save_trace_analysis`; every save is retried and repeated freely. */
module MessageCounts {

  /** The primary key of `trace_messages`. */
  datatype Slot = Slot(trace: string, direction: string, sequenceIndex: int, sourcePath: string)

  type MessageKey = string

  datatype Message = Message(key: MessageKey, slot: Slot)

  /** `messages` (key to occurrence count) and `trace_messages` (slot to message key). */
  datatype Tables = Tables(counts: map<MessageKey, nat>, slots: map<Slot, MessageKey>)

  const EMPTY := Tables(map[], map[])

  /** The tables after one more message. */
  function Saved(t: Tables, m: Message): Tables {
    var isNew := m.key !in t.counts;
    var taken := m.slot in t.slots;
    Tables(
      if isNew then t.counts[m.key := 1]
      else if taken then t.counts
      else t.counts[m.key := t.counts[m.key] + 1],
      if taken then t.slots else t.slots[m.slot := m.key])
  }

  function After(t: Tables, ms: seq<Message>): Tables {
    if ms == [] then t else Saved(After(t, ms[..|ms| - 1]), ms[|ms| - 1])
  }

  class MessageRepository {
    var counts: map<MessageKey, nat>
    var slots: map<Slot, MessageKey>

    ghost function Contents(): Tables
      reads this
    {
      Tables(counts, slots)
    }

    constructor ()
      ensures Contents() == EMPTY
    {
      counts, slots := map[], map[];
    }

    /** The message loop of `save_trace_analysis`. */
    method SaveMessages(messages: seq<Message>)
      modifies this
      ensures Contents() == After(old(Contents()), messages)
    {
      for i := 0 to |messages|
        invariant Contents() == After(old(Contents()), messages[..i])
      {
        assert messages[..i + 1][..i] == messages[..i];
        var m := messages[i];
        var isNew := m.key !in counts;
        if isNew { counts := counts[m.key := 1]; }
        var inserted := m.slot !in slots;
        if inserted { slots := slots[m.slot := m.key]; }
        if inserted && !isNew { counts := counts[m.key := counts[m.key] + 1]; }
      }
      assert messages[..|messages|] == messages;
    }
  }

  // ----- what the counter counts -----

  /** The slots holding a message. */
  ghost function Holders(t: Tables, k: MessageKey): set<Slot> {
    set s | s in t.slots && t.slots[s] == k
  }

  /** The slot already belongs to something else when the message arrives for the first time. */
  ghost predicate BornHomeless(t: Tables, m: Message) {
    m.key !in t.counts && m.slot in t.slots
  }

  /** Some save in the history created the message while its slot was taken. */
  ghost predicate Orphaned(ms: seq<Message>, k: MessageKey) {
    exists i :: 0 <= i < |ms| && ms[i].key == k && BornHomeless(After(EMPTY, ms[..i]), ms[i])
  }

  lemma HoldersAfter(t: Tables, m: Message, k: MessageKey)
    ensures Holders(Saved(t, m), k) == Holders(t, k) + if m.slot !in t.slots && m.key == k then {m.slot} else {}
  {
  }

  /** Everything a slot holds has a `messages` row. */
  ghost predicate Referential(t: Tables) {
    forall s | s in t.slots :: t.slots[s] in t.counts
  }

  lemma NoRowNoHolders(t: Tables, k: MessageKey)
    requires Referential(t) && k !in t.counts
    ensures Holders(t, k) == {}
  {
  }

  lemma OrphanedSnoc(ms: seq<Message>, m: Message, k: MessageKey)
    ensures Orphaned(ms + [m], k) <==> Orphaned(ms, k) || (m.key == k && BornHomeless(After(EMPTY, ms), m))
  {
    var all := ms + [m];
    assert all[..|ms|] == ms && all[|ms|] == m;
    assert forall i | 0 <= i < |ms| :: all[..i] == ms[..i] && all[i] == ms[i];
  }

  /** After any history of saves, a message's count is the number of slots holding it, plus one
      exactly when the save that created it found its slot taken. */
  lemma {:induction false} CountsExactly(ms: seq<Message>, k: MessageKey)
    ensures Referential(After(EMPTY, ms))
    ensures k in After(EMPTY, ms).counts <==> exists m :: m in ms && m.key == k
    ensures k in After(EMPTY, ms).counts ==>
      After(EMPTY, ms).counts[k] == |Holders(After(EMPTY, ms), k)| + if Orphaned(ms, k) then 1 else 0
    ensures k !in After(EMPTY, ms).counts ==> !Orphaned(ms, k)
    decreases |ms|
  {
    if ms != [] {
      var front, m := ms[..|ms| - 1], ms[|ms| - 1];
      var t := After(EMPTY, front);
      assert ms == front + [m];
      CountsExactly(front, k);
      OrphanedSnoc(front, m, k);
      HoldersAfter(t, m, k);
      assert m.slot !in t.slots ==> m.slot !in Holders(t, k);
      if k !in t.counts { NoRowNoHolders(t, k); }
    }
  }

  /** Re-normalizing a trace yields the same message for the same slot. */
  ghost predicate Deterministic(ms: seq<Message>) {
    forall m, n | m in ms && n in ms :: m.slot == n.slot ==> m.key == n.key
  }

  lemma {:induction false} SlotsComeFromSaves(ms: seq<Message>, s: Slot)
    requires s in After(EMPTY, ms).slots
    ensures Message(After(EMPTY, ms).slots[s], s) in ms
    decreases |ms|
  {
    if ms != [] {
      var front, m := ms[..|ms| - 1], ms[|ms| - 1];
      assert ms == front + [m];
      if s in After(EMPTY, front).slots { SlotsComeFromSaves(front, s); }
    }
  }

  /** When saves are deterministic the count is exactly the number of slots, however often each
      trace is saved again. */
  lemma RetriesDoNotInflate(ms: seq<Message>, k: MessageKey)
    requires Deterministic(ms)
    requires k in After(EMPTY, ms).counts
    ensures After(EMPTY, ms).counts[k] == |Holders(After(EMPTY, ms), k)|
  {
    CountsExactly(ms, k);
    forall i | 0 <= i < |ms| && ms[i].key == k ensures !BornHomeless(After(EMPTY, ms[..i]), ms[i]) {
      var t := After(EMPTY, ms[..i]);
      if ms[i].slot in t.slots {
        SlotsComeFromSaves(ms[..i], ms[i].slot);
        CountsExactly(ms[..i], t.slots[ms[i].slot]);
        assert Message(t.slots[ms[i].slot], ms[i].slot) in ms;
      }
    }
  }

  /** Saving what is already there changes nothing. */
  lemma {:induction false} ResaveIsNoOp(t: Tables, ms: seq<Message>)
    requires forall m | m in ms :: m.key in t.counts && m.slot in t.slots
    ensures After(t, ms) == t
    decreases |ms|
  {
    if ms != [] { ResaveIsNoOp(t, ms[..|ms| - 1]); }
  }

  lemma {:induction false} SavesPersist(t: Tables, ms: seq<Message>)
    ensures forall m | m in ms :: m.key in After(t, ms).counts && m.slot in After(t, ms).slots
    ensures forall s | s in t.slots :: s in After(t, ms).slots && After(t, ms).slots[s] == t.slots[s]
    decreases |ms|
  {
    if ms != [] {
      var front, m := ms[..|ms| - 1], ms[|ms| - 1];
      assert ms == front + [m];
      SavesPersist(t, front);
    }
  }

  /** A batch saved a second time straight away, as a retry does, leaves both tables alone. */
  lemma RetryIsIdempotent(t: Tables, ms: seq<Message>)
    ensures After(After(t, ms), ms) == After(t, ms)
  {
    SavesPersist(t, ms);
    ResaveIsNoOp(After(t, ms), ms);
  }

  /** Two different messages for one slot: the second is counted once and held nowhere. */
  lemma ChangedSlotLeavesAnOrphan(s: Slot, a: MessageKey, b: MessageKey)
    requires a != b
    ensures var t := After(EMPTY, [Message(a, s), Message(b, s)]);
      b in t.counts && t.counts[b] == 1 && Holders(t, b) == {}
  {
    var ms := [Message(a, s), Message(b, s)];
    assert ms[..1] == [Message(a, s)];
    assert After(EMPTY, ms[..1]) == Saved(EMPTY, ms[0]);
  }
}
