/**
 The input session of upsert sources: updates are buffered, consolidated so that at
 most one update per key remains, and sent to the engine on flush.
 */
module UpsertSessions {

  type Key = nat
  type Value = seq<int>

  const EMPTY_TUPLE: Value := []

  /** A buffered update: `diff` 1 sets the key to the value, -1 removes the key. */
  datatype Buffered = Buffered(key: Key, value: Value, time: nat, diff: int)

  // ----- the meaning of a batch for a table keyed by `Key`

  function ApplyOne(table: map<Key, Value>, u: Buffered): map<Key, Value> {
    if u.diff == 1 then table[u.key := u.value] else table - {u.key}
  }

  /** Applying updates in sequence. */
  function Apply(table: map<Key, Value>, us: seq<Buffered>): map<Key, Value> {
    if us == [] then table else ApplyOne(Apply(table, us[..|us| - 1]), us[|us| - 1])
  }

  function ApplyAll(table: map<Key, Value>, batches: seq<seq<Buffered>>): map<Key, Value> {
    if batches == [] then table else Apply(ApplyAll(table, batches[..|batches| - 1]), batches[|batches| - 1])
  }

  /** The last update of each key. */
  function LastWriter(us: seq<Buffered>): map<Key, Buffered> {
    if us == [] then map[] else LastWriter(us[..|us| - 1])[us[|us| - 1].key := us[|us| - 1]]
  }

  /** At most one update per key, and exactly the last of each key of `us`. */
  ghost predicate Consolidates(batch: seq<Buffered>, us: seq<Buffered>) {
    && (forall i, j :: 0 <= i < j < |batch| ==> batch[i].key != batch[j].key)
    && (forall i :: 0 <= i < |batch| ==> batch[i].key in LastWriter(us) && LastWriter(us)[batch[i].key] == batch[i])
    && (forall k :: k in LastWriter(us) ==> LastWriter(us)[k] in batch)
  }

  /** What `key` holds after the updates: decided by its last update alone. */
  predicate Decides(table: map<Key, Value>, after: map<Key, Value>, last: map<Key, Buffered>, key: Key) {
    if key !in last then (key in after <==> key in table) && (key in after ==> after[key] == table[key])
    else if last[key].diff == 1 then key in after && after[key] == last[key].value
    else key !in after
  }

  lemma {:induction false} LastWriterIs(us: seq<Buffered>)
    ensures forall k :: k in LastWriter(us) ==> LastWriter(us)[k] in us && LastWriter(us)[k].key == k
    ensures forall u :: u in us ==> u.key in LastWriter(us)
  {
    if us == [] {
    } else {
      LastWriterIs(us[..|us| - 1]);
      assert us == us[..|us| - 1] + [us[|us| - 1]];
    }
  }

  lemma {:induction false} ApplyDecidedByLast(table: map<Key, Value>, us: seq<Buffered>, key: Key)
    ensures Decides(table, Apply(table, us), LastWriter(us), key)
  {
    if us == [] {
    } else {
      ApplyDecidedByLast(table, us[..|us| - 1], key);
      LastWriterIs(us[..|us| - 1]);
    }
  }

  lemma {:induction false} LastOfConsolidated(batch: seq<Buffered>, i: nat)
    requires (forall a, b :: 0 <= a < b < |batch| ==> batch[a].key != batch[b].key) && i < |batch|
    ensures batch[i].key in LastWriter(batch) && LastWriter(batch)[batch[i].key] == batch[i]
  {
    if i < |batch| - 1 { LastOfConsolidated(batch[..|batch| - 1], i); }
  }

  /** Last writer wins: a consolidated batch, in whatever order, has the effect of all the buffered updates in sequence. */
  lemma ConsolidationPreservesMeaning(table: map<Key, Value>, us: seq<Buffered>, batch: seq<Buffered>)
    requires Consolidates(batch, us)
    ensures Apply(table, batch) == Apply(table, us)
  {
    LastWriterIs(batch);
    LastWriterIs(us);
    assert LastWriter(batch) == LastWriter(us) by {
      forall k | k in LastWriter(us) ensures k in LastWriter(batch) && LastWriter(batch)[k] == LastWriter(us)[k] {
        var i :| 0 <= i < |batch| && batch[i] == LastWriter(us)[k];
        LastOfConsolidated(batch, i);
      }
    }
    var a, b := Apply(table, batch), Apply(table, us);
    forall k ensures (k in a <==> k in b) && (k in a ==> a[k] == b[k]) {
      ApplyDecidedByLast(table, batch, k);
      ApplyDecidedByLast(table, us, k);
    }
  }

  lemma {:induction false} OncePerKey(batch: seq<Buffered>, u: Buffered)
    requires forall i, j :: 0 <= i < j < |batch| ==> batch[i].key != batch[j].key
    ensures multiset(batch)[u] == if u in batch then 1 else 0
  {
    if batch == [] {
    } else {
      OncePerKey(batch[..|batch| - 1], u);
      assert batch == batch[..|batch| - 1] + [batch[|batch| - 1]];
    }
  }

  /** What is sent depends on the buffer alone: any two consolidations of it are permutations of each other. */
  lemma ConsolidatedAreTheSame(us: seq<Buffered>, a: seq<Buffered>, b: seq<Buffered>)
    requires Consolidates(a, us) && Consolidates(b, us)
    ensures multiset(a) == multiset(b)
  {
    forall u ensures multiset(a)[u] == multiset(b)[u] {
      OncePerKey(a, u);
      OncePerKey(b, u);
      if u in a { assert LastWriter(us)[u.key] == u; }
      if u in b { assert LastWriter(us)[u.key] == u; }
    }
  }

  /** The loop that drains the buffer into a hash map. */
  method LatestByKey(buffer: seq<Buffered>) returns (keep: map<Key, Buffered>)
    ensures keep == LastWriter(buffer)
  {
    keep := map[];
    for k := 0 to |buffer|
      invariant keep == LastWriter(buffer[..k])
    {
      assert buffer[..k + 1][..k] == buffer[..k] && buffer[..k + 1][k] == buffer[k];
      keep := keep[buffer[k].key := buffer[k]];
    }
    assert buffer[..|buffer|] == buffer;
  }

  /** The entries of a hash map, in an order nobody controls. */
  method Entries(keep: map<Key, Buffered>) returns (batch: seq<Buffered>)
    requires forall k :: k in keep ==> keep[k].key == k
    ensures forall i, j :: 0 <= i < j < |batch| ==> batch[i].key != batch[j].key
    ensures forall i :: 0 <= i < |batch| ==> batch[i].key in keep && keep[batch[i].key] == batch[i]
    ensures forall k :: k in keep ==> keep[k] in batch
  {
    batch := [];
    var left := keep.Keys;
    while left != {}
      invariant left <= keep.Keys
      invariant forall i, j :: 0 <= i < j < |batch| ==> batch[i].key != batch[j].key
      invariant forall i :: 0 <= i < |batch| ==> batch[i].key in keep && batch[i].key !in left && keep[batch[i].key] == batch[i]
      invariant forall k :: k in keep && k !in left ==> keep[k] in batch
      decreases left
    {
      var k :| k in left;
      batch := batch + [keep[k]];
      left := left - {k};
    }
  }

  class UpsertSession {
    var time: nat
    var buffer: seq<Buffered>
    // the handle to the engine: its epoch and the batches sent
    var epoch: nat
    var sent: seq<seq<Buffered>>

    ghost predicate Valid()
      reads this
    {
      && epoch <= time
      && (forall i :: 0 <= i < |buffer| ==> epoch <= buffer[i].time <= time)
    }

    /** The table as the caller means it: everything sent, then everything buffered. */
    ghost function Table(): map<Key, Value>
      reads this
    {
      Apply(ApplyAll(map[], sent), buffer)
    }

    constructor ()
      ensures Valid() && Table() == map[] && time == 0 && epoch == 0 && sent == []
    {
      time, buffer, epoch, sent := 0, [], 0, [];
    }

    method Insert(key: Key, value: Value)
      requires Valid()
      modifies this`buffer
      ensures Valid() && Table() == old(Table())[key := value]
      ensures buffer == old(buffer) + [Buffered(key, value, time, 1)]
    {
      buffer := buffer + [Buffered(key, value, time, 1)];
      assert buffer[..|buffer| - 1] == old(buffer);
    }

    method Remove(key: Key, value: Value)
      requires Valid() && value == EMPTY_TUPLE
      modifies this`buffer
      ensures Valid() && Table() == old(Table()) - {key}
      ensures buffer == old(buffer) + [Buffered(key, value, time, -1)]
    {
      buffer := buffer + [Buffered(key, value, time, -1)];
      assert buffer[..|buffer| - 1] == old(buffer);
    }

    /** The two conditions are the session's own assertions. */
    method AdvanceTo(newTime: nat)
      requires Valid() && epoch <= newTime && time <= newTime
      modifies this`time
      ensures Valid() && time == newTime && Table() == old(Table())
    {
      time := newTime;
    }

    method ConsolidateBuffer()
      requires Valid()
      modifies this`buffer
      ensures Valid() && Consolidates(buffer, old(buffer)) && Table() == old(Table())
    {
      var keep := LatestByKey(buffer);
      LastWriterIs(buffer);
      buffer := Entries(keep);
      ConsolidationPreservesMeaning(ApplyAll(map[], sent), old(buffer), buffer);
    }

    method Flush()
      requires Valid()
      modifies this
      ensures Valid() && buffer == [] && time == old(time) && epoch == time && Table() == old(Table())
      ensures |sent| == |old(sent)| + 1 && old(sent) <= sent
      ensures Consolidates(sent[|old(sent)|], old(buffer))
      ensures forall u :: u in sent[|old(sent)|] ==> old(epoch) <= u.time <= time
    {
      ConsolidateBuffer();
      sent := sent + [buffer];
      buffer := [];
      assert sent[..|sent| - 1] == old(sent);
      if epoch < time { epoch := time; }
    }
  }
}
