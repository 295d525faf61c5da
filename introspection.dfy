/** The profiling side channel of the translator (ILIntrospectionCounter):
    per guest-instruction kind, a rolling window of emission latencies, a hit
    counter and the distinct generated sizes; per guest subroutine, a record of
    compile and execution timings merged on every re-encounter. */
module Introspection {
  import opened Common

  /** Number of emission latencies kept per instruction kind. */
  const RollingAverageWindow: nat := 512

  /** What the counter needs of a decoded guest instruction (OpCode64): the
      name of the method that emits it and the name of its instruction type,
      either of which may be missing. */
  datatype OpCode64 = OpCode64(emitterName: Option<string>, instType: Option<string>)

  /** The identity of an ILKey: the bit pattern of its 32-bit hash code. Two
      keys are equal exactly when these are. */
  type KeyHash = int

  /** Timings observed for one guest subroutine (durations in ticks) and how
      many observations were merged into the record. */
  datatype SubroutineExecutionTime = SubroutineExecutionTime(
    tier0JitTime: Option<int64>,
    tier1JitTime: Option<int64>,
    ryuJitTime: Option<int64>,
    executionTime: Option<int64>,
    executionCount: nat)

  /** ILKey.GetHashCode: the hash of the emitter method's name (of the empty
      string when there is none) XOR the hash of the instruction type (0 when
      there is none). The runtime's string and type hashes are parameters. */
  function HashCode(op: OpCode64, nameHash: string -> bv32, typeHash: string -> bv32): bv32
  {
    MethodCode(op.emitterName, nameHash) ^ TypeCode(op.instType, typeHash)
  }

  function MethodCode(name: Option<string>, nameHash: string -> bv32): bv32
  {
    if name.Some? then nameHash(name.value) else nameHash("")
  }

  function TypeCode(instType: Option<string>, typeHash: string -> bv32): bv32
  {
    if instType.Some? then typeHash(instType.value) else 0
  }

  /** The dictionary key of an instruction kind: its hash code's bit pattern. */
  function KeyOf(op: OpCode64, nameHash: string -> bv32, typeHash: string -> bv32): (k: KeyHash)
    ensures 0 <= k < 0x1_0000_0000
  {
    HashCode(op, nameHash, typeHash) as int
  }

  /** ILKey.Equals: equal hash codes. */
  predicate SameKey(a: OpCode64, b: OpCode64, nameHash: string -> bv32, typeHash: string -> bv32)
  {
    HashCode(a, nameHash, typeHash) == HashCode(b, nameHash, typeHash)
  }

  /** Two instruction kinds emitted by the same method are one key exactly
      when their types hash alike: the method's share of the XOR cancels. */
  lemma SameEmitterSameKeyIff(m: Option<string>, t1: string, t2: string, nameHash: string -> bv32, typeHash: string -> bv32)
    ensures SameKey(OpCode64(m, Some(t1)), OpCode64(m, Some(t2)), nameHash, typeHash) <==> typeHash(t1) == typeHash(t2)
  {
    var h, a, b := MethodCode(m, nameHash), typeHash(t1), typeHash(t2);
    assert HashCode(OpCode64(m, Some(t1)), nameHash, typeHash) == h ^ a;
    assert HashCode(OpCode64(m, Some(t2)), nameHash, typeHash) == h ^ b;
    XorCancel(h, a, b);
  }

  lemma XorCancel(h: bv32, a: bv32, b: bv32)
    ensures (h ^ a == h ^ b) <==> a == b
  {
  }

  /** An emitter without a method and one whose method's name is empty are
      the same key for every instruction type, and so is a missing type
      against one whose hash is 0. */
  lemma MissingPartsHashAsEmpty(t: Option<string>, m: Option<string>, nameHash: string -> bv32, typeHash: string -> bv32)
    ensures SameKey(OpCode64(None, t), OpCode64(Some(""), t), nameHash, typeHash)
    ensures forall u :: typeHash(u) == 0 ==> SameKey(OpCode64(m, None), OpCode64(m, Some(u)), nameHash, typeHash)
  {
  }

  // ---------------------------------------------------------------------
  // Emission latencies: a bounded FIFO
  // ---------------------------------------------------------------------

  /** The update applied to a stored queue: dequeue the oldest sample when the
      window is full, then enqueue the new one. */
  function PushWindow(q: seq<int64>, x: int64): (r: seq<int64>)
    ensures |q| <= RollingAverageWindow ==> |r| <= RollingAverageWindow
    ensures r != [] && r[|r| - 1] == x
  {
    if |q| >= RollingAverageWindow then q[1..] + [x] else q + [x]
  }

  /** The latest samples of a history that the window can hold, in arrival order. */
  function Latest(h: seq<int64>): (r: seq<int64>)
    ensures |r| <= RollingAverageWindow
  {
    if |h| <= RollingAverageWindow then h else h[|h| - RollingAverageWindow..]
  }

  /** Pushing onto the window of a history gives the window of the extended
      history: the queue always holds the latest 512 samples, oldest first. */
  lemma PushWindowKeepsLatest(h: seq<int64>, x: int64)
    ensures PushWindow(Latest(h), x) == Latest(h + [x])
  {
    var h' := h + [x];
    if |h| < RollingAverageWindow {
    } else if |h| == RollingAverageWindow {
      assert Latest(h') == h'[1..];
      assert h'[1..] == h[1..] + [x];
    } else {
      var n := |h| - RollingAverageWindow;
      assert Latest(h') == h'[n + 1..];
      assert Latest(h)[1..] == h[n + 1..];
      assert h'[n + 1..] == h[n + 1..] + [x];
    }
  }

  // ---------------------------------------------------------------------
  // Generated sizes: distinct values in first-seen order
  // ---------------------------------------------------------------------

  /** The update applied to a stored size list. */
  function AddDistinct(list: seq<int32>, x: int32): (r: seq<int32>)
    ensures x in r && list <= r && |r| <= |list| + 1
  {
    if x in list then list else list + [x]
  }

  /** Position of the first occurrence of `x` in `h`. */
  function FirstIndex(h: seq<int32>, x: int32): (i: nat)
    requires x in h
    ensures i < |h| && h[i] == x && x !in h[..i]
  {
    if h[0] == x then 0 else 1 + FirstIndex(h[1..], x)
  }

  /** `list` holds each value of the history `h` exactly once, ordered by where
      it first appeared in `h`. */
  ghost predicate DistinctInFirstSeenOrder(list: seq<int32>, h: seq<int32>)
  {
    && NoDuplicates(list)
    && (forall x :: x in list <==> x in h)
    && (forall i, j :: 0 <= i < j < |list| ==> FirstIndex(h, list[i]) < FirstIndex(h, list[j]))
  }

  lemma FirstIndexExtend(h: seq<int32>, x: int32, y: int32)
    requires y in h
    ensures y in h + [x] && FirstIndex(h + [x], y) == FirstIndex(h, y)
  {
    var i := FirstIndex(h, y);
    assert (h + [x])[..i] == h[..i];
    FirstIndexUnique(h + [x], y, i);
  }

  lemma FirstIndexUnique(h: seq<int32>, y: int32, i: nat)
    requires i < |h| && h[i] == y && y !in h[..i]
    ensures FirstIndex(h, y) == i
  {
  }

  /** Tracking a size keeps the list duplicate-free and in first-seen order;
      a size already present leaves it unchanged. */
  lemma {:induction false} AddDistinctKeepsOrder(list: seq<int32>, h: seq<int32>, x: int32)
    requires DistinctInFirstSeenOrder(list, h)
    ensures DistinctInFirstSeenOrder(AddDistinct(list, x), h + [x])
    ensures x in h ==> AddDistinct(list, x) == list
  {
    var r := AddDistinct(list, x);
    var h' := h + [x];
    forall y | y in list ensures y in h' && FirstIndex(h', y) == FirstIndex(h, y) {
      FirstIndexExtend(h, x, y);
    }
    if x !in list {
      assert x !in h;
      assert h'[|h|] == x && x !in h'[..|h|];
      FirstIndexUnique(h', x, |h|);
      forall i, j | 0 <= i < j < |r| ensures FirstIndex(h', r[i]) < FirstIndex(h', r[j]) {
        assert r[i] == list[i];
        if j < |list| {
          assert r[j] == list[j];
        } else {
          assert r[j] == x;
          assert FirstIndex(h', r[i]) == FirstIndex(h, list[i]) < |h|;
        }
      }
      forall y ensures y in r <==> y in h' {
        assert y in r <==> y in list || y == x;
      }
    } else {
      forall i, j | 0 <= i < j < |r| ensures FirstIndex(h', r[i]) < FirstIndex(h', r[j]) {
        assert r[i] in list && r[j] in list;
      }
    }
  }

  // ---------------------------------------------------------------------
  // Per instruction kind: the three tables Track updates
  // ---------------------------------------------------------------------

  /** The three per-key dictionaries of the counter. */
  datatype OpcodeTables = OpcodeTables(
    emitTime: map<KeyHash, seq<int64>>,
    emitCount: map<KeyHash, nat>,
    sizes: map<KeyHash, seq<int32>>)

  /** The emit-time AddOrUpdate: a new key gets a queue holding just the
      sample, a known key's queue gets it pushed. */
  function EnqueueTime(m: map<KeyHash, seq<int64>>, key: KeyHash, emitTicks: int64): map<KeyHash, seq<int64>>
  {
    if key in m then m[key := PushWindow(m[key], emitTicks)] else m[key := [emitTicks]]
  }

  /** The emit-count AddOrUpdate: 1 for a new key, one more for a known key. */
  function IncrementCount(m: map<KeyHash, nat>, key: KeyHash): map<KeyHash, nat>
  {
    if key in m then var count := m[key]; m[key := count + 1] else m[key := 1]
  }

  /** The size AddOrUpdate: a new key gets a list holding just the size. */
  function RecordSize(m: map<KeyHash, seq<int32>>, key: KeyHash, size: int32): map<KeyHash, seq<int32>>
  {
    if key in m then m[key := AddDistinct(m[key], size)] else m[key := [size]]
  }

  /** One call of Track, as its three AddOrUpdate calls. */
  function TrackOpcode(t: OpcodeTables, key: KeyHash, emitTicks: int64, size: int32): (r: OpcodeTables)
    ensures key in r.emitTime && key in r.emitCount && key in r.sizes
    ensures r.emitCount[key] >= 1
  {
    OpcodeTables(EnqueueTime(t.emitTime, key, emitTicks), IncrementCount(t.emitCount, key), RecordSize(t.sizes, key, size))
  }

  /** A history extended by one sample under `key`. */
  function Extend<T>(h: map<KeyHash, seq<T>>, key: KeyHash, x: T): map<KeyHash, seq<T>>
  {
    if key in h then h[key := h[key] + [x]] else h[key := [x]]
  }

  /** The tables agree with the full histories of latencies and sizes tracked
      per key: the queue is the latest window, the count the number of calls,
      the size list the distinct sizes in first-seen order. */
  ghost predicate TablesMatchHistory(t: OpcodeTables, times: map<KeyHash, seq<int64>>, sizes: map<KeyHash, seq<int32>>)
  {
    && t.emitTime.Keys == t.emitCount.Keys == t.sizes.Keys == times.Keys == sizes.Keys
    && forall k :: k in times ==>
         && |times[k]| == |sizes[k]| >= 1
         && t.emitTime[k] == Latest(times[k])
         && t.emitCount[k] == |times[k]|
         && DistinctInFirstSeenOrder(t.sizes[k], sizes[k])
  }

  /** TrackOpcodeMatchesHistory, stated about the tables and histories as
      they stand after the update. */
  lemma TrackedTablesMatchHistory(t: OpcodeTables, times: map<KeyHash, seq<int64>>, sizes: map<KeyHash, seq<int32>>,
                                  key: KeyHash, emitTicks: int64, size: int32,
                                  t': OpcodeTables, times': map<KeyHash, seq<int64>>, sizes': map<KeyHash, seq<int32>>)
    requires TablesMatchHistory(t, times, sizes)
    requires t' == TrackOpcode(t, key, emitTicks, size)
    requires times' == Extend(times, key, emitTicks) && sizes' == Extend(sizes, key, size)
    ensures TablesMatchHistory(t', times', sizes')
  {
    TrackOpcodeMatchesHistory(t, times, sizes, key, emitTicks, size);
  }

  /** Track keeps the tables in agreement with the histories extended by the
      new sample. */
  lemma TrackOpcodeMatchesHistory(t: OpcodeTables, times: map<KeyHash, seq<int64>>, sizes: map<KeyHash, seq<int32>>,
                                  key: KeyHash, emitTicks: int64, size: int32)
    requires TablesMatchHistory(t, times, sizes)
    ensures TablesMatchHistory(TrackOpcode(t, key, emitTicks, size), Extend(times, key, emitTicks), Extend(sizes, key, size))
  {
    var t' := TrackOpcode(t, key, emitTicks, size);
    if key in times {
      PushWindowKeepsLatest(times[key], emitTicks);
      AddDistinctKeepsOrder(t.sizes[key], sizes[key], size);
    } else {
      assert DistinctInFirstSeenOrder([size], [size]) by {
        assert FirstIndex([size], size) == 0;
      }
    }
  }

  /** The first Track of a key stores exactly that sample, a count of 1 and
      that size; every later one adds exactly 1 to the count. */
  lemma TrackOpcodeCounts(t: OpcodeTables, key: KeyHash, emitTicks: int64, size: int32)
    ensures key !in t.emitTime ==> TrackOpcode(t, key, emitTicks, size).emitTime[key] == [emitTicks]
    ensures key !in t.sizes ==> TrackOpcode(t, key, emitTicks, size).sizes[key] == [size]
    ensures TrackOpcode(t, key, emitTicks, size).emitCount[key] == if key in t.emitCount then t.emitCount[key] + 1 else 1
  {
  }

  /** The three table updates of Track. */
  method TrackTables(t: OpcodeTables, key: KeyHash, emitTicks: int64, size: int32) returns (t': OpcodeTables)
    ensures t' == TrackOpcode(t, key, emitTicks, size)
  {
    var times := Enqueue(t.emitTime, key, emitTicks);
    var counts := Increment(t.emitCount, key);
    var sizes := Record(t.sizes, key, size);
    t' := OpcodeTables(times, counts, sizes);
  }

  /** The emit-time update of Track: drop the oldest sample once the window
      is full, then append. */
  method Enqueue(times: map<KeyHash, seq<int64>>, key: KeyHash, emitTicks: int64) returns (times': map<KeyHash, seq<int64>>)
    ensures times' == EnqueueTime(times, key, emitTicks)
  {
    times' := times;
    if key in times' {
      var queue := times'[key];
      if |queue| >= RollingAverageWindow {
        queue := queue[1..];
      }
      queue := queue + [emitTicks];
      times' := times'[key := queue];
    } else {
      times' := times'[key := [emitTicks]];
    }
  }

  /** The emit-count update of Track. */
  method Increment(counts: map<KeyHash, nat>, key: KeyHash) returns (counts': map<KeyHash, nat>)
    ensures counts' == IncrementCount(counts, key)
  {
    counts' := counts;
    if key in counts' {
      var count := counts'[key];
      counts' := counts'[key := count + 1];
    } else {
      counts' := counts'[key := 1];
    }
  }

  /** The size-list update of Track: a size not yet listed is appended. */
  method Record(sizes: map<KeyHash, seq<int32>>, key: KeyHash, size: int32) returns (sizes': map<KeyHash, seq<int32>>)
    ensures sizes' == RecordSize(sizes, key, size)
  {
    sizes' := sizes;
    if key in sizes' {
      var list := sizes'[key];
      if size !in list {
        list := list + [size];
      }
      sizes' := sizes'[key := list];
    } else {
      sizes' := sizes'[key := [size]];
    }
  }

  // ---------------------------------------------------------------------
  // Per subroutine: write-once timings and an additive counter
  // ---------------------------------------------------------------------

  /** Keep a stored timing; fill it from the incoming one only when absent. */
  function FillOnce(stored: Option<int64>, incoming: Option<int64>): (r: Option<int64>)
    ensures stored.Some? ==> r == stored
    ensures r.Some? <==> stored.Some? || incoming.Some?
  {
    if incoming.Some? && stored.None? then incoming else stored
  }

  /** The update AddOrUpdate applies to a stored record. */
  function MergeTimes(stored: SubroutineExecutionTime, incoming: SubroutineExecutionTime): SubroutineExecutionTime
  {
    SubroutineExecutionTime(
      FillOnce(stored.tier0JitTime, incoming.tier0JitTime),
      FillOnce(stored.tier1JitTime, incoming.tier1JitTime),
      FillOnce(stored.ryuJitTime, incoming.ryuJitTime),
      FillOnce(stored.executionTime, incoming.executionTime),
      stored.executionCount + 1)
  }

  /** The in-place update of a stored record: each timing is filled only if
      still missing, and the count goes up by one. */
  method MergeInto(stored: SubroutineExecutionTime, incoming: SubroutineExecutionTime) returns (obj: SubroutineExecutionTime)
    ensures obj == MergeTimes(stored, incoming)
  {
    obj := stored;
    if incoming.tier0JitTime.Some? && obj.tier0JitTime.None? { obj := obj.(tier0JitTime := incoming.tier0JitTime); }
    if incoming.tier1JitTime.Some? && obj.tier1JitTime.None? { obj := obj.(tier1JitTime := incoming.tier1JitTime); }
    if incoming.ryuJitTime.Some? && obj.ryuJitTime.None? { obj := obj.(ryuJitTime := incoming.ryuJitTime); }
    if incoming.executionTime.Some? && obj.executionTime.None? { obj := obj.(executionTime := incoming.executionTime); }
    obj := obj.(executionCount := obj.executionCount + 1);
  }

  /** One TrackSubroutine call on the table keyed by guest address: a new
      address stores the incoming record with a count of 1. */
  function TrackJitTime(m: map<int64, SubroutineExecutionTime>, address: int64, record: SubroutineExecutionTime)
    : (r: map<int64, SubroutineExecutionTime>)
    ensures r.Keys == m.Keys + {address}
    ensures forall a :: a in m && a != address ==> r[a] == m[a]
    ensures r[address].executionCount == if address in m then m[address].executionCount + 1 else 1
  {
    m[address := if address in m then MergeTimes(m[address], record) else record.(executionCount := 1)]
  }

  /** The first present value of a sequence of optional timings. */
  function FirstPresent(xs: seq<Option<int64>>): Option<int64>
  {
    if xs == [] then None else if xs[0].Some? then xs[0] else FirstPresent(xs[1..])
  }

  function Tier0Times(obs: seq<SubroutineExecutionTime>): seq<Option<int64>> { seq(|obs|, i requires 0 <= i < |obs| => obs[i].tier0JitTime) }
  function Tier1Times(obs: seq<SubroutineExecutionTime>): seq<Option<int64>> { seq(|obs|, i requires 0 <= i < |obs| => obs[i].tier1JitTime) }
  function RyuJitTimes(obs: seq<SubroutineExecutionTime>): seq<Option<int64>> { seq(|obs|, i requires 0 <= i < |obs| => obs[i].ryuJitTime) }
  function ExecutionTimes(obs: seq<SubroutineExecutionTime>): seq<Option<int64>> { seq(|obs|, i requires 0 <= i < |obs| => obs[i].executionTime) }

  /** What the stored record should say after a sequence of observations of
      one address: every timing is the first one ever observed, the count is
      the number of observations. */
  function Aggregate(obs: seq<SubroutineExecutionTime>): SubroutineExecutionTime
  {
    SubroutineExecutionTime(FirstPresent(Tier0Times(obs)), FirstPresent(Tier1Times(obs)),
                            FirstPresent(RyuJitTimes(obs)), FirstPresent(ExecutionTimes(obs)), |obs|)
  }

  lemma {:induction false} FirstPresentAppend(xs: seq<Option<int64>>, y: Option<int64>)
    ensures FirstPresent(xs + [y]) == FillOnce(FirstPresent(xs), y)
  {
    if xs != [] {
      assert (xs + [y])[1..] == xs[1..] + [y];
      FirstPresentAppend(xs[1..], y);
    }
  }

  /** Merging one more observation into the aggregate of the earlier ones
      gives the aggregate of all of them: first observation wins per timing,
      the count goes up by one. */
  lemma MergeTimesExtendsAggregate(obs: seq<SubroutineExecutionTime>, o: SubroutineExecutionTime)
    requires obs != []
    ensures MergeTimes(Aggregate(obs), o) == Aggregate(obs + [o])
  {
    var all := obs + [o];
    assert Tier0Times(all) == Tier0Times(obs) + [o.tier0JitTime];
    assert Tier1Times(all) == Tier1Times(obs) + [o.tier1JitTime];
    assert RyuJitTimes(all) == RyuJitTimes(obs) + [o.ryuJitTime];
    assert ExecutionTimes(all) == ExecutionTimes(obs) + [o.executionTime];
    FirstPresentAppend(Tier0Times(obs), o.tier0JitTime);
    FirstPresentAppend(Tier1Times(obs), o.tier1JitTime);
    FirstPresentAppend(RyuJitTimes(obs), o.ryuJitTime);
    FirstPresentAppend(ExecutionTimes(obs), o.executionTime);
  }

  /** A stored timing is never overwritten, an absent one is filled exactly
      when the incoming value is present, and the count grows by exactly 1
      whatever the incoming record holds. */
  lemma MergeTimesWriteOnce(stored: SubroutineExecutionTime, incoming: SubroutineExecutionTime)
    ensures stored.tier0JitTime.Some? ==> MergeTimes(stored, incoming).tier0JitTime == stored.tier0JitTime
    ensures stored.tier1JitTime.Some? ==> MergeTimes(stored, incoming).tier1JitTime == stored.tier1JitTime
    ensures stored.ryuJitTime.Some? ==> MergeTimes(stored, incoming).ryuJitTime == stored.ryuJitTime
    ensures stored.executionTime.Some? ==> MergeTimes(stored, incoming).executionTime == stored.executionTime
    ensures stored.tier0JitTime.None? ==> MergeTimes(stored, incoming).tier0JitTime == incoming.tier0JitTime
    ensures stored.tier1JitTime.None? ==> MergeTimes(stored, incoming).tier1JitTime == incoming.tier1JitTime
    ensures stored.ryuJitTime.None? ==> MergeTimes(stored, incoming).ryuJitTime == incoming.ryuJitTime
    ensures stored.executionTime.None? ==> MergeTimes(stored, incoming).executionTime == incoming.executionTime
    ensures MergeTimes(stored, incoming).executionCount == stored.executionCount + 1
  {
  }

  /** The stored record of an address always equals the aggregate of the
      observations tracked for it, and no other address changes. */
  lemma TrackJitTimeAggregates(m: map<int64, SubroutineExecutionTime>, obs: map<int64, seq<SubroutineExecutionTime>>,
                               address: int64, record: SubroutineExecutionTime)
    requires m.Keys == obs.Keys
    requires forall a :: a in obs ==> obs[a] != [] && m[a] == Aggregate(obs[a])
    ensures var obs' := obs[address := if address in obs then obs[address] + [record] else [record]];
            var m' := TrackJitTime(m, address, record);
            && m'.Keys == obs'.Keys
            && (forall a :: a in obs' ==> obs'[a] != [] && m'[a] == Aggregate(obs'[a]))
            && (forall a :: a in m && a != address ==> m'[a] == m[a])
  {
    if address in obs {
      MergeTimesExtendsAggregate(obs[address], record);
    } else {
      var one := [record];
      assert forall xs: seq<Option<int64>> :: |xs| == 1 ==> FirstPresent(xs) == xs[0];
      assert Tier0Times(one) == [record.tier0JitTime];
      assert Tier1Times(one) == [record.tier1JitTime];
      assert RyuJitTimes(one) == [record.ryuJitTime];
      assert ExecutionTimes(one) == [record.executionTime];
    }
  }

  /** Each address's stored record is the aggregate of the observations
      tracked for it. */
  ghost predicate Aggregates(m: map<int64, SubroutineExecutionTime>, obs: map<int64, seq<SubroutineExecutionTime>>)
  {
    && m.Keys == obs.Keys
    && forall a :: a in obs ==> obs[a] != [] && m[a] == Aggregate(obs[a])
  }

  /** The AddOrUpdate of TrackSubroutine on the timing table: a new address
      stores the record with count 1, a known one has it merged in. */
  method StoreObservation(m: map<int64, SubroutineExecutionTime>, ghost obs: map<int64, seq<SubroutineExecutionTime>>,
                          address: int64, record: SubroutineExecutionTime)
    returns (m': map<int64, SubroutineExecutionTime>, ghost obs': map<int64, seq<SubroutineExecutionTime>>)
    requires Aggregates(m, obs)
    ensures m' == TrackJitTime(m, address, record)
    ensures obs' == obs[address := if address in obs then obs[address] + [record] else [record]]
    ensures Aggregates(m', obs')
  {
    TrackJitTimeAggregates(m, obs, address, record);
    var stored := record.(executionCount := 1);
    if address in m {
      stored := MergeInto(m[address], record);
    }
    m' := m[address := stored];
    obs' := obs[address := if address in obs then obs[address] + [record] else [record]];
  }

  /** Merging (tier0 = 5, -, -, -) and then (-, tier1 = 3, -, -) for one address
      yields tier0 = 5, tier1 = 3 and a count of 2. */
  lemma MergeExample(address: int64)
    ensures var first := SubroutineExecutionTime(Some(5), None, None, None, 1);
            var second := SubroutineExecutionTime(None, Some(3), None, None, 1);
            TrackJitTime(TrackJitTime(map[], address, first), address, second)[address]
              == SubroutineExecutionTime(Some(5), Some(3), None, None, 2)
  {
  }

  // ---------------------------------------------------------------------
  // The counter itself
  // ---------------------------------------------------------------------

  /** ILIntrospectionCounter as an object: the four dictionaries are fields
      updated in place; the ghost fields record every sample ever tracked,
      against which the invariant states what the dictionaries hold. */
  class IntrospectionCounter {
    const nameHash: string -> bv32
    const typeHash: string -> bv32

    var emitTime: map<KeyHash, seq<int64>>
    var emitCount: map<KeyHash, nat>
    var sizeCounter: map<KeyHash, seq<int32>>
    var jitTime: map<int64, SubroutineExecutionTime>

    ghost var timeHistory: map<KeyHash, seq<int64>>
    ghost var sizeHistory: map<KeyHash, seq<int32>>
    ghost var observations: map<int64, seq<SubroutineExecutionTime>>

    ghost function Opcodes(): OpcodeTables
      reads this
    {
      OpcodeTables(emitTime, emitCount, sizeCounter)
    }

    ghost predicate Valid()
      reads this
    {
      && TablesMatchHistory(Opcodes(), timeHistory, sizeHistory)
      && TimesValid()
    }

    /** The per-subroutine table aggregates every observation of each address. */
    ghost predicate TimesValid()
      reads this
    {
      Aggregates(jitTime, observations)
    }

    constructor (nameHash: string -> bv32, typeHash: string -> bv32)
      ensures Valid()
      ensures this.nameHash == nameHash && this.typeHash == typeHash
      ensures emitTime == map[] && emitCount == map[] && sizeCounter == map[] && jitTime == map[]
    {
      this.nameHash := nameHash;
      this.typeHash := typeHash;
      emitTime, emitCount, sizeCounter, jitTime := map[], map[], map[], map[];
      timeHistory, sizeHistory, observations := map[], map[], map[];
    }

    /** Track: record one emission of `opcode` that took `emitTicks` and
        generated `size` CIL instructions. */
    method Track(opcode: OpCode64, emitTicks: int64, size: int32)
      requires Valid()
      modifies this
      ensures Valid()
      ensures var key := KeyOf(opcode, nameHash, typeHash);
              && Opcodes() == TrackOpcode(old(Opcodes()), key, emitTicks, size)
              && timeHistory == Extend(old(timeHistory), key, emitTicks)
              && sizeHistory == Extend(old(sizeHistory), key, size)
      ensures jitTime == old(jitTime) && observations == old(observations)
    {
      var key := KeyOf(opcode, nameHash, typeHash);
      TrackKey(key, emitTicks, size);
    }

    /** The body of Track once the opcode's key is known. */
    method TrackKey(key: KeyHash, emitTicks: int64, size: int32)
      requires Valid()
      modifies this
      ensures Valid()
      ensures Opcodes() == TrackOpcode(old(Opcodes()), key, emitTicks, size)
      ensures timeHistory == Extend(old(timeHistory), key, emitTicks)
      ensures sizeHistory == Extend(old(sizeHistory), key, size)
      ensures jitTime == old(jitTime) && observations == old(observations)
    {
      ghost var th, sh := Extend(timeHistory, key, emitTicks), Extend(sizeHistory, key, size);
      var tables := TrackTables(OpcodeTables(emitTime, emitCount, sizeCounter), key, emitTicks, size);
      TrackedTablesMatchHistory(Opcodes(), timeHistory, sizeHistory, key, emitTicks, size, tables, th, sh);
      emitTime, emitCount, sizeCounter := tables.emitTime, tables.emitCount, tables.sizes;
      timeHistory, sizeHistory := th, sh;
    }

    /** TrackSubroutine with the four timings passed one by one. */
    method TrackSubroutine(subroutine: int64, tier0Time: Option<int64>, tier1Time: Option<int64>,
                           ryuJitTime: Option<int64>, executionTime: Option<int64>)
      requires Valid()
      modifies this
      ensures Valid()
      ensures jitTime == TrackJitTime(old(jitTime), subroutine,
                                      SubroutineExecutionTime(tier0Time, tier1Time, ryuJitTime, executionTime, 1))
      ensures observations == old(observations)[subroutine := if subroutine in old(observations)
                                                              then old(observations)[subroutine] + [SubroutineExecutionTime(tier0Time, tier1Time, ryuJitTime, executionTime, 1)]
                                                              else [SubroutineExecutionTime(tier0Time, tier1Time, ryuJitTime, executionTime, 1)]]
      ensures Opcodes() == old(Opcodes()) && timeHistory == old(timeHistory) && sizeHistory == old(sizeHistory)
    {
      var record := SubroutineExecutionTime(tier0Time, tier1Time, ryuJitTime, executionTime, 1);
      jitTime, observations := StoreObservation(jitTime, observations, subroutine, record);
    }

    /** TrackSubroutine taking a whole record: its count is first reset to 1,
        then it is merged exactly as above. */
    method TrackSubroutineSet(subroutine: int64, record: SubroutineExecutionTime) returns (stored: SubroutineExecutionTime)
      requires Valid()
      modifies this
      ensures Valid()
      ensures stored == record.(executionCount := 1)
      ensures jitTime == TrackJitTime(old(jitTime), subroutine, stored)
      ensures Opcodes() == old(Opcodes())
    {
      stored := record.(executionCount := 1);
      TrackSubroutine(subroutine, stored.tier0JitTime, stored.tier1JitTime, stored.ryuJitTime, stored.executionTime);
    }
  }
}
