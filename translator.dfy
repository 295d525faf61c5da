/** Translator: the dispatch loop of the JIT. It looks a guest address up in
    the cache of translated subroutines, translates the address on a miss
    (Tier0: one basic block), retranslates it when the subroutine asks for it
    (Tier1: the whole subroutine), executes, records one profiling
    observation, and continues at the address execution returned. */
module Translation {
  import opened Common
  import opened Introspection

  /** TranslatedSubType. */
  datatype Tier = Tier0 | Tier1

  /** What the loop uses of a TranslatedSub: its name, its tier, its re-JIT
      mark, and the positions of the subroutines that call it. */
  datatype TranslatedSub = TranslatedSub(name: string, tier: Tier, needsReJit: bool, callers: seq<int64>)

  /** A cache entry: the subroutine and the size hint it was published with. */
  datatype CacheEntry = CacheEntry(sub: TranslatedSub, size: int)

  /** What the decoder and emitter produce for a Tier0 translation: the
      number of opcodes in the decoded basic block. */
  datatype Tier0Build = Tier0Build(opCount: nat, callers: seq<int64>)

  /** What they produce for a Tier1 translation: the instruction count of
      each IL block of the decoded subroutine. */
  datatype Tier1Build = Tier1Build(ilBlockCounts: seq<nat>, callers: seq<int64>)

  /** The stopwatch readings of one iteration, in ticks. */
  datatype Clocks = Clocks(tier0Ticks: int64, tier1Ticks: int64, ryuJitTicks: int64, executeTicks: int64)

  /** Everything one iteration learns from outside the loop: the translations
      it would build, whether the subroutine's own re-JIT policy fires, the
      address execution returns, whether the thread still runs, and the clocks. */
  datatype Outcome = Outcome(tier0: Tier0Build, tier1: Tier1Build, thresholdTripped: bool,
                             next: int64, running: bool, clocks: Clocks)

  type Cache = map<int64, CacheEntry>

  // ---------------------------------------------------------------------
  // Subroutine names
  // ---------------------------------------------------------------------

  const HexDigits: string := "0123456789abcdef"

  function Pow16(n: nat): (p: nat)
    ensures p > 0
  {
    if n == 0 then 1 else 16 * Pow16(n - 1)
  }

  /** The low `width` hex digits of `n`, most significant first, lower case. */
  function Hex(n: nat, width: nat): (s: string)
    ensures |s| == width
    ensures forall i :: 0 <= i < |s| ==> s[i] in HexDigits
  {
    if width == 0 then []
    else
      var digit := HexDigits[n % 16];
      assert digit in HexDigits;
      Hex(n / 16, width - 1) + [digit]
  }

  /** GetSubroutineName: "Sub" and the position as 16 hex digits; a negative
      position is printed as its 64-bit two's complement. */
  function SubroutineName(position: int64): (name: string)
    ensures |name| == 19 && name[..3] == "Sub"
    ensures forall i :: 3 <= i < 19 ==> name[i] in HexDigits
  {
    var digits := Hex(Unsigned64(position), 16);
    assert forall i :: 3 <= i < 19 ==> ("Sub" + digits)[i] == digits[i - 3];
    "Sub" + digits
  }

  function DigitValue(c: char): nat
  {
    if '0' <= c <= '9' then c as int - '0' as int
    else if 'a' <= c <= 'f' then c as int - 'a' as int + 10
    else 0
  }

  /** The value of a string of hex digits. */
  function ParseHex(s: string): nat
  {
    if s == [] then 0 else ParseHex(s[..|s| - 1]) * 16 + DigitValue(s[|s| - 1])
  }

  /** Reading back the hex digits of a number below 16^width gives the number. */
  lemma {:induction false} ParseHexRoundTrip(n: nat, width: nat)
    requires n < Pow16(width)
    ensures ParseHex(Hex(n, width)) == n
  {
    if width > 0 {
      var s := Hex(n, width);
      ParseHexRoundTrip(n / 16, width - 1);
      assert s[..|s| - 1] == Hex(n / 16, width - 1);
      assert DigitValue(s[|s| - 1]) == n % 16 by {
        var d := n % 16;
        assert s[|s| - 1] == HexDigits[d];
        if d < 10 {
          assert HexDigits[d] as int == '0' as int + d;
        } else {
          assert HexDigits[d] as int == 'a' as int + d - 10;
        }
      }
    }
  }

  lemma Pow16Is64Bits()
    ensures Pow16(16) == 0x1_0000_0000_0000_0000
  {
    assert Pow16(2) == 0x100;
    assert Pow16(4) == 0x1_0000;
    assert Pow16(6) == 0x100_0000;
    assert Pow16(8) == 0x1_0000_0000;
    assert Pow16(10) == 0x100_0000_0000;
    assert Pow16(12) == 0x1_0000_0000_0000;
    assert Pow16(14) == 0x100_0000_0000_0000;
  }

  /** Different positions get different names: the hex digits determine the
      position's 64-bit pattern. */
  lemma SubroutineNameInjective(a: int64, b: int64)
    ensures SubroutineName(a) == SubroutineName(b) <==> a == b
  {
    if SubroutineName(a) == SubroutineName(b) {
      var ua := Unsigned64(a);
      var ub := Unsigned64(b);
      assert Hex(ua, 16) == SubroutineName(a)[3..];
      assert Hex(ub, 16) == SubroutineName(b)[3..];
      Pow16Is64Bits();
      ParseHexRoundTrip(ua, 16);
      ParseHexRoundTrip(ub, 16);
    }
  }

  /** The 64-bit pattern of a position, read as unsigned. */
  function Unsigned64(a: int64): (u: nat)
    ensures u == (a as int) % 0x1_0000_0000_0000_0000
    ensures u < 0x1_0000_0000_0000_0000
  {
    if a >= 0 then a as int else a as int + 0x1_0000_0000_0000_0000
  }

  // ---------------------------------------------------------------------
  // One iteration, as a function of the cache and the outcome
  // ---------------------------------------------------------------------

  /** TranslateTier0's subroutine. */
  function Tier0Sub(position: int64, build: Tier0Build): TranslatedSub
  {
    TranslatedSub(SubroutineName(position), Tier0, false, build.callers)
  }

  /** TranslateTier1's subroutine. */
  function Tier1Sub(position: int64, build: Tier1Build): TranslatedSub
  {
    TranslatedSub(SubroutineName(position), Tier1, false, build.callers)
  }

  function MarkForReJit(entry: CacheEntry): CacheEntry
  {
    entry.(sub := entry.sub.(needsReJit := true))
  }

  /** The cache after TranslateTier1: the Tier1 subroutine is published with
      the total IL instruction count as its size hint; then, once per caller
      of the subroutine now cached at `position`, the entry at `position`
      itself is marked for re-JIT. */
  function PublishTier1(cache: Cache, position: int64, build: Tier1Build): (r: Cache)
    ensures r.Keys == cache.Keys + {position}
    ensures r[position].sub.tier == Tier1 && r[position].sub.name == SubroutineName(position)
    ensures r[position].size == Sum(build.ilBlockCounts)
  {
    var published := cache[position := CacheEntry(Tier1Sub(position, build), Sum(build.ilBlockCounts))];
    if |published[position].sub.callers| > 0 then published[position := MarkForReJit(published[position])]
    else published
  }

  /** One pass of the loop body: the cache afterwards, the subroutine it
      executed, the observation it recorded and the address it continues at. */
  datatype Iteration = Iteration(cache: Cache, executed: TranslatedSub, record: SubroutineExecutionTime, next: int64)

  function StepAt(cache: Cache, position: int64, o: Outcome): (r: Iteration)
    ensures r.cache.Keys == cache.Keys + {position} && r.next == o.next
    ensures r.record.tier0JitTime.Some? <==> position !in cache
    ensures r.record.ryuJitTime.Some? && r.record.executionTime.Some?
  {
    var miss := position !in cache;
    var sub := if miss then Tier0Sub(position, o.tier0) else cache[position].sub;
    var afterTier0 := if miss then cache[position := CacheEntry(sub, o.tier0.opCount)] else cache;
    var reJit := sub.needsReJit || o.thresholdTripped;
    var afterTier1 := if reJit then PublishTier1(afterTier0, position, o.tier1) else afterTier0;
    var record := SubroutineExecutionTime(
      if miss then Some(o.clocks.tier0Ticks) else None,
      if reJit then Some(o.clocks.tier1Ticks) else None,
      Some(o.clocks.ryuJitTicks),
      Some(o.clocks.executeTicks),
      0);
    Iteration(afterTier1, sub, record, o.next)
  }

  /** A miss without re-JIT publishes a Tier0 subroutine at `position`, sized
      by the basic block's opcode count, and executes it. */
  lemma MissPublishesTier0(cache: Cache, position: int64, o: Outcome)
    requires position !in cache && !o.thresholdTripped
    ensures var it := StepAt(cache, position, o);
            && it.cache == cache[position := CacheEntry(Tier0Sub(position, o.tier0), o.tier0.opCount)]
            && it.executed.tier == Tier0 && it.executed.name == SubroutineName(position)
            && it.record.tier0JitTime == Some(o.clocks.tier0Ticks) && it.record.tier1JitTime.None?
  {
  }

  /** A hit whose subroutine does not ask for re-JIT translates nothing and
      executes the cached subroutine. */
  lemma HitExecutesCached(cache: Cache, position: int64, o: Outcome)
    requires position in cache && !cache[position].sub.needsReJit && !o.thresholdTripped
    ensures var it := StepAt(cache, position, o);
            && it.cache == cache && it.executed == cache[position].sub
            && it.record.tier0JitTime.None? && it.record.tier1JitTime.None?
  {
  }

  /** A re-JIT publishes a Tier1 subroutine at `position`, sized by the total
      IL instruction count, and leaves every other address alone; the
      iteration still executes the subroutine it fetched before. */
  lemma ReJitPublishesTier1(cache: Cache, position: int64, o: Outcome)
    requires var fetched := if position in cache then cache[position].sub else Tier0Sub(position, o.tier0);
             fetched.needsReJit || o.thresholdTripped
    ensures var it := StepAt(cache, position, o);
            && position in it.cache
            && it.cache[position].sub.tier == Tier1
            && it.cache[position].size == Sum(o.tier1.ilBlockCounts)
            && it.executed == (if position in cache then cache[position].sub else Tier0Sub(position, o.tier0))
            && it.record.tier1JitTime == Some(o.clocks.tier1Ticks)
            && (forall p :: p != position ==> (p in it.cache <==> p in cache) && (p in cache ==> it.cache[p] == cache[p]))
  {
  }

  /** Caller marking as written: the entry marked is the one at `position`
      itself, once it has any caller; no caller's entry is touched. */
  lemma CallerMarkingMarksItself(cache: Cache, position: int64, build: Tier1Build)
    ensures var after := PublishTier1(cache, position, build);
            && position in after
            && (after[position].sub.needsReJit <==> |build.callers| > 0)
            && (forall p :: p != position ==> (p in after <==> p in cache) && (p in cache ==> after[p] == cache[p]))
  {
  }

  /** A concrete case: a Tier1 build of 0x2000 called from 0x1000 leaves
      the entry of 0x1000 unmarked and marks 0x2000's own entry. */
  lemma CallerNotMarkedExample(cache: Cache, caller: TranslatedSub)
    requires cache == map[0x1000 := CacheEntry(caller, 1)] && !caller.needsReJit
    ensures var after := PublishTier1(cache, 0x2000, Tier1Build([3, 4], [0x1000]));
            && !after[0x1000].sub.needsReJit
            && after[0x2000].sub.needsReJit && after[0x2000].size == 7
  {
    assert Sum([3, 4]) == 7 by {
      assert [3, 4][..1] == [3];
      assert [3][..0] == [];
    }
  }

  /** An iteration never drops an entry: it adds `position` to the cache,
      and an entry that is Tier1 stays Tier1. */
  lemma StepNeverRegresses(cache: Cache, position: int64, o: Outcome)
    ensures var it := StepAt(cache, position, o);
            && it.cache.Keys == cache.Keys + {position}
            && (forall p :: p in cache && cache[p].sub.tier == Tier1 ==> it.cache[p].sub.tier == Tier1)
  {
  }

  // ---------------------------------------------------------------------
  // The whole loop, driven by a script of outcomes
  // ---------------------------------------------------------------------

  /** The result of running the loop: the cache and trace afterwards, each
      iteration's observation (keyed by the address it started at) and
      executed subroutine, the last address, and whether the loop ended by its
      own condition rather than by running out of script. */
  datatype RunState = RunState(cache: Cache, trace: seq<int64>, observations: seq<(int64, SubroutineExecutionTime)>,
                               executed: seq<TranslatedSub>, position: int64, halted: bool)

  /** The trace after one iteration's event. */
  function Traced(trace: seq<int64>, enableCpuTrace: bool, position: int64): seq<int64>
  {
    if enableCpuTrace then trace + [position] else trace
  }

  /** One pass of a loop body: the cache afterwards, the subroutine it
      executed and the observation it recorded. */
  type Body = (Cache, int64, Outcome) -> Iteration

  /** The do-while control of ExecuteSubroutine around a loop body `step`:
      run one iteration, continue at the address execution returned while it
      is non-zero and the thread is running. */
  function RunWith(step: Body, cache: Cache, trace: seq<int64>, enableCpuTrace: bool, position: int64, script: seq<Outcome>)
    : (r: RunState)
    requires |script| >= 1
    ensures 1 <= |r.observations| == |r.executed| <= |script|
    decreases |script|
  {
    var it := step(cache, position, script[0]);
    var trace' := Traced(trace, enableCpuTrace, position);
    var continues := script[0].next != 0 && script[0].running;
    if continues && |script| > 1 then
      Join([(position, it.record)], [it.executed], RunWith(step, it.cache, trace', enableCpuTrace, script[0].next, script[1..]))
    else
      RunState(it.cache, trace', [(position, it.record)], [it.executed], script[0].next, !continues)
  }

  /** The loop of ExecuteSubroutine. */
  function Run(cache: Cache, trace: seq<int64>, enableCpuTrace: bool, position: int64, script: seq<Outcome>): (r: RunState)
    requires |script| >= 1
    ensures 1 <= |r.observations| == |r.executed| <= |script|
  {
    RunWith(StepAt, cache, trace, enableCpuTrace, position, script)
  }

  /** The loop body runs at least once, and it stops exactly when an
      execution returns 0 or leaves the thread not running. */
  lemma {:induction false} RunStopsExactly(step: Body, cache: Cache, trace: seq<int64>, enableCpuTrace: bool,
                                           position: int64, script: seq<Outcome>)
    requires |script| >= 1
    ensures var r := RunWith(step, cache, trace, enableCpuTrace, position, script);
            var n := |r.observations|;
            && (forall i :: 0 <= i < n - 1 ==> script[i].next != 0 && script[i].running)
            && (r.halted <==> script[n - 1].next == 0 || !script[n - 1].running)
            && (!r.halted ==> n == |script|)
            && r.position == script[n - 1].next
    decreases |script|
  {
    var it := step(cache, position, script[0]);
    var trace' := Traced(trace, enableCpuTrace, position);
    if script[0].next != 0 && script[0].running && |script| > 1 {
      RunStopsExactly(step, it.cache, trace', enableCpuTrace, script[0].next, script[1..]);
      var rest := RunWith(step, it.cache, trace', enableCpuTrace, script[0].next, script[1..]);
      var r := RunWith(step, cache, trace, enableCpuTrace, position, script);
      var n := |r.observations|;
      assert n == |rest.observations| + 1 && r.halted == rest.halted && r.position == rest.position;
      assert script[n - 1] == script[1..][n - 2];
      forall i | 0 < i < n - 1
        ensures script[i].next != 0 && script[i].running
      {
        assert script[i] == script[1..][i - 1];
      }
    }
  }

  /** Each observation is keyed by the address its iteration started at: the
      first by the entry address, every later one by the address the previous
      execution returned. */
  lemma {:induction false} RunKeysObservations(step: Body, cache: Cache, trace: seq<int64>, enableCpuTrace: bool,
                                               position: int64, script: seq<Outcome>)
    requires |script| >= 1
    ensures var r := RunWith(step, cache, trace, enableCpuTrace, position, script);
            && r.observations[0].0 == position
            && (forall i :: 0 < i < |r.observations| ==> r.observations[i].0 == script[i - 1].next)
    decreases |script|
  {
    var it := step(cache, position, script[0]);
    var trace' := Traced(trace, enableCpuTrace, position);
    if script[0].next != 0 && script[0].running && |script| > 1 {
      RunKeysObservations(step, it.cache, trace', enableCpuTrace, script[0].next, script[1..]);
      var rest := RunWith(step, it.cache, trace', enableCpuTrace, script[0].next, script[1..]);
      var r := RunWith(step, cache, trace, enableCpuTrace, position, script);
      assert r.observations == [(position, it.record)] + rest.observations;
      forall i | 1 < i < |r.observations|
        ensures r.observations[i].0 == script[i - 1].next
      {
        assert r.observations[i] == rest.observations[i - 1];
        assert script[1..][i - 2] == script[i - 1];
      }
    }
  }

  /** With tracing on, the trace gains exactly the iterations' start
      addresses, in order. */
  lemma {:induction false} RunTraces(step: Body, cache: Cache, trace: seq<int64>, position: int64, script: seq<Outcome>)
    requires |script| >= 1
    ensures var r := RunWith(step, cache, trace, true, position, script);
            r.trace == trace + Starts(r.observations)
    decreases |script|
  {
    var it := step(cache, position, script[0]);
    var r := RunWith(step, cache, trace, true, position, script);
    if script[0].next != 0 && script[0].running && |script| > 1 {
      RunTraces(step, it.cache, trace + [position], script[0].next, script[1..]);
      var rest := RunWith(step, it.cache, trace + [position], true, script[0].next, script[1..]);
      assert r == Join([(position, it.record)], [it.executed], rest);
      assert r.observations[1..] == rest.observations;
      assert (trace + [position]) + Starts(rest.observations) == trace + ([position] + Starts(rest.observations));
    } else {
      assert r.observations[1..] == [];
    }
  }

  /** With tracing off, the trace is left as it was. */
  lemma {:induction false} RunWithoutTrace(step: Body, cache: Cache, trace: seq<int64>, position: int64, script: seq<Outcome>)
    requires |script| >= 1
    ensures RunWith(step, cache, trace, false, position, script).trace == trace
    decreases |script|
  {
    var it := step(cache, position, script[0]);
    if script[0].next != 0 && script[0].running && |script| > 1 {
      RunWithoutTrace(step, it.cache, trace, script[0].next, script[1..]);
    }
  }

  /** Over a whole run every address an iteration started at is cached
      afterwards, no entry is dropped, and no Tier1 entry goes back to Tier0. */
  lemma {:induction false} RunNeverRegresses(cache: Cache, trace: seq<int64>, enableCpuTrace: bool,
                                             position: int64, script: seq<Outcome>)
    requires |script| >= 1
    ensures var r := Run(cache, trace, enableCpuTrace, position, script);
            && cache.Keys <= r.cache.Keys
            && (forall i :: 0 <= i < |r.observations| ==> r.observations[i].0 in r.cache)
            && (forall p :: p in cache && cache[p].sub.tier == Tier1 ==> r.cache[p].sub.tier == Tier1)
    decreases |script|
  {
    var it := StepAt(cache, position, script[0]);
    StepNeverRegresses(cache, position, script[0]);
    var r := Run(cache, trace, enableCpuTrace, position, script);
    if script[0].next != 0 && script[0].running && |script| > 1 {
      var trace' := Traced(trace, enableCpuTrace, position);
      RunNeverRegresses(it.cache, trace', enableCpuTrace, script[0].next, script[1..]);
      var rest := Run(it.cache, trace', enableCpuTrace, script[0].next, script[1..]);
      assert r == Join([(position, it.record)], [it.executed], rest);
      forall i | 0 < i < |r.observations| ensures r.observations[i].0 in r.cache {
        assert r.observations[i] == rest.observations[i - 1];
      }
    }
  }

  /** The addresses the observations are keyed by, in order. */
  function Starts(observations: seq<(int64, SubroutineExecutionTime)>): (s: seq<int64>)
    ensures |s| == |observations|
  {
    if observations == [] then [] else [observations[0].0] + Starts(observations[1..])
  }

  /** The per-subroutine timings after tracking each observation in order,
      each record's count reset to 1 first. */
  function TrackAll(m: map<int64, SubroutineExecutionTime>, observations: seq<(int64, SubroutineExecutionTime)>): map<int64, SubroutineExecutionTime>
  {
    if observations == [] then m
    else
      var (position, record) := observations[|observations| - 1];
      TrackJitTime(TrackAll(m, observations[..|observations| - 1]), position, record.(executionCount := 1))
  }

  /** A run from address 0x1000 whose first execution returns 0 runs once,
      translating and executing a Tier0 subroutine named for that address. */
  lemma RunExample(o: Outcome)
    requires o.next == 0 && !o.thresholdTripped
    ensures var r := Run(map[], [], true, 0x1000, [o]);
            && r.halted && |r.observations| == 1 && r.trace == [0x1000]
            && r.executed == [TranslatedSub(SubroutineName(0x1000), Tier0, false, o.tier0.callers)]
            && r.cache == map[0x1000 := CacheEntry(r.executed[0], o.tier0.opCount)]
  {
  }

  // ---------------------------------------------------------------------
  // The translator
  // ---------------------------------------------------------------------

  /** Translator: the cache, the trace switch and the trace events raised. */
  class Translator {
    var cache: Cache
    var enableCpuTrace: bool
    var trace: seq<int64>

    constructor (enableCpuTrace: bool)
      ensures cache == map[] && trace == [] && this.enableCpuTrace == enableCpuTrace
    {
      cache := map[];
      this.enableCpuTrace := enableCpuTrace;
      trace := [];
    }

    /** TranslateTier0: build the basic block's subroutine and publish it
        with the block's opcode count as size hint. */
    method TranslateTier0(position: int64, build: Tier0Build) returns (sub: TranslatedSub)
      modifies this
      ensures sub == Tier0Sub(position, build)
      ensures cache == old(cache)[position := CacheEntry(sub, build.opCount)]
      ensures trace == old(trace) && enableCpuTrace == old(enableCpuTrace)
    {
      var subName := SubroutineName(position);
      sub := TranslatedSub(subName, Tier0, false, build.callers);
      cache := cache[position := CacheEntry(sub, build.opCount)];
    }

    /** TranslateTier1: build the whole subroutine, publish it with the total
        IL instruction count, then mark callers as the source does. */
    method TranslateTier1(position: int64, build: Tier1Build)
      modifies this
      ensures cache == PublishTier1(old(cache), position, build)
      ensures trace == old(trace) && enableCpuTrace == old(enableCpuTrace)
    {
      var subName := SubroutineName(position);
      var subroutine := TranslatedSub(subName, Tier1, false, build.callers);
      var ilOpCount := 0;
      for i := 0 to |build.ilBlockCounts|
        invariant ilOpCount == Sum(build.ilBlockCounts[..i])
      {
        assert build.ilBlockCounts[..i + 1][..i] == build.ilBlockCounts[..i];
        ilOpCount := ilOpCount + build.ilBlockCounts[i];
      }
      assert build.ilBlockCounts[..|build.ilBlockCounts|] == build.ilBlockCounts;
      cache := cache[position := CacheEntry(subroutine, ilOpCount)];
      ghost var published := cache;
      if position in cache {
        var oldSub := cache[position].sub;
        for k := 0 to |oldSub.callers|
          invariant position in cache
          invariant trace == old(trace) && enableCpuTrace == old(enableCpuTrace)
          invariant cache == if k == 0 then published else published[position := MarkForReJit(published[position])]
        {
          var callerPos := oldSub.callers[k];
          if position in cache {
            var callerSub := cache[position];
            cache := cache[position := MarkForReJit(callerSub)];
          }
        }
      }
    }

    /** One pass of the loop body. */
    method Iterate(position: int64, o: Outcome, counter: IntrospectionCounter) returns (next: int64)
      requires counter.Valid()
      modifies this, counter
      ensures counter.Valid()
      ensures var it := StepAt(old(cache), position, o);
              && cache == it.cache && next == it.next
              && trace == Traced(old(trace), enableCpuTrace, position)
              && counter.jitTime == TrackJitTime(old(counter.jitTime), position, it.record.(executionCount := 1))
      ensures enableCpuTrace == old(enableCpuTrace)
    {
      var initialPosition := position;
      if enableCpuTrace {
        trace := trace + [position];
      }
      var tier0JitTime: Option<int64> := None;
      var sub: TranslatedSub;
      if position !in cache {
        sub := TranslateTier0(position, o.tier0);
        tier0JitTime := Some(o.clocks.tier0Ticks);
      } else {
        sub := cache[position].sub;
      }
      var tier1JitTime: Option<int64> := None;
      if sub.needsReJit || o.thresholdTripped {
        TranslateTier1(position, o.tier1);
        tier1JitTime := Some(o.clocks.tier1Ticks);
      }
      next := o.next;
      var record := SubroutineExecutionTime(tier0JitTime, tier1JitTime, Some(o.clocks.ryuJitTicks), Some(o.clocks.executeTicks), 0);
      var _ := counter.TrackSubroutineSet(initialPosition, record);
    }

    /** The loop of ExecuteSubroutine has done the iterations recorded in
        `observations` and `ran`, and the run `whole` continues from the
        current state at script index `k`, unless it is `done`. */
    ghost predicate Resumes(whole: RunState, observations: seq<(int64, SubroutineExecutionTime)>, ran: seq<TranslatedSub>,
                            current: int64, script: seq<Outcome>, k: nat, done: bool, halted: bool)
      reads this
    {
      && k < |script|
      && (!done ==> whole == Join(observations, ran, Run(cache, trace, enableCpuTrace, current, script[k..])))
      && (done ==> whole == RunState(cache, trace, observations, ran, current, halted))
    }

    /** One turn of ExecuteSubroutine's loop. */
    method Turn(current: int64, script: seq<Outcome>, k: nat, counter: IntrospectionCounter,
                ghost whole: RunState, ghost observations: seq<(int64, SubroutineExecutionTime)>, ghost ran: seq<TranslatedSub>,
                ghost jitTime0: map<int64, SubroutineExecutionTime>)
      returns (next: int64, k': nat, done: bool, halted: bool,
               ghost observations': seq<(int64, SubroutineExecutionTime)>, ghost ran': seq<TranslatedSub>)
      requires counter.Valid() && counter.jitTime == TrackAll(jitTime0, observations)
      requires Resumes(whole, observations, ran, current, script, k, false, false)
      modifies this, counter
      ensures counter.Valid() && enableCpuTrace == old(enableCpuTrace)
      ensures counter.jitTime == TrackAll(jitTime0, observations')
      ensures Resumes(whole, observations', ran', next, script, k', done, halted)
      ensures k' == if done then k else k + 1
    {
      ghost var it := StepAt(cache, current, script[k]);
      LoopStep(whole, observations, ran, cache, trace, enableCpuTrace, current, script, k);
      TrackAllSnoc(jitTime0, observations, (current, it.record));
      observations' := observations + [(current, it.record)];
      ran' := ran + [it.executed];
      next := Iterate(current, script[k], counter);
      done := !(next != 0 && script[k].running && k + 1 < |script|);
      halted := !(next != 0 && script[k].running);
      k' := if done then k else k + 1;
    }

    /** ExecuteSubroutine: the do-while loop, for as many iterations as the
        script of outcomes covers. */
    method ExecuteSubroutine(position: int64, script: seq<Outcome>, counter: IntrospectionCounter)
      returns (last: int64, halted: bool)
      requires |script| >= 1 && counter.Valid()
      modifies this, counter
      ensures counter.Valid()
      ensures var r := Run(old(cache), old(trace), old(enableCpuTrace), position, script);
              && cache == r.cache && trace == r.trace
              && last == r.position && halted == r.halted
              && counter.jitTime == TrackAll(old(counter.jitTime), r.observations)
    {
      ghost var whole := Run(cache, trace, enableCpuTrace, position, script);
      ghost var jitTime0 := counter.jitTime;
      ghost var observations: seq<(int64, SubroutineExecutionTime)> := [];
      ghost var ran: seq<TranslatedSub> := [];
      var current := position;
      var k := 0;
      var done := false;
      halted := false;
      assert script[k..] == script;
      assert whole == Join(observations, ran, whole) by {
        assert observations + whole.observations == whole.observations;
        assert ran + whole.executed == whole.executed;
      }
      while !done
        invariant enableCpuTrace == old(enableCpuTrace)
        invariant counter.Valid()
        invariant counter.jitTime == TrackAll(jitTime0, observations)
        invariant Resumes(whole, observations, ran, current, script, k, done, halted)
        decreases |script| - k + (if done then 0 else 1)
      {
        current, k, done, halted, observations, ran := Turn(current, script, k, counter, whole, observations, ran, jitTime0);
      }
      last := current;
    }
  }

  /** Tracking one more observation. */
  lemma TrackAllSnoc(m: map<int64, SubroutineExecutionTime>, observations: seq<(int64, SubroutineExecutionTime)>,
                     observation: (int64, SubroutineExecutionTime))
    ensures TrackAll(m, observations + [observation])
            == TrackJitTime(TrackAll(m, observations), observation.0, observation.1.(executionCount := 1))
  {
    assert (observations + [observation])[..|observations|] == observations;
  }

  /** What the loop of ExecuteSubroutine needs of one iteration: the whole
      run is the iterations done so far, this one, and the rest. */
  lemma LoopStep(whole: RunState, observations: seq<(int64, SubroutineExecutionTime)>, ran: seq<TranslatedSub>,
                 cache: Cache, trace: seq<int64>, enableCpuTrace: bool, position: int64, script: seq<Outcome>, k: nat)
    requires k < |script|
    requires whole == Join(observations, ran, Run(cache, trace, enableCpuTrace, position, script[k..]))
    ensures var it := StepAt(cache, position, script[k]);
            var trace' := Traced(trace, enableCpuTrace, position);
            var continues := it.next != 0 && script[k].running;
            var observations' := observations + [(position, it.record)];
            var ran' := ran + [it.executed];
            if continues && k + 1 < |script| then
              whole == Join(observations', ran', Run(it.cache, trace', enableCpuTrace, it.next, script[k + 1..]))
            else
              whole == RunState(it.cache, trace', observations', ran', it.next, !continues)
  {
    var it := StepAt(cache, position, script[k]);
    RunUnfold(cache, trace, enableCpuTrace, position, script, k);
    if it.next != 0 && script[k].running && k + 1 < |script| {
      JoinJoin(observations, ran, [(position, it.record)], [it.executed],
               Run(it.cache, Traced(trace, enableCpuTrace, position), enableCpuTrace, it.next, script[k + 1..]));
    }
  }

  /** One iteration of the loop over the suffix `script[k..]`. */
  lemma RunUnfold(cache: Cache, trace: seq<int64>, enableCpuTrace: bool, position: int64, script: seq<Outcome>, k: nat)
    requires k < |script|
    ensures var it := StepAt(cache, position, script[k]);
            var trace' := Traced(trace, enableCpuTrace, position);
            var continues := it.next != 0 && script[k].running;
            Run(cache, trace, enableCpuTrace, position, script[k..])
            == if continues && k + 1 < |script| then
                 Join([(position, it.record)], [it.executed], Run(it.cache, trace', enableCpuTrace, it.next, script[k + 1..]))
               else RunState(it.cache, trace', [(position, it.record)], [it.executed], it.next, !continues)
  {
    var rest := script[k..];
    assert rest[0] == script[k] && rest[1..] == script[k + 1..];
  }

  lemma JoinJoin(obs1: seq<(int64, SubroutineExecutionTime)>, ran1: seq<TranslatedSub>,
                 obs2: seq<(int64, SubroutineExecutionTime)>, ran2: seq<TranslatedSub>, r: RunState)
    ensures Join(obs1, ran1, Join(obs2, ran2, r)) == Join(obs1 + obs2, ran1 + ran2, r)
  {
    assert obs1 + (obs2 + r.observations) == (obs1 + obs2) + r.observations;
    assert ran1 + (ran2 + r.executed) == (ran1 + ran2) + r.executed;
  }

  /** The run `r` preceded by the iterations already done. */
  function Join(observations: seq<(int64, SubroutineExecutionTime)>, ran: seq<TranslatedSub>, r: RunState): RunState
  {
    r.(observations := observations + r.observations, executed := ran + r.executed)
  }
}
