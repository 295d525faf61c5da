/** ILMethodBuilder: how a translated subroutine's signature is synthesised
    from the registers its first block reads (one parameter per live-in
    register, after the fixed arguments), how registers get local slots, and
    the introspection pass that measures what each guest instruction emitted. */
module MethodBuilding {
  import opened Common
  import opened CilReader
  import opened Introspection

  /** The register classes of the guest state. */
  datatype RegisterType = Flag | Int | Vector

  /** A guest register: its number within its class. */
  datatype Register = Register(index: int, regType: RegisterType)

  /** The CLR types a signature or a local is made of; the fixed arguments
      (thread state, memory manager) are types this model does not inspect. */
  datatype ClrType = Bool | ULong | Vector128OfFloat | Other(name: string)

  /** The exception GetRegFromBit throws. */
  datatype BuildError = ArgumentOutOfRange

  // ---------------------------------------------------------------------
  // Registers and their types
  // ---------------------------------------------------------------------

  /** GetRegFromBit: bits below 32 name a register of the base class; bits
      32..63 of the integer mask name the flags; anything else throws. */
  function RegFromBit(bit: int, baseType: RegisterType): (r: Result<Register, BuildError>)
    ensures r.Ok? <==> bit < 32 || baseType == Int
  {
    if bit < 32 then Ok(Register(bit, baseType))
    else if baseType == Int then Ok(Register(bit % 32, Flag))
    else Err(ArgumentOutOfRange)
  }

  /** The live-in bit a register of the integer mask (or of the vector mask)
      stands for: the inverse of RegFromBit. */
  function RegisterBit(r: Register): int
  {
    if r.regType == Flag then r.index + 32 else r.index
  }

  /** RegisterBit undoes RegFromBit on every bit of a 64-bit mask. */
  lemma RegFromBitInverse(bit: int, baseType: RegisterType)
    requires 0 <= bit < 64 && baseType != Flag
    requires RegFromBit(bit, baseType).Ok?
    ensures RegisterBit(RegFromBit(bit, baseType).value) == bit
    ensures RegFromBit(bit, baseType).value.regType == (if bit < 32 then baseType else Flag)
  {
  }

  /** IsRegIndex: the source compares `(uint)index < 32`. */
  function IsRegIndex(index: int32): (b: bool)
    ensures b <==> 0 <= index < 32
  {
    (index as int) % 0x1_0000_0000 < 32
  }

  /** GetFieldType: the CLR type that holds a register of each class. */
  function FieldType(regType: RegisterType): (t: ClrType)
    ensures !t.Other?
  {
    match regType
    case Flag => Bool
    case Int => ULong
    case Vector => Vector128OfFloat
  }

  /** Different register classes are held in different CLR types. */
  lemma FieldTypeInjective(a: RegisterType, b: RegisterType)
    ensures FieldType(a) == FieldType(b) <==> a == b
    ensures !FieldType(a).Other?
  {
  }

  // ---------------------------------------------------------------------
  // The parameter list: one register per set bit of the live-in masks
  // ---------------------------------------------------------------------

  /** A live-in mask: the bit pattern of the source's 64-bit `long`. */
  type Mask = x: int | 0 <= x < 0x1_0000_0000_0000_0000

  /** 2 to the power `n`: the value of `1L << n` for n < 63. */
  function Pow2(n: nat): (p: nat)
    ensures p > 0
  {
    if n == 0 then 1 else 2 * Pow2(n - 1)
  }

  /** Bit `bit` of the live-in mask is set: `(inputs & (1L << bit)) != 0`. */
  predicate BitSet(inputs: Mask, bit: nat)
    requires bit < 64
  {
    (inputs / Pow2(bit)) % 2 == 1
  }

  /** The set bits below `n`, in the order the loop visits them. */
  function SetBits(inputs: Mask, n: nat): seq<nat>
    requires n <= 64
  {
    if n == 0 then []
    else SetBits(inputs, n - 1) + (if BitSet(inputs, n - 1) then [n - 1] else [])
  }

  /** SetBits lists exactly the set bits below `n`, in strictly ascending order. */
  lemma {:induction false} SetBitsAscending(inputs: Mask, n: nat)
    requires n <= 64
    ensures forall i :: 0 <= i < |SetBits(inputs, n)| ==> SetBits(inputs, n)[i] < n && BitSet(inputs, SetBits(inputs, n)[i])
    ensures forall i, j :: 0 <= i < j < |SetBits(inputs, n)| ==> SetBits(inputs, n)[i] < SetBits(inputs, n)[j]
    ensures forall b: nat :: b < n && BitSet(inputs, b) ==> b in SetBits(inputs, n)
  {
    if n > 0 {
      SetBitsAscending(inputs, n - 1);
    }
  }

  /** The bits visited up to `k` are a prefix of those visited up to `m`. */
  lemma {:induction false} SetBitsPrefix(inputs: Mask, k: nat, m: nat)
    requires k <= m <= 64
    ensures SetBits(inputs, k) <= SetBits(inputs, m)
    decreases m - k
  {
    if k < m {
      SetBitsPrefix(inputs, k, m - 1);
    }
  }

  /** The registers for `bits`, or the first exception. */
  function Registers(bits: seq<nat>, baseType: RegisterType): Result<seq<Register>, BuildError>
  {
    if bits == [] then Ok([])
    else match Registers(bits[..|bits| - 1], baseType)
      case Err(e) => Err(e)
      case Ok(regs) =>
        match RegFromBit(bits[|bits| - 1], baseType)
        case Err(e) => Err(e)
        case Ok(reg) => Ok(regs + [reg])
  }

  /** Registers succeeds exactly when every bit maps to a register, and then
      holds RegFromBit of each bit, in order. */
  lemma {:induction false} RegistersPointwise(bits: seq<nat>, baseType: RegisterType)
    ensures Registers(bits, baseType).Ok? <==> forall i :: 0 <= i < |bits| ==> RegFromBit(bits[i], baseType).Ok?
    ensures Registers(bits, baseType).Ok? ==>
              |Registers(bits, baseType).value| == |bits|
              && forall i :: 0 <= i < |bits| ==> Registers(bits, baseType).value[i] == RegFromBit(bits[i], baseType).value
    decreases |bits|
  {
    if bits != [] {
      var init := bits[..|bits| - 1];
      RegistersPointwise(init, baseType);
      assert forall i :: 0 <= i < |init| ==> init[i] == bits[i];
    }
  }

  /** Once a bit throws, a longer run of the loop throws too. */
  lemma {:induction false} RegistersErrSticks(bits: seq<nat>, more: seq<nat>, baseType: RegisterType)
    requires bits <= more
    requires Registers(bits, baseType).Err?
    ensures Registers(more, baseType) == Registers(bits, baseType)
    decreases |more|
  {
    if |bits| < |more| {
      var init := more[..|more| - 1];
      assert bits <= init;
      RegistersErrSticks(bits, init, baseType);
      assert more[..|more| - 1] == init;
    } else {
      assert bits == more;
    }
  }

  /** The list after one SetArgs call appends the registers of `inputs`. */
  function AppendArgs(subArgs: seq<Register>, inputs: Mask, baseType: RegisterType): Result<seq<Register>, BuildError>
  {
    match Registers(SetBits(inputs, 64), baseType)
    case Err(e) => Err(e)
    case Ok(regs) => Ok(subArgs + regs)
  }

  /** One more bit of the loop: a set bit appends its register or throws,
      a clear bit changes nothing. */
  lemma RegistersStep(inputs: Mask, bit: nat, baseType: RegisterType)
    requires bit < 64
    requires Registers(SetBits(inputs, bit), baseType).Ok?
    ensures var before := Registers(SetBits(inputs, bit), baseType).value;
            Registers(SetBits(inputs, bit + 1), baseType)
            == if !BitSet(inputs, bit) then Ok(before)
               else match RegFromBit(bit, baseType)
                 case Err(e) => Err(e)
                 case Ok(reg) => Ok(before + [reg])
  {
    var bits := SetBits(inputs, bit + 1);
    var prev := SetBits(inputs, bit);
    if BitSet(inputs, bit) {
      assert bits == prev + [bit];
      assert bits[..|bits| - 1] == prev && bits[|bits| - 1] == bit;
    } else {
      assert bits == prev + [] == prev;
    }
  }

  /** A throw at `bit` makes the whole SetArgs call throw. */
  lemma SetArgsThrows(inputs: Mask, bit: nat, baseType: RegisterType, subArgs: seq<Register>, e: BuildError)
    requires bit < 64
    requires Registers(SetBits(inputs, bit + 1), baseType) == Err(e)
    ensures AppendArgs(subArgs, inputs, baseType) == Err(e)
  {
    var p := SetBits(inputs, bit + 1);
    var q := SetBits(inputs, 64);
    SetBitsPrefix(inputs, bit + 1, 64);
    RegistersErrSticks(p, q, baseType);
  }

  /** SetArgs: visit bits 0..63 and append the register of every set bit. */
  method SetArgs(subArgs: seq<Register>, inputs: Mask, baseType: RegisterType) returns (r: Result<seq<Register>, BuildError>)
    ensures r == AppendArgs(subArgs, inputs, baseType)
  {
    var list := subArgs;
    for bit := 0 to 64
      invariant Registers(SetBits(inputs, bit), baseType).Ok?
      invariant list == subArgs + Registers(SetBits(inputs, bit), baseType).value
    {
      RegistersStep(inputs, bit, baseType);
      var mask := Pow2(bit);
      if (inputs / mask) % 2 == 1 {
        var reg := RegFromBit(bit, baseType);
        if reg.Err? {
          SetArgsThrows(inputs, bit, baseType, subArgs, reg.error);
          return Err(reg.error);
        }
        list := list + [reg.value];
      }
    }
    r := Ok(list);
  }

  /** The parameter list of a subroutine: the integer live-ins, then the
      vector live-ins. */
  function SubArgs(intInputs: Mask, vecInputs: Mask): (r: Result<seq<Register>, BuildError>)
    ensures r.Err? <==> exists b: nat :: 32 <= b < 64 && BitSet(vecInputs, b)
  {
    IntParameters(intInputs);
    VectorParametersFail(vecInputs, AppendArgs([], intInputs, Int).value);
    match AppendArgs([], intInputs, Int)
    case Err(e) => Err(e)
    case Ok(list) => AppendArgs(list, vecInputs, Vector)
  }

  /** The integer mask never throws: its parameters follow the set bits in
      ascending order, X<bit> for bits 0..31 and flag <bit - 32> for bits 32..63. */
  lemma IntParameters(intInputs: Mask)
    ensures AppendArgs([], intInputs, Int).Ok?
    ensures var bits := SetBits(intInputs, 64);
            var regs := AppendArgs([], intInputs, Int).value;
            |regs| == |bits|
            && forall i :: 0 <= i < |regs| ==> RegisterBit(regs[i]) == bits[i] && regs[i].regType == (if bits[i] < 32 then Int else Flag)
  {
    var bits := SetBits(intInputs, 64);
    SetBitsAscending(intInputs, 64);
    RegistersPointwise(bits, Int);
    var regs := Registers(bits, Int).value;
    assert AppendArgs([], intInputs, Int) == Ok(regs) by {
      assert [] + regs == regs;
    }
    forall i | 0 <= i < |regs|
      ensures RegisterBit(regs[i]) == bits[i] && regs[i].regType == (if bits[i] < 32 then Int else Flag)
    {
      RegFromBitInverse(bits[i], Int);
    }
  }

  /** The vector mask throws exactly when one of its bits 32..63 is set. */
  lemma VectorParametersFail(vecInputs: Mask, list: seq<Register>)
    ensures AppendArgs(list, vecInputs, Vector).Err? <==> exists b: nat :: 32 <= b < 64 && BitSet(vecInputs, b)
  {
    var bits := SetBits(vecInputs, 64);
    SetBitsAscending(vecInputs, 64);
    RegistersPointwise(bits, Vector);
    if exists b: nat :: 32 <= b < 64 && BitSet(vecInputs, b) {
      var b: nat :| 32 <= b < 64 && BitSet(vecInputs, b);
      assert b in bits;
      var i :| 0 <= i < |bits| && bits[i] == b;
      assert !RegFromBit(bits[i], Vector).Ok?;
    } else {
      forall i | 0 <= i < |bits| ensures RegFromBit(bits[i], Vector).Ok? {
        assert BitSet(vecInputs, bits[i]);
      }
    }
  }

  /** When the vector mask does not throw, its parameters V<bit> follow the
      list already built, in ascending bit order. */
  lemma VectorParameters(vecInputs: Mask, list: seq<Register>)
    requires AppendArgs(list, vecInputs, Vector).Ok?
    ensures var bits := SetBits(vecInputs, 64);
            var regs := AppendArgs(list, vecInputs, Vector).value;
            |regs| == |list| + |bits| && regs[..|list|] == list
            && forall i :: 0 <= i < |bits| ==> regs[|list| + i] == Register(bits[i], Vector)
  {
    var bits := SetBits(vecInputs, 64);
    RegistersPointwise(bits, Vector);
    var vs := Registers(bits, Vector).value;
    assert (list + vs)[..|list|] == list;
    forall i | 0 <= i < |bits| ensures (list + vs)[|list| + i] == Register(bits[i], Vector) {
      assert RegFromBit(bits[i], Vector).Ok?;
    }
  }

  /** No register is passed twice: parameters are distinct. */
  lemma ParametersDistinct(intInputs: Mask, vecInputs: Mask)
    requires SubArgs(intInputs, vecInputs).Ok?
    ensures NoDuplicates(SubArgs(intInputs, vecInputs).value)
  {
    IntParameters(intInputs);
    SetBitsAscending(intInputs, 64);
    SetBitsAscending(vecInputs, 64);
    var ibits := SetBits(intInputs, 64);
    var vbits := SetBits(vecInputs, 64);
    var ints := AppendArgs([], intInputs, Int).value;
    VectorParameters(vecInputs, ints);
    var all := SubArgs(intInputs, vecInputs).value;
    forall i, j | 0 <= i < j < |all| ensures all[i] != all[j] {
      if j < |ints| {
        assert all[i] == ints[i] && all[j] == ints[j];
        assert RegisterBit(ints[i]) == ibits[i] < ibits[j] == RegisterBit(ints[j]);
      } else if i >= |ints| {
        assert all[i] == Register(vbits[i - |ints|], Vector);
        assert all[j] == Register(vbits[j - |ints|], Vector);
      } else {
        assert all[i] == ints[i] && all[i].regType != Vector;
        var k := j - |ints|;
        assert 0 <= k < |vbits|;
        assert all[j] == Register(vbits[k], Vector);
      }
    }
  }

  // ---------------------------------------------------------------------
  // The argument types
  // ---------------------------------------------------------------------

  /** GetArgumentTypes: the fixed argument types, then the field type of each
      parameter, written through a running index into an array. */
  method GetArgumentTypes(fixedArgs: seq<ClrType>, params: seq<Register>) returns (types: seq<ClrType>)
    ensures |types| == |fixedArgs| + |params|
    ensures types[..|fixedArgs|] == fixedArgs
    ensures forall i :: 0 <= i < |params| ==> types[|fixedArgs| + i] == FieldType(params[i].regType)
  {
    var output := new ClrType[|params| + |fixedArgs|](_ => Bool);
    for i := 0 to |fixedArgs|
      invariant output[..i] == fixedArgs[..i]
    {
      output[i] := fixedArgs[i];
    }
    var typeIdx := |fixedArgs|;
    for index := 0 to |params|
      invariant typeIdx == |fixedArgs| + index
      invariant output[..|fixedArgs|] == fixedArgs
      invariant forall i :: 0 <= i < index ==> output[|fixedArgs| + i] == FieldType(params[i].regType)
    {
      output[typeIdx] := FieldType(params[index].regType);
      typeIdx := typeIdx + 1;
    }
    types := output[..];
  }

  // ---------------------------------------------------------------------
  // Local slots
  // ---------------------------------------------------------------------

  /** The local-slot bookkeeping: the register-to-slot dictionary, the slot
      counter and the types of the locals declared so far. */
  datatype LocalSlots = LocalSlots(locals: map<Register, nat>, count: nat, declared: seq<ClrType>)

  /** Slots are numbered 0..count-1, one register each, each declared with
      its register's field type. */
  ghost predicate SlotsValid(s: LocalSlots)
  {
    && |s.declared| == s.count
    && (forall r :: r in s.locals ==> s.locals[r] < s.count && s.declared[s.locals[r]] == FieldType(r.regType))
    && (forall r1, r2 :: r1 in s.locals && r2 in s.locals && s.locals[r1] == s.locals[r2] ==> r1 == r2)
    && (forall i :: 0 <= i < s.count ==> i in s.locals.Values)
  }

  /** GetLocalIndex: the slot of `reg`, allocating the next one on first use. */
  function Allocate(s: LocalSlots, reg: Register): (r: (LocalSlots, nat))
    ensures reg in r.0.locals && r.0.locals[reg] == r.1
    ensures s.locals.Keys <= r.0.locals.Keys
  {
    if reg in s.locals then (s, s.locals[reg])
    else (LocalSlots(s.locals[reg := s.count], s.count + 1, s.declared + [FieldType(reg.regType)]), s.count)
  }

  /** Allocation keeps the slots numbered 0..count-1 one-to-one; a first use
      gets slot `count` and declares one local, a repeat use returns the
      register's slot and declares nothing. */
  lemma AllocateKeepsSlotsValid(s: LocalSlots, reg: Register)
    requires SlotsValid(s)
    ensures var (s', index) := Allocate(s, reg);
            && SlotsValid(s')
            && reg in s'.locals && s'.locals[reg] == index
            && (reg in s.locals ==> s' == s)
            && (reg !in s.locals ==> index == s.count && s'.count == s.count + 1 && s'.declared[..s.count] == s.declared)
            && (forall r :: r in s.locals ==> r in s'.locals && s'.locals[r] == s.locals[r])
  {
    var (s', index) := Allocate(s, reg);
    if reg !in s.locals {
      forall i | 0 <= i < s'.count ensures i in s'.locals.Values {
        if i < s.count {
          assert i in s.locals.Values;
          var r :| r in s.locals && s.locals[r] == i;
          assert r in s'.locals && s'.locals[r] == i;
        } else {
          assert reg in s'.locals && s'.locals[reg] == i;
        }
      }
      assert s'.declared[..s.count] == s.declared;
    }
  }

  /** No slot in use yet. */
  function EmptySlots(): (s: LocalSlots)
    ensures SlotsValid(s)
  {
    LocalSlots(map[], 0, [])
  }

  /** Slots after GetLocalIndex for each register of `regs`, in order, with
      the index each request returned. */
  function AllocateAll(s: LocalSlots, regs: seq<Register>): (r: (LocalSlots, seq<nat>))
    ensures |r.1| == |regs|
  {
    if regs == [] then (s, [])
    else
      var (s1, indices) := AllocateAll(s, regs[..|regs| - 1]);
      var (s2, index) := Allocate(s1, regs[|regs| - 1]);
      (s2, indices + [index])
  }

  /** Allocating a run of registers keeps the slots one-to-one. */
  lemma {:induction false} AllocateAllValid(s: LocalSlots, regs: seq<Register>)
    requires SlotsValid(s)
    ensures SlotsValid(AllocateAll(s, regs).0)
    decreases |regs|
  {
    if regs != [] {
      var n := |regs| - 1;
      AllocateAllValid(s, regs[..n]);
      AllocateKeepsSlotsValid(AllocateAll(s, regs[..n]).0, regs[n]);
    }
  }

  /** Each register ends up in the slot its request returned, and slots
      assigned before are kept. */
  lemma {:induction false} AllocateAllIndices(s: LocalSlots, regs: seq<Register>)
    ensures var (s', indices) := AllocateAll(s, regs);
            && (forall i :: 0 <= i < |regs| ==> regs[i] in s'.locals && s'.locals[regs[i]] == indices[i])
            && (forall r :: r in s.locals ==> r in s'.locals && s'.locals[r] == s.locals[r])
    decreases |regs|
  {
    if regs != [] {
      var n := |regs| - 1;
      var init := regs[..n];
      AllocateAllIndices(s, init);
      var p := AllocateAll(s, init);
      var q := Allocate(p.0, regs[n]);
      assert AllocateAll(s, regs) == (q.0, p.1 + [q.1]);
      forall i | 0 <= i < |regs| ensures regs[i] in q.0.locals && q.0.locals[regs[i]] == (p.1 + [q.1])[i] {
        if i < n {
          assert regs[i] == init[i];
        }
      }
    }
  }

  /** Distinct registers requested from fresh slots get slots 0..n-1 in order. */
  lemma {:induction false} AllocateAllDistinct(regs: seq<Register>)
    requires NoDuplicates(regs)
    ensures var (s', indices) := AllocateAll(EmptySlots(), regs);
            && s'.count == |regs|
            && (forall i :: 0 <= i < |regs| ==> indices[i] == i)
            && (forall r :: r in s'.locals ==> r in regs)
    decreases |regs|
  {
    if regs != [] {
      var n := |regs| - 1;
      var init := regs[..n];
      assert NoDuplicates(init);
      AllocateAllDistinct(init);
      var (s1, indices) := AllocateAll(EmptySlots(), init);
      assert regs[n] !in init;
      assert regs[n] !in s1.locals;
      forall r | r in AllocateAll(EmptySlots(), regs).0.locals ensures r in regs {
        if r != regs[n] {
          assert r in init;
        }
      }
    }
  }

  /** Asking again for the same register returns the same slot and changes nothing. */
  lemma AllocateIdempotent(s: LocalSlots, reg: Register)
    ensures Allocate(Allocate(s, reg).0, reg) == (Allocate(s, reg).0, Allocate(s, reg).1)
  {
  }

  /** One move of the prologue: load argument `arg`, store it in local `local`. */
  datatype Move = Move(arg: int, local: nat)

  /** The locals a run of moves stores into. */
  function LocalsOf(code: seq<Move>): (locals: seq<nat>)
    ensures |locals| == |code| && forall i :: 0 <= i < |code| ==> locals[i] == code[i].local
  {
    seq(|code|, i requires 0 <= i < |code| => code[i].local)
  }

  /** A step of the introspection pass's report: the offset and name of one
      instruction in the dump. */
  datatype DumpLine = DumpLine(offset: int, name: string)

  /** ILInstructionBound: the guest opcode, its emission time and the range
      of IL bytes it emitted. */
  datatype InstructionBound = InstructionBound(opCode: OpCode64, elapsedTicks: int64, ilStart: int32, ilEnd: int32)

  /** What the pass learns about one bound: how many instructions it emitted,
      and the dump it prints when that is more than the threshold. */
  datatype Report = Report(count: nat, dump: Option<seq<DumpLine>>)

  /** More instructions than this for one guest instruction are dumped. */
  const DumpThreshold: nat := 400

  /** The exceptions of one bound of the pass: the reader's, or the
      NullReferenceException of the dump header, which reads the emitter
      method's name and the instruction type's name unguarded. */
  datatype InspectError = Decoding(error: ReadError) | NullReference

  /** The dump header can name the instruction: both its emitter method and
      its type are present. */
  predicate Nameable(op: OpCode64)
  {
    op.emitterName.Some? && op.instType.Some?
  }

  /** The dump lines of `ms` starting at `offset`: each line carries the
      running offset, advanced by opcode size plus operand size. */
  function Listing(offset: int, ms: seq<OpCodeMeta>): seq<DumpLine>
    decreases |ms|
  {
    if ms == [] then []
    else [DumpLine(offset, ms[0].opCode.name)] + Listing(offset + ms[0].opCode.size + ms[0].operandSize, ms[1..])
  }

  /** Each dump line's offset is the start plus the bytes of the
      instructions before it. */
  lemma {:induction false} ListingOffsets(offset: int, ms: seq<OpCodeMeta>)
    ensures |Listing(offset, ms)| == |ms|
    ensures forall i :: 0 <= i < |ms| ==> Listing(offset, ms)[i] == DumpLine(offset + Footprint(ms[..i]), ms[i].opCode.name)
    decreases |ms|
  {
    if ms != [] {
      var next := offset + ms[0].opCode.size + ms[0].operandSize;
      ListingOffsets(next, ms[1..]);
      forall i | 0 <= i < |ms| ensures Listing(offset, ms)[i] == DumpLine(offset + Footprint(ms[..i]), ms[i].opCode.name) {
        if i > 0 {
          assert ms[..i][1..] == ms[1..][..i - 1];
          assert ms[..i][0] == ms[0];
        }
      }
    }
  }

  /** One bound of the introspection pass: decode its IL range, dump it when
      it has more than 400 instructions. */
  function Inspect(t: Tables, il: seq<byte>, b: InstructionBound): (r: Result<Report, InspectError>)
    requires t.Valid()
    ensures r.Ok? ==> (r.value.dump.Some? <==> r.value.count > DumpThreshold)
    ensures r.Ok? ==> ReadRange(t, il, b.ilStart as int, b.ilEnd as int).Ok?
                      && r.value.count == |ReadRange(t, il, b.ilStart as int, b.ilEnd as int).value|
    ensures (r.Err? && r.error.Decoding?) <==> ReadRange(t, il, b.ilStart as int, b.ilEnd as int).Err?
    ensures r == Err(NullReference) <==>
              && ReadRange(t, il, b.ilStart as int, b.ilEnd as int).Ok?
              && |ReadRange(t, il, b.ilStart as int, b.ilEnd as int).value| > DumpThreshold
              && !Nameable(b.opCode)
  {
    match ReadRange(t, il, b.ilStart as int, b.ilEnd as int)
    case Err(e) => Err(Decoding(e))
    case Ok(ms) =>
      if |ms| > DumpThreshold && !Nameable(b.opCode) then Err(NullReference)
      else Ok(Report(|ms|, if |ms| > DumpThreshold then Some(Listing(b.ilStart as int, ms)) else None))
  }

  /** The dump walks the range exactly: line i sits after the bytes of the
      instructions before it, and the last instruction ends at the bound's end. */
  lemma DumpOffsetsWithinBound(t: Tables, il: seq<byte>, b: InstructionBound)
    requires t.WellFormed()
    requires Inspect(t, il, b).Ok? && Inspect(t, il, b).value.dump.Some?
    ensures var ms := ReadRange(t, il, b.ilStart as int, b.ilEnd as int).value;
            var lines := Inspect(t, il, b).value.dump.value;
            && |lines| == |ms|
            && (forall i :: 0 <= i < |ms| ==> lines[i].offset == b.ilStart as int + Footprint(ms[..i]))
            && b.ilStart as int + Footprint(ms) == b.ilEnd as int
  {
    var ms := ReadRange(t, il, b.ilStart as int, b.ilEnd as int).value;
    ListingOffsets(b.ilStart as int, ms);
    ReadRangeAccounts(t, il, b.ilStart as int, b.ilEnd as int);
  }

  /** The reports of all bounds in order, or the first exception. */
  function InspectAll(t: Tables, il: seq<byte>, bounds: seq<InstructionBound>): (r: Result<seq<Report>, InspectError>)
    requires t.Valid()
    ensures r.Ok? ==> |r.value| == |bounds|
  {
    if bounds == [] then Ok([])
    else match InspectAll(t, il, bounds[..|bounds| - 1])
      case Err(e) => Err(e)
      case Ok(reports) =>
        match Inspect(t, il, bounds[|bounds| - 1])
        case Err(e) => Err(e)
        case Ok(report) => Ok(reports + [report])
  }

  /** The counter's opcode tables after tracking every bound with its count. */
  function TrackReports(tables: OpcodeTables, nameHash: string -> bv32, typeHash: string -> bv32,
                        bounds: seq<InstructionBound>, counts: seq<int32>): OpcodeTables
    requires |counts| == |bounds|
  {
    if bounds == [] then tables
    else
      var n := |bounds| - 1;
      TrackOpcode(TrackReports(tables, nameHash, typeHash, bounds[..n], counts[..n]),
                  KeyOf(bounds[n].opCode, nameHash, typeHash), bounds[n].elapsedTicks, counts[n])
  }

  /** Every bound is tracked exactly once: a key's emit count grows by the
      number of bounds carrying that key. */
  lemma {:induction false} TrackReportsCounts(tables: OpcodeTables, nameHash: string -> bv32, typeHash: string -> bv32,
                                             bounds: seq<InstructionBound>, counts: seq<int32>, key: KeyHash)
    requires |counts| == |bounds|
    ensures var after := TrackReports(tables, nameHash, typeHash, bounds, counts).emitCount;
            var hits := |KeyedBounds(bounds, nameHash, typeHash, key)|;
            && (hits == 0 ==> (key in after <==> key in tables.emitCount) && (key in after ==> after[key] == tables.emitCount[key]))
            && (hits > 0 ==> key in after && after[key] == (if key in tables.emitCount then tables.emitCount[key] else 0) + hits)
    decreases |bounds|
  {
    if bounds != [] {
      var n := |bounds| - 1;
      TrackReportsCounts(tables, nameHash, typeHash, bounds[..n], counts[..n], key);
      var before := TrackReports(tables, nameHash, typeHash, bounds[..n], counts[..n]);
      TrackOpcodeCounts(before, KeyOf(bounds[n].opCode, nameHash, typeHash), bounds[n].elapsedTicks, counts[n]);
    }
  }

  /** The indices of the bounds whose opcode has key `key`. */
  function KeyedBounds(bounds: seq<InstructionBound>, nameHash: string -> bv32, typeHash: string -> bv32, key: KeyHash): seq<nat>
  {
    if bounds == [] then []
    else
      var n := |bounds| - 1;
      KeyedBounds(bounds[..n], nameHash, typeHash, key) + (if KeyOf(bounds[n].opCode, nameHash, typeHash) == key then [n] else [])
  }

  /** The counts of a run of reports, as the `int` the source passes on. */
  function Counts(reports: seq<Report>): (counts: seq<int32>)
    requires forall i :: 0 <= i < |reports| ==> reports[i].count < 0x8000_0000
    ensures |counts| == |reports|
    ensures forall i :: 0 <= i < |reports| ==> counts[i] as int == reports[i].count
  {
    seq(|reports|, i requires 0 <= i < |reports| => reports[i].count as int32)
  }

  /** The pass stopped at bound `k`, the first that throws,
      after tracking every bound before it: `after` is `before` with the
      bounds `bounds[..k]` tracked with their counts. */
  ghost predicate StoppedAt(t: Tables, il: seq<byte>, bounds: seq<InstructionBound>, k: nat,
                            before: OpcodeTables, after: OpcodeTables, nameHash: string -> bv32, typeHash: string -> bv32)
    requires t.Valid()
  {
    && k < |bounds|
    && InspectAll(t, il, bounds[..k]).Ok?
    && Inspect(t, il, bounds[k]).Err?
    && (InspectAllCountsFit(t, il, bounds[..k]);
        after == TrackReports(before, nameHash, typeHash, bounds[..k], Counts(InspectAll(t, il, bounds[..k]).value)))
  }

  /** A decoded range holds at most one instruction per byte. */
  lemma {:induction false} DecodeLength(t: Tables, s: seq<byte>, pos: nat)
    requires t.Valid()
    requires pos <= |s| && Decode(t, s, pos).Ok?
    ensures |Decode(t, s, pos).value| <= |s| - pos
    decreases |s| - pos
  {
    if pos < |s| {
      var (meta, next) := StepAt(t, s, pos).value;
      DecodeLength(t, s, next);
    }
  }

  /** Every count the pass reports fits the source's `int`. */
  lemma {:induction false} InspectAllCountsFit(t: Tables, il: seq<byte>, bounds: seq<InstructionBound>)
    requires t.Valid()
    requires InspectAll(t, il, bounds).Ok?
    ensures forall i :: 0 <= i < |bounds| ==> InspectAll(t, il, bounds).value[i].count < 0x8000_0000
    decreases |bounds|
  {
    if bounds != [] {
      var n := |bounds| - 1;
      InspectAllCountsFit(t, il, bounds[..n]);
      var b := bounds[n];
      DecodeLength(t, il[b.ilStart..b.ilEnd], 0);
    }
  }

  // ---------------------------------------------------------------------
  // The builder
  // ---------------------------------------------------------------------

  /** The signature part of a built subroutine. */
  datatype Signature = Signature(subArgs: seq<Register>, argTypes: seq<ClrType>, prologue: seq<Move>)

  /** ILMethodBuilder: the local-slot dictionary and counter, the types of
      the locals it declared, and the instruction bounds the emitter recorded. */
  class MethodBuilder {
    var locals: map<Register, nat>
    var localsCount: nat
    var declaredLocals: seq<ClrType>
    var instructionBounds: seq<InstructionBound>
    var instructionBoundStack: seq<InstructionBound>

    ghost function Slots(): LocalSlots
      reads this
    {
      LocalSlots(locals, localsCount, declaredLocals)
    }

    constructor ()
      ensures SlotsValid(Slots())
      ensures locals == map[] && localsCount == 0 && declaredLocals == []
      ensures instructionBounds == [] && instructionBoundStack == []
    {
      locals, localsCount, declaredLocals := map[], 0, [];
      instructionBounds, instructionBoundStack := [], [];
    }

    /** GetLocalIndex: the register's slot, declared on first use. */
    method GetLocalIndex(reg: Register) returns (index: nat)
      modifies this
      ensures (Slots(), index) == Allocate(old(Slots()), reg)
      ensures instructionBounds == old(instructionBounds) && instructionBoundStack == old(instructionBoundStack)
    {
      if reg in locals {
        index := locals[reg];
      } else {
        declaredLocals := declaredLocals + [FieldType(reg.regType)];
        index := localsCount;
        localsCount := localsCount + 1;
        locals := locals[reg := index];
      }
    }

    /** The prologue: with fresh slots, store argument `index + argsStart` in
        the local of SubArgs[index]. Distinct parameters get locals 0..n-1. */
    method Prologue(subArgs: seq<Register>, argsStart: nat) returns (code: seq<Move>)
      modifies this
      ensures SlotsValid(Slots())
      ensures |code| == |subArgs|
      ensures forall i :: 0 <= i < |subArgs| ==> code[i].arg == i + argsStart && subArgs[i] in locals && locals[subArgs[i]] == code[i].local
      ensures NoDuplicates(subArgs) ==>
                localsCount == |subArgs| && forall i :: 0 <= i < |subArgs| ==> code[i].local == i
      ensures instructionBounds == old(instructionBounds) && instructionBoundStack == old(instructionBoundStack)
    {
      locals := map[];
      localsCount := 0;
      declaredLocals := [];
      code := [];
      for index := 0 to |subArgs|
        invariant (Slots(), LocalsOf(code)) == AllocateAll(EmptySlots(), subArgs[..index])
        invariant forall i :: 0 <= i < |code| ==> code[i].arg == i + argsStart
        invariant instructionBounds == old(instructionBounds) && instructionBoundStack == old(instructionBoundStack)
      {
        assert subArgs[..index + 1][..index] == subArgs[..index];
        var before := code;
        var local := GetLocalIndex(subArgs[index]);
        code := before + [Move(index + argsStart, local)];
        assert LocalsOf(code) == LocalsOf(before) + [local];
      }
      assert subArgs[..|subArgs|] == subArgs;
      AllocateAllValid(EmptySlots(), subArgs);
      AllocateAllIndices(EmptySlots(), subArgs);
      if NoDuplicates(subArgs) {
        AllocateAllDistinct(subArgs);
      }
    }

    /** The argument-list part of GetSubroutine: the parameter list from the
        two live-in masks, the argument types, and the prologue. */
    method BuildSignature(fixedArgs: seq<ClrType>, intInputs: Mask, vecInputs: Mask) returns (r: Result<Signature, BuildError>)
      modifies this
      ensures r.Err? <==> exists b: nat :: 32 <= b < 64 && BitSet(vecInputs, b)
      ensures r.Ok? ==> SubArgs(intInputs, vecInputs) == Ok(r.value.subArgs)
      ensures r.Ok? ==>
                var sig := r.value;
                && |sig.argTypes| == |fixedArgs| + |sig.subArgs|
                && sig.argTypes[..|fixedArgs|] == fixedArgs
                && (forall i :: 0 <= i < |sig.subArgs| ==> sig.argTypes[|fixedArgs| + i] == FieldType(sig.subArgs[i].regType))
                && |sig.prologue| == |sig.subArgs|
                && forall i :: 0 <= i < |sig.subArgs| ==> sig.prologue[i] == Move(|fixedArgs| + i, i)
      ensures instructionBounds == old(instructionBounds) && instructionBoundStack == old(instructionBoundStack)
    {
      IntParameters(intInputs);
      var ints := SetArgs([], intInputs, Int);
      VectorParametersFail(vecInputs, ints.value);
      var all := SetArgs(ints.value, vecInputs, Vector);
      if all.Err? {
        return Err(all.error);
      }
      var subArgs := all.value;
      ParametersDistinct(intInputs, vecInputs);
      var argTypes := GetArgumentTypes(fixedArgs, subArgs);
      var prologue := Prologue(subArgs, |fixedArgs|);
      r := Ok(Signature(subArgs, argTypes, prologue));
    }

    /** ProcessInstructionIntrospection: decode every recorded bound, dump
        the large ones, track each with its instruction count, then clear the
        bound list and stack. An exception ends the pass with both
        left as they were. */
    method ProcessInstructionIntrospection(t: Tables, il: seq<byte>, counter: IntrospectionCounter)
      returns (r: Result<seq<Report>, InspectError>)
      requires t.Valid() && counter.Valid()
      modifies this, counter
      ensures counter.Valid()
      ensures r == InspectAll(t, il, old(instructionBounds))
      ensures r.Ok? ==> instructionBounds == [] && instructionBoundStack == []
      ensures r.Ok? ==>
                (InspectAllCountsFit(t, il, old(instructionBounds));
                 counter.Opcodes() == TrackReports(old(counter.Opcodes()), counter.nameHash, counter.typeHash,
                                                   old(instructionBounds), Counts(r.value)))
      ensures r.Err? ==> instructionBounds == old(instructionBounds) && instructionBoundStack == old(instructionBoundStack)
      ensures r.Err? ==> exists k :: StoppedAt(t, il, old(instructionBounds), k, old(counter.Opcodes()), counter.Opcodes(),
                                              counter.nameHash, counter.typeHash)
      ensures counter.jitTime == old(counter.jitTime)
      ensures Slots() == old(Slots())
    {
      r := TrackBounds(t, il, instructionBounds, counter);
      if r.Ok? {
        instructionBounds := [];
        instructionBoundStack := [];
      }
    }
  }

  /** One more bound of the pass: its report is appended, or its exception
      ends the pass; a report's count fits an `int`. */
  lemma InspectStep(t: Tables, il: seq<byte>, bounds: seq<InstructionBound>, index: nat, reports: seq<Report>)
    requires t.Valid()
    requires index < |bounds|
    requires InspectAll(t, il, bounds[..index]) == Ok(reports)
    ensures InspectAll(t, il, bounds[..index + 1])
            == match Inspect(t, il, bounds[index])
               case Err(e) => Err(e)
               case Ok(report) => Ok(reports + [report])
    ensures Inspect(t, il, bounds[index]).Ok? ==> Inspect(t, il, bounds[index]).value.count < 0x8000_0000
  {
    assert bounds[..index + 1][..index] == bounds[..index];
    var b := bounds[index];
    if Inspect(t, il, b).Ok? {
      DecodeLength(t, il[b.ilStart..b.ilEnd], 0);
    }
  }

  /** One more tracked bound: TrackReports grows by one TrackOpcode. */
  lemma CountsSnoc(counts: seq<int32>, reports: seq<Report>, count: int32, report: Report)
    requires |counts| == |reports| && forall i :: 0 <= i < |reports| ==> counts[i] as int == reports[i].count
    requires count as int == report.count
    ensures forall i :: 0 <= i < |reports| + 1 ==> (counts + [count])[i] as int == (reports + [report])[i].count
  {
  }

  lemma TrackReportsStep(tables: OpcodeTables, nameHash: string -> bv32, typeHash: string -> bv32,
                         bounds: seq<InstructionBound>, index: nat, counts: seq<int32>, count: int32)
    requires index < |bounds| && |counts| == index
    ensures TrackReports(tables, nameHash, typeHash, bounds[..index + 1], counts + [count])
            == TrackOpcode(TrackReports(tables, nameHash, typeHash, bounds[..index], counts),
                           KeyOf(bounds[index].opCode, nameHash, typeHash), bounds[index].elapsedTicks, count)
  {
    assert bounds[..index + 1][..index] == bounds[..index];
    assert (counts + [count])[..index] == counts;
  }

  /** One bound of the pass: decode its range and, past the threshold, dump it. */
  method InspectBound(t: Tables, il: seq<byte>, bound: InstructionBound) returns (r: Result<Report, InspectError>)
    requires t.Valid()
    ensures r == Inspect(t, il, bound)
  {
    var instructions := ReadInstructions(t, il, bound.ilStart, bound.ilEnd);
    if instructions.Err? {
      return Err(Decoding(instructions.error));
    }
    var ms := instructions.value;
    var dump: Option<seq<DumpLine>> := None;
    if |ms| > DumpThreshold {
      if bound.opCode.emitterName.None? || bound.opCode.instType.None? {
        return Err(NullReference);
      }
      var lines := Dump(bound.ilStart as int, ms);
      dump := Some(lines);
    }
    r := Ok(Report(|ms|, dump));
  }

  /** The dump loop: one line per instruction, the offset advanced by each
      instruction's opcode and operand sizes. */
  method Dump(ilStart: int, ms: seq<OpCodeMeta>) returns (lines: seq<DumpLine>)
    ensures lines == Listing(ilStart, ms)
  {
    var start := ilStart;
    lines := [];
    for k := 0 to |ms|
      invariant lines + Listing(start, ms[k..]) == Listing(ilStart, ms)
    {
      assert ms[k..][1..] == ms[k + 1..];
      lines := lines + [DumpLine(start, ms[k].opCode.name)];
      start := start + ms[k].opCode.size;
      start := start + ms[k].operandSize;
    }
    assert ms[|ms|..] == [];
  }

  /** The pass has inspected and tracked the first `k` bounds: they
      decoded to `reports`, `counts` are their instruction counts, and
      `after` is `before` with those bounds tracked. */
  ghost predicate PassedThrough(t: Tables, il: seq<byte>, bounds: seq<InstructionBound>, k: nat,
                                reports: seq<Report>, counts: seq<int32>,
                                before: OpcodeTables, after: OpcodeTables, nameHash: string -> bv32, typeHash: string -> bv32)
    requires t.Valid()
  {
    && k <= |bounds|
    && InspectAll(t, il, bounds[..k]) == Ok(reports)
    && |counts| == k && (forall i :: 0 <= i < k ==> counts[i] as int == reports[i].count)
    && after == TrackReports(before, nameHash, typeHash, bounds[..k], counts)
  }

  /** The loop of ProcessInstructionIntrospection: inspect each bound in
      order and track it with its instruction count. */
  method TrackBounds(t: Tables, il: seq<byte>, bounds: seq<InstructionBound>, counter: IntrospectionCounter)
    returns (r: Result<seq<Report>, InspectError>)
    requires t.Valid() && counter.Valid()
    modifies counter
    ensures counter.Valid()
    ensures r == InspectAll(t, il, bounds)
    ensures r.Ok? ==>
              (InspectAllCountsFit(t, il, bounds);
               counter.Opcodes() == TrackReports(old(counter.Opcodes()), counter.nameHash, counter.typeHash, bounds, Counts(r.value)))
    ensures r.Err? ==> exists k :: StoppedAt(t, il, bounds, k, old(counter.Opcodes()), counter.Opcodes(), counter.nameHash, counter.typeHash)
    ensures counter.jitTime == old(counter.jitTime)
  {
    var reports: seq<Report> := [];
    var counts: seq<int32> := [];
    for index := 0 to |bounds|
      invariant counter.Valid()
      invariant PassedThrough(t, il, bounds, index, reports, counts, old(counter.Opcodes()), counter.Opcodes(), counter.nameHash, counter.typeHash)
      invariant counter.jitTime == old(counter.jitTime)
    {
      var inspected := InspectBound(t, il, bounds[index]);
      if inspected.Err? {
        StopsAtFirstFailure(t, il, bounds, index, reports, counts, old(counter.Opcodes()), counter.Opcodes(), counter.nameHash, counter.typeHash);
        return Err(inspected.error);
      }
      reports, counts := TrackNext(t, il, bounds, index, reports, counts, inspected.value, counter, old(counter.Opcodes()));
    }
    assert bounds[..|bounds|] == bounds;
    r := Ok(reports);
    assert Counts(reports) == counts;
  }

  /** One successful bound of the pass: track it with its instruction count. */
  method TrackNext(t: Tables, il: seq<byte>, bounds: seq<InstructionBound>, index: nat,
                   reports: seq<Report>, counts: seq<int32>, report: Report,
                   counter: IntrospectionCounter, ghost before: OpcodeTables)
    returns (reports': seq<Report>, counts': seq<int32>)
    requires t.Valid() && counter.Valid()
    requires index < |bounds|
    requires PassedThrough(t, il, bounds, index, reports, counts, before, counter.Opcodes(), counter.nameHash, counter.typeHash)
    requires Inspect(t, il, bounds[index]) == Ok(report)
    modifies counter
    ensures counter.Valid() && counter.jitTime == old(counter.jitTime)
    ensures PassedThrough(t, il, bounds, index + 1, reports', counts', before, counter.Opcodes(), counter.nameHash, counter.typeHash)
  {
    InspectStep(t, il, bounds, index, reports);
    var bound := bounds[index];
    counter.Track(bound.opCode, bound.elapsedTicks, report.count as int32);
    TrackReportsStep(before, counter.nameHash, counter.typeHash, bounds, index, counts, report.count as int32);
    CountsSnoc(counts, reports, report.count as int32, report);
    reports' := reports + [report];
    counts' := counts + [report.count as int32];
  }

  /** The first bound that throws ends the whole pass with its error, and
      the counters then hold what the bounds before it tracked. */
  lemma StopsAtFirstFailure(t: Tables, il: seq<byte>, bounds: seq<InstructionBound>, index: nat,
                            reports: seq<Report>, counts: seq<int32>,
                            before: OpcodeTables, after: OpcodeTables, nameHash: string -> bv32, typeHash: string -> bv32)
    requires t.Valid()
    requires index < |bounds|
    requires PassedThrough(t, il, bounds, index, reports, counts, before, after, nameHash, typeHash)
    requires Inspect(t, il, bounds[index]).Err?
    ensures InspectAll(t, il, bounds) == Err(Inspect(t, il, bounds[index]).error)
    ensures StoppedAt(t, il, bounds, index, before, after, nameHash, typeHash)
  {
    InspectStep(t, il, bounds, index, reports);
    InspectAllErrSticks(t, il, bounds[..index + 1], bounds);
    assert Counts(reports) == counts;
  }

  /** Once a bound throws, the pass over a longer run of bounds throws too. */
  lemma {:induction false} InspectAllErrSticks(t: Tables, il: seq<byte>, bounds: seq<InstructionBound>, more: seq<InstructionBound>)
    requires t.Valid()
    requires bounds <= more
    requires InspectAll(t, il, bounds).Err?
    ensures InspectAll(t, il, more) == InspectAll(t, il, bounds)
    decreases |more|
  {
    if |bounds| < |more| {
      var init := more[..|more| - 1];
      assert bounds <= init;
      InspectAllErrSticks(t, il, bounds, init);
      assert more[..|more| - 1] == init;
    } else {
      assert bounds == more;
    }
  }
}
