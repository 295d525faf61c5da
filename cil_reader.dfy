/** ILReader: a decoder for CIL instruction streams. Each instruction is a
    one-byte opcode, or the prefix byte 0xFE followed by the low byte of a
    two-byte opcode (ECMA-335 Partition III, section 1.2.1), then an inline
    operand whose length follows from the opcode's operand type; the operand of
    `switch` is a count N followed by N 4-byte targets (ECMA-335 Partition III,
    section 3.66). The decoder reports each opcode with the number of operand
    bytes it skipped. */
module CilReader {
  import opened Common

  /** System.Reflection.Emit.OperandType. */
  datatype OperandType =
    | InlineBrTarget | InlineField | InlineI | InlineI8 | InlineMethod | InlineNone | InlinePhi
    | InlineR | InlineSig | InlineString | InlineSwitch | InlineTok | InlineType | InlineVar
    | ShortInlineBrTarget | ShortInlineI | ShortInlineR | ShortInlineVar

  /** System.Reflection.Emit.OpCodeType; `Nternal` marks reserved opcodes. */
  datatype OpCodeType = Annotation | Macro | Nternal | Objmodel | Prefix | Primitive

  /** What the decoder uses of System.Reflection.Emit.OpCode: `value` is the
      16-bit encoding (0xFEnn for a two-byte opcode), `size` its length in bytes. */
  datatype OpCode = OpCode(name: string, value: int, size: int, operandType: OperandType, opCodeType: OpCodeType)

  /** One decoded instruction: its opcode and the operand bytes skipped. */
  datatype OpCodeMeta = OpCodeMeta(opCode: OpCode, operandSize: int)

  /** The exceptions the decoder and its tables can throw. */
  datatype ReadError =
    | EndOfStream         // a read past the end of the stream
    | IndexOutOfRange     // an opcode byte of 255, beyond the 255-slot tables
    | UnknownOpCode       // a table slot no opcode was stored in
    | NotSupported        // an operand type the decoder has no case for
    | InvalidRange        // start/stop that do not describe a slice of the buffer
    | TypeInitialization  // the static constructor failed while filling the tables

  /** Number of slots in each opcode table. */
  const TableSize: nat := 255

  /** The byte that announces a two-byte opcode. */
  const TwoBytePrefix: byte := 254

  /** The two lookup tables: one-byte opcodes by value, two-byte opcodes by
      their low byte. */
  datatype Tables = Tables(single: seq<Option<OpCode>>, double: seq<Option<OpCode>>)
  {
    predicate Valid()
    {
      |single| == TableSize && |double| == TableSize
    }

    /** Every stored one-byte opcode has size 1 and every two-byte one size 2. */
    predicate WellFormed()
    {
      && Valid()
      && (forall i :: 0 <= i < TableSize && single[i].Some? ==> single[i].value.size == 1)
      && (forall i :: 0 <= i < TableSize && double[i].Some? ==> double[i].value.size == 2)
    }
  }

  function EmptyTables(): (t: Tables)
    ensures t.WellFormed()
  {
    Tables(seq(TableSize, _ => None), seq(TableSize, _ => None))
  }

  // ---------------------------------------------------------------------
  // Table population (the static constructor)
  // ---------------------------------------------------------------------

  /** Store one field of System.Reflection.Emit.OpCodes: reserved opcodes are
      skipped, one-byte opcodes go to slot `value`, the others to slot
      `value & 0xff`; a slot index of 255 or more throws. */
  function Install(t: Tables, code: OpCode): (r: Result<Tables, ReadError>)
    requires t.Valid()
    ensures r.Ok? ==> r.value.Valid()
  {
    if code.opCodeType == Nternal then Ok(t)
    else if code.size == 1 then
      if 0 <= code.value < TableSize then Ok(t.(single := t.single[code.value := Some(code)]))
      else Err(TypeInitialization)
    else
      var index := code.value % 256;
      if index < TableSize then Ok(t.(double := t.double[index := Some(code)]))
      else Err(TypeInitialization)
  }

  /** The tables after storing `fields` in order into `t`. */
  function Populate(t: Tables, fields: seq<OpCode>): (r: Result<Tables, ReadError>)
    requires t.Valid()
    ensures r.Ok? ==> r.value.Valid()
    decreases |fields|
  {
    if fields == [] then Ok(t)
    else match Install(t, fields[0])
      case Err(e) => Err(e)
      case Ok(t') => Populate(t', fields[1..])
  }

  /** Every opcode of the runtime has one or two bytes. */
  predicate OneOrTwoBytes(fields: seq<OpCode>)
  {
    forall i :: 0 <= i < |fields| ==> fields[i].size == 1 || fields[i].size == 2
  }

  /** Slot `i` of the one-byte table holds a non-reserved one-byte opcode of
      value i, slot `i` of the two-byte table a non-reserved two-byte opcode
      whose low byte is i. */
  ghost predicate SlotsMatchValues(t: Tables)
    requires t.Valid()
  {
    && (forall i :: 0 <= i < TableSize && t.single[i].Some? ==>
          t.single[i].value.opCodeType != Nternal && t.single[i].value.value == i)
    && (forall i :: 0 <= i < TableSize && t.double[i].Some? ==>
          t.double[i].value.opCodeType != Nternal && t.double[i].value.value % 256 == i)
  }

  /** Populating from opcodes of one or two bytes yields well-formed tables in
      which no reserved opcode is stored and each slot matches its opcode's
      value (or low byte). */
  lemma {:induction false} PopulateWellFormed(t: Tables, fields: seq<OpCode>)
    requires t.WellFormed() && SlotsMatchValues(t)
    requires OneOrTwoBytes(fields)
    requires Populate(t, fields).Ok?
    ensures Populate(t, fields).value.WellFormed() && SlotsMatchValues(Populate(t, fields).value)
    decreases |fields|
  {
    if fields != [] {
      var t' := Install(t, fields[0]).value;
      assert OneOrTwoBytes(fields[1..]) by {
        forall i | 0 <= i < |fields[1..]| ensures fields[1..][i].size == 1 || fields[1..][i].size == 2 {
          assert fields[1..][i] == fields[i + 1];
        }
      }
      PopulateWellFormed(t', fields[1..]);
    }
  }

  /** Reserved opcodes never reach the tables, so the reserved prefix opcode
      0xFF does not index slot 255; a non-reserved one-byte opcode of value
      255 would, and population fails. */
  lemma ReservedSkippedSlot255Fails(t: Tables, name: string, ot: OperandType, kind: OpCodeType)
    requires t.Valid()
    ensures Install(t, OpCode(name, 0xFF, 1, ot, Nternal)) == Ok(t)
    ensures kind != Nternal ==> Install(t, OpCode(name, 0xFF, 1, ot, kind)) == Err(TypeInitialization)
  {
  }

  /** The slot `code` is stored in: slot `value` of the one-byte table, or
      slot `value & 0xff` of the two-byte table. */
  predicate StoredAt(t: Tables, code: OpCode)
    requires t.Valid()
  {
    if code.size == 1 then 0 <= code.value < TableSize && t.single[code.value] == Some(code)
    else 0 <= code.value % 256 < TableSize && t.double[code.value % 256] == Some(code)
  }

  /** Two opcodes that Install would store in the same slot. */
  predicate SameSlot(a: OpCode, b: OpCode)
  {
    && (a.size == 1) == (b.size == 1)
    && if a.size == 1 then a.value == b.value else a.value % 256 == b.value % 256
  }

  /** No non-reserved opcode of `fields` goes to the slot of `code`. */
  predicate NoneLandsOn(fields: seq<OpCode>, code: OpCode)
  {
    forall j :: 0 <= j < |fields| && fields[j].opCodeType != Nternal ==> !SameSlot(fields[j], code)
  }

  /** Population leaves alone a slot that no later opcode goes to. */
  lemma {:induction false} PopulateKeepsSlot(t: Tables, fields: seq<OpCode>, code: OpCode)
    requires t.Valid() && StoredAt(t, code)
    requires NoneLandsOn(fields, code)
    requires Populate(t, fields).Ok?
    ensures StoredAt(Populate(t, fields).value, code)
    decreases |fields|
  {
    if fields != [] {
      var t' := Install(t, fields[0]).value;
      assert fields[0].opCodeType != Nternal ==> !SameSlot(fields[0], code);
      assert StoredAt(t', code);
      assert NoneLandsOn(fields[1..], code) by {
        forall j | 0 <= j < |fields[1..]| && fields[1..][j].opCodeType != Nternal ensures !SameSlot(fields[1..][j], code) {
          assert fields[1..][j] == fields[j + 1];
        }
      }
      PopulateKeepsSlot(t', fields[1..], code);
    }
  }

  /** Every non-reserved opcode that no later opcode displaces ends up in its
      slot: one-byte opcodes at their value, two-byte ones at their low byte. */
  lemma {:induction false} PopulateStoresEveryOpCode(t: Tables, fields: seq<OpCode>, i: nat)
    requires t.Valid()
    requires Populate(t, fields).Ok?
    requires i < |fields| && fields[i].opCodeType != Nternal
    requires NoneLandsOn(fields[i + 1..], fields[i])
    ensures StoredAt(Populate(t, fields).value, fields[i])
    decreases |fields|
  {
    var t' := Install(t, fields[0]).value;
    if i == 0 {
      assert StoredAt(t', fields[0]);
      PopulateKeepsSlot(t', fields[1..], fields[0]);
    } else {
      assert fields[1..][i - 1] == fields[i] && fields[1..][i..] == fields[i + 1..];
      PopulateStoresEveryOpCode(t', fields[1..], i - 1);
    }
  }

  /** The encodings the runtime gives its opcodes: one-byte opcodes other
      than the 0xFE prefix, and two-byte opcodes 0xFE00..0xFEFF. */
  predicate RuntimeEncoding(code: OpCode)
  {
    && 0 <= code.value < 0x1_0000
    && (code.size == 1 || code.size == 2)
    && (code.size == 1 ==> code.value != TwoBytePrefix as int)
    && (code.size == 2 ==> code.value / 256 == TwoBytePrefix as int)
  }

  /** After the static constructor, the decoder recognises every such opcode
      from its own bytes. */
  lemma PopulatedTablesKnow(fields: seq<OpCode>, i: nat)
    requires Populate(EmptyTables(), fields).Ok?
    requires i < |fields| && fields[i].opCodeType != Nternal && RuntimeEncoding(fields[i])
    requires NoneLandsOn(fields[i + 1..], fields[i])
    ensures Knows(Populate(EmptyTables(), fields).value, fields[i])
  {
    PopulateStoresEveryOpCode(EmptyTables(), fields, i);
  }

  /** The static constructor: fill two 255-slot arrays from the runtime's list
      of opcodes. */
  method PopulateTables(fields: seq<OpCode>) returns (r: Result<Tables, ReadError>)
    ensures r == Populate(EmptyTables(), fields)
  {
    var singleOpCodes := new Option<OpCode>[TableSize](_ => None);
    var doubleOpCodes := new Option<OpCode>[TableSize](_ => None);
    assert Tables(singleOpCodes[..], doubleOpCodes[..]) == EmptyTables();
    var i := 0;
    while i < |fields|
      invariant 0 <= i <= |fields|
      invariant singleOpCodes.Length == TableSize && doubleOpCodes.Length == TableSize
      invariant Populate(Tables(singleOpCodes[..], doubleOpCodes[..]), fields[i..]) == Populate(EmptyTables(), fields)
    {
      var code := fields[i];
      assert fields[i..][0] == code && fields[i..][1..] == fields[i + 1..];
      if code.opCodeType != Nternal {
        if code.size == 1 {
          if !(0 <= code.value < TableSize) {
            return Err(TypeInitialization);
          }
          singleOpCodes[code.value] := Some(code);
        } else {
          var index := code.value % 256;
          if index >= TableSize {
            return Err(TypeInitialization);
          }
          doubleOpCodes[index] := Some(code);
        }
      }
      i := i + 1;
    }
    r := Ok(Tables(singleOpCodes[..], doubleOpCodes[..]));
  }

  // ---------------------------------------------------------------------
  // Reading from the stream
  // ---------------------------------------------------------------------

  /** The little-endian unsigned 32-bit value at `pos`. */
  function UInt32At(s: seq<byte>, pos: nat): (n: nat)
    requires pos + 4 <= |s|
    ensures n < 0x1_0000_0000
  {
    s[pos] as int + 0x100 * s[pos + 1] as int + 0x1_0000 * s[pos + 2] as int + 0x100_0000 * s[pos + 3] as int
  }

  /** The little-endian signed 32-bit value at `pos` (BinaryReader.ReadInt32). */
  function Int32At(s: seq<byte>, pos: nat): (v: int)
    requires pos + 4 <= |s|
    ensures -0x8000_0000 <= v < 0x8000_0000
    ensures v < 0 <==> s[pos + 3] >= 0x80
  {
    var u := UInt32At(s, pos);
    if u < 0x8000_0000 then u else u - 0x1_0000_0000
  }

  /** ReadOpCode: the opcode at `pos` and the position after it. */
  function OpCodeAt(t: Tables, s: seq<byte>, pos: nat): (r: Result<(OpCode, nat), ReadError>)
    requires t.Valid()
    ensures r.Ok? ==> pos < r.value.1 <= |s|
    ensures r.Ok? ==> r.value.1 == pos + (if s[pos] == TwoBytePrefix then 2 else 1)
    ensures r.Ok? ==> if s[pos] == TwoBytePrefix then (s[pos + 1] as int) < TableSize && t.double[s[pos + 1]] == Some(r.value.0)
                      else (s[pos] as int) < TableSize && t.single[s[pos]] == Some(r.value.0)
    ensures r == Err(EndOfStream) <==> pos >= |s| || (s[pos] == TwoBytePrefix && pos + 1 >= |s|)
  {
    if pos >= |s| then Err(EndOfStream)
    else if s[pos] != TwoBytePrefix then
      if s[pos] as int >= TableSize then Err(IndexOutOfRange)
      else match t.single[s[pos]]
        case None => Err(UnknownOpCode)
        case Some(code) => Ok((code, pos + 1))
    else if pos + 1 >= |s| then Err(EndOfStream)
    else if s[pos + 1] as int >= TableSize then Err(IndexOutOfRange)
    else match t.double[s[pos + 1]]
      case None => Err(UnknownOpCode)
      case Some(code) => Ok((code, pos + 2))
  }

  /** How the operand of each operand type is laid out. */
  datatype OperandLayout = Fixed(bytes: nat) | SwitchTable | Unsupported

  /** The operand-size table of SkipOperands. */
  function Layout(ot: OperandType): (l: OperandLayout)
    ensures l.Unsupported? <==> ot == InlinePhi
    ensures l.SwitchTable? <==> ot == InlineSwitch
    ensures l.Fixed? ==> l.bytes in {0, 1, 2, 4, 8}
  {
    match ot
    case InlineNone => Fixed(0)
    case ShortInlineVar | ShortInlineBrTarget | ShortInlineI => Fixed(1)
    case InlineVar => Fixed(2)
    case InlineI | InlineBrTarget | InlineSig | InlineString | InlineTok | InlineType | InlineMethod | InlineField => Fixed(4)
    case InlineI8 => Fixed(8)
    case ShortInlineR => Fixed(4)
    case InlineR => Fixed(8)
    case InlineSwitch => SwitchTable
    case InlinePhi => Unsupported
  }

  /** SkipOperands: the operand size and the position after the operand that
      starts at `pos`. The `switch` count is read as an unsigned 32-bit value. */
  function OperandAt(s: seq<byte>, pos: nat, ot: OperandType): (r: Result<(int, nat), ReadError>)
    ensures r.Ok? ==> pos <= r.value.1 <= |s| && r.value.1 == pos + r.value.0
  {
    match Layout(ot)
    case Fixed(n) => if pos + n <= |s| then Ok((n, pos + n)) else Err(EndOfStream)
    case SwitchTable =>
      if pos + 4 > |s| then Err(EndOfStream)
      else
        var count := UInt32At(s, pos);
        if pos + 4 + 4 * count <= |s| then Ok((4 + 4 * count, pos + 4 + 4 * count)) else Err(EndOfStream)
    case Unsupported => Err(NotSupported)
  }

  /** C# unchecked `int` arithmetic: `x` wrapped into [-2^31, 2^31). */
  function WrapInt32(x: int): (w: int)
    ensures -0x8000_0000 <= w < 0x8000_0000
    ensures (w - x) % 0x1_0000_0000 == 0
  {
    (x + 0x8000_0000) % 0x1_0000_0000 - 0x8000_0000
  }

  /** The switch case of SkipOperands exactly as the source writes it: the
      count is read as a signed 32-bit value, a negative count reads no
      targets, and the reported size is `4 + (4 * length)` in unchecked
      `int` arithmetic. */
  function SwitchOperandAsWritten(s: seq<byte>, pos: nat): (r: Result<(int, nat), ReadError>)
    ensures r.Ok? ==> pos + 4 <= r.value.1 <= |s| && -0x8000_0000 <= r.value.0 < 0x8000_0000
  {
    if pos + 4 > |s| then Err(EndOfStream)
    else
      var count := Int32At(s, pos);
      var targets := if count > 0 then count else 0;
      if pos + 4 + 4 * targets <= |s| then Ok((WrapInt32(4 + 4 * count), pos + 4 + 4 * targets)) else Err(EndOfStream)
  }

  /** As written, a `switch` whose count bytes are FF FF FF FF (count -1)
      consumes 4 bytes but reports an operand size of 0, and one whose count
      bytes are 00 00 00 80 (count -2^31) reports 4 only because the size
      wraps; read as the unsigned count ECMA-335 specifies, the same bytes
      announce targets that the stream does not hold. */
  lemma SwitchNegativeCountMisreported()
    ensures SwitchOperandAsWritten([255, 255, 255, 255], 0) == Ok((0, 4))
    ensures SwitchOperandAsWritten([0, 0, 0, 128], 0) == Ok((4, 4))
    ensures OperandAt([255, 255, 255, 255], 0, InlineSwitch) == Err(EndOfStream)
    ensures OperandAt([0, 0, 0, 128], 0, InlineSwitch) == Err(EndOfStream)
  {
    assert Int32At([255, 255, 255, 255], 0) == -1;
    assert Int32At([0, 0, 0, 128], 0) == -0x8000_0000;
  }

  /** With a non-negative count, in a stream no longer than a `byte[]` can
      be, the two readings agree. */
  lemma SwitchAgreesOnNonNegativeCount(s: seq<byte>, pos: nat)
    requires pos + 4 <= |s| < 0x8000_0000 && s[pos + 3] < 0x80
    ensures SwitchOperandAsWritten(s, pos) == OperandAt(s, pos, InlineSwitch)
  {
  }

  /** The operand size depends only on the operand type: every fixed layout
      skips exactly its byte count whatever the bytes hold, and InlinePhi is
      not supported. */
  lemma OperandSizeByType(s: seq<byte>, pos: nat, ot: OperandType)
    ensures Layout(ot).Fixed? ==>
              OperandAt(s, pos, ot) == if pos + Layout(ot).bytes <= |s| then Ok((Layout(ot).bytes, pos + Layout(ot).bytes)) else Err(EndOfStream)
    ensures ot == InlinePhi <==> OperandAt(s, pos, ot) == Err(NotSupported)
  {
  }

  /** One step of the decoding loop: read the opcode, skip its operands. */
  function StepAt(t: Tables, s: seq<byte>, pos: nat): (r: Result<(OpCodeMeta, nat), ReadError>)
    requires t.Valid()
    ensures r.Ok? ==> pos < r.value.1 <= |s|
  {
    match OpCodeAt(t, s, pos)
    case Err(e) => Err(e)
    case Ok((code, next)) =>
      match OperandAt(s, next, code.operandType)
      case Err(e) => Err(e)
      case Ok((size, after)) => Ok((OpCodeMeta(code, size), after))
  }

  /** The instructions decoded from `pos` to the end of `s`: the loop runs
      while the cursor is before the end, and the first exception ends it. */
  function Decode(t: Tables, s: seq<byte>, pos: nat): (r: Result<seq<OpCodeMeta>, ReadError>)
    requires t.Valid()
    ensures r.Ok? ==> (pos < |s| <==> r.value != [])
    decreases |s| - pos
  {
    if pos >= |s| then Ok([])
    else match StepAt(t, s, pos)
      case Err(e) => Err(e)
      case Ok((meta, next)) => Prepend(meta, Decode(t, s, next))
  }

  function Prepend(meta: OpCodeMeta, r: Result<seq<OpCodeMeta>, ReadError>): Result<seq<OpCodeMeta>, ReadError>
  {
    match r
    case Err(e) => Err(e)
    case Ok(ms) => Ok([meta] + ms)
  }

  /** Both overloads of ReadInstructions: a `MemoryStream` over
      `[start, stop)` rejects a negative start, a negative length and a range
      past the end of the buffer. */
  function ReadRange(t: Tables, il: seq<byte>, start: int, stop: int): (r: Result<seq<OpCodeMeta>, ReadError>)
    requires t.Valid()
    ensures r.Ok? ==> 0 <= start <= stop <= |il| && (start < stop <==> r.value != [])
  {
    if 0 <= start <= stop <= |il| then Decode(t, il[start..stop], 0) else Err(InvalidRange)
  }

  // ---------------------------------------------------------------------
  // Byte accounting
  // ---------------------------------------------------------------------

  /** The bytes a sequence of decoded instructions accounts for. */
  function Footprint(ms: seq<OpCodeMeta>): int
  {
    if ms == [] then 0 else ms[0].opCode.size + ms[0].operandSize + Footprint(ms[1..])
  }

  /** Each step accounts for the bytes it consumed: opcode size plus operand size. */
  lemma StepAccounts(t: Tables, s: seq<byte>, pos: nat)
    requires t.WellFormed()
    requires StepAt(t, s, pos).Ok?
    ensures var (meta, next) := StepAt(t, s, pos).value;
            next - pos == meta.opCode.size + meta.operandSize && meta.operandSize >= 0
  {
    var (code, next) := OpCodeAt(t, s, pos).value;
    if s[pos] != TwoBytePrefix {
      assert t.single[s[pos]] == Some(code);
    } else {
      assert t.double[s[pos + 1]] == Some(code);
    }
  }

  /** Decoding consumes the range exactly: the opcode and operand sizes of
      the decoded instructions add up to the number of bytes decoded. */
  lemma {:induction false} DecodeAccountsForEveryByte(t: Tables, s: seq<byte>, pos: nat)
    requires t.WellFormed()
    requires pos <= |s|
    requires Decode(t, s, pos).Ok?
    ensures Footprint(Decode(t, s, pos).value) == |s| - pos
    decreases |s| - pos
  {
    if pos < |s| {
      var (meta, next) := StepAt(t, s, pos).value;
      StepAccounts(t, s, pos);
      DecodeAccountsForEveryByte(t, s, next);
      var rest := Decode(t, s, next).value;
      assert Decode(t, s, pos).value == [meta] + rest;
      assert ([meta] + rest)[1..] == rest;
    }
  }

  /** A successful decode of `[start, stop)` accounts for exactly stop - start bytes. */
  lemma ReadRangeAccounts(t: Tables, il: seq<byte>, start: int, stop: int)
    requires t.WellFormed()
    requires ReadRange(t, il, start, stop).Ok?
    ensures 0 <= start <= stop <= |il|
    ensures Footprint(ReadRange(t, il, start, stop).value) == stop - start
  {
    DecodeAccountsForEveryByte(t, il[start..stop], 0);
  }

  /** The range overload sees only the bytes in `[start, stop)`. */
  lemma ReadRangeIgnoresOutside(t: Tables, il: seq<byte>, il': seq<byte>, start: int, stop: int)
    requires t.Valid()
    requires 0 <= start <= stop <= |il| && stop <= |il'|
    requires il[start..stop] == il'[start..stop]
    ensures ReadRange(t, il, start, stop) == ReadRange(t, il', start, stop)
    ensures ReadRange(t, il, start, stop) == ReadRange(t, il[start..stop], 0, stop - start)
  {
    assert il[start..stop][0..stop - start] == il[start..stop];
  }

  // ---------------------------------------------------------------------
  // The emitter side: encoding instructions, and decoding them back
  // ---------------------------------------------------------------------

  /** An instruction as an emitter writes it: opcode and raw operand bytes. */
  datatype Instruction = Instruction(code: OpCode, operand: seq<byte>)

  /** The opcode's bytes: its value, or the prefix and its low byte. */
  function OpCodeBytes(code: OpCode): seq<byte>
    requires 0 <= code.value < 0x1_0000
  {
    if code.size == 1 then [(code.value % 256) as byte] else [TwoBytePrefix, (code.value % 256) as byte]
  }

  function Encode(instrs: seq<Instruction>): seq<byte>
    requires forall i :: 0 <= i < |instrs| ==> 0 <= instrs[i].code.value < 0x1_0000
  {
    if instrs == [] then []
    else OpCodeBytes(instrs[0].code) + instrs[0].operand + Encode(instrs[1..])
  }

  /** The tables decode `code` from its own bytes. */
  predicate Knows(t: Tables, code: OpCode)
    requires t.Valid()
  {
    && 0 <= code.value < 0x1_0000
    && if code.size == 1 then
         code.value < TableSize && code.value != TwoBytePrefix as int && t.single[code.value] == Some(code)
       else
         code.size == 2 && code.value / 256 == TwoBytePrefix as int && code.value % 256 < TableSize
         && t.double[code.value % 256] == Some(code)
  }

  /** The operand bytes have the layout the operand type announces. */
  predicate OperandFits(ot: OperandType, operand: seq<byte>)
  {
    match Layout(ot)
    case Fixed(n) => |operand| == n
    case SwitchTable => |operand| >= 4 && |operand| == 4 + 4 * UInt32At(operand, 0)
    case Unsupported => false
  }

  predicate Encodable(t: Tables, instrs: seq<Instruction>)
    requires t.Valid()
  {
    forall i :: 0 <= i < |instrs| ==> Knows(t, instrs[i].code) && OperandFits(instrs[i].code.operandType, instrs[i].operand)
  }

  function Metas(instrs: seq<Instruction>): seq<OpCodeMeta>
  {
    if instrs == [] then [] else [OpCodeMeta(instrs[0].code, |instrs[0].operand|)] + Metas(instrs[1..])
  }

  /** Decoding never looks behind the cursor: bytes before `pos` do not matter. */
  lemma {:induction false} DecodeShift(t: Tables, p: seq<byte>, s: seq<byte>, pos: nat)
    requires t.Valid()
    ensures Decode(t, p + s, |p| + pos) == Decode(t, s, pos)
    decreases |s| - pos
  {
    if pos < |s| {
      StepShift(t, p, s, pos);
      var step := StepAt(t, s, pos);
      if step.Ok? {
        DecodeShift(t, p, s, step.value.1);
      }
    }
  }

  lemma StepShift(t: Tables, p: seq<byte>, s: seq<byte>, pos: nat)
    requires t.Valid()
    requires pos < |s|
    ensures StepAt(t, p + s, |p| + pos) == match StepAt(t, s, pos)
                                          case Err(e) => Err(e)
                                          case Ok((m, next)) => Ok((m, |p| + next))
  {
    var ps := p + s;
    forall k | 0 <= k < |s| ensures ps[|p| + k] == s[k] { }
    match OpCodeAt(t, s, pos)
    case Err(_) =>
    case Ok((code, next)) =>
      if Layout(code.operandType) == SwitchTable && next + 4 <= |s| {
        assert UInt32At(ps, |p| + next) == UInt32At(s, next);
      }
  }

  /** A step at the start of `s` reads only the first instruction's bytes. */
  lemma StepOverPrefix(t: Tables, i: Instruction, rest: seq<byte>)
    requires t.Valid()
    requires Knows(t, i.code) && OperandFits(i.code.operandType, i.operand)
    ensures StepAt(t, OpCodeBytes(i.code) + i.operand + rest, 0)
            == Ok((OpCodeMeta(i.code, |i.operand|), |OpCodeBytes(i.code) + i.operand|))
  {
    var head := OpCodeBytes(i.code);
    var s := head + i.operand + rest;
    var n := |head|;
    assert s[0] == head[0];
    if i.code.size != 1 {
      assert s[1] == head[1];
    }
    assert OpCodeAt(t, s, 0) == Ok((i.code, n));
    if Layout(i.code.operandType) == SwitchTable {
      assert s[n..n + 4] == i.operand[..4];
      assert UInt32At(s, n) == UInt32At(i.operand, 0);
    }
  }

  lemma EncodableTail(t: Tables, instrs: seq<Instruction>)
    requires t.Valid()
    requires instrs != [] && Encodable(t, instrs)
    ensures Encodable(t, instrs[1..])
  {
    forall k | 0 <= k < |instrs[1..]|
      ensures Knows(t, instrs[1..][k].code) && OperandFits(instrs[1..][k].code.operandType, instrs[1..][k].operand)
    {
      assert instrs[1..][k] == instrs[k + 1];
    }
  }

  /** Once the first step reads exactly `head`, the rest is decoded from `tail` alone. */
  lemma DecodeAfterHead(t: Tables, head: seq<byte>, tail: seq<byte>, meta: OpCodeMeta)
    requires t.Valid()
    requires head != []
    requires StepAt(t, head + tail, 0) == Ok((meta, |head|))
    ensures Decode(t, head + tail, 0) == Prepend(meta, Decode(t, tail, 0))
  {
    var s := head + tail;
    var step := StepAt(t, s, 0);
    assert Decode(t, s, 0) == Prepend(meta, Decode(t, s, |head|)) by {
      assert 0 < |s|;
      assert step == Ok((meta, |head|));
    }
    DecodeShift(t, head, tail, 0);
    assert Decode(t, s, |head| + 0) == Decode(t, tail, 0);
  }

  /** Round trip: decoding what an emitter encoded yields each opcode with
      exactly its operand's length, in order. */
  lemma {:induction false} DecodeEncode(t: Tables, instrs: seq<Instruction>)
    requires t.Valid()
    requires Encodable(t, instrs)
    ensures Decode(t, Encode(instrs), 0) == Ok(Metas(instrs))
    decreases |instrs|
  {
    if instrs != [] {
      var i := instrs[0];
      assert Knows(t, i.code) && OperandFits(i.code.operandType, i.operand);
      var head := OpCodeBytes(i.code) + i.operand;
      var tail := Encode(instrs[1..]);
      assert Encode(instrs) == head + tail;
      EncodableTail(t, instrs);
      StepOverPrefix(t, i, tail);
      DecodeAfterHead(t, head, tail, OpCodeMeta(i.code, |i.operand|));
      DecodeEncode(t, instrs[1..]);
    }
  }

  // ---------------------------------------------------------------------
  // The decoder as the source runs it: a cursor moved by two helpers
  // ---------------------------------------------------------------------

  /** ReadOpCode: read one or two bytes at the cursor. */
  method ReadOpCode(t: Tables, s: seq<byte>, pos: nat) returns (r: Result<(OpCode, nat), ReadError>)
    requires t.Valid()
    ensures r == OpCodeAt(t, s, pos)
  {
    if pos >= |s| {
      return Err(EndOfStream);
    }
    var instruction := s[pos];
    if instruction != TwoBytePrefix {
      if instruction as int >= TableSize {
        return Err(IndexOutOfRange);
      }
      match t.single[instruction]
      case None => r := Err(UnknownOpCode);
      case Some(code) => r := Ok((code, pos + 1));
    } else {
      if pos + 1 >= |s| {
        return Err(EndOfStream);
      }
      var second := s[pos + 1];
      if second as int >= TableSize {
        return Err(IndexOutOfRange);
      }
      match t.double[second]
      case None => r := Err(UnknownOpCode);
      case Some(code) => r := Ok((code, pos + 2));
    }
  }

  /** SkipOperands: move the cursor over the operand; a `switch` table is
      skipped one 4-byte target at a time. */
  method SkipOperands(s: seq<byte>, pos: nat, code: OpCode) returns (r: Result<(int, nat), ReadError>)
    ensures r == OperandAt(s, pos, code.operandType)
  {
    match Layout(code.operandType)
    case Fixed(n) =>
      if pos + n > |s| {
        return Err(EndOfStream);
      }
      r := Ok((n, pos + n));
    case SwitchTable =>
      if pos + 4 > |s| {
        return Err(EndOfStream);
      }
      var length := UInt32At(s, pos);
      var cursor := pos + 4;
      for i := 0 to length
        invariant cursor == pos + 4 + 4 * i
        invariant cursor <= |s|
      {
        if cursor + 4 > |s| {
          return Err(EndOfStream);
        }
        cursor := cursor + 4;
      }
      r := Ok((4 + 4 * length, cursor));
    case Unsupported =>
      r := Err(NotSupported);
  }

  /** ReadInstructions over `[start, stop)` of `il`: decode until the cursor
      reaches the end of the range, collecting every instruction. */
  method ReadInstructions(t: Tables, il: seq<byte>, start: int32, stop: int32) returns (r: Result<seq<OpCodeMeta>, ReadError>)
    requires t.Valid()
    ensures r == ReadRange(t, il, start as int, stop as int)
  {
    if !(0 <= start as int <= stop as int <= |il|) {
      return Err(InvalidRange);
    }
    var stream := il[start..stop];
    var position := 0;
    var instructions := [];
    AppendEmpty(Decode(t, stream, 0));
    while position < |stream|
      invariant 0 <= position <= |stream|
      invariant Decode(t, stream, 0) == Append(instructions, Decode(t, stream, position))
      decreases |stream| - position
    {
      var code := ReadOpCode(t, stream, position);
      if code.Err? {
        return Err(code.error);
      }
      var (opCode, next) := code.value;
      var operand := SkipOperands(stream, next, opCode);
      if operand.Err? {
        return Err(operand.error);
      }
      var (size, after) := operand.value;
      AppendPrepend(instructions, OpCodeMeta(opCode, size), Decode(t, stream, after));
      instructions := instructions + [OpCodeMeta(opCode, size)];
      position := after;
    }
    assert instructions + [] == instructions;
    r := Ok(instructions);
  }

  /** The single-argument overload: the whole buffer. */
  method ReadAllInstructions(t: Tables, il: seq<byte>) returns (r: Result<seq<OpCodeMeta>, ReadError>)
    requires t.Valid()
    requires |il| < 0x8000_0000
    ensures r == Decode(t, il, 0)
  {
    r := ReadInstructions(t, il, 0, |il| as int32);
    assert il[0..|il|] == il;
  }

  function Append(prefix: seq<OpCodeMeta>, r: Result<seq<OpCodeMeta>, ReadError>): Result<seq<OpCodeMeta>, ReadError>
  {
    match r
    case Err(e) => Err(e)
    case Ok(ms) => Ok(prefix + ms)
  }

  lemma AppendPrepend(prefix: seq<OpCodeMeta>, meta: OpCodeMeta, r: Result<seq<OpCodeMeta>, ReadError>)
    ensures Append(prefix, Prepend(meta, r)) == Append(prefix + [meta], r)
  {
    if r.Ok? {
      assert prefix + ([meta] + r.value) == (prefix + [meta]) + r.value;
    }
  }

  lemma AppendEmpty(r: Result<seq<OpCodeMeta>, ReadError>)
    ensures Append([], r) == r
  {
    if r.Ok? {
      assert [] + r.value == r.value;
    }
  }
}
