/** The instruction set of the bytecode parser: how instructions are laid out in bytes
    (crates/radlr-rust-runtime/types/bytecode.rs) and how the parser reads and runs them
    (crates/radlr-rust-runtime/kernel/parser_new.rs). */
module Bytecode {
  import opened Sequences
  import opened Bits
  import opened HashTable

  // ----- opcodes -----

  const PASS := 1
  const FAIL := 2
  const SHIFT_CHAR := 3
  const SHIFT_TOKEN := 4
  const SHIFT_TOKEN_SCANLESS := 5
  const PEEK_TOKEN := 6
  const PEEK_TOKEN_SCANLESS := 7
  const SKIP_TOKEN := 8
  const SKIP_TOKEN_SCANLESS := 9
  const PEEK_SKIP_TOKEN := 10
  const PEEK_SKIP_TOKEN_SCANLESS := 11
  const PEEK_RESET := 12
  const ACCEPT := 13
  const POP_GOTO := 14
  const PUSH_GOTO := 15
  const PUSH_EXCEPTION_HANDLER := 16
  const GOTO := 17
  const ASSIGN_TOKEN := 18
  const REDUCE := 19
  const VECTOR_BRANCH := 20
  const HASH_BRANCH := 21
  const BYTE_SEQUENCE := 22
  const FORK := 23
  const READ_CODEPOINT := 24

  const NORMAL_STATE_FLAG := 1
  const NO_SCANNER := 0xFFFF_FFFF

  type Bytes = seq<nat>

  /** The opcodes after which a block needs no final PASS. */
  predicate IsSentinel(op: nat) {
    op in {PASS, ACCEPT, FAIL, GOTO, PEEK_SKIP_TOKEN, SKIP_TOKEN, SKIP_TOKEN_SCANLESS, PEEK_SKIP_TOKEN_SCANLESS}
  }

  /** Operations of one byte. */
  predicate IsSimple(op: nat) {
    op in {PASS, FAIL, SHIFT_CHAR, SHIFT_TOKEN, SHIFT_TOKEN_SCANLESS, PEEK_TOKEN, PEEK_TOKEN_SCANLESS, SKIP_TOKEN,
           SKIP_TOKEN_SCANLESS, PEEK_SKIP_TOKEN, PEEK_SKIP_TOKEN_SCANLESS, PEEK_RESET, ACCEPT, POP_GOTO, READ_CODEPOINT}
  }

  /** The kinds of input that a match can be made over; reading any other ends the program. */
  predicate IsInputKind(kind: nat) { kind <= 5 || 7 <= kind <= 11 }

  datatype Instr =
    | Op(code: nat)
    | Reduce(nonterm: nat, rule: nat, length: nat)
    | AssignToken(id: nat)
    | PushGoto(target: nat)
    | Goto(target: nat)
    | Fork(targets: seq<nat>)
    | ByteSequence(default_: nat, bytes: Bytes)
    | HashBranch(kind: nat, default_: nat, scanner: nat, modBase: nat, cells: seq<nat>)

  // ----- little-endian numbers -----

  const BYTE := 0x100
  const WORD16 := 0x1_0000
  const WORD32 := 0x1_0000_0000

  /** The low `n` bytes of a number, the lowest first. */
  function LowBytes(v: nat, n: nat): (b: Bytes)
    ensures |b| == n
  {
    if n == 0 then [] else [v % BYTE] + LowBytes(v / BYTE, n - 1)
  }

  function U16(v: nat): (b: Bytes)
    ensures |b| == 2
  {
    LowBytes(v, 2)
  }

  function U32(v: nat): (b: Bytes)
    ensures |b| == 4
  {
    LowBytes(v, 4)
  }

  lemma {:induction false} BytesOfU16(v: nat)
    ensures U16(v) == [v % BYTE, v / BYTE % BYTE]
  {
    assert LowBytes(v / BYTE, 1) == [v / BYTE % BYTE];
  }

  lemma {:induction false} BytesOfU32(v: nat)
    ensures U32(v) == [v % BYTE, v / BYTE % BYTE, v / 0x1_0000 % BYTE, v / 0x100_0000 % BYTE]
  {
    assert LowBytes(v / 0x100_0000, 1) == [v / 0x100_0000 % BYTE];
    assert LowBytes(v / 0x1_0000, 2) == [v / 0x1_0000 % BYTE, v / 0x100_0000 % BYTE];
    assert LowBytes(v / BYTE, 3) == [v / BYTE % BYTE, v / 0x1_0000 % BYTE, v / 0x100_0000 % BYTE];
  }

  function U32s(vs: seq<nat>): (b: Bytes)
    ensures |b| == 4 * |vs|
  {
    if vs == [] then [] else U32s(Init(vs)) + U32(Last(vs))
  }

  function ReadU16(bc: Bytes, i: nat): nat
    requires i + 2 <= |bc|
  {
    bc[i] + bc[i + 1] * 0x100
  }

  function ReadU32(bc: Bytes, i: nat): nat
    requires i + 4 <= |bc|
  {
    bc[i] + bc[i + 1] * 0x100 + bc[i + 2] * 0x1_0000 + bc[i + 3] * 0x100_0000
  }

  function ReadU32s(bc: Bytes, i: nat, n: nat): (vs: seq<nat>)
    requires i + 4 * n <= |bc|
    ensures |vs| == n
  {
    if n == 0 then [] else ReadU32s(bc, i, n - 1) + [ReadU32(bc, i + 4 * (n - 1))]
  }

  // ----- layout -----

  predicate AllBelow(vs: seq<nat>, n: nat) {
    forall i :: 0 <= i < |vs| ==> vs[i] < n
  }

  /** Every operand fits its field. */
  predicate Valid(i: Instr) {
    match i
    case Op(code) => IsSimple(code)
    case Reduce(n, r, l) => n < WORD32 && r < WORD32 && l < WORD16
    case AssignToken(id) => id < WORD32
    case PushGoto(t) => t < WORD32
    case Goto(t) => t < WORD32
    case Fork(ts) => |ts| < WORD16 && AllBelow(ts, WORD32)
    case ByteSequence(d, bs) => d < WORD32 && |bs| < WORD16 && AllBelow(bs, BYTE)
    case HashBranch(k, d, s, m, cs) =>
      IsInputKind(k) && d < WORD32 && s < WORD32 && m < WORD32 && 4 * |cs| < WORD32 && AllBelow(cs, WORD32)
  }

  function Encode(i: Instr): (b: Bytes)
    ensures |b| >= 1
  {
    match i
    case Op(code) => [code]
    case Reduce(n, r, l) => [REDUCE] + U32(n) + U32(r) + U16(l)
    case AssignToken(id) => [ASSIGN_TOKEN] + U32(id)
    case PushGoto(t) => [PUSH_GOTO, NORMAL_STATE_FLAG] + U32(t)
    case Goto(t) => [GOTO, NORMAL_STATE_FLAG] + U32(t)
    case Fork(ts) => [FORK] + U16(|ts|) + U32s(ts)
    case ByteSequence(d, bs) => [BYTE_SEQUENCE] + U16(|bs|) + U32(d) + bs
    case HashBranch(k, d, s, m, cs) => [HASH_BRANCH, k] + U32(d) + U32(s) + U32(|cs|) + U32(m) + U32s(cs)
  }

  function Len(i: Instr): nat {
    match i
    case Op(_) => 1
    case Reduce(_, _, _) => 11
    case AssignToken(_) => 5
    case PushGoto(_) => 6
    case Goto(_) => 6
    case Fork(ts) => 3 + 4 * |ts|
    case ByteSequence(_, bs) => 7 + |bs|
    case HashBranch(_, _, _, _, cs) => 18 + 4 * |cs|
  }

  function EncodeAll(code: seq<Instr>): Bytes {
    if code == [] then [] else EncodeAll(Init(code)) + Encode(Last(code))
  }

  /** The number of bytes of the code. */
  function Size(code: seq<Instr>): nat {
    if code == [] then 0 else Size(Init(code)) + Len(Last(code))
  }

  lemma {:induction false} EncodedSize(code: seq<Instr>)
    ensures |EncodeAll(code)| == Size(code)
  {
    if code != [] {
      EncodedSize(Init(code));
      EncodedLen(Last(code));
    }
  }

  lemma {:induction false} EncodedLen(i: Instr)
    ensures |Encode(i)| == Len(i)
  {
  }

  lemma {:induction false} EncodeConcat(a: seq<Instr>, b: seq<Instr>)
    ensures EncodeAll(a + b) == EncodeAll(a) + EncodeAll(b)
  {
    if b == [] {
      assert a + b == a;
    } else {
      SplitLast(b);
      Assoc(a, Init(b), [Last(b)]);
      assert Init(a + b) == a + Init(b) && Last(a + b) == Last(b);
      EncodeConcat(a, Init(b));
      Assoc(EncodeAll(a), EncodeAll(Init(b)), Encode(Last(b)));
    }
  }

  lemma {:induction false} EncodeOne(i: Instr)
    ensures EncodeAll([i]) == Encode(i)
  {
    assert Init([i]) == [];
  }

  // ----- reading back -----

  /** `bs` lies at address `pc`. */
  ghost predicate HasAt(bc: Bytes, pc: nat, bs: Bytes) {
    pc + |bs| <= |bc| && forall j :: 0 <= j < |bs| ==> bc[pc + j] == bs[j]
  }

  lemma {:induction false} HasParts(bc: Bytes, pc: nat, a: Bytes, b: Bytes)
    ensures HasAt(bc, pc, a + b) <==> HasAt(bc, pc, a) && HasAt(bc, pc + |a|, b)
  {
    if HasAt(bc, pc, a + b) {
      forall j | 0 <= j < |a|
        ensures bc[pc + j] == a[j]
      {
        assert (a + b)[j] == a[j];
      }
      forall j | 0 <= j < |b|
        ensures bc[pc + |a| + j] == b[j]
      {
        assert (a + b)[|a| + j] == b[j];
      }
    }
  }

  lemma {:induction false} ReadBackU16(bc: Bytes, i: nat, v: nat)
    requires v < WORD16 && HasAt(bc, i, U16(v))
    ensures ReadU16(bc, i) == v
  {
    BytesOfU16(v);
    assert bc[i] == U16(v)[0] && bc[i + 1] == U16(v)[1];
  }

  lemma {:induction false} ReadBackU32(bc: Bytes, i: nat, v: nat)
    requires v < WORD32 && HasAt(bc, i, U32(v))
    ensures ReadU32(bc, i) == v
  {
    BytesOfU32(v);
    assert bc[i] == U32(v)[0] && bc[i + 1] == U32(v)[1] && bc[i + 2] == U32(v)[2] && bc[i + 3] == U32(v)[3];
    FourBytes(v);
  }

  lemma {:induction false} FourBytes(v: nat)
    requires v < WORD32
    ensures v == v % BYTE + v / BYTE % BYTE * 0x100 + v / 0x1_0000 % BYTE * 0x1_0000 + v / 0x100_0000 % BYTE * 0x100_0000
  {
  }

  lemma {:induction false} ReadBackU32s(bc: Bytes, i: nat, vs: seq<nat>)
    requires AllBelow(vs, WORD32) && HasAt(bc, i, U32s(vs))
    ensures ReadU32s(bc, i, |vs|) == vs
  {
    if vs != [] {
      HasParts(bc, i, U32s(Init(vs)), U32(Last(vs)));
      ReadBackU32s(bc, i, Init(vs));
      ReadBackU32(bc, i + 4 * (|vs| - 1), Last(vs));
      SplitLast(vs);
    }
  }

  /** The moves of the parser over its input. */
  datatype Move = ShiftChar | ShiftToken | PeekToken | SkipToken | PeekSkipToken | PeekReset

  /** What the parser can read at a branch. */
  datatype InputKind =
    | NonTerminalInput | TokenInput | ClassInput | CodepointInput | ByteInput | EndOfFileInput
    | ScanlessByte | ScanlessCodepoint | ScanlessClass | ByteSequenceInput | CstNodeInput

  datatype Event =
    | Moved(move: Move)
    | MovedScanless(move: Move)
    | CodepointRead
    | Popped
    | Reduced(nonterm: nat, rule: nat, length: nat)
    | Assigned(id: nat)
    | Pushed(target: nat)
    | Scanned(scanner: nat)
    | Probed(input: InputKind)
    | Compared(bytes: Bytes)

  /** How a run of a block ends.  `Starved` means that no reading was left, `Astray` that control left
      the block or met something that is not an instruction. */
  datatype End =
    | Passed
    | Failed
    | Accepted
    | WentTo(target: nat)
    | Forked(targets: seq<nat>)
    | Skipped(move: Move)
    | SkippedScanless(move: Move)
    | Starved
    | Astray

  datatype Act = Ending(end: End) | Doing(event: Event) | WithOperands

  /** What the parser does at an opcode without operands (crates/radlr-rust-runtime/kernel/parser_new.rs:43-97). */
  function ActOf(op: nat): Act {
    match op
    case 1 => Ending(Passed)
    case 2 => Ending(Failed)
    case 3 => Doing(Moved(ShiftChar))
    case 4 => Doing(Moved(ShiftToken))
    case 5 => Doing(MovedScanless(ShiftToken))
    case 6 => Doing(Moved(PeekToken))
    case 7 => Doing(MovedScanless(PeekToken))
    case 8 => Ending(Skipped(SkipToken))
    case 9 => Ending(SkippedScanless(SkipToken))
    case 10 => Ending(Skipped(PeekSkipToken))
    case 11 => Ending(SkippedScanless(PeekSkipToken))
    case 12 => Doing(Moved(PeekReset))
    case 13 => Ending(Accepted)
    case 14 => Doing(Popped)
    case 24 => Doing(CodepointRead)
    case _ => WithOperands
  }

  /** What the number of a kind of input makes the parser read (crates/radlr-rust-runtime/types/bytecode.rs:628-645). */
  function KindRead(kind: nat): InputKind
    requires IsInputKind(kind)
  {
    match kind
    case 0 => NonTerminalInput
    case 1 => TokenInput
    case 2 => ClassInput
    case 3 => CodepointInput
    case 4 => ByteInput
    case 5 => EndOfFileInput
    case 7 => ScanlessByte
    case 8 => ScanlessCodepoint
    case 9 => ScanlessClass
    case 10 => ByteSequenceInput
    case _ => CstNodeInput
  }

  /** Only a token is scanned for, from the address of its scanner. */
  function ProbeRead(kind: nat, scanner: nat): Event
    requires IsInputKind(kind)
  {
    if KindRead(kind) == TokenInput then Scanned(scanner) else Probed(KindRead(kind))
  }

  datatype Decoded = Read(instr: Instr) | Unreadable

  /** The instruction at an address, as the parser reads it: the numbers are those of the opcodes
      (crates/radlr-rust-runtime/types/bytecode.rs:14-228). */
  function Decode(bc: Bytes, pc: nat): Decoded {
    if pc >= |bc| then Unreadable
    else
      var op := bc[pc];
      if ActOf(op) != WithOperands then Read(Op(op))
      else if op == 19 && pc + 11 <= |bc| then
        Read(Reduce(ReadU32(bc, pc + 1), ReadU32(bc, pc + 5), ReadU16(bc, pc + 9)))
      else if op == 18 && pc + 5 <= |bc| then Read(AssignToken(ReadU32(bc, pc + 1)))
      else if op == 15 && pc + 6 <= |bc| then Read(PushGoto(ReadU32(bc, pc + 2)))
      else if op == 17 && pc + 6 <= |bc| then Read(Goto(ReadU32(bc, pc + 2)))
      else if op == 23 && pc + 3 <= |bc| && pc + 3 + 4 * ReadU16(bc, pc + 1) <= |bc| then
        Read(Fork(ReadU32s(bc, pc + 3, ReadU16(bc, pc + 1))))
      else if op == 22 && pc + 7 <= |bc| && pc + 7 + ReadU16(bc, pc + 1) <= |bc| then
        Read(ByteSequence(ReadU32(bc, pc + 3), bc[pc + 7..pc + 7 + ReadU16(bc, pc + 1)]))
      else if op == 21 && pc + 18 <= |bc| && IsInputKind(bc[pc + 1]) && pc + 18 + 4 * ReadU32(bc, pc + 10) <= |bc| then
        Read(HashBranch(bc[pc + 1], ReadU32(bc, pc + 2), ReadU32(bc, pc + 6), ReadU32(bc, pc + 14),
                        ReadU32s(bc, pc + 18, ReadU32(bc, pc + 10))))
      else Unreadable
  }

  lemma {:induction false} DecodeReduce(bc: Bytes, pc: nat, i: Instr)
    requires i.Reduce? && Valid(i) && HasAt(bc, pc, Encode(i))
    ensures Decode(bc, pc) == Read(i)
  {
    HasParts(bc, pc, [REDUCE] + U32(i.nonterm) + U32(i.rule), U16(i.length));
    HasParts(bc, pc, [REDUCE] + U32(i.nonterm), U32(i.rule));
    HasParts(bc, pc, [REDUCE], U32(i.nonterm));
    assert bc[pc] == [REDUCE][0];
    ReadBackU32(bc, pc + 1, i.nonterm);
    ReadBackU32(bc, pc + 5, i.rule);
    ReadBackU16(bc, pc + 9, i.length);
  }

  lemma {:induction false} DecodeTarget(bc: Bytes, pc: nat, op: nat, t: nat)
    requires t < WORD32 && HasAt(bc, pc, [op, NORMAL_STATE_FLAG] + U32(t))
    ensures pc + 6 <= |bc| && bc[pc] == op && ReadU32(bc, pc + 2) == t
  {
    HasParts(bc, pc, [op, NORMAL_STATE_FLAG], U32(t));
    assert bc[pc] == [op, NORMAL_STATE_FLAG][0];
    ReadBackU32(bc, pc + 2, t);
  }

  lemma {:induction false} DecodeFork(bc: Bytes, pc: nat, i: Instr)
    requires i.Fork? && Valid(i) && HasAt(bc, pc, Encode(i))
    ensures Decode(bc, pc) == Read(i)
  {
    HasParts(bc, pc, [FORK] + U16(|i.targets|), U32s(i.targets));
    HasParts(bc, pc, [FORK], U16(|i.targets|));
    assert bc[pc] == [FORK][0];
    ReadBackU16(bc, pc + 1, |i.targets|);
    ReadBackU32s(bc, pc + 3, i.targets);
  }

  lemma {:induction false} DecodeByteSequence(bc: Bytes, pc: nat, i: Instr)
    requires i.ByteSequence? && Valid(i) && HasAt(bc, pc, Encode(i))
    ensures Decode(bc, pc) == Read(i)
  {
    HasParts(bc, pc, [BYTE_SEQUENCE] + U16(|i.bytes|) + U32(i.default_), i.bytes);
    HasParts(bc, pc, [BYTE_SEQUENCE] + U16(|i.bytes|), U32(i.default_));
    HasParts(bc, pc, [BYTE_SEQUENCE], U16(|i.bytes|));
    assert bc[pc] == [BYTE_SEQUENCE][0];
    ReadBackU16(bc, pc + 1, |i.bytes|);
    ReadBackU32(bc, pc + 3, i.default_);
    assert bc[pc + 7..pc + 7 + |i.bytes|] == i.bytes;
  }

  lemma {:induction false} HashHeader(bc: Bytes, pc: nat, i: Instr)
    requires i.HashBranch? && Valid(i) && HasAt(bc, pc, Encode(i))
    ensures pc + 18 + 4 * |i.cells| <= |bc| && bc[pc] == HASH_BRANCH && bc[pc + 1] == i.kind
    ensures ReadU32(bc, pc + 2) == i.default_ && ReadU32(bc, pc + 6) == i.scanner
    ensures ReadU32(bc, pc + 10) == |i.cells| && ReadU32(bc, pc + 14) == i.modBase
    ensures HasAt(bc, pc + 18, U32s(i.cells))
  {
    var head := [HASH_BRANCH, i.kind];
    HasParts(bc, pc, head + U32(i.default_) + U32(i.scanner) + U32(|i.cells|) + U32(i.modBase), U32s(i.cells));
    HasParts(bc, pc, head + U32(i.default_) + U32(i.scanner) + U32(|i.cells|), U32(i.modBase));
    HasParts(bc, pc, head + U32(i.default_) + U32(i.scanner), U32(|i.cells|));
    HasParts(bc, pc, head + U32(i.default_), U32(i.scanner));
    HasParts(bc, pc, head, U32(i.default_));
    assert bc[pc] == head[0] && bc[pc + 1] == head[1];
    ReadBackU32(bc, pc + 2, i.default_);
    ReadBackU32(bc, pc + 6, i.scanner);
    ReadBackU32(bc, pc + 10, |i.cells|);
    ReadBackU32(bc, pc + 14, i.modBase);
  }

  lemma {:induction false} DecodeHashBranch(bc: Bytes, pc: nat, i: Instr)
    requires i.HashBranch? && Valid(i) && HasAt(bc, pc, Encode(i))
    ensures Decode(bc, pc) == Read(i)
  {
    HashHeader(bc, pc, i);
    ReadBackU32s(bc, pc + 18, i.cells);
  }

  /** Reading at the address of an instruction gives back the instruction. */
  lemma {:induction false} DecodeEncode(bc: Bytes, pc: nat, i: Instr)
    requires Valid(i) && HasAt(bc, pc, Encode(i))
    ensures Decode(bc, pc) == Read(i)
  {
    match i
    case Op(code) => assert bc[pc] == [code][0];
    case Reduce(_, _, _) => DecodeReduce(bc, pc, i);
    case AssignToken(id) =>
      HasParts(bc, pc, [ASSIGN_TOKEN], U32(id));
      assert bc[pc] == [ASSIGN_TOKEN][0];
      ReadBackU32(bc, pc + 1, id);
    case PushGoto(t) => DecodeTarget(bc, pc, PUSH_GOTO, t);
    case Goto(t) => DecodeTarget(bc, pc, GOTO, t);
    case Fork(_) => DecodeFork(bc, pc, i);
    case ByteSequence(_, _) => DecodeByteSequence(bc, pc, i);
    case HashBranch(_, _, _, _, _) => DecodeHashBranch(bc, pc, i);
  }

  // ----- running -----

  /** What the parser finds at one branch: an input value, or the bytes ahead of the input pointer. */
  datatype Reading = Reading(id: nat, ahead: Bytes)

  datatype Trace = Trace(events: seq<Event>, end: End)

  function After(e: Event, t: Trace): Trace { Trace([e] + t.events, t.end) }

  datatype Step = Halt(trace: Trace) | Go(event: Event, pc: nat, input: seq<Reading>)

  /** One instruction at an address; what goes on goes forward. */
  function Perform(i: Instr, pc: nat, input: seq<Reading>): (s: Step)
    ensures s.Go? ==> s.pc > pc
  {
    match i
    case Op(code) =>
      match ActOf(code) {
        case Ending(end) => Halt(Trace([], end))
        case Doing(event) => Go(event, pc + 1, input)
        case WithOperands => Halt(Trace([], Astray))
      }
    case Reduce(n, r, l) => Go(Reduced(n, r, l), pc + 11, input)
    case AssignToken(id) => Go(Assigned(id), pc + 5, input)
    case PushGoto(t) => Go(Pushed(t), pc + 6, input)
    case Goto(t) => Halt(Trace([], WentTo(t)))
    case Fork(ts) => Halt(Trace([], Forked(ts)))
    case ByteSequence(d, bs) =>
      if input == [] then Halt(Trace([], Starved))
      else if bs <= input[0].ahead then Go(Compared(bs), pc + 7 + |bs|, input[1..])
      else if d > 0 then Go(Compared(bs), pc + d, input[1..])
      else Halt(Trace([Compared(bs)], Failed))
    case HashBranch(k, d, s, m, cs) =>
      if !IsInputKind(k) then Halt(Trace([], Astray))
      else if input == [] then Halt(Trace([], Starved))
      else
        match Lookup(cs, m, input[0].id)
        case Hit(offset) =>
          if offset > 0 then Go(ProbeRead(k, s), pc + offset, input[1..]) else Halt(Trace([ProbeRead(k, s)], Astray))
        case Miss => if d > 0 then Go(ProbeRead(k, s), pc + d, input[1..]) else Halt(Trace([ProbeRead(k, s)], Astray))
        case Lost => Halt(Trace([ProbeRead(k, s)], Astray))
  }

  /** A program as the parser sees it: the instruction at each address below its length. */
  datatype Machine = Machine(decode: nat -> Decoded, limit: nat)

  /** Runs the block at an address. */
  function Exec(m: Machine, pc: nat, input: seq<Reading>): Trace
    decreases m.limit - pc
  {
    if pc >= m.limit || m.decode(pc).Unreadable? then Trace([], Astray)
    else
      match Perform(m.decode(pc).instr, pc, input)
      case Halt(t) => t
      case Go(e, pc', input') => After(e, Exec(m, pc', input'))
  }

  function MachineOf(bc: Bytes): Machine { Machine((pc: nat) => Decode(bc, pc), |bc|) }
}
