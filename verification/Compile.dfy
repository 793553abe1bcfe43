/** The bytecode compiled for a statement (crates/radlr-bytecode/build_bytecode.rs:254-588), as a list of
    instructions, and the theorem that running the bytes means running the statement.

    Names of states become proxy numbers in the order in which they are met; the linker later replaces
    each proxy number by an address.  Here the proxies are the names in order of their numbers. */
module Compile {
  import opened Sequences
  import opened HashTable
  import opened Bytecode
  import opened Ir

  type Proxies = seq<Name>

  /** Code, the proxies after it, and whether every table and every byte sequence kept its bounds. */
  datatype Emitted = Emitted(code: seq<Instr>, px: Proxies, ok: bool)

  /** The blocks of the arms of a match, and the map from input values to offsets into them. */
  datatype Blocks = Blocks(pairs: seq<Pair>, code: seq<Instr>, px: Proxies, ok: bool)

  const TOKEN_KIND := 1
  const MAX_PROXIES := 0x100_0000

  // ----- an ordered map from keys to offsets -----

  function Insert(pairs: seq<Pair>, key: nat, offset: nat): seq<Pair> {
    if pairs == [] || key < pairs[0].key then [Pair(key, offset)] + pairs
    else if key == pairs[0].key then [Pair(key, offset)] + pairs[1..]
    else [pairs[0]] + Insert(pairs[1..], key, offset)
  }

  function InsertAll(pairs: seq<Pair>, vals: seq<nat>, offset: nat): seq<Pair> {
    if vals == [] then pairs else Insert(InsertAll(pairs, Init(vals), offset), Last(vals) % WORD32, offset)
  }

  function Find(pairs: seq<Pair>, key: nat): Option<nat> {
    if pairs == [] then None else if pairs[0].key == key then Some(pairs[0].offset) else Find(pairs[1..], key)
  }

  function Shift(pairs: seq<Pair>, delta: nat): (r: seq<Pair>)
    ensures |r| == |pairs| && forall i :: 0 <= i < |r| ==> r[i] == Pair(pairs[i].key, pairs[i].offset + delta)
  {
    seq(|pairs|, i requires 0 <= i < |pairs| => Pair(pairs[i].key, pairs[i].offset + delta))
  }

  ghost predicate Sorted(pairs: seq<Pair>) {
    forall i, j :: 0 <= i < j < |pairs| ==> pairs[i].key < pairs[j].key
  }

  lemma {:induction false} InsertSorted(pairs: seq<Pair>, key: nat, offset: nat)
    requires Sorted(pairs)
    ensures Sorted(Insert(pairs, key, offset))
    ensures forall p :: p in Insert(pairs, key, offset) ==> p in pairs || p.key == key
  {
    if pairs != [] && key > pairs[0].key {
      InsertSorted(pairs[1..], key, offset);
    }
  }

  lemma {:induction false} InsertAllSorted(pairs: seq<Pair>, vals: seq<nat>, offset: nat)
    requires Sorted(pairs)
    ensures Sorted(InsertAll(pairs, vals, offset))
  {
    if vals != [] {
      InsertAllSorted(pairs, Init(vals), offset);
      InsertSorted(InsertAll(pairs, Init(vals), offset), Last(vals) % WORD32, offset);
    }
  }

  lemma {:induction false} FindInserted(pairs: seq<Pair>, key: nat, offset: nat, q: nat)
    ensures Find(Insert(pairs, key, offset), q) == if q == key then Some(offset) else Find(pairs, q)
  {
    if pairs != [] && key > pairs[0].key {
      FindInserted(pairs[1..], key, offset, q);
    }
  }

  lemma {:induction false} FindAllInserted(pairs: seq<Pair>, vals: seq<nat>, offset: nat, q: nat)
    requires AllBelow(vals, WORD32)
    ensures Find(InsertAll(pairs, vals, offset), q) == if q in vals then Some(offset) else Find(pairs, q)
  {
    if vals != [] {
      FindAllInserted(pairs, Init(vals), offset, q);
      FindInserted(InsertAll(pairs, Init(vals), offset), Last(vals), offset, q);
      SplitLast(vals);
    }
  }

  lemma {:induction false} FindIsMember(pairs: seq<Pair>, key: nat)
    ensures Find(pairs, key).Some? ==> Pair(key, Find(pairs, key).value) in pairs
    ensures Find(pairs, key).None? ==> forall p :: p in pairs ==> p.key != key
  {
    if pairs != [] && pairs[0].key != key {
      FindIsMember(pairs[1..], key);
    }
  }

  lemma {:induction false} FindShifted(pairs: seq<Pair>, delta: nat, key: nat)
    ensures Find(Shift(pairs, delta), key) == if Find(pairs, key).Some? then Some(Find(pairs, key).value + delta) else None
  {
    if pairs != [] {
      FindShifted(pairs[1..], delta, key);
      assert Shift(pairs, delta)[1..] == Shift(pairs[1..], delta);
    }
  }

  lemma {:induction false} SortedIsDistinct(pairs: seq<Pair>)
    requires Sorted(pairs)
    ensures DistinctKeys(pairs)
  {
    forall p, q | p in pairs && q in pairs && p.key == q.key
      ensures p == q
    {
      var i :| 0 <= i < |pairs| && pairs[i] == p;
      var j :| 0 <= j < |pairs| && pairs[j] == q;
    }
  }

  // ----- proxies -----

  function Enter(px: Proxies, name: Name): Proxies {
    if name in px then px else px + [name]
  }

  function EnterAll(px: Proxies, names: seq<Name>): Proxies {
    if names == [] then px else Enter(EnterAll(px, Init(names)), Last(names))
  }

  function EnterOne(px: Proxies, name: Option<Name>): Proxies {
    if name.None? then px else Enter(px, name.value)
  }

  /** The number of a name. */
  function ProxyOf(px: Proxies, name: Name): (p: nat)
    ensures p <= |px| && (p < |px| ==> px[p] == name)
    ensures name in px ==> p < |px|
  {
    if px == [] || px[0] == name then 0 else 1 + ProxyOf(px[1..], name)
  }

  function ProxiesOf(px: Proxies, names: seq<Name>): seq<nat> {
    if names == [] then [] else ProxiesOf(px, Init(names)) + [ProxyOf(px, Last(names))]
  }

  // ----- code -----

  function LastByte(last: Option<nat>, code: seq<Instr>): Option<nat> {
    if code == [] then last else Some(Last(Encode(Last(code))))
  }

  function EffectCode(effects: seq<Effect>): seq<Instr> {
    if effects == [] then []
    else
      EffectCode(Init(effects)) +
      match Last(effects)
      case ReduceRaw(n, r, l) => [Reduce(n, r, l % WORD16)]
      case SetTokenId(id) => [AssignToken(id)]
      case SetLine => []
  }

  function PopCode(n: nat): seq<Instr> {
    if n == 0 then [] else PopCode(n - 1) + [Op(POP_GOTO)]
  }

  function PushCode(px: Proxies, names: seq<Name>): seq<Instr> {
    if names == [] then [] else PushCode(px, Init(names)) + [PushGoto(ProxyOf(px, Last(names)))]
  }

  function OpOf(m: Move): nat {
    match m
    case ShiftChar => SHIFT_CHAR
    case ShiftToken => SHIFT_TOKEN
    case SkipToken => SKIP_TOKEN
    case PeekToken => PEEK_TOKEN
    case PeekSkipToken => PEEK_SKIP_TOKEN
    case PeekReset => PEEK_RESET
  }

  function Pops(pop: Option<nat>): nat {
    if pop.None? then 0 else if pop.value == 0 then 1 else pop.value
  }

  /** The number of a kind of input. */
  function KindNumber(input: InputKind): nat {
    match input
    case NonTerminalInput => 0
    case TokenInput => TOKEN_KIND
    case ClassInput => 2
    case CodepointInput => 3
    case ByteInput => 4
    case EndOfFileInput => 5
    case ScanlessByte => 7
    case ScanlessCodepoint => 8
    case ScanlessClass => 9
    case ByteSequenceInput => 10
    case CstNodeInput => 11
  }

  function KindOf(m: Mode): nat { if m.TokenOf? then TOKEN_KIND else KindNumber(m.input) }

  function MoveCode(m: Option<Move>): seq<Instr> {
    if m.None? then [] else [Op(OpOf(m.value))]
  }

  function HeadCode(s: Statement): seq<Instr> {
    MoveCode(s.move) + EffectCode(s.effects) + PopCode(Pops(s.pop))
  }

  /** There is a last byte, and it is not a sentinel opcode. */
  predicate IsOpen(last: Option<nat>) { last.Some? && !IsSentinel(last.value) }

  /** A block ends with PASS unless the last byte before its end already is a sentinel opcode. */
  function Close(code: seq<Instr>, last: Option<nat>): seq<Instr> {
    if IsOpen(LastByte(last, code)) then code + [Op(PASS)] else code
  }

  /** The code of a statement compiled behind code whose last byte is `last`. */
  ghost function Emit(s: Statement, last: Option<nat>, px: Proxies): Emitted
    decreases s
  {
    var head := HeadCode(s);
    if s.branch.None? then Emitted(Close(head, last), px, true)
    else
      var body := EmitBranch(s.branch.value, LastByte(last, head), px);
      Emitted(Close(head + body.code, last), body.px, body.ok)
  }

  ghost function EmitBranch(b: Branch, last: Option<nat>, px: Proxies): Emitted
    decreases b
  {
    match b
    case Pass => Emitted([Op(PASS)], px, true)
    case Fail => Emitted([Op(FAIL)], px, true)
    case Accept => Emitted([Op(ACCEPT)], px, true)
    case Gotos(pushes, goto, fork) => GotosCode(pushes, goto, fork, px)
    case Matches(mode, arms) => EmitMatch(mode, arms, if mode.TokenOf? then Enter(px, mode.scanner) else px)
  }

  ghost function EmitMatch(mode: Mode, arms: seq<Arm>, px: Proxies): Emitted
    decreases arms, 3
  {
    if FirstInts(arms) == |arms| then EmitOnlyDefault(arms, px)
    else if mode == Plain(ByteSequenceInput) then EmitSequence(arms, px)
    else EmitTable(mode, arms, px)
  }

  ghost function EmitOnlyDefault(arms: seq<Arm>, px: Proxies): Emitted
    decreases arms, 2
  {
    var e := EmitDefault(arms, Some(READ_CODEPOINT), px, []);
    Emitted([Op(READ_CODEPOINT)] + e.code, e.px, e.ok)
  }

  /** The instruction is followed by the block for the bytes and by the default. */
  ghost function EmitSequence(arms: seq<Arm>, px: Proxies): Emitted
    requires FirstInts(arms) < |arms|
    decreases arms, 2
  {
    var k := FirstInts(arms);
    var block := EmitArm(arms[k], None, px);
    var d := EmitDefault(arms, None, block.px, []);
    SequenceCode(arms[k].vals, block, d, FirstDefault(arms) < |arms|)
  }

  /** The table is followed by the blocks of the arms and by the default, or a FAIL. */
  ghost function EmitTable(mode: Mode, arms: seq<Arm>, px: Proxies): Emitted
    decreases arms, 2
  {
    var blocks := EmitBlocks(arms, px);
    var i := TableInstr(KindOf(mode), if mode.TokenOf? then ProxyOf(px, mode.scanner) else NO_SCANNER, blocks);
    var d := EmitDefault(arms, LastByte(None, [i] + blocks.code), blocks.px, [Op(FAIL)]);
    Emitted([i] + blocks.code + d.code, d.px, blocks.ok && d.ok && TableFits(blocks))
  }

  ghost function EmitArm(a: Arm, last: Option<nat>, px: Proxies): Emitted
    requires !a.HintArm?
    decreases a
  {
    Emit(a.stmt, last, px)
  }

  ghost function EmitDefault(arms: seq<Arm>, last: Option<nat>, px: Proxies, otherwise: seq<Instr>): Emitted
    decreases arms, 1
  {
    var d := FirstDefault(arms);
    if d < |arms| then EmitArm(arms[d], last, px) else Emitted(otherwise, px, true)
  }

  /** The arms are compiled from the last to the first, so that an earlier arm overrides a later one. */
  ghost function EmitBlocks(arms: seq<Arm>, px: Proxies): Blocks
    decreases arms, 1
  {
    if arms == [] then Blocks([], [], px, true)
    else
      var later := EmitBlocks(arms[1..], px);
      if !arms[0].IntArm? then later
      else
        var e := EmitArm(arms[0], None, later.px);
        Blocks(InsertAll(later.pairs, arms[0].vals, Size(later.code)), later.code + e.code, e.px, later.ok && e.ok)
  }

  function GotosCode(pushes: seq<Name>, goto: Option<Name>, fork: Option<seq<Name>>, px: Proxies): Emitted {
    var px1 := EnterOne(EnterAll(px, pushes), goto);
    var px2 := if fork.None? then px1 else EnterAll(px1, fork.value);
    Emitted(PushCode(px2, pushes)
            + (if goto.None? then [] else [Goto(ProxyOf(px2, goto.value))])
            + (if fork.None? then [] else [Fork(ProxiesOf(px2, fork.value))]),
            px2, fork.Some? ==> |fork.value| < WORD16)
  }

  function SequenceCode(vals: seq<nat>, block: Emitted, d: Emitted, hasDefault: bool): Emitted {
    var size := 7 + |vals| + Size(block.code);
    Emitted([ByteSequence(if hasDefault then size else 0, vals)] + block.code + d.code,
            d.px, block.ok && d.ok && |vals| < WORD16 && size < WORD32)
  }

  /** The entries of the table fit its fields. */
  ghost predicate Tabled(pairs: seq<Pair>) {
    1 <= |pairs| <= MAX_ENTRIES && InRange(pairs)
  }

  ghost function Cells(pairs: seq<Pair>): seq<nat> {
    if Tabled(pairs) then TableCellsFit(pairs); Words(Table(pairs)) else []
  }

  function FieldsStart(blocks: Blocks): nat { 18 + 4 * |blocks.pairs| }

  function Entries(blocks: Blocks): seq<Pair> { Shift(blocks.pairs, FieldsStart(blocks)) }

  ghost predicate TableFits(blocks: Blocks) {
    Tabled(Entries(blocks)) && FieldsStart(blocks) + Size(blocks.code) < WORD32
  }

  /** The offsets of the table count from the instruction itself, so the code can lie anywhere. */
  ghost function TableInstr(kind: nat, scanner: nat, blocks: Blocks): Instr {
    var bits := if blocks.pairs == [] then 0 else FloorLog2(|blocks.pairs|);
    HashBranch(kind, FieldsStart(blocks) + Size(blocks.code), scanner, bits, Cells(Entries(blocks)))
  }
}
