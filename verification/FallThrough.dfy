/** Exactly when the code of a block runs out of its own bytes: for a statement without a match, for every
    block within nested matches, and what happens to a match one of whose blocks is empty
    (crates/radlr-bytecode/build_bytecode.rs:379-393). */
module FallThrough {
  import opened Sequences
  import opened HashTable
  import opened Bytecode
  import opened Ir
  import opened Compile
  import opened CompileCorrect
  import opened CompileBytes

  predicate IsFlat(s: Statement) {
    s.branch.Some? ==> !s.branch.value.Matches?
  }

  /** Without an operation to close it, or with one whose last byte looks like a sentinel, a statement is
      compiled without a final PASS. */
  lemma {:induction false} NotClosedCode(s: Statement, last: Option<nat>, px: Proxies)
    requires !Closes(s, IsOpen(last)) && EffectsFit(s.effects)
    ensures Emit(s, last, px).code == HeadCode(s) && Emit(s, last, px).px == px
  {
    HeadLastByte(s, last);
    assert PushCode(px, []) + [] + [] == [];
    assert HeadCode(s) + [] == HeadCode(s);
  }

  lemma {:induction false} RunsOut(s: Statement, last: Option<nat>, px: Proxies, f: nat -> Address, input: seq<Reading>)
    requires !Closes(s, IsOpen(last)) && EffectsFit(s.effects)
    ensures Exec(MachineOf(BytesOf(s, last, px, f)), 0, input).end == Astray
  {
    var code := HeadCode(s);
    var bc := BytesOf(s, last, px, f);
    NotClosedCode(s, last, px);
    HeadValid(s);
    HeadRuns(f, s);
    BytesLoaded(bc, 0, f, code);
    RunStraight(MachineOf(bc), 0, f, code, |bc|, input);
  }

  /** The bytes of a statement without a match, compiled behind bytes that end with `last`, keep control
      inside themselves if and only if the statement closes there. */
  lemma {:induction false} FlatStaysInside(s: Statement, last: Option<nat>, px: Proxies, f: nat -> Address,
                                           input: seq<Reading>)
    requires IsFlat(s) && InBounds(s, last, px) && Distinct(px)
    ensures Exec(MachineOf(BytesOf(s, last, px, f)), 0, input).end != Astray <==> Closes(s, IsOpen(last))
  {
    var bc := BytesOf(s, last, px, f);
    if Closes(s, IsOpen(last)) {
      NoFallThrough(s, last, px, f, bc, 0, bc, 0, input);
    } else {
      RunsOut(s, last, px, f, input);
    }
  }

  // ----- blocks within matches -----

  /** The bytes of a block keep control inside themselves on every input. */
  ghost predicate Stays(s: Statement, last: Option<nat>, px: Proxies, f: nat -> Address) {
    forall input :: Exec(MachineOf(BytesOf(s, last, px, f)), 0, input).end != Astray
  }

  /** So do the bytes of every block that is compiled within its matches, each where it is compiled. */
  ghost predicate AllStay(s: Statement, last: Option<nat>, px: Proxies, f: nat -> Address)
    decreases s
  {
    && Stays(s, last, px, f)
    && (s.branch.Some? && s.branch.value.Matches? ==>
          var mode, arms := s.branch.value.mode, s.branch.value.arms;
          IntsStay(arms, EnterScanner(px, mode), f) && DefaultStays(mode, arms, EnterScanner(px, mode), f))
  }

  function EnterScanner(px: Proxies, mode: Mode): Proxies { if mode.TokenOf? then Enter(px, mode.scanner) else px }

  ghost predicate IntsStay(arms: seq<Arm>, px: Proxies, f: nat -> Address)
    decreases arms
  {
    arms == [] ||
    (IntsStay(arms[1..], px, f) && (arms[0].IntArm? ==> ArmStays(arms[0], None, EmitBlocks(arms[1..], px).px, f)))
  }

  ghost predicate DefaultStays(mode: Mode, arms: seq<Arm>, px: Proxies, f: nat -> Address)
    decreases arms
  {
    FirstDefault(arms) < |arms| ==>
      ArmStays(arms[FirstDefault(arms)], DefaultBehind(mode, arms, px), DefaultProxies(mode, arms, px), f)
  }

  ghost predicate ArmStays(a: Arm, last: Option<nat>, px: Proxies, f: nat -> Address)
    requires !a.HintArm?
    decreases a
  {
    AllStay(a.stmt, last, px, f)
  }

  ghost function TableOfArms(mode: Mode, arms: seq<Arm>, px: Proxies): Instr {
    TableInstr(KindOf(mode), if mode.TokenOf? then ProxyOf(px, mode.scanner) else NO_SCANNER, EmitBlocks(arms, px))
  }

  /** The last byte behind which the default of a match is compiled. */
  ghost function DefaultBehind(mode: Mode, arms: seq<Arm>, px: Proxies): Option<nat> {
    if FirstInts(arms) == |arms| then Some(READ_CODEPOINT)
    else if mode == Plain(ByteSequenceInput) then None
    else LastByte(None, [TableOfArms(mode, arms, px)] + EmitBlocks(arms, px).code)
  }

  /** The names that have been met when the default is compiled. */
  ghost function DefaultProxies(mode: Mode, arms: seq<Arm>, px: Proxies): Proxies {
    if FirstInts(arms) == |arms| then px
    else if mode == Plain(ByteSequenceInput) then EmitArm(arms[FirstInts(arms)], None, px).px
    else EmitBlocks(arms, px).px
  }

  /** A closed block is not empty and ends with a sentinel. */
  lemma {:induction false} ClosedEnds(s: Statement, last: Option<nat>, px: Proxies)
    requires Compilable(s, last, px)
    ensures var code := Emit(s, last, px).code; code != [] && IsSentinel(Last(Encode(Last(code))))
  {
    if OpenEnded(s) {
      var px' := OpenEmit(s, last, px);
      OpenGetsPass(s, last, px');
    } else if s.branch.Some? && !Skips(s) {
      BranchNotEmpty(s.branch.value, LastByte(last, HeadCode(s)), px);
    }
  }

  lemma {:induction false} BranchNotEmpty(b: Branch, last: Option<nat>, px: Proxies)
    requires b.Gotos? ==> b.goto.Some? || b.fork.Some?
    requires b.Matches? ==> FirstInts(b.arms) < |b.arms| || FirstDefault(b.arms) < |b.arms|
    ensures EmitBranch(b, last, px).code != []
  {
    if b.Matches? {
      MatchNotEmpty(b.mode, b.arms, EnterScanner(px, b.mode));
    }
  }

  lemma {:induction false} MatchNotEmpty(mode: Mode, arms: seq<Arm>, px: Proxies)
    ensures EmitMatch(mode, arms, px).code != []
  {
    if FirstInts(arms) < |arms| {
      if mode == Plain(ByteSequenceInput) {
        assert EmitSequence(arms, px).code != [];
      } else {
        var _, _, _ := TableParts(mode, arms, px);
      }
    }
  }

  lemma {:induction false} BlocksEnd(arms: seq<Arm>, px: Proxies)
    requires FitInts(arms) && SoundInts(arms) && FirstInts(arms) < |arms|
    requires EmitBlocks(arms, px).ok && |EmitBlocks(arms, px).px| <= MAX_PROXIES
    ensures var code := EmitBlocks(arms, px).code; code != [] && IsSentinel(Last(Encode(Last(code))))
  {
    var later := EmitBlocks(arms[1..], px);
    if arms[0].IntArm? {
      ClosedEnds(arms[0].stmt, None, later.px);
      LastByteConcat(None, later.code, EmitArm(arms[0], None, later.px).code);
    } else {
      BlocksEnd(arms[1..], px);
    }
  }

  /** With closed blocks before it, a default is compiled behind an open byte only if there are no blocks. */
  lemma {:induction false} DefaultOpen(mode: Mode, arms: seq<Arm>, px: Proxies)
    requires FitInts(arms) && SoundInts(arms) && EmitBlocks(arms, px).ok && |EmitBlocks(arms, px).px| <= MAX_PROXIES
    ensures IsOpen(DefaultBehind(mode, arms, px)) <==> FirstInts(arms) == |arms|
  {
    if FirstInts(arms) < |arms| && mode != Plain(ByteSequenceInput) {
      BlocksEnd(arms, px);
      LastByteConcat(None, [TableOfArms(mode, arms, px)], EmitBlocks(arms, px).code);
    }
  }

  lemma {:induction false} NoBlocks(arms: seq<Arm>, px: Proxies)
    requires FirstInts(arms) == |arms|
    ensures EmitBlocks(arms, px) == Blocks([], [], px, true)
  {
    if arms != [] {
      NoBlocks(arms[1..], px);
    }
  }

  /** The one block of a byte sequence match. */
  lemma {:induction false} OneBlock(arms: seq<Arm>, px: Proxies)
    requires FirstInts(arms) < |arms|
    requires forall i, j :: 0 <= i < j < |arms| ==> !(arms[i].IntArm? && arms[j].IntArm?)
    ensures var e := EmitArm(arms[FirstInts(arms)], None, px);
            EmitBlocks(arms, px).ok == e.ok && EmitBlocks(arms, px).px == e.px
  {
    if arms[0].IntArm? {
      assert forall j :: 0 <= j < |arms[1..]| ==> arms[1..][j] == arms[j + 1];
      NoBlocks(arms[1..], px);
    } else {
      OneBlock(arms[1..], px);
    }
  }

  /** The blocks and the default of a match in bounds keep their bounds where they are compiled. */
  lemma {:induction false} ArmsInBounds(mode: Mode, arms: seq<Arm>, px: Proxies)
    requires MatchFits(mode, arms) && EmitMatch(mode, arms, px).ok && |EmitMatch(mode, arms, px).px| <= MAX_PROXIES
    requires FitInts(arms) && FitDefault(arms)
    ensures EmitBlocks(arms, px).ok && |EmitBlocks(arms, px).px| <= MAX_PROXIES
    ensures Grown(px, DefaultProxies(mode, arms, px))
    ensures FirstDefault(arms) < |arms| ==>
              InBounds(arms[FirstDefault(arms)].stmt, DefaultBehind(mode, arms, px), DefaultProxies(mode, arms, px))
  {
    if FirstInts(arms) == |arms| {
      OnlyDefaultInBounds(arms, px);
    } else if mode == Plain(ByteSequenceInput) {
      SequenceInBounds(arms, px);
    } else {
      var _, _, _ := TableParts(mode, arms, px);
      TableGrows(mode, arms, px);
    }
  }

  lemma {:induction false} OnlyDefaultInBounds(arms: seq<Arm>, px: Proxies)
    requires FirstInts(arms) == |arms| && FirstDefault(arms) < |arms| && FitDefault(arms)
    requires EmitOnlyDefault(arms, px).ok && |EmitOnlyDefault(arms, px).px| <= MAX_PROXIES
    ensures EmitBlocks(arms, px).ok && |EmitBlocks(arms, px).px| <= MAX_PROXIES
    ensures InBounds(arms[FirstDefault(arms)].stmt, Some(READ_CODEPOINT), px)
  {
    var e := EmitDefault(arms, Some(READ_CODEPOINT), px, []);
    NoBlocks(arms, px);
    DefaultGrows(arms, Some(READ_CODEPOINT), px, []);
    assert EmitArm(arms[FirstDefault(arms)], Some(READ_CODEPOINT), px) == e;
  }

  lemma {:induction false} SequenceInBounds(arms: seq<Arm>, px: Proxies)
    requires FirstInts(arms) < |arms| && FitDefault(arms)
    requires forall i, j :: 0 <= i < j < |arms| ==> !(arms[i].IntArm? && arms[j].IntArm?)
    requires EmitSequence(arms, px).ok && |EmitSequence(arms, px).px| <= MAX_PROXIES
    ensures EmitBlocks(arms, px).ok && |EmitBlocks(arms, px).px| <= MAX_PROXIES
    ensures var px' := EmitArm(arms[FirstInts(arms)], None, px).px;
            Grown(px, px') && (FirstDefault(arms) < |arms| ==> InBounds(arms[FirstDefault(arms)].stmt, None, px'))
  {
    var block, d, _ := SequenceParts(arms, px);
    OneBlock(arms, px);
    ArmGrows(arms[FirstInts(arms)], None, px);
    DefaultGrows(arms, None, block.px, []);
  }

  lemma {:induction false} IntsStayExactly(arms: seq<Arm>, px: Proxies, f: nat -> Address)
    requires FitInts(arms) && EmitBlocks(arms, px).ok && |EmitBlocks(arms, px).px| <= MAX_PROXIES && Distinct(px)
    ensures IntsStay(arms, px, f) <==> SoundInts(arms)
    decreases arms, 0
  {
    if arms != [] {
      var later := EmitBlocks(arms[1..], px);
      BlocksGrow(arms[1..], px);
      SoundIntsSplit(arms);
      if arms[0].IntArm? {
        ArmGrows(arms[0], None, later.px);
        ArmStaysExactly(arms[0], None, later.px, f);
      }
      IntsStayExactly(arms[1..], px, f);
    }
  }

  lemma {:induction false} SoundIntsSplit(arms: seq<Arm>)
    requires arms != []
    ensures SoundInts(arms) <==> (arms[0].IntArm? ==> SoundArm(arms[0], false)) && SoundInts(arms[1..])
  {
    if SoundInts(arms[1..]) && (arms[0].IntArm? ==> SoundArm(arms[0], false)) {
      forall i | 0 <= i < |arms| && arms[i].IntArm?
        ensures SoundArm(arms[i], false)
      {
        assert i > 0 ==> arms[i] == arms[1..][i - 1];
      }
    }
    if SoundInts(arms) {
      forall i | 0 <= i < |arms[1..]| && arms[1..][i].IntArm?
        ensures SoundArm(arms[1..][i], false)
      {
        assert arms[1..][i] == arms[i + 1];
      }
    }
  }

  lemma {:induction false} ArmStaysExactly(a: Arm, last: Option<nat>, px: Proxies, f: nat -> Address)
    requires !a.HintArm? && InBounds(a.stmt, last, px) && Distinct(px)
    ensures ArmStays(a, last, px, f) <==> SoundArm(a, IsOpen(last))
    decreases a
  {
    StaysInsideExactly(a.stmt, last, px, f);
  }

  lemma {:induction false} MatchStaysExactly(mode: Mode, arms: seq<Arm>, px: Proxies, f: nat -> Address)
    requires MatchFits(mode, arms) && EmitMatch(mode, arms, px).ok && |EmitMatch(mode, arms, px).px| <= MAX_PROXIES
    requires FitInts(arms) && FitDefault(arms) && Distinct(px)
    ensures IntsStay(arms, px, f) && DefaultStays(mode, arms, px, f)
       <==> SoundInts(arms) && SoundDefault(arms, FirstInts(arms) == |arms|)
    decreases arms, 1
  {
    ArmsInBounds(mode, arms, px);
    IntsStayExactly(arms, px, f);
    if SoundInts(arms) {
      DefaultOpen(mode, arms, px);
      var d := FirstDefault(arms);
      if d < |arms| {
        ArmStaysExactly(arms[d], DefaultBehind(mode, arms, px), DefaultProxies(mode, arms, px), f);
      }
    }
  }

  /** Every block of a statement, those of nested matches included, stays inside its own bytes on every
      input if and only if the statement is sound where it is compiled. */
  lemma {:induction false} StaysInsideExactly(s: Statement, last: Option<nat>, px: Proxies, f: nat -> Address)
    requires InBounds(s, last, px) && Distinct(px)
    ensures AllStay(s, last, px, f) <==> Sound(s, IsOpen(last))
    decreases s
  {
    if IsFlat(s) {
      forall input
        ensures Exec(MachineOf(BytesOf(s, last, px, f)), 0, input).end != Astray <==> Closes(s, IsOpen(last))
      {
        FlatStaysInside(s, last, px, f, input);
      }
      assert Exec(MachineOf(BytesOf(s, last, px, f)), 0, []).end != Astray <==> Closes(s, IsOpen(last));
    } else {
      var mode, arms := s.branch.value.mode, s.branch.value.arms;
      if mode.TokenOf? {
        EnterGrows(px, mode.scanner);
      }
      assert EmitBranch(s.branch.value, LastByte(last, HeadCode(s)), px) == EmitMatch(mode, arms, EnterScanner(px, mode));
      MatchStaysExactly(mode, arms, EnterScanner(px, mode), f);
      if Sound(s, IsOpen(last)) {
        SoundStays(s, last, px, f);
      }
    }
  }

  lemma {:induction false} SoundStays(s: Statement, last: Option<nat>, px: Proxies, f: nat -> Address)
    requires Compilable(s, last, px) && Distinct(px)
    ensures Stays(s, last, px, f)
  {
    var bc := BytesOf(s, last, px, f);
    forall input
      ensures Exec(MachineOf(bc), 0, input).end != Astray
    {
      NoFallThrough(s, last, px, f, bc, 0, bc, 0, input);
    }
  }

  // ----- the opcodes after which no PASS is needed -----

  /** An instruction with this opcode. */
  ghost predicate HasOpcode(i: Instr, op: nat) { Valid(i) && Encode(i)[0] == op }

  /** The parser has an instruction with this opcode, and never goes on behind or within the block after it. */
  ghost predicate NeverGoesOn(op: nat) {
    && (exists i :: HasOpcode(i, op))
    && (forall i, pc, input :: HasOpcode(i, op) ==> Perform(i, pc, input).Halt?)
  }

  /** The builder leaves out the final PASS behind exactly those opcodes after which the parser never goes on,
      except behind a fork, which gets a PASS. */
  lemma {:induction false} SentinelExactly(op: nat)
    ensures IsSentinel(op) <==> NeverGoesOn(op) && op != FORK
  {
    if IsSentinel(op) {
      SentinelHalts(op);
    } else if op != FORK {
      if i :| HasOpcode(i, op) {
        GoesOn(i, op);
      }
    }
  }

  lemma {:induction false} SentinelHalts(op: nat)
    requires IsSentinel(op)
    ensures NeverGoesOn(op)
  {
    assert HasOpcode(if op == GOTO then Goto(0) else Op(op), op);
    forall i, pc, input | HasOpcode(i, op)
      ensures Perform(i, pc, input).Halt?
    {
      assert i.Goto? || i == Op(op);
    }
  }

  lemma {:induction false} GoesOn(i: Instr, op: nat)
    requires HasOpcode(i, op) && !IsSentinel(op) && op != FORK
    ensures !NeverGoesOn(op)
  {
    var input := [Reading(0, [])];
    if i.ByteSequence? {
      assert HasOpcode(ByteSequence(0, []), op) && Perform(ByteSequence(0, []), 0, input).Go?;
    } else if i.HashBranch? {
      var b := TakenBranch();
      assert HasOpcode(b, op) && Perform(b, 0, input).Go?;
    } else {
      assert Perform(i, 0, input).Go?;
    }
  }

  /** A table of one entry, which leads over the table. */
  lemma {:induction false} TakenBranch() returns (i: Instr)
    ensures HasOpcode(i, HASH_BRANCH) && Perform(i, 0, [Reading(0, [])]).Go?
  {
    var blocks := Blocks([Pair(0, 0)], [], [], true);
    i := TableInstr(2, NO_SCANNER, blocks);
    assert Entries(blocks) == [Pair(0, 22)];
    TableValid(2, NO_SCANNER, blocks);
    TableLookup(blocks, 0);
    assert Find(blocks.pairs, 0) == Some(0);
  }

  // ----- inputs on which it fails -----

  /** A token id whose high byte is the opcode of PASS is taken for the end of the block. */
  lemma {:induction false} TokenIdTakenForPass(f: nat -> Address, at: Name -> nat)
    ensures var s := Statement(None, [SetTokenId(0x100_0000)], None, None);
            && Exec(MachineOf(BytesOf(s, None, [], f)), 0, []).end == Astray
            && Run(s, at, []).end == Passed
  {
    var s := Statement(None, [SetTokenId(0x100_0000)], None, None);
    assert ClosingByte(s.effects) == Some(1);
    RunsOut(s, None, [], f, []);
  }

  const EMPTY := Statement(None, [], None, None)
  const FAILS := Statement(None, [], None, Some(Branch.Fail))
  const EMPTY_ARM := [IntArm([5], EMPTY), DefaultArm(FAILS)]
  const EMPTY_BLOCK := Statement(None, [], None, Some(Matches(Plain(ByteInput), EMPTY_ARM)))

  lemma {:induction false} EmptyArmBlocks(last: Option<nat>) returns (blocks: Blocks)
    ensures blocks == EmitBlocks(EMPTY_ARM, []) == Blocks([Pair(5, 0)], [], [], true)
    ensures EmitDefault(EMPTY_ARM, last, [], [Op(FAIL)]).code == [Op(FAIL)]
  {
    assert EMPTY_ARM[1..] == [DefaultArm(FAILS)] && EMPTY_ARM[1..][1..] == [];
    assert EmitBlocks(EMPTY_ARM[1..], []) == Blocks([], [], [], true);
    assert Init([5]) == [] && InsertAll([], [], 0) == [];
    blocks := EmitBlocks(EMPTY_ARM, []);
    assert FirstDefault(EMPTY_ARM) == 1;
    assert HeadCode(FAILS) == [] && EmitBranch(Branch.Fail, last, []).code == [Op(FAIL)];
    assert Close([] + [Op(FAIL)], last) == [Op(FAIL)];
    assert Emit(FAILS, last, []).code == [Op(FAIL)];
    assert EmitArm(EMPTY_ARM[1], last, []).code == [Op(FAIL)];
  }

  lemma {:induction false} EmptyBlockBranch() returns (i: Instr, blocks: Blocks)
    ensures blocks == Blocks([Pair(5, 0)], [], [], true) && i == TableInstr(4, NO_SCANNER, blocks)
    ensures EmitBranch(EMPTY_BLOCK.branch.value, None, []).code == [i, Op(FAIL)]
  {
    i, blocks := EmptyBlockTable();
    assert FirstInts(EMPTY_ARM) == 0;
    assert EmitMatch(Plain(ByteInput), EMPTY_ARM, []) == EmitTable(Plain(ByteInput), EMPTY_ARM, []);
  }

  lemma {:induction false} EmptyBlockTable() returns (i: Instr, blocks: Blocks)
    ensures blocks == Blocks([Pair(5, 0)], [], [], true) && i == TableInstr(4, NO_SCANNER, blocks)
    ensures EmitTable(Plain(ByteInput), EMPTY_ARM, []).code == [i, Op(FAIL)]
  {
    blocks := EmptyArmBlocks(None);
    i := TableInstr(4, NO_SCANNER, blocks);
    var _ := EmptyArmBlocks(LastByte(None, [i]));
    TableWithoutBlocks(EMPTY_ARM, blocks, i);
  }

  /** A table without code for its blocks is followed by the default. */
  lemma {:induction false} TableWithoutBlocks(arms: seq<Arm>, blocks: Blocks, i: Instr)
    requires blocks == EmitBlocks(arms, []) && blocks.code == [] && blocks.px == [] && i == TableInstr(4, NO_SCANNER, blocks)
    ensures EmitTable(Plain(ByteInput), arms, []).code == [i] + EmitDefault(arms, LastByte(None, [i]), [], [Op(FAIL)]).code
  {
    var j, _, _ := TableParts(Plain(ByteInput), arms, []);
    assert j == i && [i] + [] == [i];
  }

  lemma {:induction false} EmptyBlockCode() returns (i: Instr, blocks: Blocks)
    ensures blocks == Blocks([Pair(5, 0)], [], [], true) && i == TableInstr(4, NO_SCANNER, blocks)
    ensures Emit(EMPTY_BLOCK, None, []).code == [i, Op(FAIL)]
    ensures TableFits(blocks) && Valid(i) && Len(i) == 22
  {
    i, blocks := EmptyBlockBranch();
    var code := EmitBranch(EMPTY_BLOCK.branch.value, None, []).code;
    assert HeadCode(EMPTY_BLOCK) == [] && LastByte(None, []) == None;
    assert [] + code == code && Close(code, None) == code;
    assert Entries(blocks) == [Pair(5, 22)];
    TableValid(4, NO_SCANNER, blocks);
    CellsBelow(Entries(blocks));
  }

  lemma {:induction false} EmptyBlockMeans(at: Name -> nat)
    ensures Run(EMPTY_BLOCK, at, [Reading(5, [])]).end == Passed
  {
    var input := [Reading(5, [])];
    assert ArmFor(EMPTY_ARM, 5) == 0 && FirstInts(EMPTY_ARM) == 0;
    assert RunArm(EMPTY_ARM[0], at, input[1..]).end == Passed;
    assert RunBranch(EMPTY_BLOCK.branch.value, at, input).end == Passed;
  }

  lemma {:induction false} EmptyBlockExec(m: Machine, f: nat -> Address, i: Instr, blocks: Blocks)
    requires blocks == Blocks([Pair(5, 0)], [], [], true) && i == TableInstr(4, NO_SCANNER, blocks)
    requires TableFits(blocks) && Len(i) == 22 && Loaded(m, 0, f, [i] + [Op(FAIL)])
    ensures Exec(m, 0, [Reading(5, [])]).end == Failed
  {
    var input := [Reading(5, [])];
    var next := LoadedParts(m, 0, f, [i], [Op(FAIL)]);
    LoadedOne(m, 0, f, i);
    ExecPass(m, next, f, FAIL, input[1..]);
    assert Find(blocks.pairs, 5) == Some(0);
    ExecTable(m, 0, f, 4, NO_SCANNER, blocks, next, next, input);
  }

  /** An empty block in a match gets no bytes at all, so its value runs the block behind it: here a match
      that should pass on 5 fails on it. */
  lemma {:induction false} EmptyBlockRunsNext(f: nat -> Address, at: Name -> nat)
    ensures Exec(MachineOf(BytesOf(EMPTY_BLOCK, None, [], f)), 0, [Reading(5, [])]).end == Failed
    ensures Run(EMPTY_BLOCK, at, [Reading(5, [])]).end == Passed
  {
    var i, blocks := EmptyBlockCode();
    assert [i, Op(FAIL)] == [i] + [Op(FAIL)];
    assert AllValid([i, Op(FAIL)], MAX_PROXIES, false);
    BytesLoaded(BytesOf(EMPTY_BLOCK, None, [], f), 0, f, [i, Op(FAIL)]);
    EmptyBlockExec(MachineOf(BytesOf(EMPTY_BLOCK, None, [], f)), f, i, blocks);
    EmptyBlockMeans(at);
  }
}
