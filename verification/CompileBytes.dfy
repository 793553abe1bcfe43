/** From instructions to bytes: every compiled instruction fits its fields, so the encoded code is read
    back as it was compiled, and running the bytes of a statement is running the statement. */
module CompileBytes {
  import opened Sequences
  import opened HashTable
  import opened Bytecode
  import opened Ir
  import opened Compile
  import opened CompileCorrect

  /** Every proxy number in the instruction is below `n`. */
  predicate Targets(i: Instr, n: nat) {
    match i
    case PushGoto(t) => t < n
    case Goto(t) => t < n
    case Fork(ts) => AllBelow(ts, n)
    case HashBranch(_, _, s, _, _) => s == NO_SCANNER || s < n
    case _ => true
  }

  /** Every operand fits its field, proxy numbers are below `n`, and `free` code has no fork. */
  predicate AllValid(code: seq<Instr>, n: nat, free: bool) {
    forall i :: 0 <= i < |code| ==> Valid(code[i]) && Targets(code[i], n) && (free ==> !code[i].Fork?)
  }

  /** Every fork is followed by its closing PASS. */
  predicate ForksClosed(code: seq<Instr>) {
    forall i :: 0 <= i < |code| && code[i].Fork? ==> i + 1 < |code| && code[i + 1] == Op(PASS)
  }

  predicate WellMade(code: seq<Instr>, n: nat, free: bool) {
    AllValid(code, n, free) && ForksClosed(code)
  }

  lemma {:induction false} MadeConcat(a: seq<Instr>, b: seq<Instr>, n: nat, free: bool)
    requires WellMade(a, n, free) && WellMade(b, n, free)
    ensures WellMade(a + b, n, free)
  {
    ValidConcat(a, b, n, free);
    forall i | 0 <= i < |a + b| && (a + b)[i].Fork?
      ensures i + 1 < |a + b| && (a + b)[i + 1] == Op(PASS)
    {
      if i < |a| {
        assert a[i].Fork?;
      } else {
        assert b[i - |a|].Fork?;
      }
    }
  }

  lemma {:induction false} ValidConcat(a: seq<Instr>, b: seq<Instr>, n: nat, free: bool)
    requires AllValid(a, n, free) && AllValid(b, n, free)
    ensures AllValid(a + b, n, free)
  {
  }

  lemma {:induction false} ValidBelow(code: seq<Instr>, n: nat, n': nat, free: bool)
    requires AllValid(code, n, free) && n <= n'
    ensures AllValid(code, n', free)
  {
  }

  lemma {:induction false} ValidRetarget(f: nat -> Address, i: Instr)
    requires Valid(i)
    ensures Valid(Retarget(f, i))
  {
  }

  lemma {:induction false} InstructionRead(bc: Bytes, pc: nat, f: nat -> Address, i: Instr)
    requires Valid(i) && HasAt(bc, pc, Encode(Retarget(f, i)))
    ensures Decode(bc, pc) == Read(Retarget(f, i)) && pc < |bc| && |Encode(Retarget(f, i))| == Len(i)
  {
    ValidRetarget(f, i);
    EncodedLen(Retarget(f, i));
    DecodeEncode(bc, pc, Retarget(f, i));
  }

  lemma {:induction false} LinkedBefore(f: nat -> Address, code: seq<Instr>) returns (before: Bytes)
    requires code != []
    ensures before == EncodeAll(RetargetAll(f, Init(code)))
    ensures EncodeAll(RetargetAll(f, code)) == before + Encode(Retarget(f, Last(code)))
  {
    var linked := RetargetAll(f, code);
    assert Init(linked) == RetargetAll(f, Init(code)) && Last(linked) == Retarget(f, Last(code));
    before := EncodeAll(RetargetAll(f, Init(code)));
  }

  /** Encoded code that lies in the bytes is read back from there. */
  lemma {:induction false} BytesLoaded(bc: Bytes, pc: nat, f: nat -> Address, code: seq<Instr>)
    requires AllValid(code, MAX_PROXIES, false) && HasAt(bc, pc, EncodeAll(RetargetAll(f, code)))
    ensures Loaded(MachineOf(bc), pc, f, code) && |EncodeAll(RetargetAll(f, code))| == Size(code)
  {
    if code != [] {
      var before := LinkedBefore(f, code);
      HasParts(bc, pc, before, Encode(Retarget(f, Last(code))));
      BytesLoaded(bc, pc, f, Init(code));
      var at := pc + |before|;
      InstructionRead(bc, at, f, Last(code));
      LoadedSnoc(MachineOf(bc), pc, f, code, at);
    }
  }

  // ----- every compiled instruction fits its fields -----

  lemma {:induction false} EffectsValid(effects: seq<Effect>)
    requires EffectsFit(effects)
    ensures WellMade(EffectCode(effects), 0, true)
  {
    if effects != [] {
      EffectsValid(Init(effects));
      assert EffectFits(Last(effects));
    }
  }

  lemma {:induction false} PopsValid(n: nat)
    ensures WellMade(PopCode(n), 0, true)
  {
    if n > 0 {
      PopsValid(n - 1);
    }
  }

  lemma {:induction false} PushesValid(px: Proxies, names: seq<Name>)
    requires |px| <= MAX_PROXIES && AllIn(names, px)
    ensures WellMade(PushCode(px, names), |px|, true)
  {
    if names != [] {
      PushesValid(px, Init(names));
    }
  }

  lemma {:induction false} ProxiesBelow(px: Proxies, names: seq<Name>)
    requires AllIn(names, px)
    ensures AllBelow(ProxiesOf(px, names), |px|)
  {
    if names != [] {
      ProxiesBelow(px, Init(names));
    }
  }

  lemma {:induction false} HeadValid(s: Statement)
    requires EffectsFit(s.effects)
    ensures WellMade(HeadCode(s), 0, true)
  {
    EffectsValid(s.effects);
    PopsValid(Pops(s.pop));
  }

  lemma {:induction false} CloseValid(code: seq<Instr>, last: Option<nat>, n: nat, free: bool)
    requires WellMade(code, n, free)
    ensures WellMade(Close(code, last), n, free)
  {
  }

  lemma {:induction false} GotosValid(pushes: seq<Name>, goto: Option<Name>, fork: Option<seq<Name>>, px: Proxies)
    requires GotosCode(pushes, goto, fork, px).ok && |GotosCode(pushes, goto, fork, px).px| <= MAX_PROXIES
    ensures AllValid(GotosCode(pushes, goto, fork, px).code, |GotosCode(pushes, goto, fork, px).px|, fork.None?)
    ensures fork.None? ==> ForksClosed(GotosCode(pushes, goto, fork, px).code)
  {
    GotosGrow(pushes, goto, fork, px);
    var px' := GotosCode(pushes, goto, fork, px).px;
    PushesValid(px', pushes);
    if fork.Some? {
      ProxiesBelow(px', fork.value);
      ProxiesCount(px', fork.value);
    }
  }

  /** A fork ends with the high byte of a proxy number, which asks for a PASS. */
  lemma {:induction false} ForkMade(s: Statement, last: Option<nat>, px: Proxies)
    requires EffectsFit(s.effects) && s.branch.Some? && s.branch.value.Gotos? && s.branch.value.fork.Some?
    requires Emit(s, last, px).ok && |Emit(s, last, px).px| <= MAX_PROXIES
    ensures WellMade(Emit(s, last, px).code, |Emit(s, last, px).px|, false)
  {
    var first := ForkCode(s, last, px);
    UpToTheFork(s, px);
    PassBehind(first, |Emit(s, last, px).px|);
  }

  lemma {:induction false} UpToTheFork(s: Statement, px: Proxies)
    requires EffectsFit(s.effects) && s.branch.Some? && s.branch.value.Gotos? && s.branch.value.fork.Some?
    requires var b := s.branch.value;
             GotosCode(b.pushes, b.goto, b.fork, px).ok && |GotosCode(b.pushes, b.goto, b.fork, px).px| <= MAX_PROXIES
    ensures var gotos := GotosCode(s.branch.value.pushes, s.branch.value.goto, s.branch.value.fork, px);
            var first := HeadCode(s) + gotos.code;
            && AllValid(first, |gotos.px|, false)
            && forall i :: 0 <= i < |first| && first[i].Fork? ==> i == |first| - 1
  {
    var b := s.branch.value;
    var gotos := GotosCode(b.pushes, b.goto, b.fork, px);
    HeadValid(s);
    GotosValid(b.pushes, b.goto, b.fork, px);
    OnlyLastForks(s, px);
    ValidBelow(HeadCode(s), 0, |gotos.px|, false);
    ValidConcat(HeadCode(s), gotos.code, |gotos.px|, false);
  }

  /** Behind code of which only the last operation can be a fork, a PASS closes it. */
  lemma {:induction false} PassBehind(first: seq<Instr>, n: nat)
    requires AllValid(first, n, false) && forall i :: 0 <= i < |first| && first[i].Fork? ==> i == |first| - 1
    ensures WellMade(first + [Op(PASS)], n, false)
  {
  }

  /** The code of a statement that forks: the fork is its last operation but the closing PASS. */
  lemma {:induction false} ForkCode(s: Statement, last: Option<nat>, px: Proxies) returns (first: seq<Instr>)
    requires s.branch.Some? && s.branch.value.Gotos? && s.branch.value.fork.Some?
    requires Emit(s, last, px).ok && |Emit(s, last, px).px| <= MAX_PROXIES
    ensures var b := s.branch.value;
            && first == HeadCode(s) + GotosCode(b.pushes, b.goto, b.fork, px).code
            && Emit(s, last, px).px == GotosCode(b.pushes, b.goto, b.fork, px).px
            && GotosCode(b.pushes, b.goto, b.fork, px).ok
            && Emit(s, last, px).code == first + [Op(PASS)]
  {
    var b := s.branch.value;
    var body := GotosCode(b.pushes, b.goto, b.fork, px);
    assert EmitBranch(b, LastByte(last, HeadCode(s)), px) == body;
    var ts := ProxiesOf(body.px, b.fork.value);
    first := HeadCode(s) + body.code;
    GotosGrow(b.pushes, b.goto, b.fork, px);
    ProxiesBelow(body.px, b.fork.value);
    ForkLastByte(ts);
    assert Last(first) == Fork(ts);
    SplitLast(first);
    LastByteOf(last, Init(first), Fork(ts));
  }

  lemma {:induction false} OnlyLastForks(s: Statement, px: Proxies)
    requires EffectsFit(s.effects) && s.branch.Some? && s.branch.value.Gotos? && s.branch.value.fork.Some?
    ensures var code := HeadCode(s) + GotosCode(s.branch.value.pushes, s.branch.value.goto, s.branch.value.fork, px).code;
            forall i :: 0 <= i < |code| && code[i].Fork? ==> i == |code| - 1
  {
    var b := s.branch.value;
    var px' := GotosCode(b.pushes, b.goto, b.fork, px).px;
    HeadValid(s);
    NoForkPushed(px', b.pushes);
  }

  lemma {:induction false} NoForkPushed(px: Proxies, names: seq<Name>)
    ensures forall i :: 0 <= i < |PushCode(px, names)| ==> PushCode(px, names)[i].PushGoto?
  {
    if names != [] {
      NoForkPushed(px, Init(names));
    }
  }

  lemma {:induction false} ForkLastByte(ts: seq<nat>)
    requires AllBelow(ts, MAX_PROXIES)
    ensures Last(Encode(Fork(ts))) == 0
  {
    BytesOfU16(0);
    if ts != [] {
      BytesOfU32(Last(ts));
    }
  }

  lemma {:induction false} LogBelow(n: nat)
    requires n >= 1
    ensures FloorLog2(n) < n
  {
    if n > 1 {
      LogBelow(n / 2);
    }
  }

  lemma {:induction false} CellsBelow(pairs: seq<Pair>)
    requires Tabled(pairs)
    ensures |Cells(pairs)| == |pairs| && AllBelow(Cells(pairs), WORD32)
  {
    TableCellsFit(pairs);
    var t := Table(pairs);
    forall s | 0 <= s < |t|
      ensures Words(t)[s] < WORD32
    {
      if t[s].Used? {
        WordFields(t[s]);
      }
    }
  }

  lemma {:induction false} TableValid(kind: nat, scanner: nat, blocks: Blocks)
    requires TableFits(blocks) && IsInputKind(kind) && scanner < WORD32
    ensures Valid(TableInstr(kind, scanner, blocks))
  {
    CellsBelow(Entries(blocks));
    LogBelow(|blocks.pairs|);
  }

  lemma {:induction false} EmitValid(s: Statement, last: Option<nat>, px: Proxies, free: bool)
    requires FieldsFit(s) && Emit(s, last, px).ok && |Emit(s, last, px).px| <= MAX_PROXIES && (free ==> ForkFree(s))
    ensures WellMade(Emit(s, last, px).code, |Emit(s, last, px).px|, free)
    decreases s
  {
    var head := HeadCode(s);
    HeadValid(s);
    if s.branch.Some? {
      var body := EmitBranch(s.branch.value, LastByte(last, head), px);
      ValidBelow(head, 0, |body.px|, free);
      if s.branch.value.Gotos? && s.branch.value.fork.Some? {
        ForkMade(s, last, px);
      } else {
        BranchValid(s.branch.value, LastByte(last, head), px, free);
        MadeConcat(head, body.code, |body.px|, free);
        CloseValid(head + body.code, last, |body.px|, free);
      }
    } else {
      ValidBelow(head, 0, |px|, free);
      CloseValid(head, last, |px|, free);
    }
  }

  lemma {:induction false} BranchValid(b: Branch, last: Option<nat>, px: Proxies, free: bool)
    requires b.Matches? ==> MatchFits(b.mode, b.arms) && FitInts(b.arms) && FitDefault(b.arms) && (free ==> ForkFreeArms(b.arms))
    requires b.Gotos? ==> b.fork.None?
    requires EmitBranch(b, last, px).ok && |EmitBranch(b, last, px).px| <= MAX_PROXIES
    ensures WellMade(EmitBranch(b, last, px).code, |EmitBranch(b, last, px).px|, free)
    decreases b
  {
    match b
    case Gotos(pushes, goto, fork) => GotosValid(pushes, goto, fork, px);
    case Matches(mode, arms) =>
      var px0 := if mode.TokenOf? then Enter(px, mode.scanner) else px;
      if FirstInts(arms) == |arms| {
        OnlyDefaultValid(arms, px0, free);
      } else if mode == Plain(ByteSequenceInput) {
        SequenceValid(arms, px0, free);
      } else {
        EnteredScanner(mode, px);
        TableCodeValid(mode, arms, px0, free);
      }
    case _ =>
  }

  lemma {:induction false} ArmValid(a: Arm, last: Option<nat>, px: Proxies, free: bool)
    requires !a.HintArm? && FitArm(a) && (free ==> ForkFreeArm(a))
    requires EmitArm(a, last, px).ok && |EmitArm(a, last, px).px| <= MAX_PROXIES
    ensures WellMade(EmitArm(a, last, px).code, |EmitArm(a, last, px).px|, free)
    decreases a
  {
    EmitValid(a.stmt, last, px, free);
  }

  lemma {:induction false} DefaultValid(arms: seq<Arm>, last: Option<nat>, px: Proxies, otherwise: seq<Instr>,
                                        free: bool)
    requires FitDefault(arms) && (free ==> ForkFreeArms(arms)) && WellMade(otherwise, 0, true)
    requires EmitDefault(arms, last, px, otherwise).ok && |EmitDefault(arms, last, px, otherwise).px| <= MAX_PROXIES
    ensures WellMade(EmitDefault(arms, last, px, otherwise).code, |EmitDefault(arms, last, px, otherwise).px|, free)
    decreases arms, 0
  {
    if FirstDefault(arms) < |arms| {
      ArmValid(arms[FirstDefault(arms)], last, px, free);
    }
  }

  lemma {:induction false} OnlyDefaultValid(arms: seq<Arm>, px: Proxies, free: bool)
    requires FitDefault(arms) && (free ==> ForkFreeArms(arms))
    requires EmitOnlyDefault(arms, px).ok && |EmitOnlyDefault(arms, px).px| <= MAX_PROXIES
    ensures WellMade(EmitOnlyDefault(arms, px).code, |EmitOnlyDefault(arms, px).px|, free)
    decreases arms, 1
  {
    var e := EmitDefault(arms, Some(READ_CODEPOINT), px, []);
    DefaultValid(arms, Some(READ_CODEPOINT), px, [], free);
    MadeConcat([Op(READ_CODEPOINT)], e.code, |e.px|, free);
  }

  lemma {:induction false} BlocksValid(arms: seq<Arm>, px: Proxies, free: bool)
    requires FitInts(arms) && (free ==> ForkFreeArms(arms))
    requires EmitBlocks(arms, px).ok && |EmitBlocks(arms, px).px| <= MAX_PROXIES
    ensures WellMade(EmitBlocks(arms, px).code, |EmitBlocks(arms, px).px|, free)
    decreases arms, 0
  {
    if arms != [] {
      var later := EmitBlocks(arms[1..], px);
      if arms[0].IntArm? {
        var e := EmitArm(arms[0], None, later.px);
        ArmGrows(arms[0], None, later.px);
        ArmValid(arms[0], None, later.px, free);
        BlocksValid(arms[1..], px, free);
        ValidBelow(later.code, |later.px|, |e.px|, free);
        MadeConcat(later.code, e.code, |e.px|, free);
      } else {
        BlocksValid(arms[1..], px, free);
      }
    }
  }

  lemma {:induction false} SequenceValid(arms: seq<Arm>, px: Proxies, free: bool)
    requires FitInts(arms) && FitDefault(arms) && (free ==> ForkFreeArms(arms))
    requires FirstInts(arms) < |arms| && AllBelow(arms[FirstInts(arms)].vals, BYTE)
    requires EmitSequence(arms, px).ok && |EmitSequence(arms, px).px| <= MAX_PROXIES
    ensures WellMade(EmitSequence(arms, px).code, |EmitSequence(arms, px).px|, free)
    decreases arms, 1
  {
    var k := FirstInts(arms);
    var block, d, i := SequenceParts(arms, px);
    ArmGrows(arms[k], None, px);
    DefaultGrows(arms, None, block.px, []);
    ArmValid(arms[k], None, px, free);
    DefaultValid(arms, None, block.px, [], free);
    SequenceFits(arms, px, i);
    ThreeValid(i, block.code, |block.px|, d.code, |d.px|, free);
  }

  lemma {:induction false} SequenceFits(arms: seq<Arm>, px: Proxies, i: Instr)
    requires FirstInts(arms) < |arms| && AllBelow(arms[FirstInts(arms)].vals, BYTE) && EmitSequence(arms, px).ok
    requires var vals, block := arms[FirstInts(arms)].vals, EmitArm(arms[FirstInts(arms)], None, px);
             i == ByteSequence(if FirstDefault(arms) < |arms| then 7 + |vals| + Size(block.code) else 0, vals)
    ensures Valid(i)
  {
  }

  lemma {:induction false} ThreeValid(i: Instr, a: seq<Instr>, n: nat, b: seq<Instr>, n': nat, free: bool)
    requires Valid(i) && Targets(i, n') && !i.Fork? && n <= n'
    requires WellMade(a, n, free) && WellMade(b, n', free)
    ensures WellMade([i] + a + b, n', free)
  {
    ValidBelow(a, n, n', free);
    MadeConcat([i], a, n', free);
    MadeConcat([i] + a, b, n', free);
  }

  lemma {:induction false} TableCodeValid(mode: Mode, arms: seq<Arm>, px: Proxies, free: bool)
    requires FitInts(arms) && FitDefault(arms) && (free ==> ForkFreeArms(arms))
    requires mode.TokenOf? ==> mode.scanner in px
    requires EmitTable(mode, arms, px).ok && |EmitTable(mode, arms, px).px| <= MAX_PROXIES
    ensures WellMade(EmitTable(mode, arms, px).code, |EmitTable(mode, arms, px).px|, free)
    decreases arms, 1
  {
    TableGrows(mode, arms, px);
    var i, blocks, d := TableParts(mode, arms, px);
    BlocksValid(arms, px, free);
    DefaultValid(arms, LastByte(None, [i] + blocks.code), blocks.px, [Op(FAIL)], free);
    TableValid(KindOf(mode), if mode.TokenOf? then ProxyOf(px, mode.scanner) else NO_SCANNER, blocks);
    ThreeValid(i, blocks.code, |blocks.px|, d.code, |d.px|, free);
  }

  // ----- the theorem on bytes -----

  /** The linked bytes of a statement. */
  ghost function BytesOf(s: Statement, last: Option<nat>, px: Proxies, f: nat -> Address): Bytes {
    EncodeAll(RetargetAll(f, Emit(s, last, px).code))
  }

  /** What the compiler is asked to accept: a statement whose operands, tables, byte sequences and proxies
      keep their bounds. */
  ghost predicate InBounds(s: Statement, last: Option<nat>, px: Proxies) {
    FieldsFit(s) && Emit(s, last, px).ok && |Emit(s, last, px).px| <= MAX_PROXIES
  }

  /** It is closed as well, with all blocks in it. */
  ghost predicate Compilable(s: Statement, last: Option<nat>, px: Proxies) {
    InBounds(s, last, px) && Sound(s, IsOpen(last))
  }

  /** Wherever its linked bytes lie, running them is running the statement. */
  lemma {:induction false} CompiledMeans(s: Statement, last: Option<nat>, px: Proxies, f: nat -> Address, at: Name -> nat,
                      bc: Bytes, pc: nat, input: seq<Reading>)
    requires Compilable(s, last, px) && Agrees(Emit(s, last, px).px, f, at)
    requires HasAt(bc, pc, BytesOf(s, last, px, f))
    ensures Exec(MachineOf(bc), pc, input) == Run(s, at, input)
  {
    EmitValid(s, last, px, false);
    ValidBelow(Emit(s, last, px).code, |Emit(s, last, px).px|, MAX_PROXIES, false);
    BytesLoaded(bc, pc, f, Emit(s, last, px).code);
    EmitRuns(s, last, px, f, at, MachineOf(bc), pc, input);
  }


  function ProxyAddress(px: Proxies, f: nat -> Address): Name -> nat {
    (n: Name) => f(ProxyOf(px, n))
  }

  lemma {:induction false} ProxyAddressAgrees(px: Proxies, f: nat -> Address)
    requires Distinct(px)
    ensures Agrees(px, f, ProxyAddress(px, f))
  {
    forall i | 0 <= i < |px|
      ensures ProxyOf(px, px[i]) == i
    {
      DistinctProxies(px, i);
    }
  }

  lemma {:induction false} EmittedAgrees(s: Statement, last: Option<nat>, px: Proxies, f: nat -> Address) returns (at: Name -> nat)
    requires Distinct(px)
    ensures Agrees(Emit(s, last, px).px, f, at)
  {
    EmitGrows(s, last, px);
    ProxyAddressAgrees(Emit(s, last, px).px, f);
    at := ProxyAddress(Emit(s, last, px).px, f);
  }

  lemma {:induction false} SameWherever(s: Statement, last: Option<nat>, px: Proxies, f: nat -> Address,
                     m: Machine, pc: nat, m': Machine, pc': nat, input: seq<Reading>)
    requires Compilable(s, last, px) && Distinct(px)
    requires Loaded(m, pc, f, Emit(s, last, px).code) && Loaded(m', pc', f, Emit(s, last, px).code)
    ensures Exec(m, pc, input) == Exec(m', pc', input) && Exec(m, pc, input).end != Astray
  {
    var at := EmittedAgrees(s, last, px, f);
    EmitRuns(s, last, px, f, at, m, pc, input);
    EmitRuns(s, last, px, f, at, m', pc', input);
    RunStays(s, at, input);
  }

  /** No block falls through: what a statement's bytes do depends neither on their address nor on the
      bytes around them, and it never strays from them. */
  lemma {:induction false} NoFallThrough(s: Statement, last: Option<nat>, px: Proxies, f: nat -> Address,
                      bc: Bytes, pc: nat, bc': Bytes, pc': nat, input: seq<Reading>)
    requires Compilable(s, last, px) && Distinct(px)
    requires HasAt(bc, pc, BytesOf(s, last, px, f)) && HasAt(bc', pc', BytesOf(s, last, px, f))
    ensures Exec(MachineOf(bc), pc, input) == Exec(MachineOf(bc'), pc', input)
    ensures Exec(MachineOf(bc), pc, input).end != Astray
  {
    EmitValid(s, last, px, false);
    ValidBelow(Emit(s, last, px).code, |Emit(s, last, px).px|, MAX_PROXIES, false);
    BytesLoaded(bc, pc, f, Emit(s, last, px).code);
    BytesLoaded(bc', pc', f, Emit(s, last, px).code);
    SameWherever(s, last, px, f, MachineOf(bc), pc, MachineOf(bc'), pc', input);
  }
}
