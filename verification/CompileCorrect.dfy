/** Compiling a statement preserves its meaning: wherever its bytes are loaded, and whatever lies around
    them, running them is running the statement (crates/radlr-bytecode/build_bytecode.rs:254-588). */
module CompileCorrect {
  import opened Sequences
  import opened HashTable
  import opened Bytecode
  import opened Ir
  import opened Compile

  /** A linker gives every proxy number an address. */
  type Address = x: nat | x < WORD32

  function RetargetNames(f: nat -> Address, ts: seq<nat>): (r: seq<nat>)
    ensures |r| == |ts| && AllBelow(r, WORD32)
  {
    if ts == [] then [] else RetargetNames(f, Init(ts)) + [f(Last(ts))]
  }

  function Retarget(f: nat -> Address, i: Instr): (r: Instr)
    ensures Len(r) == Len(i)
  {
    match i
    case PushGoto(t) => PushGoto(f(t))
    case Goto(t) => Goto(f(t))
    case Fork(ts) => Fork(RetargetNames(f, ts))
    case HashBranch(k, d, s, m, cs) => if s == NO_SCANNER then i else HashBranch(k, d, f(s), m, cs)
    case _ => i
  }

  function RetargetAll(f: nat -> Address, code: seq<Instr>): (r: seq<Instr>)
    ensures |r| == |code|
  {
    if code == [] then [] else RetargetAll(f, Init(code)) + [Retarget(f, Last(code))]
  }

  lemma {:induction false} RetargetConcat(f: nat -> Address, a: seq<Instr>, b: seq<Instr>)
    ensures RetargetAll(f, a + b) == RetargetAll(f, a) + RetargetAll(f, b)
  {
    if b == [] {
      assert a + b == a;
    } else {
      assert Init(a + b) == a + Init(b) && Last(a + b) == Last(b);
      RetargetConcat(f, a, Init(b));
    }
  }

  lemma {:induction false} RetargetSize(f: nat -> Address, code: seq<Instr>)
    ensures Size(RetargetAll(f, code)) == Size(code)
  {
    if code != [] {
      RetargetSize(f, Init(code));
      var r := RetargetAll(f, code);
      assert Init(r) == RetargetAll(f, Init(code));
    }
  }

  /** The number of instructions of the linked code that are not found in their places. */
  ghost function Misplaced(m: Machine, pc: nat, f: nat -> Address, code: seq<Instr>): nat {
    if code == [] then 0
    else
      var at := pc + Size(Init(code));
      Misplaced(m, pc, f, Init(code)) +
      if at < m.limit && m.decode(at) == Read(Retarget(f, Last(code))) then 0 else 1
  }

  /** The linked code lies at an address. */
  ghost predicate Loaded(m: Machine, pc: nat, f: nat -> Address, code: seq<Instr>) {
    Misplaced(m, pc, f, code) == 0
  }

  lemma {:induction false} MisplacedParts(m: Machine, pc: nat, mid: nat, f: nat -> Address,
                                          a: seq<Instr>, b: seq<Instr>)
    requires mid == pc + Size(a)
    ensures Misplaced(m, pc, f, a + b) == Misplaced(m, pc, f, a) + Misplaced(m, mid, f, b)
    ensures pc + Size(a + b) == mid + Size(b)
  {
    if b == [] {
      assert a + b == a;
    } else {
      assert Init(a + b) == a + Init(b) && Last(a + b) == Last(b);
      MisplacedParts(m, pc, mid, f, a, Init(b));
    }
  }

  lemma {:induction false} LoadedParts(m: Machine, pc: nat, f: nat -> Address, a: seq<Instr>, b: seq<Instr>) returns (mid: nat)
    requires Loaded(m, pc, f, a + b)
    ensures mid == pc + Size(a) && pc + Size(a + b) == mid + Size(b)
    ensures Loaded(m, pc, f, a) && Loaded(m, mid, f, b)
  {
    mid := pc + Size(a);
    MisplacedParts(m, pc, mid, f, a, b);
  }

  lemma {:induction false} LoadedSnoc(m: Machine, pc: nat, f: nat -> Address, code: seq<Instr>, at: nat)
    requires code != [] && Loaded(m, pc, f, Init(code)) && at == pc + Size(Init(code))
    requires at < m.limit && m.decode(at) == Read(Retarget(f, Last(code)))
    ensures Loaded(m, pc, f, code)
  {
  }

  lemma {:induction false} LoadedOne(m: Machine, pc: nat, f: nat -> Address, i: Instr)
    ensures Loaded(m, pc, f, [i]) <==> pc < m.limit && m.decode(pc) == Read(Retarget(f, i))
    ensures Size([i]) == Len(i)
  {
    assert Init([i]) == [];
    assert Misplaced(m, pc, f, []) == 0;
  }

  // ----- straight-line code -----

  predicate IsStraight(i: Instr) {
    match i
    case Op(code) => ActOf(code).Doing?
    case Reduce(n, r, l) => n < WORD32 && r < WORD32 && l < WORD16
    case AssignToken(id) => id < WORD32
    case PushGoto(_) => true
    case _ => false
  }

  function EventOf(f: nat -> Address, i: Instr): Event
    requires IsStraight(i)
  {
    match i
    case Op(code) => ActOf(code).event
    case Reduce(n, r, l) => Reduced(n, r, l)
    case AssignToken(id) => Assigned(id)
    case PushGoto(t) => Pushed(f(t))
  }

  predicate AllStraight(code: seq<Instr>) {
    forall i :: 0 <= i < |code| ==> IsStraight(code[i])
  }

  function EventsOf(f: nat -> Address, code: seq<Instr>): seq<Event>
    requires AllStraight(code)
  {
    if code == [] then [] else EventsOf(f, Init(code)) + [EventOf(f, Last(code))]
  }

  lemma {:induction false} EventsConcat(f: nat -> Address, a: seq<Instr>, b: seq<Instr>)
    requires AllStraight(a) && AllStraight(b)
    ensures AllStraight(a + b) && EventsOf(f, a + b) == EventsOf(f, a) + EventsOf(f, b)
  {
    if b == [] {
      assert a + b == a;
    } else {
      assert Init(a + b) == a + Init(b) && Last(a + b) == Last(b);
      EventsConcat(f, a, Init(b));
      assert IsStraight(Last(b));
      forall i | 0 <= i < |a + b|
        ensures IsStraight((a + b)[i])
      {
        if i < |a| {
          assert (a + b)[i] == a[i];
        } else {
          assert (a + b)[i] == b[i - |a|];
        }
      }
    }
  }

  lemma {:induction false} EventsSnoc(f: nat -> Address, a: seq<Instr>, i: Instr)
    requires AllStraight(a) && IsStraight(i)
    ensures AllStraight(a + [i]) && EventsOf(f, a + [i]) == EventsOf(f, a) + [EventOf(f, i)]
  {
    assert Init(a + [i]) == a && Last(a + [i]) == i;
  }

  lemma {:induction false} RunOne(m: Machine, pc: nat, f: nat -> Address, i: Instr, next: nat, input: seq<Reading>)
    requires IsStraight(i) && Loaded(m, pc, f, [i]) && next == pc + Len(i)
    ensures Exec(m, pc, input) == After(EventOf(f, i), Exec(m, next, input))
  {
    LoadedOne(m, pc, f, i);
  }

  lemma {:induction false} PrependOne(es: seq<Event>, e: Event, t: Trace)
    ensures Prepend(es, After(e, t)) == Prepend(es + [e], t)
  {
  }

  /** Straight-line code performs its operations in order and goes on behind itself. */
  lemma {:induction false} RunStraight(m: Machine, pc: nat, f: nat -> Address, code: seq<Instr>, end: nat,
                                       input: seq<Reading>)
    requires AllStraight(code) && Loaded(m, pc, f, code) && end == pc + Size(code)
    ensures Exec(m, pc, input) == Prepend(EventsOf(f, code), Exec(m, end, input))
  {
    if code != [] {
      var init, i := Init(code), Last(code);
      SplitLast(code);
      var mid := LoadedParts(m, pc, f, init, [i]);
      RunStraight(m, pc, f, init, mid, input);
      RunOne(m, mid, f, i, end, input);
      PrependOne(EventsOf(f, init), EventOf(f, i), Exec(m, end, input));
    }
  }

  // ----- the head of a statement -----

  lemma {:induction false} EffectsRun(f: nat -> Address, effects: seq<Effect>)
    requires EffectsFit(effects)
    ensures AllStraight(EffectCode(effects)) && EventsOf(f, EffectCode(effects)) == EffectEvents(effects)
  {
    if effects != [] {
      var init, e := Init(effects), Last(effects);
      EffectsRun(f, init);
      assert EffectFits(e);
      if e.ReduceRaw? {
        EventsSnoc(f, EffectCode(init), Reduce(e.nonterm, e.rule, e.length));
      } else if e.SetTokenId? {
        EventsSnoc(f, EffectCode(init), AssignToken(e.id));
      } else {
        assert EffectCode(effects) == EffectCode(init) && EffectEvents(effects) == EffectEvents(init);
      }
    }
  }

  lemma {:induction false} PopRuns(f: nat -> Address)
    ensures IsStraight(Op(POP_GOTO)) && EventOf(f, Op(POP_GOTO)) == Popped
  {
  }

  lemma {:induction false} SomePopsRun(f: nat -> Address, n: nat)
    requires n > 0
    ensures AllStraight(PopCode(n)) && EventsOf(f, PopCode(n)) == PopEvents(Some(n))
  {
    PopRuns(f);
    if n == 1 {
      assert PopCode(0) == [];
    } else {
      SomePopsRun(f, n - 1);
    }
    EventsSnoc(f, PopCode(n - 1), Op(POP_GOTO));
  }

  lemma {:induction false} PopsRun(f: nat -> Address, pop: Option<nat>)
    ensures AllStraight(PopCode(Pops(pop))) && EventsOf(f, PopCode(Pops(pop))) == PopEvents(pop)
  {
    if pop.Some? {
      SomePopsRun(f, Pops(pop));
    }
  }

  /** The opcode of a move makes the parser do that move. */
  lemma {:induction false} OpActs(m: Move)
    ensures ActOf(OpOf(m)) == if m == SkipToken || m == PeekSkipToken then Ending(Skipped(m)) else Doing(Moved(m))
  {
  }

  /** The kinds that a parser reads are those that the builder writes. */
  lemma {:induction false} KindsWritten(kind: nat)
    ensures IsInputKind(kind) <==> exists input :: KindNumber(input) == kind
  {
    if IsInputKind(kind) {
      assert KindNumber(KindRead(kind)) == kind;
    }
  }

  /** The number of a kind of input makes the parser read that kind. */
  lemma {:induction false} KindIsRead(m: Mode, at: Name -> nat)
    ensures IsInputKind(KindOf(m)) && ProbeRead(KindOf(m), if m.TokenOf? then at(m.scanner) else NO_SCANNER) == Probe(m, at)
  {
  }

  /** Every name has the address that the linker gives to its proxy number. */
  ghost predicate Agrees(px: Proxies, f: nat -> Address, at: Name -> nat) {
    forall i :: 0 <= i < |px| ==> at(px[i]) == f(i)
  }

  predicate AllIn(names: seq<Name>, px: Proxies) {
    forall i :: 0 <= i < |names| ==> names[i] in px
  }

  lemma {:induction false} PushesRun(px: Proxies, f: nat -> Address, at: Name -> nat, names: seq<Name>)
    requires Agrees(px, f, at) && AllIn(names, px)
    ensures AllStraight(PushCode(px, names)) && EventsOf(f, PushCode(px, names)) == PushEvents(names, at)
  {
    if names != [] {
      PushesRun(px, f, at, Init(names));
      EventsSnoc(f, PushCode(px, Init(names)), PushGoto(ProxyOf(px, Last(names))));
    }
  }

  lemma {:induction false} ForkTargets(px: Proxies, f: nat -> Address, at: Name -> nat, names: seq<Name>)
    requires Agrees(px, f, at) && AllIn(names, px)
    ensures RetargetNames(f, ProxiesOf(px, names)) == Addresses(names, at)
  {
    if names != [] {
      ForkTargets(px, f, at, Init(names));
    }
  }

  lemma {:induction false} HeadRuns(f: nat -> Address, s: Statement)
    requires EffectsFit(s.effects) && !Skips(s)
    ensures AllStraight(HeadCode(s)) && EventsOf(f, HeadCode(s)) == Straight(s)
  {
    EffectsRun(f, s.effects);
    PopsRun(f, s.pop);
    if s.move.Some? {
      OpActs(s.move.value);
      assert Init(MoveCode(s.move)) == [];
    }
    EventsConcat(f, MoveCode(s.move), EffectCode(s.effects));
    EventsConcat(f, MoveCode(s.move) + EffectCode(s.effects), PopCode(Pops(s.pop)));
  }

  // ----- proxies -----

  /** No name has two numbers. */
  ghost predicate Distinct(px: Proxies) {
    px == [] || (Distinct(Init(px)) && Last(px) !in Init(px))
  }

  lemma {:induction false} DistinctProxies(px: Proxies, i: nat)
    requires Distinct(px) && i < |px|
    ensures ProxyOf(px, px[i]) == i
  {
    var p := ProxyOf(px, px[i]);
    if p != i {
      DifferentNames(px, if p < i then p else i, if p < i then i else p);
    }
  }

  lemma {:induction false} DifferentNames(px: Proxies, i: nat, j: nat)
    requires Distinct(px) && i < j < |px|
    ensures px[i] != px[j]
  {
    if j < |px| - 1 {
      DifferentNames(Init(px), i, j);
    } else {
      assert Init(px)[i] == px[i];
    }
  }

  /** Names keep their numbers, and new names get new numbers. */
  ghost predicate Grown(px: Proxies, px': Proxies) {
    px <= px' && (Distinct(px) ==> Distinct(px'))
  }

  lemma {:induction false} EnterGrows(px: Proxies, name: Name)
    ensures Grown(px, Enter(px, name)) && name in Enter(px, name)
  {
    if name !in px {
      assert Last(px + [name]) == name && Init(px + [name]) == px;
    }
  }

  lemma {:induction false} EnterAllGrows(px: Proxies, names: seq<Name>)
    ensures Grown(px, EnterAll(px, names)) && AllIn(names, EnterAll(px, names))
  {
    if names != [] {
      var init, last := Init(names), Last(names);
      EnterAllGrows(px, init);
      var px1 := EnterAll(px, init);
      EnterGrows(px1, last);
      AllInLonger(init, px1, Enter(px1, last));
      forall i | 0 <= i < |names|
        ensures names[i] in Enter(px1, last)
      {
        assert i < |init| ==> names[i] == init[i];
      }
    }
  }

  lemma {:induction false} AllInLonger(names: seq<Name>, px: Proxies, px': Proxies)
    requires AllIn(names, px) && px <= px'
    ensures AllIn(names, px')
  {
    forall i | 0 <= i < |names|
      ensures names[i] in px'
    {
      assert px'[ProxyOf(px, names[i])] == names[i];
    }
  }

  lemma {:induction false} GotosGrow(pushes: seq<Name>, goto: Option<Name>, fork: Option<seq<Name>>, px: Proxies)
    ensures var px' := GotosCode(pushes, goto, fork, px).px;
            && Grown(px, px') && AllIn(pushes, px')
            && (goto.Some? ==> goto.value in px') && (fork.Some? ==> AllIn(fork.value, px'))
  {
    EnterAllGrows(px, pushes);
    var px1 := EnterAll(px, pushes);
    var px2 := EnterOne(px1, goto);
    if goto.Some? {
      EnterGrows(px1, goto.value);
      AllInLonger(pushes, px1, px2);
      assert AllIn([goto.value], px2);
    }
    if fork.Some? {
      EnterAllGrows(px2, fork.value);
      AllInLonger(pushes, px2, EnterAll(px2, fork.value));
      if goto.Some? {
        AllInLonger([goto.value], px2, EnterAll(px2, fork.value));
        assert [goto.value][0] == goto.value;
      }
    }
  }

  lemma {:induction false} EmitGrows(s: Statement, last: Option<nat>, px: Proxies)
    ensures Grown(px, Emit(s, last, px).px)
    decreases s
  {
    if s.branch.Some? {
      BranchGrows(s.branch.value, LastByte(last, HeadCode(s)), px);
    }
  }

  lemma {:induction false} BranchGrows(b: Branch, last: Option<nat>, px: Proxies)
    ensures Grown(px, EmitBranch(b, last, px).px)
    decreases b
  {
    match b
    case Gotos(pushes, goto, fork) => GotosGrow(pushes, goto, fork, px);
    case Matches(mode, arms) => MatchGrows(mode, arms, if mode.TokenOf? then Enter(px, mode.scanner) else px);
    case _ =>
  }

  lemma {:induction false} MatchGrows(mode: Mode, arms: seq<Arm>, px: Proxies)
    ensures Grown(px, EmitMatch(mode, arms, px).px)
    decreases arms, 2
  {
    if FirstInts(arms) == |arms| {
      DefaultGrows(arms, Some(READ_CODEPOINT), px, []);
    } else if mode == Plain(ByteSequenceInput) {
      var k := FirstInts(arms);
      ArmGrows(arms[k], None, px);
      DefaultGrows(arms, None, EmitArm(arms[k], None, px).px, []);
    } else {
      TableGrows(mode, arms, px);
    }
  }

  lemma {:induction false} TableGrows(mode: Mode, arms: seq<Arm>, px: Proxies)
    ensures Grown(px, EmitBlocks(arms, px).px) && Grown(EmitBlocks(arms, px).px, EmitTable(mode, arms, px).px)
    decreases arms, 1
  {
    BlocksGrow(arms, px);
    var blocks := EmitBlocks(arms, px);
    var i := TableInstr(KindOf(mode), if mode.TokenOf? then ProxyOf(px, mode.scanner) else NO_SCANNER, blocks);
    DefaultGrows(arms, LastByte(None, [i] + blocks.code), blocks.px, [Op(FAIL)]);
  }

  lemma {:induction false} DefaultGrows(arms: seq<Arm>, last: Option<nat>, px: Proxies, otherwise: seq<Instr>)
    ensures Grown(px, EmitDefault(arms, last, px, otherwise).px)
    decreases arms, 0
  {
    if FirstDefault(arms) < |arms| {
      ArmGrows(arms[FirstDefault(arms)], last, px);
    }
  }

  lemma {:induction false} ArmGrows(a: Arm, last: Option<nat>, px: Proxies)
    requires !a.HintArm?
    ensures Grown(px, EmitArm(a, last, px).px)
    decreases a
  {
    EmitGrows(a.stmt, last, px);
  }

  lemma {:induction false} BlocksGrow(arms: seq<Arm>, px: Proxies)
    ensures Grown(px, EmitBlocks(arms, px).px)
    decreases arms, 0
  {
    if arms != [] {
      BlocksGrow(arms[1..], px);
      if arms[0].IntArm? {
        ArmGrows(arms[0], None, EmitBlocks(arms[1..], px).px);
      }
    }
  }

  // ----- the end of a block -----

  lemma {:induction false} LastByteConcat(last: Option<nat>, a: seq<Instr>, b: seq<Instr>)
    ensures LastByte(last, a + b) == LastByte(LastByte(last, a), b)
  {
    if b == [] {
      assert a + b == a;
    } else {
      assert a + b != [] && Last(a + b) == Last(b);
    }
  }

  lemma {:induction false} LastByteOf(last: Option<nat>, a: seq<Instr>, i: Instr)
    ensures LastByte(last, a + [i]) == Some(Last(Encode(i)))
  {
  }

  lemma {:induction false} LastOfReduce(n: nat, r: nat, l: nat)
    ensures Last(Encode(Reduce(n, r, l))) == l / BYTE % BYTE
  {
    BytesOfU16(l);
    assert Last(Encode(Reduce(n, r, l))) == Last(U16(l));
  }

  lemma {:induction false} LastOfAssign(id: nat)
    ensures Last(Encode(AssignToken(id))) == id / 0x100_0000 % BYTE
  {
    BytesOfU32(id);
    assert Last(Encode(AssignToken(id))) == Last(U32(id));
  }

  lemma {:induction false} EffectsLastByte(last: Option<nat>, effects: seq<Effect>)
    requires EffectsFit(effects)
    ensures LastByte(last, EffectCode(effects)) == if ClosingByte(effects).Some? then ClosingByte(effects) else last
  {
    if effects != [] {
      var init, e := Init(effects), Last(effects);
      assert EffectFits(e);
      if e.SetLine? {
        EffectsLastByte(last, init);
        assert EffectCode(effects) == EffectCode(init);
      } else {
        EffectLastByte(last, EffectCode(init), e);
      }
    }
  }

  lemma {:induction false} EffectLastByte(last: Option<nat>, code: seq<Instr>, e: Effect)
    requires EffectFits(e) && !e.SetLine?
    ensures var i := if e.ReduceRaw? then Reduce(e.nonterm, e.rule, e.length % WORD16) else AssignToken(e.id);
            LastByte(last, code + [i]) == ClosingByte([e])
  {
    if e.ReduceRaw? {
      LastOfReduce(e.nonterm, e.rule, e.length);
      LastByteOf(last, code, Reduce(e.nonterm, e.rule, e.length));
    } else {
      LastOfAssign(e.id);
      LastByteOf(last, code, AssignToken(e.id));
    }
  }

  lemma {:induction false} HighByteOfProxy(p: nat)
    requires p < MAX_PROXIES
    ensures Last(Encode(PushGoto(p))) == 0
  {
    BytesOfU32(p);
  }

  /** The straight code of an open-ended statement: its head and its pushes. */
  function OpenCode(s: Statement, px: Proxies): seq<Instr> {
    HeadCode(s) + if s.branch.Some? && s.branch.value.Gotos? then PushCode(px, s.branch.value.pushes) else []
  }

  lemma {:induction false} PopLastByte(last: Option<nat>, code: seq<Instr>, n: nat)
    requires n > 0
    ensures LastByte(last, code + PopCode(n)) == Some(POP_GOTO)
  {
    LastByteOf(last, code + PopCode(n - 1), Op(POP_GOTO));
    Assoc(code, PopCode(n - 1), [Op(POP_GOTO)]);
  }

  lemma {:induction false} HeadLastByte(s: Statement, last: Option<nat>)
    requires EffectsFit(s.effects)
    ensures LastByte(last, HeadCode(s))
         == if s.pop.Some? then Some(POP_GOTO)
            else if ClosingByte(s.effects).Some? then ClosingByte(s.effects)
            else if s.move.Some? then Some(OpOf(s.move.value))
            else last
  {
    var moves := MoveCode(s.move);
    if s.pop.Some? {
      PopLastByte(last, moves + EffectCode(s.effects), Pops(s.pop));
    } else {
      assert HeadCode(s) == moves + EffectCode(s.effects);
      LastByteConcat(last, moves, EffectCode(s.effects));
      EffectsLastByte(LastByte(last, moves), s.effects);
    }
  }

  /** An open-ended statement that closes gets its final PASS. */
  lemma {:induction false} OpenGetsPass(s: Statement, last: Option<nat>, px: Proxies)
    requires OpenEnded(s) && Closes(s, IsOpen(last)) && EffectsFit(s.effects)
    requires |px| <= MAX_PROXIES
    requires s.branch.Some? ==> AllIn(s.branch.value.pushes, px)
    ensures IsOpen(LastByte(last, OpenCode(s, px)))
  {
    if s.branch.Some? && s.branch.value.pushes != [] {
      var pushes := s.branch.value.pushes;
      var init, p := PushCode(px, Init(pushes)), ProxyOf(px, Last(pushes));
      assert Last(pushes) in px;
      HighByteOfProxy(p);
      LastByteOf(last, HeadCode(s) + init, PushGoto(p));
      Assoc(HeadCode(s), init, [PushGoto(p)]);
    } else {
      assert OpenCode(s, px) == HeadCode(s);
      HeadLastByte(s, last);
    }
  }

  // ----- the theorem -----

  lemma {:induction false} AgreesBefore(px: Proxies, px': Proxies, f: nat -> Address, at: Name -> nat)
    requires px <= px' && Agrees(px', f, at)
    ensures Agrees(px, f, at)
  {
  }

  lemma {:induction false} ExecPass(m: Machine, pc: nat, f: nat -> Address, op: nat, input: seq<Reading>)
    requires ActOf(op).Ending? && Loaded(m, pc, f, [Op(op)])
    ensures Exec(m, pc, input) == Trace([], ActOf(op).end)
  {
    LoadedOne(m, pc, f, Op(op));
  }

  lemma {:induction false} CloseLoaded(m: Machine, pc: nat, f: nat -> Address, code: seq<Instr>, last: Option<nat>)
    returns (end: nat)
    requires Loaded(m, pc, f, Close(code, last))
    ensures Loaded(m, pc, f, code) && end == pc + Size(code)
    ensures IsOpen(LastByte(last, code)) ==> Loaded(m, end, f, [Op(PASS)])
  {
    if IsOpen(LastByte(last, code)) {
      assert Close(code, last) == code + [Op(PASS)];
      end := LoadedParts(m, pc, f, code, [Op(PASS)]);
    } else {
      end := pc + Size(code);
    }
  }

  lemma {:induction false} SkipRuns(s: Statement, f: nat -> Address, m: Machine, pc: nat, rest: seq<Instr>, input: seq<Reading>)
    requires Skips(s) && Loaded(m, pc, f, HeadCode(s) + rest)
    ensures Exec(m, pc, input) == Trace([], Skipped(s.move.value))
  {
    var effects, pops := EffectCode(s.effects), PopCode(Pops(s.pop));
    var _ := LoadedParts(m, pc, f, MoveCode(s.move) + effects + pops, rest);
    var _ := LoadedParts(m, pc, f, MoveCode(s.move) + effects, pops);
    var _ := LoadedParts(m, pc, f, MoveCode(s.move), effects);
    OpActs(s.move.value);
    ExecPass(m, pc, f, OpOf(s.move.value), input);
  }

  lemma {:induction false} ExecGoto(m: Machine, pc: nat, f: nat -> Address, t: nat, input: seq<Reading>)
    requires Loaded(m, pc, f, [Goto(t)])
    ensures Exec(m, pc, input) == Trace([], WentTo(f(t)))
  {
    LoadedOne(m, pc, f, Goto(t));
  }

  lemma {:induction false} ExecFork(m: Machine, pc: nat, f: nat -> Address, ts: seq<nat>, input: seq<Reading>)
    requires Loaded(m, pc, f, [Fork(ts)]) && |ts| < WORD16
    ensures Exec(m, pc, input) == Trace([], Forked(RetargetNames(f, ts)))
  {
    LoadedOne(m, pc, f, Fork(ts));
  }

  lemma {:induction false} StraightThen(m: Machine, pc: nat, f: nat -> Address, first: seq<Instr>, end: nat, input: seq<Reading>,
                     t: Trace)
    requires AllStraight(first) && Loaded(m, pc, f, first) && end == pc + Size(first)
    requires Exec(m, end, input) == t
    ensures Exec(m, pc, input) == Prepend(EventsOf(f, first), t)
  {
    RunStraight(m, pc, f, first, end, input);
  }

  lemma {:induction false} GotoAfter(m: Machine, pc: nat, f: nat -> Address, first: seq<Instr>, t: nat, others: seq<Instr>,
                  input: seq<Reading>)
    requires AllStraight(first) && Loaded(m, pc, f, first + [Goto(t)] + others)
    ensures Exec(m, pc, input) == Trace(EventsOf(f, first), WentTo(f(t)))
  {
    var _ := LoadedParts(m, pc, f, first + [Goto(t)], others);
    var end := LoadedParts(m, pc, f, first, [Goto(t)]);
    ExecGoto(m, end, f, t, input);
    StraightThen(m, pc, f, first, end, input, Trace([], WentTo(f(t))));
  }

  lemma {:induction false} ForkAfter(m: Machine, pc: nat, f: nat -> Address, first: seq<Instr>, ts: seq<nat>, input: seq<Reading>)
    requires AllStraight(first) && |ts| < WORD16 && Loaded(m, pc, f, first + [Fork(ts)])
    ensures Exec(m, pc, input) == Trace(EventsOf(f, first), Forked(RetargetNames(f, ts)))
  {
    var end := LoadedParts(m, pc, f, first, [Fork(ts)]);
    ExecFork(m, end, f, ts, input);
    StraightThen(m, pc, f, first, end, input, Trace([], Forked(RetargetNames(f, ts))));
  }

  lemma {:induction false} PassAfter(m: Machine, pc: nat, f: nat -> Address, first: seq<Instr>, last: Option<nat>, input: seq<Reading>)
    requires AllStraight(first) && Loaded(m, pc, f, Close(first, last))
    requires IsOpen(LastByte(last, first))
    ensures Exec(m, pc, input) == Trace(EventsOf(f, first), Passed)
  {
    var end := CloseLoaded(m, pc, f, first, last);
    ExecPass(m, end, f, PASS, input);
    StraightThen(m, pc, f, first, end, input, Trace([], Passed));
  }

  /** The code of gotos, once every name has its proxy. */
  lemma {:induction false} GotosParts(pushes: seq<Name>, goto: Option<Name>, fork: Option<seq<Name>>, px: Proxies)
    returns (px': Proxies, others: seq<Instr>)
    ensures px' == GotosCode(pushes, goto, fork, px).px && AllIn(pushes, px')
    ensures goto.Some? ==>
              && goto.value in px'
              && GotosCode(pushes, goto, fork, px).code == PushCode(px', pushes) + [Goto(ProxyOf(px', goto.value))] + others
    ensures goto.None? && fork.Some? ==>
              && AllIn(fork.value, px')
              && GotosCode(pushes, goto, fork, px).code == PushCode(px', pushes) + [Fork(ProxiesOf(px', fork.value))]
  {
    GotosGrow(pushes, goto, fork, px);
    px' := GotosCode(pushes, goto, fork, px).px;
    others := if fork.None? then [] else [Fork(ProxiesOf(px', fork.value))];
    assert PushCode(px', pushes) + [] == PushCode(px', pushes);
  }

  lemma {:induction false} GotosMean(pushes: seq<Name>, goto: Option<Name>, fork: Option<seq<Name>>,
                                     at: Name -> nat, input: seq<Reading>)
    ensures goto.Some? ==>
              RunBranch(Gotos(pushes, goto, fork), at, input) == Trace(PushEvents(pushes, at), WentTo(at(goto.value)))
    ensures goto.None? && fork.Some? ==>
              RunBranch(Gotos(pushes, goto, fork), at, input)
              == Trace(PushEvents(pushes, at), Forked(Addresses(fork.value, at)))
  {
  }

  lemma {:induction false} GotosRun(pushes: seq<Name>, goto: Option<Name>, fork: Option<seq<Name>>, px: Proxies,
                 f: nat -> Address, at: Name -> nat, m: Machine, pc: nat, input: seq<Reading>)
    requires GotosCode(pushes, goto, fork, px).ok && (goto.Some? || fork.Some?)
    requires Agrees(GotosCode(pushes, goto, fork, px).px, f, at)
    requires Loaded(m, pc, f, GotosCode(pushes, goto, fork, px).code)
    ensures Exec(m, pc, input) == RunBranch(Gotos(pushes, goto, fork), at, input)
  {
    var px', others := GotosParts(pushes, goto, fork, px);
    GotosMean(pushes, goto, fork, at, input);
    if goto.Some? {
      GotoRuns(pushes, goto.value, others, px', f, at, m, pc, input);
    } else {
      ForkRuns(pushes, fork.value, px', f, at, m, pc, input);
    }
  }

  lemma {:induction false} GotoRuns(pushes: seq<Name>, name: Name, others: seq<Instr>, px: Proxies, f: nat -> Address, at: Name -> nat,
                 m: Machine, pc: nat, input: seq<Reading>)
    requires Agrees(px, f, at) && AllIn(pushes, px) && name in px
    requires Loaded(m, pc, f, PushCode(px, pushes) + [Goto(ProxyOf(px, name))] + others)
    ensures Exec(m, pc, input) == Trace(PushEvents(pushes, at), WentTo(at(name)))
  {
    PushesRun(px, f, at, pushes);
    GotoAfter(m, pc, f, PushCode(px, pushes), ProxyOf(px, name), others, input);
  }

  lemma {:induction false} ForkRuns(pushes: seq<Name>, names: seq<Name>, px: Proxies, f: nat -> Address, at: Name -> nat,
                 m: Machine, pc: nat, input: seq<Reading>)
    requires Agrees(px, f, at) && AllIn(pushes, px) && AllIn(names, px) && |names| < WORD16
    requires Loaded(m, pc, f, PushCode(px, pushes) + [Fork(ProxiesOf(px, names))])
    ensures Exec(m, pc, input) == Trace(PushEvents(pushes, at), Forked(Addresses(names, at)))
  {
    ProxiesCount(px, names);
    PushesRun(px, f, at, pushes);
    ForkAfter(m, pc, f, PushCode(px, pushes), ProxiesOf(px, names), input);
    ForkTargets(px, f, at, names);
  }

  lemma {:induction false} ProxiesCount(px: Proxies, names: seq<Name>)
    ensures |ProxiesOf(px, names)| == |names|
  {
    if names != [] {
      ProxiesCount(px, Init(names));
    }
  }

  /** An open-ended statement is compiled to its straight code and a PASS. */
  lemma {:induction false} OpenEmit(s: Statement, last: Option<nat>, px: Proxies) returns (px': Proxies)
    requires OpenEnded(s)
    ensures px' == Emit(s, last, px).px
    ensures Emit(s, last, px).code == Close(OpenCode(s, px'), last)
    ensures s.branch.Some? ==> AllIn(s.branch.value.pushes, px')
  {
    px' := px;
    if s.branch.Some? {
      var pushes := s.branch.value.pushes;
      px' := EnterAll(px, pushes);
      EnterAllGrows(px, pushes);
      assert PushCode(px', pushes) + [] + [] == PushCode(px', pushes);
    } else {
      assert HeadCode(s) + [] == HeadCode(s);
    }
  }

  lemma {:induction false} OpenCodeRuns(s: Statement, px: Proxies, f: nat -> Address, at: Name -> nat)
    requires OpenEnded(s) && EffectsFit(s.effects) && Agrees(px, f, at)
    requires s.branch.Some? ==> AllIn(s.branch.value.pushes, px)
    ensures AllStraight(OpenCode(s, px)) && Run(s, at, []) == Trace(EventsOf(f, OpenCode(s, px)), Passed)
    ensures forall input :: Run(s, at, input) == Run(s, at, [])
  {
    HeadRuns(f, s);
    if s.branch.Some? {
      var pushes := s.branch.value.pushes;
      PushesRun(px, f, at, pushes);
      EventsConcat(f, HeadCode(s), PushCode(px, pushes));
    } else {
      assert OpenCode(s, px) == HeadCode(s);
      assert Straight(s) + [] == Straight(s);
    }
  }

  lemma {:induction false} OpenRuns(s: Statement, last: Option<nat>, px: Proxies, f: nat -> Address, at: Name -> nat,
                 m: Machine, pc: nat, input: seq<Reading>)
    requires OpenEnded(s) && Closes(s, IsOpen(last)) && EffectsFit(s.effects)
    requires |Emit(s, last, px).px| <= MAX_PROXIES && Agrees(Emit(s, last, px).px, f, at)
    requires Loaded(m, pc, f, Emit(s, last, px).code)
    ensures Exec(m, pc, input) == Run(s, at, input)
  {
    var px' := OpenEmit(s, last, px);
    var code := OpenCode(s, px');
    OpenGetsPass(s, last, px');
    OpenCodeRuns(s, px', f, at);
    PassAfter(m, pc, f, code, last, input);
  }

  lemma {:induction false} SkippingRuns(s: Statement, last: Option<nat>, px: Proxies, f: nat -> Address, at: Name -> nat,
                     m: Machine, pc: nat, input: seq<Reading>)
    requires Skips(s) && Loaded(m, pc, f, Emit(s, last, px).code)
    ensures Exec(m, pc, input) == Run(s, at, input)
  {
    var head := HeadCode(s);
    var rest := if s.branch.None? then [] else EmitBranch(s.branch.value, LastByte(last, head), px).code;
    assert head + [] == head;
    var _ := CloseLoaded(m, pc, f, head + rest, last);
    SkipRuns(s, f, m, pc, rest, input);
  }

  lemma {:induction false} HeadLoaded(s: Statement, last: Option<nat>, px: Proxies, f: nat -> Address, m: Machine, pc: nat)
    returns (end: nat)
    requires s.branch.Some? && Loaded(m, pc, f, Emit(s, last, px).code)
    ensures Loaded(m, pc, f, HeadCode(s)) && end == pc + Size(HeadCode(s))
    ensures Loaded(m, end, f, EmitBranch(s.branch.value, LastByte(last, HeadCode(s)), px).code)
  {
    var head := HeadCode(s);
    var body := EmitBranch(s.branch.value, LastByte(last, head), px);
    assert Emit(s, last, px).code == Close(head + body.code, last);
    var _ := CloseLoaded(m, pc, f, head + body.code, last);
    end := LoadedParts(m, pc, f, head, body.code);
  }

  lemma {:induction false} HeadThen(s: Statement, f: nat -> Address, m: Machine, pc: nat, end: nat, input: seq<Reading>, t: Trace)
    requires !Skips(s) && EffectsFit(s.effects) && Loaded(m, pc, f, HeadCode(s))
    requires end == pc + Size(HeadCode(s)) && Exec(m, end, input) == t
    ensures Exec(m, pc, input) == Prepend(Straight(s), t)
  {
    HeadRuns(f, s);
    StraightThen(m, pc, f, HeadCode(s), end, input, t);
  }

  /** The code of a statement, loaded anywhere and linked by any `f`, means the statement. */
  lemma {:induction false} EmitRuns(s: Statement, last: Option<nat>, px: Proxies, f: nat -> Address,
                                    at: Name -> nat, m: Machine, pc: nat, input: seq<Reading>)
    requires FieldsFit(s) && Sound(s, IsOpen(last)) && Emit(s, last, px).ok
    requires |Emit(s, last, px).px| <= MAX_PROXIES && Agrees(Emit(s, last, px).px, f, at)
    requires Loaded(m, pc, f, Emit(s, last, px).code)
    ensures Exec(m, pc, input) == Run(s, at, input)
    decreases s
  {
    if OpenEnded(s) {
      OpenRuns(s, last, px, f, at, m, pc, input);
    } else if Skips(s) {
      SkippingRuns(s, last, px, f, at, m, pc, input);
    } else {
      var l := LastByte(last, HeadCode(s));
      var end := HeadLoaded(s, last, px, f, m, pc);
      var body := EmitBranch(s.branch.value, l, px);
      assert body.ok && body.px == Emit(s, last, px).px;
      BranchRuns(s.branch.value, l, px, f, at, m, end, input);
      HeadThen(s, f, m, pc, end, input, RunBranch(s.branch.value, at, input));
    }
  }

  lemma {:induction false} BranchRuns(b: Branch, last: Option<nat>, px: Proxies, f: nat -> Address,
                                      at: Name -> nat, m: Machine, pc: nat, input: seq<Reading>)
    requires b.Gotos? ==> b.goto.Some? || b.fork.Some?
    requires b.Matches? ==> MatchFits(b.mode, b.arms) && ArmsSound(b.arms, FirstInts(b.arms) == |b.arms|)
    requires EmitBranch(b, last, px).ok
    requires |EmitBranch(b, last, px).px| <= MAX_PROXIES && Agrees(EmitBranch(b, last, px).px, f, at)
    requires Loaded(m, pc, f, EmitBranch(b, last, px).code)
    ensures Exec(m, pc, input) == RunBranch(b, at, input)
    decreases b
  {
    match b
    case Pass => ExecPass(m, pc, f, PASS, input);
    case Fail => ExecPass(m, pc, f, FAIL, input);
    case Accept => ExecPass(m, pc, f, ACCEPT, input);
    case Gotos(pushes, goto, fork) => GotosRun(pushes, goto, fork, px, f, at, m, pc, input);
    case Matches(mode, arms) =>
      var px0 := if mode.TokenOf? then Enter(px, mode.scanner) else px;
      if FirstInts(arms) == |arms| {
        OnlyDefaultRuns(arms, px0, f, at, m, pc, input);
      } else if mode == Plain(ByteSequenceInput) {
        SequenceRuns(arms, px0, f, at, m, pc, input);
      } else {
        EnteredScanner(mode, px);
        TableRuns(mode, arms, px0, f, at, m, pc, input);
      }
  }

  /** The compiled arms of a match fit their fields and close. */
  predicate ArmsSound(arms: seq<Arm>, open: bool) {
    FitInts(arms) && FitDefault(arms) && SoundInts(arms) && SoundDefault(arms, open)
  }

  /** A match without values reads a code point and runs its default. */
  lemma {:induction false} OnlyDefaultRuns(arms: seq<Arm>, px: Proxies, f: nat -> Address, at: Name -> nat,
                                           m: Machine, pc: nat, input: seq<Reading>)
    requires ArmsSound(arms, true) && FirstDefault(arms) < |arms|
    requires EmitOnlyDefault(arms, px).ok && |EmitOnlyDefault(arms, px).px| <= MAX_PROXIES
    requires Agrees(EmitOnlyDefault(arms, px).px, f, at) && Loaded(m, pc, f, EmitOnlyDefault(arms, px).code)
    ensures Exec(m, pc, input) == After(CodepointRead, Otherwise(arms, at, input))
    decreases arms, 2
  {
    var e := EmitDefault(arms, Some(READ_CODEPOINT), px, []);
    var i := Op(READ_CODEPOINT);
    var next := LoadedParts(m, pc, f, [i], e.code);
    LoadedOne(m, pc, f, i);
    RunOne(m, pc, f, i, next, input);
    DefaultRuns(arms, Some(READ_CODEPOINT), px, [], f, at, m, next, input);
  }

  lemma {:induction false} ArmRuns(a: Arm, last: Option<nat>, px: Proxies, f: nat -> Address, at: Name -> nat,
                                   m: Machine, pc: nat, input: seq<Reading>)
    requires !a.HintArm? && FitArm(a) && SoundArm(a, IsOpen(last)) && EmitArm(a, last, px).ok
    requires |EmitArm(a, last, px).px| <= MAX_PROXIES && Agrees(EmitArm(a, last, px).px, f, at)
    requires Loaded(m, pc, f, EmitArm(a, last, px).code)
    ensures Exec(m, pc, input) == RunArm(a, at, input)
    decreases a
  {
    EmitRuns(a.stmt, last, px, f, at, m, pc, input);
  }

  lemma {:induction false} DefaultRuns(arms: seq<Arm>, last: Option<nat>, px: Proxies, otherwise: seq<Instr>,
                                       f: nat -> Address, at: Name -> nat, m: Machine, pc: nat, input: seq<Reading>)
    requires FitDefault(arms) && SoundDefault(arms, IsOpen(last)) && FirstDefault(arms) < |arms|
    requires var e := EmitDefault(arms, last, px, otherwise);
             e.ok && |e.px| <= MAX_PROXIES && Agrees(e.px, f, at) && Loaded(m, pc, f, e.code)
    ensures Exec(m, pc, input) == Otherwise(arms, at, input)
    decreases arms, 0
  {
    ArmRuns(arms[FirstDefault(arms)], last, px, f, at, m, pc, input);
  }

  lemma {:induction false} LoadedThree(m: Machine, pc: nat, f: nat -> Address, i: Instr, block: seq<Instr>, other: seq<Instr>)
    returns (a: nat, b: nat)
    requires Loaded(m, pc, f, [i] + block + other)
    ensures a == pc + Len(i) && b == a + Size(block)
    ensures Loaded(m, pc, f, [i]) && Loaded(m, a, f, block) && Loaded(m, b, f, other)
  {
    b := LoadedParts(m, pc, f, [i] + block, other);
    a := LoadedParts(m, pc, f, [i], block);
    LoadedOne(m, pc, f, i);
  }

  /** The code of a byte sequence match: the instruction, the block and the default. */
  lemma {:induction false} SequenceParts(arms: seq<Arm>, px: Proxies) returns (block: Emitted, d: Emitted, i: Instr)
    requires FirstInts(arms) < |arms|
    ensures block == EmitArm(arms[FirstInts(arms)], None, px) && d == EmitDefault(arms, None, block.px, [])
    ensures var vals := arms[FirstInts(arms)].vals;
            i == ByteSequence(if FirstDefault(arms) < |arms| then 7 + |vals| + Size(block.code) else 0, vals)
    ensures EmitSequence(arms, px).code == [i] + block.code + d.code && EmitSequence(arms, px).px == d.px
    ensures EmitSequence(arms, px).ok ==> block.ok && d.ok
  {
    var k := FirstInts(arms);
    block := EmitArm(arms[k], None, px);
    d := EmitDefault(arms, None, block.px, []);
    i := SequencePieces(arms[k].vals, block, d, FirstDefault(arms) < |arms|);
  }

  lemma {:induction false} SequencePieces(vals: seq<nat>, block: Emitted, d: Emitted, hasDefault: bool) returns (i: Instr)
    ensures i == ByteSequence(if hasDefault then 7 + |vals| + Size(block.code) else 0, vals)
    ensures var e := SequenceCode(vals, block, d, hasDefault);
            e.code == [i] + block.code + d.code && e.px == d.px && (e.ok ==> block.ok && d.ok)
  {
    i := ByteSequence(if hasDefault then 7 + |vals| + Size(block.code) else 0, vals);
  }

  lemma {:induction false} SequenceMeans(m: Machine, pc: nat, f: nat -> Address, default_: nat, vals: seq<nat>, a: nat, b: nat,
                      input: seq<Reading>, t1: Trace, t2: Trace)
    requires Loaded(m, pc, f, [ByteSequence(default_, vals)])
    requires a == pc + 7 + |vals| && (default_ > 0 ==> b == pc + default_)
    requires input != [] ==> Exec(m, a, input[1..]) == t1
    requires input != [] ==> t2 == if default_ > 0 then Exec(m, b, input[1..]) else Trace([], Failed)
    ensures Exec(m, pc, input)
         == if input == [] then Trace([], Starved)
            else After(Compared(vals), if vals <= input[0].ahead then t1 else t2)
  {
    LoadedOne(m, pc, f, ByteSequence(default_, vals));
  }

  /** A byte sequence match runs its block if the bytes lie ahead, otherwise its default. */
  lemma {:induction false} SequenceRuns(arms: seq<Arm>, px: Proxies, f: nat -> Address, at: Name -> nat,
                                        m: Machine, pc: nat, input: seq<Reading>)
    requires ArmsSound(arms, false) && FirstInts(arms) < |arms| && AllBelow(arms[FirstInts(arms)].vals, BYTE)
    requires EmitSequence(arms, px).ok && |EmitSequence(arms, px).px| <= MAX_PROXIES
    requires Agrees(EmitSequence(arms, px).px, f, at) && Loaded(m, pc, f, EmitSequence(arms, px).code)
    ensures Exec(m, pc, input) == RunBranch(Matches(Plain(ByteSequenceInput), arms), at, input)
    decreases arms, 2
  {
    var k, d := FirstInts(arms), FirstDefault(arms);
    var vals := arms[k].vals;
    var block := EmitArm(arms[k], None, px);
    var other := EmitDefault(arms, None, block.px, []);
    ArmGrows(arms[k], None, px);
    DefaultGrows(arms, None, block.px, []);
    var default_ := if d < |arms| then 7 + |vals| + Size(block.code) else 0;
    var i := ByteSequence(default_, vals);
    var a, b := LoadedThree(m, pc, f, i, block.code, other.code);
    AgreesBefore(block.px, other.px, f, at);
    if input != [] {
      ArmRuns(arms[k], None, px, f, at, m, a, input[1..]);
      if d < |arms| {
        DefaultRuns(arms, None, block.px, [], f, at, m, b, input[1..]);
      }
      SequenceMeans(m, pc, f, default_, vals, a, b, input,
                    RunArm(arms[k], at, input[1..]), Otherwise(arms, at, input[1..]));
    } else {
      SequenceMeans(m, pc, f, default_, vals, a, b, input, Trace([], Failed), Trace([], Failed));
    }
  }

  // ----- matches through a table -----

  lemma {:induction false} EnteredScanner(mode: Mode, px: Proxies)
    ensures mode.TokenOf? ==> mode.scanner in Enter(px, mode.scanner)
  {
    if mode.TokenOf? {
      EnterGrows(px, mode.scanner);
    }
  }

  lemma {:induction false} BlocksSorted(arms: seq<Arm>, px: Proxies)
    ensures Sorted(EmitBlocks(arms, px).pairs)
  {
    if arms != [] {
      BlocksSorted(arms[1..], px);
      var later := EmitBlocks(arms[1..], px);
      if arms[0].IntArm? {
        InsertAllSorted(later.pairs, arms[0].vals, Size(later.code));
      }
    }
  }

  /** Looking a value up in the table gives the offset that the map of the blocks gives. */
  lemma {:induction false} TableLookup(blocks: Blocks, key: nat)
    requires TableFits(blocks) && Sorted(blocks.pairs)
    ensures Lookup(Cells(Entries(blocks)), FloorLog2(|blocks.pairs|), key)
         == if Find(blocks.pairs, key).Some? then Hit(Find(blocks.pairs, key).value + FieldsStart(blocks)) else Miss
  {
    var entries := Entries(blocks);
    SortedIsDistinct(entries);
    LookupCorrect(entries, key);
    FindIsMember(entries, key);
    FindShifted(blocks.pairs, FieldsStart(blocks), key);
  }

  predicate IntsFit(arms: seq<Arm>) {
    forall i :: 0 <= i < |arms| && arms[i].IntArm? ==> AllBelow(arms[i].vals, WORD32)
  }

  /** The block found for a value is the block of the earliest arm that lists the value. */
  lemma {:induction false} BlocksRun(arms: seq<Arm>, px: Proxies, f: nat -> Address, at: Name -> nat,
                                     m: Machine, base: nat, id: nat, input: seq<Reading>) returns (a: nat)
    requires FitInts(arms) && SoundInts(arms) && IntsFit(arms) && EmitBlocks(arms, px).ok
    requires |EmitBlocks(arms, px).px| <= MAX_PROXIES && Agrees(EmitBlocks(arms, px).px, f, at)
    requires Loaded(m, base, f, EmitBlocks(arms, px).code)
    ensures Find(EmitBlocks(arms, px).pairs, id).Some? <==> ArmFor(arms, id) < |arms|
    ensures ArmFor(arms, id) < |arms| ==>
              && a == base + Find(EmitBlocks(arms, px).pairs, id).value
              && Exec(m, a, input) == RunArm(arms[ArmFor(arms, id)], at, input)
    decreases arms, 1
  {
    a := base;
    if arms != [] {
      var later := EmitBlocks(arms[1..], px);
      if arms[0].IntArm? {
        var e := EmitArm(arms[0], None, later.px);
        ArmGrows(arms[0], None, later.px);
        AgreesBefore(later.px, e.px, f, at);
        var mid := LoadedParts(m, base, f, later.code, e.code);
        FindAllInserted(later.pairs, arms[0].vals, Size(later.code), id);
        if id in arms[0].vals {
          a := mid;
          ArmRuns(arms[0], None, later.px, f, at, m, mid, input);
        } else {
          a := BlocksRun(arms[1..], px, f, at, m, base, id, input);
        }
      } else {
        a := BlocksRun(arms[1..], px, f, at, m, base, id, input);
      }
    }
  }

  /** A hash branch goes to the block that the walk finds, or to the default. */
  lemma {:induction false} PerformHash(i: Instr, found: Found, pc: nat, next: nat, input: seq<Reading>)
    requires i.HashBranch? && IsInputKind(i.kind) && input != [] && found == Lookup(i.cells, i.modBase, input[0].id)
    requires if found.Hit? then found.offset > 0 && next == pc + found.offset
             else found.Miss? && i.default_ > 0 && next == pc + i.default_
    ensures Perform(i, pc, input) == Go(ProbeRead(i.kind, i.scanner), next, input[1..])
  {
  }

  lemma {:induction false} ExecHash(m: Machine, pc: nat, f: nat -> Address, i: Instr, found: Found, next: nat, input: seq<Reading>)
    requires i.HashBranch? && IsInputKind(i.kind) && Loaded(m, pc, f, [i]) && input != []
    requires found == Lookup(i.cells, i.modBase, input[0].id)
    requires if found.Hit? then found.offset > 0 && next == pc + found.offset
             else found.Miss? && i.default_ > 0 && next == pc + i.default_
    ensures Exec(m, pc, input)
         == After(ProbeRead(i.kind, if i.scanner == NO_SCANNER then i.scanner else f(i.scanner)), Exec(m, next, input[1..]))
  {
    LoadedOne(m, pc, f, i);
    PerformHash(Retarget(f, i), found, pc, next, input);
  }

  lemma {:induction false} ExecTable(m: Machine, pc: nat, f: nat -> Address, kind: nat, scanner: nat, blocks: Blocks,
                  a: nat, b: nat, input: seq<Reading>)
    requires Loaded(m, pc, f, [TableInstr(kind, scanner, blocks)])
    requires TableFits(blocks) && Sorted(blocks.pairs) && input != [] && IsInputKind(kind)
    requires var found := Find(blocks.pairs, input[0].id);
             && (found.Some? ==> a == pc + FieldsStart(blocks) + found.value)
             && b == pc + FieldsStart(blocks) + Size(blocks.code)
    ensures Exec(m, pc, input)
         == After(ProbeRead(kind, if scanner == NO_SCANNER then scanner else f(scanner)),
                  Exec(m, if Find(blocks.pairs, input[0].id).Some? then a else b, input[1..]))
  {
    var i := TableInstr(kind, scanner, blocks);
    var id := input[0].id;
    TableLookup(blocks, id);
    assert i.modBase == FloorLog2(|blocks.pairs|);
    ExecHash(m, pc, f, i, Lookup(i.cells, i.modBase, id), if Find(blocks.pairs, id).Some? then a else b, input);
  }

  lemma {:induction false} OtherwiseRuns(arms: seq<Arm>, last: Option<nat>, px: Proxies, f: nat -> Address,
                                         at: Name -> nat, m: Machine, pc: nat, input: seq<Reading>)
    requires FitDefault(arms) && SoundDefault(arms, false)
    requires EmitDefault(arms, last, px, [Op(FAIL)]).ok && |EmitDefault(arms, last, px, [Op(FAIL)]).px| <= MAX_PROXIES
    requires Agrees(EmitDefault(arms, last, px, [Op(FAIL)]).px, f, at)
    requires Loaded(m, pc, f, EmitDefault(arms, last, px, [Op(FAIL)]).code)
    ensures Exec(m, pc, input) == Otherwise(arms, at, input)
    decreases arms, 1
  {
    if FirstDefault(arms) < |arms| {
      SoundBehind(arms[FirstDefault(arms)].stmt, IsOpen(last));
      DefaultRuns(arms, last, px, [Op(FAIL)], f, at, m, pc, input);
    } else {
      ExecPass(m, pc, f, FAIL, input);
    }
  }

  /** The code of a match through a table: the instruction, the blocks and the default. */
  lemma {:induction false} TableParts(mode: Mode, arms: seq<Arm>, px: Proxies) returns (i: Instr, blocks: Blocks, d: Emitted)
    ensures blocks == EmitBlocks(arms, px)
    ensures i == TableInstr(KindOf(mode), if mode.TokenOf? then ProxyOf(px, mode.scanner) else NO_SCANNER, blocks)
    ensures d == EmitDefault(arms, LastByte(None, [i] + blocks.code), blocks.px, [Op(FAIL)])
    ensures EmitTable(mode, arms, px).code == [i] + blocks.code + d.code && EmitTable(mode, arms, px).px == d.px
    ensures EmitTable(mode, arms, px).ok <==> blocks.ok && d.ok && TableFits(blocks)
  {
    blocks := EmitBlocks(arms, px);
    i := TableInstr(KindOf(mode), if mode.TokenOf? then ProxyOf(px, mode.scanner) else NO_SCANNER, blocks);
    d := EmitDefault(arms, LastByte(None, [i] + blocks.code), blocks.px, [Op(FAIL)]);
  }

  lemma {:induction false} TableStarves(m: Machine, pc: nat, f: nat -> Address, i: Instr)
    requires i.HashBranch? && IsInputKind(i.kind) && Loaded(m, pc, f, [i])
    ensures Exec(m, pc, []) == Trace([], Starved)
  {
    LoadedOne(m, pc, f, i);
  }

  /** A match through a table runs the earliest arm that lists the value, otherwise the default. */
  lemma {:induction false} TableRuns(mode: Mode, arms: seq<Arm>, px: Proxies, f: nat -> Address, at: Name -> nat,
                                     m: Machine, pc: nat, input: seq<Reading>)
    requires ArmsSound(arms, false) && IntsFit(arms) && FirstInts(arms) < |arms| && mode != Plain(ByteSequenceInput)
    requires EmitTable(mode, arms, px).ok && |EmitTable(mode, arms, px).px| <= MAX_PROXIES
    requires Agrees(EmitTable(mode, arms, px).px, f, at) && Loaded(m, pc, f, EmitTable(mode, arms, px).code)
    requires mode.TokenOf? ==> mode.scanner in px
    ensures Exec(m, pc, input) == RunBranch(Matches(mode, arms), at, input)
    decreases arms, 3
  {
    if input == [] {
      var i, blocks, d := TableParts(mode, arms, px);
      var _, _ := LoadedThree(m, pc, f, i, blocks.code, d.code);
      KindIsRead(mode, at);
      TableStarves(m, pc, f, i);
    } else {
      TableTakes(mode, arms, px, f, at, m, pc, input);
    }
  }

  /** The block that a table leads to for an input value. */
  lemma {:induction false} TableTakes(mode: Mode, arms: seq<Arm>, px: Proxies, f: nat -> Address, at: Name -> nat,
                                      m: Machine, pc: nat, input: seq<Reading>)
    requires ArmsSound(arms, false) && IntsFit(arms) && input != []
    requires EmitTable(mode, arms, px).ok && |EmitTable(mode, arms, px).px| <= MAX_PROXIES
    requires Agrees(EmitTable(mode, arms, px).px, f, at) && Loaded(m, pc, f, EmitTable(mode, arms, px).code)
    requires mode.TokenOf? ==> mode.scanner in px
    ensures var k := ArmFor(arms, input[0].id);
            Exec(m, pc, input)
            == After(Probe(mode, at),
                     if k < |arms| then RunArm(arms[k], at, input[1..]) else Otherwise(arms, at, input[1..]))
    decreases arms, 2
  {
    TableGrows(mode, arms, px);
    var i, blocks, d := TableParts(mode, arms, px);
    AgreesBefore(blocks.px, d.px, f, at);
    AgreesBefore(px, d.px, f, at);
    BlocksSorted(arms, px);
    var base, b := LoadedThree(m, pc, f, i, blocks.code, d.code);
    var a := BlocksRun(arms, px, f, at, m, base, input[0].id, input[1..]);
    OtherwiseRuns(arms, LastByte(None, [i] + blocks.code), blocks.px, f, at, m, b, input[1..]);
    var scanner := if mode.TokenOf? then ProxyOf(px, mode.scanner) else NO_SCANNER;
    KindIsRead(mode, at);
    ExecTable(m, pc, f, KindOf(mode), scanner, blocks, a, b, input);
  }
}
