/** The builder of the bytecode (crates/radlr-bytecode/build_bytecode.rs:35-114, 241-588): it appends bytes
    to packages and numbers the names it meets. */
module Assembler {
  import opened Sequences
  import opened Bits
  import opened HashTable
  import opened Bytecode
  import opened Ir
  import opened Compile
  import opened CompileCorrect
  import opened CompileBytes
  import opened Link

  function LastOf(b: Bytes): Option<nat> { if b == [] then None else Some(Last(b)) }

  lemma {:induction false} LastOfConcat(b: Bytes, c: Bytes, e: Bytes)
    requires e != []
    ensures LastOf(b + (c + e)) == Some(Last(e))
  {
    assert Last(b + (c + e)) == Last(e);
  }

  lemma {:induction false} LastAfter(b: Bytes, code: seq<Instr>)
    ensures LastOf(b + EncodeAll(code)) == LastByte(LastOf(b), code)
  {
    if code == [] {
      assert b + [] == b;
    } else {
      LastOfConcat(b, EncodeAll(Init(code)), Encode(Last(code)));
    }
  }

  lemma {:induction false} AppendCode(b: Bytes, code: seq<Instr>, more: seq<Instr>)
    ensures b + EncodeAll(code + more) == b + EncodeAll(code) + EncodeAll(more)
  {
    EncodeConcat(code, more);
    Assoc(b, EncodeAll(code), EncodeAll(more));
  }

  lemma {:induction false} AppendInstr(b: Bytes, code: seq<Instr>, i: Instr)
    ensures b + EncodeAll(code + [i]) == b + EncodeAll(code) + Encode(i)
  {
    AppendCode(b, code, [i]);
    EncodeOne(i);
  }

  lemma {:induction false} U16Bits(v: nat)
    ensures [And(v, 0xFF), And(Shr(v, 8), 0xFF)] == U16(v)
  {
    BytePowers();
    BytesOfU16(v);
    ShrIsDiv(v, 8);
    AndMask(v, 8);
    AndMask(Shr(v, 8), 8);
  }

  // ----- proxies -----

  /** A name that has a number keeps it. */
  lemma {:induction false} ProxyKept(px: Proxies, px': Proxies, name: Name)
    requires px <= px' && name in px
    ensures ProxyOf(px', name) == ProxyOf(px, name)
  {
    if px[0] != name {
      ProxyKept(px[1..], px'[1..], name);
    }
  }

  lemma {:induction false} PushCodeKept(px: Proxies, px': Proxies, names: seq<Name>)
    requires px <= px' && AllIn(names, px)
    ensures PushCode(px', names) == PushCode(px, names)
  {
    if names != [] {
      PushCodeKept(px, px', Init(names));
      ProxyKept(px, px', Last(names));
    }
  }

  lemma {:induction false} ProxiesKept(px: Proxies, px': Proxies, names: seq<Name>)
    requires px <= px' && AllIn(names, px)
    ensures ProxiesOf(px', names) == ProxiesOf(px, names)
  {
    if names != [] {
      ProxiesKept(px, px', Init(names));
      ProxyKept(px, px', Last(names));
    }
  }

  lemma {:induction false} NewProxy(px: Proxies, name: Name)
    requires name !in px
    ensures ProxyOf(px + [name], name) == |px|
  {
    if px != [] {
      assert (px + [name])[1..] == px[1..] + [name];
      NewProxy(px[1..], name);
    }
  }

  /** The numbers of the names met so far: a bijection onto `0..|names|`. */
  class ProxyTable {
    var numbers: map<Name, nat>
    ghost var names: Proxies

    ghost predicate Valid()
      reads this
    {
      && Distinct(names) && |numbers| == |names|
      && (forall n :: n in numbers <==> n in names)
      && (forall n :: n in numbers ==> numbers[n] == ProxyOf(names, n))
    }

    constructor ()
      ensures Valid() && names == []
    {
      numbers := map[];
      names := [];
    }

    /** The number of a name; a name not met before gets the next number. */
    method GetProxyAddress(name: Name) returns (p: nat)
      requires Valid()
      modifies this
      ensures Valid() && names == Enter(old(names), name)
      ensures p == ProxyOf(names, name) < |names|
    {
      if name !in numbers {
        NewProxy(names, name);
        forall n | n in names
          ensures ProxyOf(names + [name], n) == ProxyOf(names, n)
        {
          ProxyKept(names, names + [name], n);
        }
        EnterGrows(names, name);
        numbers := numbers[name := |numbers|];
        names := names + [name];
      }
      p := numbers[name];
    }

    /** The numbers are exactly `0..|numbers|`, each the number of one name. */
    lemma {:induction false} Bijection(i: nat)
      requires Valid() && i < |numbers|
      ensures exists n :: n in numbers && numbers[n] == i && forall m :: m in numbers && numbers[m] == i ==> m == n
    {
      var n := names[i];
      DistinctProxies(names, i);
      assert n in numbers && numbers[n] == i;
    }
  }

  // ----- packages -----

  class Package {
    var bytecode: Bytes

    constructor ()
      ensures bytecode == []
    {
      bytecode := [];
    }

    method InsertOp(op: nat)
      modifies this
      ensures bytecode == old(bytecode) + [op]
    {
      bytecode := bytecode + [op];
    }

    method InsertU16(v: nat)
      modifies this
      ensures bytecode == old(bytecode) + U16(v)
    {
      U16Bits(v);
      bytecode := bytecode + [And(v, 0xFF)];
      bytecode := bytecode + [And(Shr(v, 8), 0xFF)];
    }

    method InsertU32(v: nat)
      modifies this
      ensures bytecode == old(bytecode) + U32(v)
    {
      U32Bits(v);
      bytecode := bytecode + [And(v, 0xFF)];
      bytecode := bytecode + [And(Shr(v, 8), 0xFF)];
      bytecode := bytecode + [And(Shr(v, 16), 0xFF)];
      bytecode := bytecode + [And(Shr(v, 24), 0xFF)];
    }

    method InsertU32s(vs: seq<nat>)
      modifies this
      ensures bytecode == old(bytecode) + U32s(vs)
    {
      ghost var start := bytecode;
      for k := 0 to |vs|
        invariant bytecode == start + U32s(vs[..k])
      {
        InsertU32(vs[k]);
        TakeOneMore(vs, k);
        Assoc(start, U32s(vs[..k]), U32(vs[k]));
      }
      assert vs[..|vs|] == vs;
    }

    method InsertTarget(op: nat, target: nat)
      modifies this
      ensures bytecode == old(bytecode) + ([op, NORMAL_STATE_FLAG] + U32(target))
    {
      InsertOp(op);
      InsertOp(NORMAL_STATE_FLAG);
      InsertU32(target);
    }
  }

  // ----- statements -----

  method BuildEffects(effects: seq<Effect>, pkg: Package)
    requires EffectsFit(effects)
    modifies pkg
    ensures pkg.bytecode == old(pkg.bytecode) + EncodeAll(EffectCode(effects))
  {
    ghost var start := pkg.bytecode;
    for k := 0 to |effects|
      invariant pkg.bytecode == start + EncodeAll(EffectCode(effects[..k]))
    {
      var e := effects[k];
      assert EffectFits(e);
      TakeOneMore(effects, k);
      ghost var code := EffectCode(effects[..k]);
      ghost var before := pkg.bytecode;
      if e.ReduceRaw? {
        pkg.InsertOp(REDUCE);
        pkg.InsertU32(e.nonterm);
        pkg.InsertU32(e.rule);
        pkg.InsertU16(e.length % WORD16);
        AppendInstr(start, code, Reduce(e.nonterm, e.rule, e.length % WORD16));
        FourInserts(before, [REDUCE], U32(e.nonterm), U32(e.rule), U16(e.length % WORD16));
      } else if e.SetTokenId? {
        pkg.InsertOp(ASSIGN_TOKEN);
        pkg.InsertU32(e.id);
        AppendInstr(start, code, AssignToken(e.id));
        Assoc(before, [ASSIGN_TOKEN], U32(e.id));
      } else {
        assert code + [] == code;
      }
    }
    assert effects[..|effects|] == effects;
  }

  lemma {:induction false} FourInserts(p: Bytes, a: Bytes, b: Bytes, c: Bytes, d: Bytes)
    ensures p + a + b + c + d == p + (a + b + c + d)
  {
  }

  method BuildHead(s: Statement, pkg: Package)
    requires EffectsFit(s.effects)
    modifies pkg
    ensures pkg.bytecode == old(pkg.bytecode) + EncodeAll(HeadCode(s))
  {
    ghost var start := pkg.bytecode;
    ghost var moves, effects := MoveCode(s.move), EffectCode(s.effects);
    if s.move.Some? {
      pkg.InsertOp(OpOf(s.move.value));
      EncodeOne(Op(OpOf(s.move.value)));
    }
    assert pkg.bytecode == start + EncodeAll(moves);
    BuildEffects(s.effects, pkg);
    AppendCode(start, moves, effects);
    var n := 0;
    if s.pop.Some? {
      n := if s.pop.value < 1 then 1 else s.pop.value;
    }
    assert moves + effects + PopCode(0) == moves + effects;
    for k := 0 to n
      invariant pkg.bytecode == start + EncodeAll(moves + effects + PopCode(k))
    {
      pkg.InsertOp(POP_GOTO);
      AppendInstr(start, moves + effects + PopCode(k), Op(POP_GOTO));
      Assoc(moves + effects, PopCode(k), [Op(POP_GOTO)]);
    }
  }

  lemma {:induction false} NextPush(start: Bytes, names: Proxies, known: Proxies, px: Proxies, pushes: seq<Name>, k: nat)
    requires k < |pushes| && known == EnterAll(names, pushes[..k]) && px == Enter(known, pushes[k])
    ensures px == EnterAll(names, pushes[..k + 1]) && pushes[k] in px
    ensures var p := ProxyOf(px, pushes[k]);
            start + EncodeAll(PushCode(known, pushes[..k])) + ([PUSH_GOTO, NORMAL_STATE_FLAG] + U32(p)) ==
            start + EncodeAll(PushCode(px, pushes[..k + 1]))
  {
    EnterAllGrows(names, pushes[..k]);
    EnterGrows(known, pushes[k]);
    PushCodeKept(known, px, pushes[..k]);
    TakeOneMore(pushes, k);
    AppendInstr(start, PushCode(known, pushes[..k]), PushGoto(ProxyOf(px, pushes[k])));
  }

  method BuildPushes(pushes: seq<Name>, pkg: Package, px: ProxyTable)
    requires px.Valid()
    modifies pkg, px
    ensures px.Valid() && px.names == EnterAll(old(px.names), pushes)
    ensures pkg.bytecode == old(pkg.bytecode) + EncodeAll(PushCode(px.names, pushes))
  {
    ghost var start, names := pkg.bytecode, px.names;
    for k := 0 to |pushes|
      invariant px.Valid() && px.names == EnterAll(names, pushes[..k])
      invariant pkg.bytecode == start + EncodeAll(PushCode(px.names, pushes[..k]))
    {
      ghost var known := px.names;
      var p := px.GetProxyAddress(pushes[k]);
      pkg.InsertTarget(PUSH_GOTO, p);
      NextPush(start, names, known, px.names, pushes, k);
    }
    assert pushes[..|pushes|] == pushes;
  }

  /** The targets of a fork. */
  method BuildPaths(paths: seq<Name>, pkg: Package, px: ProxyTable)
    requires px.Valid()
    modifies pkg, px
    ensures px.Valid() && px.names == EnterAll(old(px.names), paths)
    ensures pkg.bytecode == old(pkg.bytecode) + U32s(ProxiesOf(px.names, paths))
  {
    ghost var start, names := pkg.bytecode, px.names;
    for k := 0 to |paths|
      invariant px.Valid() && px.names == EnterAll(names, paths[..k])
      invariant pkg.bytecode == start + U32s(ProxiesOf(px.names, paths[..k]))
    {
      ghost var known := px.names;
      var p := px.GetProxyAddress(paths[k]);
      EnterAllGrows(names, paths[..k]);
      EnterGrows(known, paths[k]);
      ProxiesKept(known, px.names, paths[..k]);
      TakeOneMore(paths, k);
      ghost var before := ProxiesOf(px.names, paths[..k]);
      assert Init(before + [p]) == before;
      Assoc(start, U32s(before), U32(p));
      pkg.InsertU32(p);
    }
    assert paths[..|paths|] == paths;
  }

  lemma {:induction false} GotoBytes(b: Bytes, p: nat)
    ensures b + ([GOTO, NORMAL_STATE_FLAG] + U32(p)) == b + EncodeAll([Goto(p)])
  {
    EncodeOne(Goto(p));
  }

  method BuildGoto(goto: Option<Name>, pkg: Package, px: ProxyTable) returns (ghost gotos: seq<Instr>)
    requires px.Valid()
    modifies pkg, px
    ensures px.Valid() && px.names == EnterOne(old(px.names), goto)
    ensures gotos == if goto.None? then [] else [Goto(ProxyOf(px.names, goto.value))]
    ensures pkg.bytecode == old(pkg.bytecode) + EncodeAll(gotos)
  {
    gotos := [];
    if goto.Some? {
      var p := px.GetProxyAddress(goto.value);
      gotos := [Goto(p)];
      GotoBytes(pkg.bytecode, p);
      pkg.InsertTarget(GOTO, p);
    }
  }

  lemma {:induction false} ForkBytes(b: Bytes, ts: seq<nat>)
    ensures b + [FORK] + U16(|ts|) + U32s(ts) == b + EncodeAll([Fork(ts)])
  {
    EncodeOne(Fork(ts));
    ThreeInserts(b, [FORK], U16(|ts|), U32s(ts));
  }

  method BuildFork(fork: Option<seq<Name>>, pkg: Package, px: ProxyTable) returns (ghost forks: seq<Instr>)
    requires px.Valid()
    modifies pkg, px
    ensures px.Valid() && px.names == if fork.None? then old(px.names) else EnterAll(old(px.names), fork.value)
    ensures forks == if fork.None? then [] else [Fork(ProxiesOf(px.names, fork.value))]
    ensures pkg.bytecode == old(pkg.bytecode) + EncodeAll(forks)
  {
    forks := [];
    if fork.Some? {
      ghost var before := pkg.bytecode;
      pkg.InsertOp(FORK);
      pkg.InsertU16(|fork.value|);
      BuildPaths(fork.value, pkg, px);
      ghost var ts := ProxiesOf(px.names, fork.value);
      forks := [Fork(ts)];
      ProxiesCount(px.names, fork.value);
      ForkBytes(before, ts);
    }
  }

  method BuildGotos(pushes: seq<Name>, goto: Option<Name>, fork: Option<seq<Name>>, pkg: Package, px: ProxyTable)
    requires px.Valid()
    modifies pkg, px
    ensures px.Valid() && px.names == GotosCode(pushes, goto, fork, old(px.names)).px
    ensures pkg.bytecode == old(pkg.bytecode) + EncodeAll(GotosCode(pushes, goto, fork, old(px.names)).code)
  {
    ghost var start, names := pkg.bytecode, px.names;
    BuildPushes(pushes, pkg, px);
    ghost var px1 := px.names;
    EnterAllGrows(names, pushes);
    ghost var gotos := BuildGoto(goto, pkg, px);
    ghost var px2 := px.names;
    GotoKept(pushes, goto, px1, px2);
    ghost var forks := BuildFork(fork, pkg, px);
    ForkKept(pushes, goto, fork, px2, px.names);
    AppendCode(start, PushCode(px.names, pushes), gotos);
    AppendCode(start, PushCode(px.names, pushes) + gotos, forks);
  }

  lemma {:induction false} ForkKept(pushes: seq<Name>, goto: Option<Name>, fork: Option<seq<Name>>, px2: Proxies, px3: Proxies)
    requires AllIn(pushes, px2) && (goto.Some? ==> goto.value in px2)
    requires px3 == if fork.None? then px2 else EnterAll(px2, fork.value)
    ensures PushCode(px3, pushes) == PushCode(px2, pushes)
    ensures goto.Some? ==> ProxyOf(px3, goto.value) == ProxyOf(px2, goto.value)
  {
    if fork.Some? {
      EnterAllGrows(px2, fork.value);
      PushCodeKept(px2, px3, pushes);
      if goto.Some? {
        ProxyKept(px2, px3, goto.value);
      }
    }
  }

  lemma {:induction false} ThreeInserts(p: Bytes, a: Bytes, b: Bytes, c: Bytes)
    ensures p + a + b + c == p + (a + b + c)
  {
  }

  lemma {:induction false} GotoKept(pushes: seq<Name>, goto: Option<Name>, px1: Proxies, px2: Proxies)
    requires AllIn(pushes, px1) && px2 == EnterOne(px1, goto)
    ensures PushCode(px2, pushes) == PushCode(px1, pushes) && AllIn(pushes, px2)
    ensures goto.Some? ==> goto.value in px2
  {
    if goto.Some? {
      EnterGrows(px1, goto.value);
      PushCodeKept(px1, px2, pushes);
      AllInLonger(pushes, px1, px2);
    }
  }

  /** Ends the block with PASS if its last byte is not a sentinel opcode. */
  method CloseBlock(pkg: Package, ghost start: Bytes, ghost code: seq<Instr>)
    requires pkg.bytecode == start + EncodeAll(code)
    modifies pkg
    ensures pkg.bytecode == start + EncodeAll(Close(code, LastOf(start)))
  {
    LastAfter(start, code);
    AppendInstr(start, code, Op(PASS));
    if |pkg.bytecode| > 0 {
      var last := pkg.bytecode[|pkg.bytecode| - 1];
      if !IsSentinel(last) {
        pkg.InsertOp(PASS);
      }
    }
  }

  /** Appends the code of a statement. */
  method BuildStatement(s: Statement, pkg: Package, px: ProxyTable)
    requires px.Valid() && FieldsFit(s) && Emit(s, LastOf(pkg.bytecode), px.names).ok
    modifies pkg, px
    ensures px.Valid()
    ensures px.names == Emit(s, old(LastOf(pkg.bytecode)), old(px.names)).px
    ensures pkg.bytecode
         == old(pkg.bytecode) + EncodeAll(Emit(s, old(LastOf(pkg.bytecode)), old(px.names)).code)
    decreases s
  {
    ghost var start, names := pkg.bytecode, px.names;
    ghost var code := HeadCode(s);
    BuildHead(s, pkg);
    if s.branch.Some? {
      LastAfter(start, code);
      ghost var body := EmitBranch(s.branch.value, LastByte(LastOf(start), code), names);
      BuildBranch(s.branch.value, pkg, px);
      AppendCode(start, code, body.code);
      code := code + body.code;
    }
    CloseBlock(pkg, start, code);
  }

  method BuildBranch(b: Branch, pkg: Package, px: ProxyTable)
    requires px.Valid() && EmitBranch(b, LastOf(pkg.bytecode), px.names).ok
    requires b.Matches? ==> MatchFits(b.mode, b.arms) && FitInts(b.arms) && FitDefault(b.arms)
    modifies pkg, px
    ensures px.Valid()
    ensures px.names == EmitBranch(b, old(LastOf(pkg.bytecode)), old(px.names)).px
    ensures pkg.bytecode
         == old(pkg.bytecode) + EncodeAll(EmitBranch(b, old(LastOf(pkg.bytecode)), old(px.names)).code)
    decreases b
  {
    match b
    case Pass => pkg.InsertOp(PASS); EncodeOne(Op(PASS));
    case Fail => pkg.InsertOp(FAIL); EncodeOne(Op(FAIL));
    case Accept => pkg.InsertOp(ACCEPT); EncodeOne(Op(ACCEPT));
    case Gotos(pushes, goto, fork) => BuildGotos(pushes, goto, fork, pkg, px);
    case Matches(mode, arms) => BuildMatch(mode, arms, pkg, px);
  }

  /** The first default of a match, found from the back. */
  method FindDefault(arms: seq<Arm>) returns (d: nat, branches: bool)
    ensures d == FirstDefault(arms) && (branches <==> FirstInts(arms) < |arms|)
  {
    d, branches := |arms|, false;
    var k: nat := |arms|;
    while k > 0
      invariant k <= d <= |arms| && (d < |arms| ==> arms[d].DefaultArm?)
      invariant forall j :: k <= j < d && j < |arms| ==> !arms[j].DefaultArm?
      invariant branches <==> exists j :: k <= j < |arms| && arms[j].IntArm?
    {
      k := k - 1;
      if arms[k].DefaultArm? {
        d := k;
      } else if arms[k].IntArm? {
        branches := true;
      }
    }
    ghost var f, i := FirstDefault(arms), FirstInts(arms);
    assert f < |arms| ==> arms[f].DefaultArm?;
    assert i < |arms| ==> arms[i].IntArm?;
  }

  method BuildMatch(mode: Mode, arms: seq<Arm>, pkg: Package, px: ProxyTable)
    requires px.Valid() && MatchFits(mode, arms) && FitInts(arms) && FitDefault(arms)
    requires EmitBranch(Matches(mode, arms), LastOf(pkg.bytecode), px.names).ok
    modifies pkg, px
    ensures px.Valid()
    ensures px.names == EmitBranch(Matches(mode, arms), old(LastOf(pkg.bytecode)), old(px.names)).px
    ensures pkg.bytecode
         == old(pkg.bytecode) + EncodeAll(EmitBranch(Matches(mode, arms), old(LastOf(pkg.bytecode)), old(px.names)).code)
    decreases arms, 2
  {
    ghost var names, last := px.names, LastOf(pkg.bytecode);
    var scanner := NO_SCANNER;
    if mode.TokenOf? {
      scanner := px.GetProxyAddress(mode.scanner);
    }
    ghost var names0 := px.names;
    assert EmitBranch(Matches(mode, arms), last, names) == EmitMatch(mode, arms, names0);
    var d, branches := FindDefault(arms);
    if !branches {
      BuildOnlyDefault(arms, d, pkg, px);
    } else if mode == Plain(ByteSequenceInput) {
      BuildSequence(arms, d, pkg, px);
    } else {
      BuildTableMatch(mode, arms, d, scanner, pkg, px);
    }
  }

  method BuildArm(a: Arm, pkg: Package, px: ProxyTable)
    requires px.Valid() && !a.HintArm? && FitArm(a) && EmitArm(a, LastOf(pkg.bytecode), px.names).ok
    modifies pkg, px
    ensures px.Valid()
    ensures px.names == EmitArm(a, old(LastOf(pkg.bytecode)), old(px.names)).px
    ensures pkg.bytecode
         == old(pkg.bytecode) + EncodeAll(EmitArm(a, old(LastOf(pkg.bytecode)), old(px.names)).code)
    decreases a
  {
    BuildStatement(a.stmt, pkg, px);
  }

  method BuildOnlyDefault(arms: seq<Arm>, d: nat, pkg: Package, px: ProxyTable)
    requires px.Valid() && FitDefault(arms) && d == FirstDefault(arms) < |arms|
    requires EmitOnlyDefault(arms, px.names).ok
    modifies pkg, px
    ensures px.Valid() && px.names == EmitOnlyDefault(arms, old(px.names)).px
    ensures pkg.bytecode == old(pkg.bytecode) + EncodeAll(EmitOnlyDefault(arms, old(px.names)).code)
    decreases arms, 1
  {
    ghost var start := pkg.bytecode;
    ghost var e := EmitDefault(arms, Some(READ_CODEPOINT), px.names, []);
    pkg.InsertOp(READ_CODEPOINT);
    EncodeOne(Op(READ_CODEPOINT));
    assert LastOf(pkg.bytecode) == Some(READ_CODEPOINT);
    BuildArm(arms[d], pkg, px);
    AppendCode(start, [Op(READ_CODEPOINT)], e.code);
  }

  method InsertSequence(offset: nat, vals: seq<nat>, pkg: Package)
    requires AllBelow(vals, BYTE)
    modifies pkg
    ensures pkg.bytecode == old(pkg.bytecode) + EncodeAll([ByteSequence(offset, vals)])
  {
    ghost var start := pkg.bytecode;
    pkg.InsertOp(BYTE_SEQUENCE);
    pkg.InsertU16(|vals|);
    pkg.InsertU32(offset);
    ghost var head := pkg.bytecode;
    for j := 0 to |vals|
      invariant pkg.bytecode == head + vals[..j]
    {
      TakeOneMore(vals, j);
      Assoc(head, vals[..j], [vals[j]]);
      pkg.InsertOp(vals[j] % BYTE);
    }
    assert vals[..|vals|] == vals;
    FourInserts(start, [BYTE_SEQUENCE], U16(|vals|), U32(offset), vals);
    EncodeOne(ByteSequence(offset, vals));
  }

  /** Appends blocks that were built in packages of their own. */
  method Extend(pkg: Package, first: Bytes, second: Bytes, ghost start: Bytes, ghost i: Instr,
                ghost a: seq<Instr>, ghost b: seq<Instr>)
    requires pkg.bytecode == start + EncodeAll([i]) && first == EncodeAll(a) && second == EncodeAll(b)
    modifies pkg
    ensures pkg.bytecode == start + EncodeAll([i] + a + b)
  {
    pkg.bytecode := pkg.bytecode + first;
    pkg.bytecode := pkg.bytecode + second;
    AppendCode(start, [i], a);
    AppendCode(start, [i] + a, b);
  }

  /** The block and the default of a byte sequence match, each in a package of its own. */
  method BuildSequenceBlocks(arms: seq<Arm>, d: nat, px: ProxyTable, ghost block: Emitted, ghost e: Emitted)
    returns (stmt: Bytes, default_: Bytes)
    requires px.Valid() && FitInts(arms) && FitDefault(arms) && d == FirstDefault(arms) && FirstInts(arms) < |arms|
    requires block == EmitArm(arms[FirstInts(arms)], None, px.names) && e == EmitDefault(arms, None, block.px, [])
    requires block.ok && e.ok
    modifies px
    ensures px.Valid() && px.names == e.px
    ensures stmt == EncodeAll(block.code) && default_ == EncodeAll(e.code)
    decreases arms, 0
  {
    var stmtBc := new Package();
    var defaultBc := new Package();
    BuildArm(arms[FirstInts(arms)], stmtBc, px);
    if d < |arms| {
      BuildArm(arms[d], defaultBc, px);
    }
    stmt, default_ := stmtBc.bytecode, defaultBc.bytecode;
  }

  method BuildSequence(arms: seq<Arm>, d: nat, pkg: Package, px: ProxyTable)
    requires px.Valid() && FitInts(arms) && FitDefault(arms) && d == FirstDefault(arms) && FirstInts(arms) < |arms|
    requires AllBelow(arms[FirstInts(arms)].vals, BYTE)
    requires EmitSequence(arms, px.names).ok
    modifies pkg, px
    ensures px.Valid() && px.names == EmitSequence(arms, old(px.names)).px
    ensures pkg.bytecode == old(pkg.bytecode) + EncodeAll(EmitSequence(arms, old(px.names)).code)
    decreases arms, 1
  {
    ghost var start := pkg.bytecode;
    var k := FirstInts(arms);
    ghost var block, e, i := SequenceParts(arms, px.names);
    var stmt, default_ := BuildSequenceBlocks(arms, d, px, block, e);
    EncodedSize(block.code);
    var defaultOffset := if d < |arms| then 1 + 2 + 4 + |arms[k].vals| + |stmt| else 0;
    assert i == ByteSequence(defaultOffset, arms[k].vals);
    InsertSequence(defaultOffset, arms[k].vals, pkg);
    Extend(pkg, stmt, default_, start, i, block.code, e.code);
  }

  // ----- matches through a table -----

  lemma {:induction false} BlocksOk(arms: seq<Arm>, px: Proxies, k: nat)
    requires k <= |arms| && EmitBlocks(arms, px).ok
    ensures EmitBlocks(arms[k..], px).ok
  {
    if k > 0 {
      BlocksOk(arms[1..], px, k - 1);
      assert arms[1..][k - 1..] == arms[k..];
    } else {
      assert arms[0..] == arms;
    }
  }

  lemma {:induction false} BlocksParts(arms: seq<Arm>, px: Proxies, k: nat) returns (later: Blocks, e: Emitted)
    requires k < |arms| && arms[k].IntArm?
    ensures later == EmitBlocks(arms[k + 1..], px) && e == EmitArm(arms[k], None, later.px)
    ensures var all := EmitBlocks(arms[k..], px);
            && all.pairs == InsertAll(later.pairs, arms[k].vals, Size(later.code))
            && all.code == later.code + e.code && all.px == e.px && (all.ok ==> e.ok)
  {
    BlocksStep(arms, px, k);
    later := EmitBlocks(arms[k + 1..], px);
    e := EmitArm(arms[k], None, later.px);
  }

  lemma {:induction false} BlocksStep(arms: seq<Arm>, px: Proxies, k: nat)
    requires k < |arms|
    ensures arms[k..][1..] == arms[k + 1..] && arms[k..][0] == arms[k]
  {
  }

  method InsertIds(pairs: seq<Pair>, ids: seq<nat>, offset: nat) returns (r: seq<Pair>)
    ensures r == InsertAll(pairs, ids, offset)
  {
    r := pairs;
    for j := 0 to |ids|
      invariant r == InsertAll(pairs, ids[..j], offset)
    {
      TakeOneMore(ids, j);
      r := Insert(r, ids[j] % WORD32, offset);
    }
    assert ids[..|ids|] == ids;
  }

  /** Builds the blocks of the arms from the last arm to the first, and the map into them. */
  method BuildBlocks(arms: seq<Arm>, px: ProxyTable) returns (pairs: seq<Pair>, blocks: Bytes)
    requires px.Valid() && FitInts(arms) && EmitBlocks(arms, px.names).ok
    modifies px
    ensures px.Valid() && px.names == EmitBlocks(arms, old(px.names)).px
    ensures pairs == EmitBlocks(arms, old(px.names)).pairs
    ensures blocks == EncodeAll(EmitBlocks(arms, old(px.names)).code)
    decreases arms, 0
  {
    ghost var names := px.names;
    pairs, blocks := [], [];
    var k: nat := |arms|;
    assert arms[k..] == [];
    while k > 0
      invariant k <= |arms| && px.Valid()
      invariant px.names == EmitBlocks(arms[k..], names).px
      invariant pairs == EmitBlocks(arms[k..], names).pairs && blocks == EncodeAll(EmitBlocks(arms[k..], names).code)
    {
      k := k - 1;
      BlocksStep(arms, names, k);
      if arms[k].IntArm? {
        BlocksOk(arms, names, k);
        ghost var later, e := BlocksParts(arms, names, k);
        EncodedSize(later.code);
        pairs := InsertIds(pairs, arms[k].vals, |blocks|);
        var subBc := new Package();
        BuildArm(arms[k], subBc, px);
        ghost var code := EncodeAll(e.code);
        assert subBc.bytecode == code;
        EncodeConcat(later.code, e.code);
        ghost var together := EncodeAll(later.code + e.code);
        blocks := blocks + subBc.bytecode;
        assert blocks == together;
      }
    }
    assert arms[0..] == arms;
  }

  method InsertTable(i: Instr, pkg: Package)
    requires i.HashBranch?
    modifies pkg
    ensures pkg.bytecode == old(pkg.bytecode) + EncodeAll([i])
  {
    ghost var start := pkg.bytecode;
    pkg.InsertOp(HASH_BRANCH);
    pkg.InsertOp(i.kind);
    pkg.InsertU32(i.default_);
    pkg.InsertU32(i.scanner);
    pkg.InsertU32(|i.cells|);
    pkg.InsertU32(i.modBase);
    pkg.InsertU32s(i.cells);
    EncodeOne(i);
    SevenInserts(start, HASH_BRANCH, i.kind, U32(i.default_), U32(i.scanner), U32(|i.cells|), U32(i.modBase),
                 U32s(i.cells));
  }

  lemma {:induction false} SevenInserts(p: Bytes, a: nat, b: nat, c: Bytes, d: Bytes, e: Bytes, f: Bytes, g: Bytes)
    ensures p + [a] + [b] + c + d + e + f + g == p + ([a, b] + c + d + e + f + g)
  {
  }

  lemma {:induction false} TableInstrParts(kind: nat, scanner: nat, blocks: Blocks)
    requires TableFits(blocks)
    ensures 1 <= |Entries(blocks)| <= MAX_ENTRIES && InRange(Entries(blocks)) && AllFit(Table(Entries(blocks)))
    ensures TableInstr(kind, scanner, blocks) ==
            HashBranch(kind, Size(blocks.code) + FieldsStart(blocks), scanner, FloorLog2(|blocks.pairs|),
                       Words(Table(Entries(blocks))))
  {
    TableCellsFit(Entries(blocks));
  }

  /** The instruction of a table, its cells built by the two passes over the entries. */
  method BuildTableInstr(kind: nat, scanner: nat, pairs: seq<Pair>, size: nat, ghost blocks: Blocks) returns (i: Instr)
    requires TableFits(blocks) && pairs == blocks.pairs && size == Size(blocks.code)
    ensures i == TableInstr(kind, scanner, blocks)
  {
    var start := 18 + 4 * |pairs|;
    assert start == FieldsStart(blocks);
    TableInstrParts(kind, scanner, blocks);
    CutInRange(Shift(pairs, start));
    var words := BuildTable(Shift(pairs, start));
    i := HashBranch(kind, size + start, scanner, FloorLog2(|pairs|), words);
  }

  method BuildTableMatch(mode: Mode, arms: seq<Arm>, d: nat, scanner: nat, pkg: Package, px: ProxyTable)
    requires px.Valid() && FitInts(arms) && FitDefault(arms) && d == FirstDefault(arms) && EmitTable(mode, arms, px.names).ok
    requires scanner == if mode.TokenOf? then ProxyOf(px.names, mode.scanner) else NO_SCANNER
    modifies pkg, px
    ensures px.Valid() && px.names == EmitTable(mode, arms, old(px.names)).px
    ensures pkg.bytecode == old(pkg.bytecode) + EncodeAll(EmitTable(mode, arms, old(px.names)).code)
    decreases arms, 1
  {
    ghost var start, names := pkg.bytecode, px.names;
    ghost var instr, blocks, e := TableParts(mode, arms, names);
    var pairs, bytes := BuildBlocks(arms, px);
    EncodedSize(blocks.code);
    var i := BuildTableInstr(KindOf(mode), scanner, pairs, |bytes|, blocks);
    InsertTable(i, pkg);
    ghost var code := [i] + blocks.code;
    AppendCode(start, [i], blocks.code);
    pkg.bytecode := pkg.bytecode + bytes;
    assert pkg.bytecode == start + EncodeAll(code);
    LastAfter(start, code);
    assert LastOf(pkg.bytecode) == LastByte(None, code);
    BuildDefault(arms, d, pkg, px);
    AppendCode(start, code, e.code);
  }

  method BuildDefault(arms: seq<Arm>, d: nat, pkg: Package, px: ProxyTable)
    requires px.Valid() && FitDefault(arms) && d == FirstDefault(arms)
    requires EmitDefault(arms, LastOf(pkg.bytecode), px.names, [Op(FAIL)]).ok
    modifies pkg, px
    ensures px.Valid() && px.names == EmitDefault(arms, old(LastOf(pkg.bytecode)), old(px.names), [Op(FAIL)]).px
    ensures pkg.bytecode == old(pkg.bytecode)
                            + EncodeAll(EmitDefault(arms, old(LastOf(pkg.bytecode)), old(px.names), [Op(FAIL)]).code)
    decreases arms, 0
  {
    if d < |arms| {
      BuildArm(arms[d], pkg, px);
    } else {
      pkg.InsertOp(FAIL);
      EncodeOne(Op(FAIL));
    }
  }
}
