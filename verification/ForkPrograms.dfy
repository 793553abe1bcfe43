/** Two whole programs that are not linked as wanted.  In both the second state starts at address 17, whose low byte
    is the opcode of a goto, and the first state forks to it. */
module ForkPrograms {
  import opened Sequences
  import opened Bytecode
  import opened Ir
  import opened Compile
  import opened CompileCorrect
  import opened CompileBytes
  import opened Link
  import opened LinkForks
  import opened Assembler
  import opened Program

  // The names of the states; no state has the last one.
  const FIRST: Name := 0
  const FORKING: Name := 1
  const THIRD: Name := 2
  const UNKNOWN: Name := 3

  const NINE_BYTES := Statement(None, [SetTokenId(0)], Some(3), None)
  const PASSES := Statement(None, [], None, Some(Branch.Pass))

  function Forks(paths: seq<Name>): Statement {
    Statement(None, [], None, Some(Gotos([], None, Some(paths))))
  }

  function FirstTwo(paths: seq<Name>): seq<State> { [State(FIRST, NINE_BYTES)] + [State(FORKING, Forks(paths))] }

  function ProgramOf(paths: seq<Name>): seq<State> { FirstTwo(paths) + [State(THIRD, PASSES)] }

  /** The operations of the nine bytes. */
  const NINE: seq<Instr> := [AssignToken(0), Op(POP_GOTO), Op(POP_GOTO), Op(POP_GOTO), Op(PASS)]

  lemma {:induction false} NineHead()
    ensures HeadCode(NINE_BYTES) == [AssignToken(0), Op(POP_GOTO), Op(POP_GOTO), Op(POP_GOTO)]
  {
    assert Init([SetTokenId(0)]) == [] && EffectCode([]) == [];
    assert EffectCode([SetTokenId(0)]) == [AssignToken(0)];
    assert PopCode(1) == [Op(POP_GOTO)] && PopCode(2) == [Op(POP_GOTO), Op(POP_GOTO)];
    assert PopCode(3) == [Op(POP_GOTO), Op(POP_GOTO), Op(POP_GOTO)];
  }

  lemma {:induction false} NineBytes(last: Option<nat>)
    ensures Emit(NINE_BYTES, last, []) == Emitted(NINE, [], true) && Size(NINE) == 9
  {
    var head := [AssignToken(0), Op(POP_GOTO), Op(POP_GOTO), Op(POP_GOTO)];
    NineHead();
    LastByteOf(last, head[..3], Op(POP_GOTO));
    assert head == head[..3] + [Op(POP_GOTO)];
    SizeOfNine();
  }

  lemma {:induction false} SizeSnoc(code: seq<Instr>, i: Instr)
    ensures Size(code + [i]) == Size(code) + Len(i)
  {
    assert Init(code + [i]) == code;
  }

  lemma {:induction false} SizeOfNine()
    ensures Size(NINE) == 9
  {
    var pop := Op(POP_GOTO);
    var first := AssignToken(0);
    SizeSnoc([], first);
    SizeSnoc([first], pop);
    SizeSnoc([first, pop], pop);
    SizeSnoc([first, pop, pop], pop);
    SizeSnoc([first, pop, pop, pop], Op(PASS));
    assert [] + [first] == [first] && [first] + [pop] == [first, pop] && [first, pop] + [pop] == [first, pop, pop];
    assert [first, pop, pop] + [pop] == [first, pop, pop, pop];
    assert [first, pop, pop, pop] + [Op(PASS)] == NINE;
  }

  lemma {:induction false} SizeOfFork(ts: seq<nat>)
    ensures Size([Fork(ts), Op(PASS)]) == 4 + 4 * |ts|
  {
    SizeSnoc([], Fork(ts));
    assert [] + [Fork(ts)] == [Fork(ts)];
    SizeSnoc([Fork(ts)], Op(PASS));
    assert [Fork(ts)] + [Op(PASS)] == [Fork(ts), Op(PASS)];
  }

  /** Nothing lies before the fork of such a statement. */
  lemma {:induction false} ForkOnly(s: Statement, paths: seq<Name>, last: Option<nat>, ts: seq<nat>)
    requires s.move.None? && s.effects == [] && s.pop.None? && s.branch == Some(Gotos([], None, Some(paths)))
    requires |paths| < WORD16 && EnterAll([], paths) == paths && ProxiesOf(paths, paths) == ts
    ensures HeadCode(s) == [] && GotosCode([], None, Some(paths), []) == Emitted([Fork(ts)], paths, true)
    ensures Emit(s, last, []).ok && Emit(s, last, []).px == paths
  {
    var body := GotosCode([], None, Some(paths), []);
    assert EnterAll([], []) == [] && PushCode(paths, []) == [];
    assert EmitBranch(s.branch.value, LastByte(last, HeadCode(s)), []) == body;
  }

  lemma {:induction false} ForkAlone(paths: seq<Name>, last: Option<nat>, ts: seq<nat>)
    requires |paths| < WORD16 && EnterAll([], paths) == paths && ProxiesOf(paths, paths) == ts && |paths| <= MAX_PROXIES
    ensures Emit(Forks(paths), last, []) == Emitted([Fork(ts), Op(PASS)], paths, true)
    ensures Size([Fork(ts), Op(PASS)]) == 4 + 4 * |ts|
  {
    ForkOnly(Forks(paths), paths, last, ts);
    var first := ForkCode(Forks(paths), last, []);
    assert first == [Fork(ts)];
    assert first + [Op(PASS)] == [Fork(ts), Op(PASS)];
    SizeOfFork(ts);
  }

  lemma {:induction false} PassAlone(last: Option<nat>, px: Proxies)
    ensures Emit(PASSES, last, px) == Emitted([Op(PASS)], px, true) && Size([Op(PASS)]) == 1
  {
    var code := [Op(PASS)];
    assert HeadCode(PASSES) == [] && [] + code == code;
    assert EmitBranch(Branch.Pass, LastByte(last, []), px) == Emitted(code, px, true);
    LastByteOf(last, [], Op(PASS));
    assert Close(code, last) == code;
    SizeSnoc([], Op(PASS));
  }

  lemma {:induction false} StateAdded(before: seq<State>, s: State, p: Compiled, e: Emitted)
    requires EmitStates(before) == p && Emit(s.stmt, LastByte(Some(FAIL), p.code), p.px) == e
    ensures EmitStates(before + [s]) == AddCode(p, s.name, e)
  {
    assert Init(before + [s]) == before && Last(before + [s]) == s;
    assert EmitStates(before + [s]) == AddState(p, s);
  }

  /** Where the states start when the fork has `n` paths. */
  function AddressesWith(n: nat): map<Name, nat> { map[FIRST := 8, FORKING := 17, THIRD := 21 + 4 * n] }

  lemma {:induction false} BuiltFrom(states: seq<State>, p: Compiled)
    requires EmitStates(states) == p && forall k :: 0 <= k < |states| ==> FieldsFit(states[k].stmt)
    requires p.ok && |p.px| <= MAX_PROXIES && 8 + Size(p.code) < WORD32
    ensures Buildable(states) && TableFor(states) == TableOf(p.px, p.addresses)
  {
  }

  function WholeCode(ts: seq<nat>): seq<Instr> { NINE + [Fork(ts), Op(PASS)] + [Op(PASS)] }

  lemma {:induction false} ThreeStates(paths: seq<Name>, ts: seq<nat>)
    requires |paths| < 10 && EnterAll([], paths) == paths && ProxiesOf(paths, paths) == ts && |ts| == |paths|
    ensures EmitStates(ProgramOf(paths)) == Compiled(WholeCode(ts), paths, true, AddressesWith(|ts|))
    ensures Size(WholeCode(ts)) == 14 + 4 * |ts|
  {
    var code := NINE + [Fork(ts), Op(PASS)];
    TwoStates(paths, ts);
    PassAlone(LastByte(Some(FAIL), code), paths);
    ThirdState(FirstTwo(paths), State(THIRD, PASSES), code, paths, |ts|);
    SizeSnoc(code, Op(PASS));
  }

  lemma {:induction false} ThirdState(before: seq<State>, s: State, code: seq<Instr>, paths: seq<Name>, n: nat)
    requires EmitStates(before) == Compiled(code, paths, true, map[FIRST := 8, FORKING := 17]) && s.name == THIRD
    requires Emit(s.stmt, LastByte(Some(FAIL), code), paths) == Emitted([Op(PASS)], paths, true) && Size(code) == 13 + 4 * n
    ensures EmitStates(before + [s]) == Compiled(code + [Op(PASS)], paths, true, AddressesWith(n))
  {
    StateAdded(before, s, Compiled(code, paths, true, map[FIRST := 8, FORKING := 17]), Emitted([Op(PASS)], paths, true));
    ThirdAddress(n);
  }

  lemma {:induction false} ThirdAddress(n: nat)
    ensures map[FIRST := 8, FORKING := 17][THIRD := 21 + 4 * n] == AddressesWith(n)
  {
  }

  /** The whole program: the first state at 8, the forking one at 17, the third behind it. */
  lemma {:induction false} WholeProgram(paths: seq<Name>, ts: seq<nat>)
    requires |paths| < 10 && EnterAll([], paths) == paths && ProxiesOf(paths, paths) == ts && |ts| == |paths|
    ensures var p := EmitStates(ProgramOf(paths));
            p.code == WholeCode(ts) && p.addresses == AddressesWith(|ts|) && Size(p.code) == 14 + 4 * |ts|
    ensures Buildable(ProgramOf(paths)) && TableFor(ProgramOf(paths)) == TableOf(paths, AddressesWith(|ts|))
  {
    ThreeStates(paths, ts);
    AllFit(paths);
    BuiltFrom(ProgramOf(paths), Compiled(WholeCode(ts), paths, true, AddressesWith(|ts|)));
  }

  lemma {:induction false} AllFit(paths: seq<Name>)
    ensures forall k :: 0 <= k < 3 ==> FieldsFit(ProgramOf(paths)[k].stmt)
  {
  }

  lemma {:induction false} OneState()
    ensures EmitStates([State(FIRST, NINE_BYTES)]) == Compiled(NINE, [], true, map[FIRST := 8])
  {
    NineBytes(Some(FAIL));
    StateAdded([], State(FIRST, NINE_BYTES), Compiled([], [], true, map[]), Emitted(NINE, [], true));
    assert [] + [State(FIRST, NINE_BYTES)] == [State(FIRST, NINE_BYTES)] && [] + NINE == NINE;
  }

  lemma {:induction false} TwoStates(paths: seq<Name>, ts: seq<nat>)
    requires |paths| < 10 && EnterAll([], paths) == paths && ProxiesOf(paths, paths) == ts && |ts| == |paths|
    ensures EmitStates(FirstTwo(paths))
         == Compiled(NINE + [Fork(ts), Op(PASS)], paths, true, map[FIRST := 8, FORKING := 17])
    ensures Size(NINE + [Fork(ts), Op(PASS)]) == 13 + 4 * |ts|
  {
    OneState();
    SizeOfNine();
    ForkAlone(paths, LastByte(Some(FAIL), NINE), ts);
    SizeConcat(NINE, [Fork(ts), Op(PASS)]);
    var first, second := State(FIRST, NINE_BYTES), State(FORKING, Forks(paths));
    StateAdded([first], second, Compiled(NINE, [], true, map[FIRST := 8]), Emitted([Fork(ts), Op(PASS)], paths, true));
  }

  // ----- the sweep up to the fork -----

  /** The sweep gets to the fork on track, and behind it into the addresses of the paths. */
  lemma {:induction false} AtTheFork(paths: seq<Name>, ts: seq<nat>, table: seq<nat>) returns (bc: Bytes)
    requires |paths| < 10 && EnterAll([], paths) == paths && ProxiesOf(paths, paths) == ts && |ts| == |paths|
    requires AllBelow(ts, |ts|) && table == TableOf(paths, AddressesWith(|ts|)) && AllBelow(table, WORD32)
    ensures Buildable(ProgramOf(paths)) && Linked(ProgramOf(paths)) == Sweep(bc, table, 20 + (4 + |ts|))
    ensures HasAt(bc, 20, Area(table, ts))
    ensures |bc| == 22 + 4 * |ts| && bc[17] == FORK && ReadU16(bc, 18) == |ts| && bc[21 + 4 * |ts|] == PASS
  {
    WholeProgram(paths, ts);
    var states := ProgramOf(paths);
    var code := EmitStates(states).code;
    StatesMade(states, false);
    var track := TrackOfForks(code, table);
    bc := Swept(code, AddressIn(table), 6);
    StartOfFork(code, ts);
    TrackPlace(code, table, 5);
    TrackPlace(code, table, 6);
    AroundTheFork(code, table, ts);
    ThroughTheFork(code, track, table, ts, bc);
  }

  lemma {:induction false} ThroughTheFork(code: seq<Instr>, track: seq<Place>, table: seq<nat>, ts: seq<nat>, bc: Bytes)
    requires AllBelow(table, WORD32) && ForkTrack(code, track, table) && |code| >= 6 && code[..5] == NINE && code[5] == Fork(ts)
    requires track[5].pc == 17 && track[6].bc == bc
    ensures SweepAt(track, table, 0) == Sweep(bc, table, 20 + (4 + |ts|)) && HasAt(bc, 20, Area(table, ts))
  {
    ToTheFork(code, track, table);
    assert MovesOn(track, table, code[5], 5);
    ForkThen(track, table, ts, 5);
    assert ForkLies(track, Area(table, code[5].targets), 5);
  }

  lemma {:induction false} ToTheFork(code: seq<Instr>, track: seq<Place>, table: seq<nat>)
    requires |code| >= 6 && code[..5] == NINE && IsTrack(code, track, table)
    ensures SweepAt(track, table, 0) == SweepAt(track, table, 5)
  {
    assert forall k :: 0 <= k < 5 ==> code[k] == code[..5][k];
    PlainMoves(track, table, code[0], 0);
    PlainMoves(track, table, code[1], 1);
    PlainMoves(track, table, code[2], 2);
    PlainMoves(track, table, code[3], 3);
    PlainMoves(track, table, code[4], 4);
  }

  lemma {:induction false} StartOfFork(code: seq<Instr>, ts: seq<nat>)
    requires code == WholeCode(ts)
    ensures code[..5] == NINE && code[5] == Fork(ts) && Start(code, 5) == 17
  {
    SizeOfNine();
  }

  lemma {:induction false} AroundTheFork(code: seq<Instr>, table: seq<nat>, ts: seq<nat>)
    requires AllBelow(table, WORD32) && code == WholeCode(ts) && |ts| < 10
    requires Size(code) == 14 + 4 * |ts|
    ensures var bc := Swept(code, AddressIn(table), 6);
            && |bc| == 22 + 4 * |ts| && bc[17] == FORK && ReadU16(bc, 18) == |ts| && bc[21 + 4 * |ts|] == PASS
  {
    StartOfFork(code, ts);
    var pre, fork, wanted, now := AroundFork(code, table, 5);
    SweptLast(code, table);
    ForkHead(AddressIn(table), ts);
    BehindSeventeen(pre, fork, [PASS] + now);
  }

  lemma {:induction false} ForkHead(f: nat -> Address, ts: seq<nat>)
    requires |ts| < 10
    ensures var fork := Encode(Retarget(f, Fork(ts))); |fork| >= 3 && fork[0] == FORK && fork[1] == |ts| && fork[2] == 0
  {
    BytesOfU16(|ts|);
    assert |RetargetNames(f, ts)| == |ts|;
  }

  lemma {:induction false} BehindSeventeen(pre: Bytes, fork: Bytes, rest: Bytes)
    requires |pre| == 17 && |fork| >= 3
    ensures var bc := pre + fork + rest; bc[17] == fork[0] && ReadU16(bc, 18) == fork[1] + BYTE * fork[2]
  {
    var bc := pre + fork + rest;
    assert bc[18] == fork[1] && bc[19] == fork[2];
  }

  lemma {:induction false} SweptLast(code: seq<Instr>, table: seq<nat>)
    requires AllBelow(table, WORD32) && |code| == 8 && code[7] == Op(PASS) && code[6] == Op(PASS)
    ensures var bc := Swept(code, AddressIn(table), 6); bc != [] && Last(bc) == PASS && |bc| == 8 + Size(code)
  {
    FirstEncoded(code, 6);
    FirstEncoded(code, 7);
    assert code[8..] == [];
    SweptEnd(code, AddressIn(table), 6);
  }

  // ----- a goto that is looked up in vain -----

  const THREE_PATHS: seq<Name> := [FIRST, THIRD, FORKING]

  /** A name is numbered by its position, if no other position has it. */
  lemma {:induction false} NumberAt(px: Proxies, k: nat)
    requires k < |px| && forall j :: 0 <= j < |px| && px[j] == px[k] ==> j == k
    ensures ProxyOf(px, px[k]) == k
  {
    assert px[k] in px;
  }

  ghost predicate Different(names: seq<Name>) {
    forall i, j :: 0 <= i < j < |names| ==> names[i] != names[j]
  }

  lemma {:induction false} EnteredInOrder(names: seq<Name>)
    requires Different(names)
    ensures EnterAll([], names) == names
  {
    if names != [] {
      EnteredInOrder(Init(names));
      SplitLast(names);
    }
  }

  function UpTo(n: nat): (r: seq<nat>)
    ensures |r| == n && forall i :: 0 <= i < n ==> r[i] == i
  {
    seq(n, i requires 0 <= i < n => i)
  }

  /** Different names are numbered in their order. */
  lemma {:induction false} NumberedInOrder(names: seq<Name>, k: nat)
    requires Different(names) && k <= |names|
    ensures ProxiesOf(names, names[..k]) == UpTo(k)
  {
    if k > 0 {
      NumberedInOrder(names, k - 1);
      TakeOneMore(names, k - 1);
      NumberAt(names, k - 1);
      assert UpTo(k) == UpTo(k - 1) + [k - 1];
    }
  }

  lemma {:induction false} Entered(names: seq<Name>)
    requires Different(names)
    ensures EnterAll([], names) == names && ProxiesOf(names, names) == UpTo(|names|)
  {
    EnteredInOrder(names);
    NumberedInOrder(names, |names|);
    assert names[..|names|] == names;
  }

  lemma {:induction false} ThreeEntered()
    ensures EnterAll([], THREE_PATHS) == THREE_PATHS && ProxiesOf(THREE_PATHS, THREE_PATHS) == [0, 1, 2]
  {
    Entered(THREE_PATHS);
    assert UpTo(3) == [0, 1, 2];
  }

  lemma {:induction false} OneMoreAddress(table: seq<nat>, ts: seq<nat>, t: nat)
    requires AllBelow(table, WORD32) && t < |table| && table[t] < BYTE
    ensures U32s(RetargetNames(AddressIn(table), ts + [t])) == U32s(RetargetNames(AddressIn(table), ts)) + [table[t], 0, 0, 0]
  {
    var f := AddressIn(table);
    assert Init(ts + [t]) == ts;
    var r := RetargetNames(f, ts);
    assert Init(r + [f(t)]) == r;
    BytesOfU32(table[t]);
  }

  lemma {:induction false} AreaOfThree(table: seq<nat>)
    requires AllBelow(table, WORD32) && |table| >= 3 && table[0] < BYTE && table[1] < BYTE && table[2] < BYTE
    ensures U32s(RetargetNames(AddressIn(table), [0, 1, 2])) == [table[0], 0, 0, 0, table[1], 0, 0, 0, table[2], 0, 0, 0]
  {
    OneMoreAddress(table, [], 0);
    OneMoreAddress(table, [0], 1);
    OneMoreAddress(table, [0, 1], 2);
    assert [] + [0] == [0] && [0] + [1] == [0, 1] && [0, 1] + [2] == [0, 1, 2];
  }

  lemma {:induction false} ThreeStop(bc: Bytes, table: seq<nat>)
    requires table == [8, 33, 17] && HasAt(bc, 20, Area(table, [0, 1, 2]))
    ensures Sweep(bc, table, 27) == None
  {
    var ts := [0, 1, 2];
    AreaOfThree(table);
    var area := Area(table, ts);
    assert area == [8, 0, 0, 0, 33, 0, 0, 0, 17, 0, 0, 0, PASS];
    QuietIsStep(bc, table, 20, area, 7);
    GotoStops(bc, table, 20, ts, 8);
    OneStep(bc, table, 27);
  }

  lemma {:induction false} OneStep(bc: Bytes, table: seq<nat>, pc: nat)
    requires pc < |bc| && SweepStep(bc, table, pc) == Jump(bc, 1)
    ensures Sweep(bc, table, pc) == Sweep(bc, table, pc + 1)
  {
  }

  lemma {:induction false} StatesSound(paths: seq<Name>)
    ensures forall k :: 0 <= k < 3 ==> Sound(ProgramOf(paths)[k].stmt, false)
  {
    assert Sound(NINE_BYTES, false) && Sound(Forks(paths), false) && Sound(PASSES, false);
  }

  lemma {:induction false} NamesApart(paths: seq<Name>)
    ensures DistinctNames(ProgramOf(paths))
  {
  }

  lemma {:induction false} ThreeLookedUp()
    ensures TableOf(THREE_PATHS, AddressesWith(3)) == [8, 33, 17]
  {
  }

  /** Three paths, the third to the state at 17: behind the fork the sweep comes upon that address, takes its low byte
      for a goto, and looks up a number that is no proxy's.  The compiler ends without a result. */
  lemma {:induction false} ThirdPathStops()
    ensures var states := ProgramOf(THREE_PATHS);
            && Buildable(states) && (forall k :: 0 <= k < 3 ==> Sound(states[k].stmt, false))
            && EmitStates(states).addresses == map[FIRST := 8, FORKING := 17, THIRD := 33]
            && Linked(states) == None && !Linkable(states)
  {
    ThreeBuilt();
    var bc := ThreeAtTheFork();
    StatesSound(THREE_PATHS);
    ThreeStop(bc, [8, 33, 17]);
    LinkableExactly(ProgramOf(THREE_PATHS));
  }

  lemma {:induction false} ThreeBuilt()
    ensures Buildable(ProgramOf(THREE_PATHS)) && EmitStates(ProgramOf(THREE_PATHS)).addresses == AddressesWith(3)
  {
    ThreeEntered();
    WholeProgram(THREE_PATHS, [0, 1, 2]);
  }

  lemma {:induction false} ThreeAtTheFork() returns (bc: Bytes)
    ensures Buildable(ProgramOf(THREE_PATHS)) && Linked(ProgramOf(THREE_PATHS)) == Sweep(bc, [8, 33, 17], 27)
    ensures HasAt(bc, 20, Area([8, 33, 17], [0, 1, 2]))
  {
    ThreeEntered();
    ThreeLookedUp();
    bc := AtTheFork(THREE_PATHS, [0, 1, 2], [8, 33, 17]);
  }

  // ----- an address that is written over -----

  const FOUR_PATHS: seq<Name> := [FIRST, THIRD, FORKING, UNKNOWN]

  lemma {:induction false} FourIsOneMore()
    ensures Init(FOUR_PATHS) == THREE_PATHS && Last(FOUR_PATHS) == UNKNOWN
  {
    assert FOUR_PATHS == THREE_PATHS + [UNKNOWN];
  }

  lemma {:induction false} FourEntered()
    ensures EnterAll([], FOUR_PATHS) == FOUR_PATHS && ProxiesOf(FOUR_PATHS, FOUR_PATHS) == [0, 1, 2, 3]
  {
    Entered(FOUR_PATHS);
    assert UpTo(4) == [0, 1, 2, 3];
  }

  lemma {:induction false} FourLookedUp()
    ensures TableOf(FOUR_PATHS, AddressesWith(4)) == [8, 37, 17, 0]
  {
  }

  lemma {:induction false} FourBuilt()
    ensures Buildable(ProgramOf(FOUR_PATHS)) && EmitStates(ProgramOf(FOUR_PATHS)).addresses == AddressesWith(4)
  {
    FourEntered();
    WholeProgram(FOUR_PATHS, [0, 1, 2, 3]);
  }

  /** What lies from the fork on once it is linked. */
  lemma {:induction false} FourArea(bc: Bytes, table: seq<nat>)
    requires table == [8, 37, 17, 0] && HasAt(bc, 20, Area(table, [0, 1, 2, 3])) && |bc| == 38
    ensures bc[20..37] == [8, 0, 0, 0, 37, 0, 0, 0, 17, 0, 0, 0, 0, 0, 0, 0, PASS]
  {
    AreaOfThree(table);
    OneMoreAddress(table, [0, 1, 2], 3);
    assert [0, 1, 2] + [3] == [0, 1, 2, 3];
    var area := Area(table, [0, 1, 2, 3]);
    assert area == [8, 0, 0, 0, 37, 0, 0, 0, 17, 0, 0, 0, 0, 0, 0, 0, PASS];
    assert forall j :: 0 <= j < 17 ==> bc[20..37][j] == bc[20 + j];
  }

  /** The upper half of the third address and the lower half of the fourth, both zero, are taken for a number, and the
      first address is written over them. */
  lemma {:induction false} FourOverwritten(bc: Bytes, table: seq<nat>) returns (r: Bytes)
    requires table == [8, 37, 17, 0] && HasAt(bc, 20, Area(table, [0, 1, 2, 3])) && |bc| == 38 && bc[37] == PASS
    ensures Sweep(bc, table, 28) == Some(r) && r == bc[30 := 8]
  {
    FourArea(bc, table);
    var b := bc[20..37];
    assert bc[28] == b[8] && bc[30] == b[10] && bc[31] == b[11] && bc[32] == b[12] && bc[33] == b[13];
    assert bc[34] == b[14] && bc[35] == b[15] && bc[36] == b[16];
    r := bc[30 := 8];
    FourWritten(bc, table);
    OneStep(r, table, 34);
    OneStep(r, table, 35);
    OneStep(r, table, 36);
    OneStep(r, table, 37);
  }

  lemma {:induction false} FourWritten(bc: Bytes, table: seq<nat>)
    requires |bc| == 38 && bc[28] == GOTO && bc[30] == bc[31] == bc[32] == bc[33] == 0 && |table| > 0 && table[0] == 8
    ensures SweepStep(bc, table, 28) == Jump(bc[30 := 8], 6)
  {
    BytesOfU32(8);
    var r := bc[..30] + U32(8) + bc[34..];
    assert r == bc[30 := 8];
  }

  lemma {:induction false} FourRead(bc: Bytes, table: seq<nat>, r: Bytes)
    requires table == [8, 37, 17, 0] && HasAt(bc, 20, Area(table, [0, 1, 2, 3])) && |bc| == 38
    requires bc[17] == FORK && ReadU16(bc, 18) == 4 && r == bc[30 := 8]
    ensures Exec(MachineOf(r), 17, []) == Trace([], Forked([8, 37, 17 + 8 * 0x1_0000, 0]))
  {
    FourArea(bc, table);
    var b := bc[20..37];
    assert forall j :: 0 <= j < 17 ==> bc[20 + j] == b[j];
    assert ReadU16(r, 18) == 4;
    assert r[20..36] == [8, 0, 0, 0, 37, 0, 0, 0, 17, 0, 8, 0, 0, 0, 0, 0] by {
      assert forall j :: 0 <= j < 16 ==> r[20..36][j] == if j == 10 then 8 else b[j];
    }
    FourNumbers(r);
    assert Decode(r, 17) == Read(Fork([8, 37, 17 + 8 * 0x1_0000, 0]));
  }

  lemma {:induction false} FourNumbers(r: Bytes)
    requires |r| == 38 && r[20..36] == [8, 0, 0, 0, 37, 0, 0, 0, 17, 0, 8, 0, 0, 0, 0, 0]
    ensures ReadU32s(r, 20, 4) == [8, 37, 17 + 8 * 0x1_0000, 0]
  {
    var b := r[20..36];
    assert forall j :: 0 <= j < 16 ==> r[20 + j] == b[j];
    NextNumber(r, 20, 0);
    NextNumber(r, 20, 1);
    NextNumber(r, 20, 2);
    NextNumber(r, 20, 3);
    assert ReadU32(r, 20) == 8 && ReadU32(r, 24) == 37;
    assert ReadU32(r, 28) == 17 + 8 * 0x1_0000 && ReadU32(r, 32) == 0;
  }

  lemma {:induction false} NextNumber(bc: Bytes, o: nat, n: nat)
    requires o + 4 * (n + 1) <= |bc|
    ensures ReadU32s(bc, o, n + 1) == ReadU32s(bc, o, n) + [ReadU32(bc, o + 4 * n)]
    ensures ReadU32s(bc, o, 0) == []
  {
  }

  lemma {:induction false} ThreeAddresses(at: Name -> nat)
    ensures Addresses(THREE_PATHS, at) == [at(FIRST), at(THIRD), at(FORKING)]
  {
    var a, b := [FIRST], [FIRST, THIRD];
    assert Init(THREE_PATHS) == b && Init(b) == a && Init(a) == [];
    assert Addresses(a, at) == [at(FIRST)] && Addresses(b, at) == [at(FIRST), at(THIRD)];
  }

  lemma {:induction false} FourMean(at: Name -> nat)
    ensures Run(Forks(FOUR_PATHS), at, []) == Trace([], Forked([at(FIRST), at(THIRD), at(FORKING), at(UNKNOWN)]))
  {
    FourIsOneMore();
    ThreeAddresses(at);
    var s := Forks(FOUR_PATHS);
    assert Straight(s) == [] && PushEvents([], at) == [];
    var t := RunBranch(s.branch.value, at, []);
    assert Addresses(FOUR_PATHS, at) == [at(FIRST), at(THIRD), at(FORKING), at(UNKNOWN)];
    assert t == Trace([], Forked([at(FIRST), at(THIRD), at(FORKING), at(UNKNOWN)]));
    assert Run(s, at, []) == Prepend([], t) && [] + t.events == [];
  }

  /** With a fourth path to a name without a state the program gets through, but its third path does not: the
      linked program forks to an address far outside. */
  lemma {:induction false} FourthPathOverwrites()
    ensures var states := ProgramOf(FOUR_PATHS);
            && Buildable(states) && (forall k :: 0 <= k < 3 ==> Sound(states[k].stmt, false))
            && EmitStates(states).addresses == map[FIRST := 8, FORKING := 17, THIRD := 37]
            && Linked(states).Some? && !Linkable(states)
            && Exec(MachineOf(Linked(states).value), 17, []) == Trace([], Forked([8, 37, 17 + 8 * 0x1_0000, 0]))
            && Run(states[1].stmt, StateAddress(EmitStates(states).addresses), []) == Trace([], Forked([8, 37, 17, 0]))
  {
    var states := ProgramOf(FOUR_PATHS);
    FourBuilt();
    StatesSound(FOUR_PATHS);
    var r := FourLinked();
    FourMeans();
    FourNotLinkable(r);
  }

  lemma {:induction false} FourMeans()
    ensures var states := ProgramOf(FOUR_PATHS);
            Run(states[1].stmt, StateAddress(EmitStates(states).addresses), []) == Trace([], Forked([8, 37, 17, 0]))
  {
    FourBuilt();
    FourMean(StateAddress(EmitStates(ProgramOf(FOUR_PATHS)).addresses));
  }

  lemma {:induction false} FourNotLinkable(r: Bytes)
    requires Buildable(ProgramOf(FOUR_PATHS)) && Linked(ProgramOf(FOUR_PATHS)) == Some(r)
    requires Exec(MachineOf(r), 17, []) == Trace([], Forked([8, 37, 17 + 8 * 0x1_0000, 0]))
    ensures !Linkable(ProgramOf(FOUR_PATHS))
  {
    var states := ProgramOf(FOUR_PATHS);
    if Linkable(states) {
      NamesApart(FOUR_PATHS);
      StatesSound(FOUR_PATHS);
      FourBuilt();
      FourMean(StateAddress(EmitStates(states).addresses));
      ProgramMeans(states, 1, []);
    }
  }

  lemma {:induction false} FourLinked() returns (r: Bytes)
    ensures Buildable(ProgramOf(FOUR_PATHS)) && Linked(ProgramOf(FOUR_PATHS)) == Some(r)
    ensures Exec(MachineOf(r), 17, []) == Trace([], Forked([8, 37, 17 + 8 * 0x1_0000, 0]))
  {
    var bc := FourAtTheFork();
    r := FourSwept(bc, [8, 37, 17, 0]);
  }

  lemma {:induction false} FourAtTheFork() returns (bc: Bytes)
    ensures Buildable(ProgramOf(FOUR_PATHS)) && Linked(ProgramOf(FOUR_PATHS)) == Sweep(bc, [8, 37, 17, 0], 28)
    ensures HasAt(bc, 20, Area([8, 37, 17, 0], [0, 1, 2, 3]))
    ensures |bc| == 38 && bc[17] == FORK && ReadU16(bc, 18) == 4 && bc[37] == PASS
  {
    FourEntered();
    FourLookedUp();
    bc := AtTheFork(FOUR_PATHS, [0, 1, 2, 3], [8, 37, 17, 0]);
  }

  lemma {:induction false} FourSwept(bc: Bytes, table: seq<nat>) returns (r: Bytes)
    requires table == [8, 37, 17, 0] && HasAt(bc, 20, Area(table, [0, 1, 2, 3]))
    requires |bc| == 38 && bc[17] == FORK && ReadU16(bc, 18) == 4 && bc[37] == PASS
    ensures Sweep(bc, table, 28) == Some(r)
    ensures Exec(MachineOf(r), 17, []) == Trace([], Forked([8, 37, 17 + 8 * 0x1_0000, 0]))
  {
    r := FourOverwritten(bc, table);
    FourRead(bc, table, r);
  }
}
