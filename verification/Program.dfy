/** A whole program: all states compiled one behind another, linked, and run
    (crates/radlr-bytecode/build_bytecode.rs:35-114). */
module Program {
  import opened Sequences
  import opened Bytecode
  import opened Ir
  import opened Compile
  import opened CompileCorrect
  import opened CompileBytes
  import opened Link
  import opened LinkForks
  import opened FallThrough
  import opened Assembler

  datatype State = State(name: Name, stmt: Statement)

  datatype Compiled = Compiled(code: seq<Instr>, px: Proxies, ok: bool, addresses: map<Name, nat>)

  /** The code of the states behind the header, whose last byte is FAIL. */
  ghost function EmitStates(states: seq<State>): Compiled {
    if states == [] then Compiled([], [], true, map[]) else AddState(EmitStates(Init(states)), Last(states))
  }

  ghost function AddState(p: Compiled, s: State): Compiled {
    AddCode(p, s.name, Emit(s.stmt, LastByte(Some(FAIL), p.code), p.px))
  }

  function AddCode(p: Compiled, name: Name, e: Emitted): Compiled {
    Compiled(p.code + e.code, e.px, p.ok && e.ok, p.addresses[name := 8 + Size(p.code)])
  }

  function AddressOf(addresses: map<Name, nat>, name: Name): nat {
    if name in addresses then addresses[name] else 0
  }

  /** The address of every proxy number, 0 for a name that no state has. */
  function TableOf(px: Proxies, addresses: map<Name, nat>): (table: seq<nat>)
    ensures |table| == |px| && forall i :: 0 <= i < |px| ==> table[i] == AddressOf(addresses, px[i])
  {
    seq(|px|, i requires 0 <= i < |px| => AddressOf(addresses, px[i]))
  }

  ghost predicate DistinctNames(states: seq<State>) {
    forall j, k :: 0 <= j < k < |states| ==> states[j].name != states[k].name
  }

  /** States whose operands fit their fields, in a program that keeps its bounds. */
  ghost predicate Buildable(states: seq<State>) {
    var p := EmitStates(states);
    && (forall k :: 0 <= k < |states| ==> FieldsFit(states[k].stmt))
    && p.ok && |p.px| <= MAX_PROXIES && 8 + Size(p.code) < WORD32
  }

  lemma {:induction false} BuildableBefore(states: seq<State>)
    requires states != [] && Buildable(states)
    ensures Buildable(Init(states))
  {
    var p, s := EmitStates(Init(states)), Last(states);
    var l := LastByte(Some(FAIL), p.code);
    EmitGrows(s.stmt, l, p.px);
    SizeConcat(p.code, Emit(s.stmt, l, p.px).code);
  }

  lemma {:induction false} StatesMade(states: seq<State>, free: bool)
    requires Buildable(states) && (free ==> forall k :: 0 <= k < |states| ==> ForkFree(states[k].stmt))
    ensures WellMade(EmitStates(states).code, |EmitStates(states).px|, free) && Distinct(EmitStates(states).px)
  {
    if states != [] {
      var p, s := EmitStates(Init(states)), Last(states);
      var l := LastByte(Some(FAIL), p.code);
      var e := Emit(s.stmt, l, p.px);
      BuildableBefore(states);
      EmitGrows(s.stmt, l, p.px);
      StatesMade(Init(states), free);
      EmitValid(s.stmt, l, p.px, free);
      ValidBelow(p.code, |p.px|, |e.px|, free);
      MadeConcat(p.code, e.code, |e.px|, free);
    }
  }

  lemma {:induction false} AddressesBelow(states: seq<State>)
    ensures forall n :: n in EmitStates(states).addresses ==> EmitStates(states).addresses[n] <= 8 + Size(EmitStates(states).code)
  {
    if states != [] {
      AddressesBelow(Init(states));
      var p, s := EmitStates(Init(states)), Last(states);
      SizeConcat(p.code, Emit(s.stmt, LastByte(Some(FAIL), p.code), p.px).code);
    }
  }

  /** The table that the program is linked with. */
  ghost function TableFor(states: seq<State>): (table: seq<nat>)
    requires 8 + Size(EmitStates(states).code) < WORD32
    ensures AllBelow(table, WORD32)
  {
    AddressesBelow(states);
    TableOf(EmitStates(states).px, EmitStates(states).addresses)
  }

  /** The bytes of the program before it is linked. */
  ghost function Unlinked(states: seq<State>): Bytes { HEADER + EncodeAll(EmitStates(states).code) }

  /** What linking leaves of the program, if it gets to the end. */
  ghost function Linked(states: seq<State>): Option<Bytes>
    requires 8 + Size(EmitStates(states).code) < WORD32
  {
    Sweep(Unlinked(states), TableFor(states), |HEADER|)
  }

  /** The detours of the sweep behind the forks of the program lead back on track. */
  ghost predicate Linkable(states: seq<State>)
    requires 8 + Size(EmitStates(states).code) < WORD32
  {
    ForksReturn(EmitStates(states).code, TableFor(states))
  }

  /** A built program is linked exactly, every name replaced by its address and nothing else changed, if and only
      if it is linkable. */
  lemma {:induction false} LinkableExactly(states: seq<State>)
    requires Buildable(states)
    ensures Linked(states) == Some(Wanted(EmitStates(states).code, TableFor(states))) <==> Linkable(states)
  {
    StatesMade(states, false);
    LinkedExactly(EmitStates(states).code, TableFor(states));
  }

  /** The addresses of its paths tell that a program is linkable: the walks behind all its forks come back. */
  lemma {:induction false} LinkableByAddresses(states: seq<State>)
    requires Buildable(states) && AllBack(EmitStates(states).code, TableFor(states), 0)
    ensures Linkable(states)
  {
    StatesMade(states, false);
    BackIsLinked(EmitStates(states).code, TableFor(states));
  }

  /** Of a short program whose walks stay at their forks they tell it exactly. */
  lemma {:induction false} LinkableByAddressesExactly(states: seq<State>)
    requires Buildable(states) && Short(TableFor(states)) && NoneLeaves(EmitStates(states).code, TableFor(states))
    ensures Linkable(states) <==> AllBack(EmitStates(states).code, TableFor(states), 0)
  {
    StatesMade(states, false);
    ShortLinkedExactly(EmitStates(states).code, TableFor(states));
    LinkableExactly(states);
  }

  /** A program without forks is linkable. */
  lemma {:induction false} ForkFreeLinkable(states: seq<State>)
    requires Buildable(states) && forall k :: 0 <= k < |states| ==> ForkFree(states[k].stmt)
    ensures Linkable(states)
  {
    var code, table := EmitStates(states).code, TableFor(states);
    StatesMade(states, true);
    assert forall i :: 0 <= i < |code| ==> Valid(code[i]) && !code[i].Fork?;
    ForkFreeReturns(code, Track(code, AddressIn(table)), table, 0);
  }

  // ----- the builder -----

  method MakeTable(px: ProxyTable, addresses: map<Name, nat>) returns (table: seq<nat>)
    requires px.Valid()
    ensures table == TableOf(px.names, addresses)
  {
    table := seq(|px.numbers|, _ => 0);
    var left := px.numbers.Keys;
    while left != {}
      invariant |table| == |px.names|
      invariant forall n :: n in left ==> n in px.numbers
      invariant forall i :: 0 <= i < |px.names| && px.names[i] !in left ==>
                              table[i] == AddressOf(addresses, px.names[i])
      decreases |left|
    {
      var name :| name in left;
      var p := px.numbers[name];
      forall i | 0 <= i < |px.names| && px.names[i] == name
        ensures i == p
      {
        DistinctProxies(px.names, i);
      }
      table := table[p := AddressOf(addresses, name)];
      left := left - {name};
    }
  }

  lemma {:induction false} BuiltBehind(start: Bytes, code: seq<Instr>)
    requires start != [] && Last(start) == FAIL
    ensures LastOf(start + EncodeAll(code)) == LastByte(Some(FAIL), code)
  {
    LastAfter(start, code);
  }

  /** Compiles one more state behind those before it. */
  method BuildState(s: State, pkg: Package, px: ProxyTable, addresses: map<Name, nat>, ghost before: seq<State>)
    returns (addresses': map<Name, nat>)
    requires px.Valid() && px.names == EmitStates(before).px && FieldsFit(s.stmt)
    requires pkg.bytecode == HEADER + EncodeAll(EmitStates(before).code)
    requires addresses == EmitStates(before).addresses && EmitStates(before + [s]).ok
    modifies pkg, px
    ensures px.Valid() && px.names == EmitStates(before + [s]).px
    ensures pkg.bytecode == HEADER + EncodeAll(EmitStates(before + [s]).code)
    ensures addresses' == EmitStates(before + [s]).addresses
  {
    ghost var p, e := NextState(before, s);
    BehindHeader(p.code, e.code);
    addresses' := addresses[s.name := |pkg.bytecode|];
    BuildStatement(s.stmt, pkg, px);
  }

  lemma {:induction false} NextState(before: seq<State>, s: State) returns (p: Compiled, e: Emitted)
    ensures p == EmitStates(before) && e == Emit(s.stmt, LastByte(Some(FAIL), p.code), p.px)
    ensures EmitStates(before + [s]).code == p.code + e.code && EmitStates(before + [s]).px == e.px
    ensures EmitStates(before + [s]).addresses == p.addresses[s.name := 8 + Size(p.code)]
    ensures EmitStates(before + [s]).ok ==> e.ok
  {
    p, e := OneMoreState(before, s);
    assert EmitStates(before + [s]) == AddCode(p, s.name, e);
  }

  lemma {:induction false} BehindHeader(code: seq<Instr>, more: seq<Instr>)
    ensures |HEADER + EncodeAll(code)| == 8 + Size(code)
    ensures LastOf(HEADER + EncodeAll(code)) == LastByte(Some(FAIL), code)
    ensures HEADER + EncodeAll(code + more) == HEADER + EncodeAll(code) + EncodeAll(more)
  {
    EncodedSize(code);
    BuiltBehind(HEADER, code);
    AppendCode(HEADER, code, more);
  }

  lemma {:induction false} OneMoreState(before: seq<State>, s: State) returns (p: Compiled, e: Emitted)
    ensures p == EmitStates(before) && e == Emit(s.stmt, LastByte(Some(FAIL), p.code), p.px)
    ensures EmitStates(before + [s]) == AddState(p, s)
  {
    assert Init(before + [s]) == before && Last(before + [s]) == s;
    p := EmitStates(before);
    e := Emit(s.stmt, LastByte(Some(FAIL), p.code), p.px);
  }

  /** Compiles the states in order and remembers their addresses. */
  method BuildStates(states: seq<State>) returns (pkg: Package, px: ProxyTable, addresses: map<Name, nat>)
    requires Buildable(states)
    ensures fresh(pkg) && fresh(px) && px.Valid() && px.names == EmitStates(states).px
    ensures pkg.bytecode == HEADER + EncodeAll(EmitStates(states).code)
    ensures addresses == EmitStates(states).addresses
  {
    px := new ProxyTable();
    pkg := new Package();
    pkg.bytecode := HEADER;
    addresses := map[];
    assert states[..0] == [] && HEADER + [] == HEADER;
    for k := 0 to |states|
      invariant fresh(pkg) && fresh(px) && px.Valid() && px.names == EmitStates(states[..k]).px
      invariant pkg.bytecode == HEADER + EncodeAll(EmitStates(states[..k]).code)
      invariant addresses == EmitStates(states[..k]).addresses
    {
      TakeOneMore(states, k);
      StatesOk(states, k + 1);
      addresses := BuildState(states[k], pkg, px, addresses, states[..k]);
    }
    assert states[..|states|] == states;
  }

  /** Compiles the states and links the gotos.  The result is `None` where the source ends the program. */
  method CompileBytecode(states: seq<State>) returns (bytecode: Option<Bytes>, addresses: map<Name, nat>)
    requires Buildable(states)
    ensures bytecode == Linked(states) && addresses == EmitStates(states).addresses
    ensures bytecode == Some(Wanted(EmitStates(states).code, TableFor(states))) <==> Linkable(states)
  {
    var pkg, px;
    pkg, px, addresses := BuildStates(states);
    var table := MakeTable(px, addresses);
    assert table == TableFor(states);
    var bytes := pkg.bytecode;
    var bc := new nat[|bytes|](i requires 0 <= i < |bytes| => bytes[i]);
    assert bc[..] == bytes;
    var ok := RemapGotoAddresses(bc, table);
    bytecode := if ok then Some(bc[..]) else None;
    LinkableExactly(states);
  }

  lemma {:induction false} StatesOk(states: seq<State>, k: nat)
    requires k <= |states| && EmitStates(states).ok
    ensures EmitStates(states[..k]).ok
  {
    if k < |states| {
      StatesOk(Init(states), k);
      assert Init(states)[..k] == states[..k];
    } else {
      assert states[..k] == states;
    }
  }

  // ----- running a state -----

  /** Where a state of a loaded program lies, and how it was compiled. */
  lemma {:induction false} StateLoaded(states: seq<State>, k: nat, m: Machine, f: nat -> Address)
    returns (last: Option<nat>, px: Proxies, pc: nat)
    requires k < |states| && DistinctNames(states) && Loaded(m, 8, f, EmitStates(states).code)
    requires EmitStates(states).ok
    ensures states[k].name in EmitStates(states).addresses && pc == EmitStates(states).addresses[states[k].name]
    ensures Loaded(m, pc, f, Emit(states[k].stmt, last, px).code) && Emit(states[k].stmt, last, px).ok
    ensures Emit(states[k].stmt, last, px).px <= EmitStates(states).px
  {
    var init, s := Init(states), Last(states);
    var p := EmitStates(init);
    var l := LastByte(Some(FAIL), p.code);
    var e := Emit(s.stmt, l, p.px);
    EmitGrows(s.stmt, l, p.px);
    var mid := LoadedParts(m, 8, f, p.code, e.code);
    if k == |states| - 1 {
      last, px, pc := l, p.px, mid;
    } else {
      last, px, pc := StateLoaded(init, k, m, f);
      assert init[k] == states[k];
    }
  }

  function StateAddress(addresses: map<Name, nat>): Name -> nat {
    (n: Name) => AddressOf(addresses, n)
  }

  lemma {:induction false} TableAgrees(px: Proxies, addresses: map<Name, nat>)
    requires AllBelow(TableOf(px, addresses), WORD32)
    ensures Agrees(px, AddressIn(TableOf(px, addresses)), StateAddress(addresses))
  {
  }

  lemma {:induction false} WantedLoaded(states: seq<State>)
    requires Buildable(states)
    ensures var code, table := EmitStates(states).code, TableFor(states);
            Loaded(MachineOf(Wanted(code, table)), 8, AddressIn(table), code)
  {
    var p, f := EmitStates(states), AddressIn(TableFor(states));
    var bytes := EncodeAll(RetargetAll(f, p.code));
    StatesMade(states, false);
    ValidBelow(p.code, |p.px|, MAX_PROXIES, false);
    assert HEADER + bytes + [] == HEADER + bytes;
    PieceAt(HEADER, bytes, []);
    BytesLoaded(HEADER + bytes, 8, f, p.code);
  }

  lemma {:induction false} StateRuns(states: seq<State>, k: nat, m: Machine, f: nat -> Address, at: Name -> nat, input: seq<Reading>)
    requires Buildable(states) && DistinctNames(states) && k < |states| && Sound(states[k].stmt, false)
    requires Loaded(m, 8, f, EmitStates(states).code) && Agrees(EmitStates(states).px, f, at)
    ensures states[k].name in EmitStates(states).addresses
    ensures Exec(m, EmitStates(states).addresses[states[k].name], input) == Run(states[k].stmt, at, input)
  {
    var last, px, pc := StateLoaded(states, k, m, f);
    var e := Emit(states[k].stmt, last, px);
    AgreesBefore(e.px, EmitStates(states).px, f, at);
    SoundBehind(states[k].stmt, IsOpen(last));
    EmitRuns(states[k].stmt, last, px, f, at, m, pc, input);
  }

  /** The end-to-end theorem: in a linkable program, running the linked bytes at the address of a state that is
      closed, with all blocks in it, is running the state's statement, every named state standing for its own
      address. */
  lemma {:induction false} ProgramMeans(states: seq<State>, k: nat, input: seq<Reading>)
    requires Buildable(states) && DistinctNames(states) && Linkable(states)
    requires k < |states| && Sound(states[k].stmt, false)
    ensures var addresses := EmitStates(states).addresses;
            && Linked(states).Some? && states[k].name in addresses
            && Exec(MachineOf(Linked(states).value), addresses[states[k].name], input)
               == Run(states[k].stmt, StateAddress(addresses), input)
  {
    var p := EmitStates(states);
    var f := AddressIn(TableFor(states));
    LinkableExactly(states);
    TableAgrees(p.px, p.addresses);
    WantedLoaded(states);
    StateRuns(states, k, MachineOf(Linked(states).value), f, StateAddress(p.addresses), input);
  }

  // ----- where states are compiled -----

  /** Every state is compiled behind a sentinel, so a state that compiles to nothing runs the one behind it. */
  lemma {:induction false} NeverOpen(states: seq<State>)
    ensures !IsOpen(LastByte(Some(FAIL), EmitStates(states).code))
  {
    if states != [] {
      NeverOpen(Init(states));
      var p, s := EmitStates(Init(states)), Last(states);
      var l := LastByte(Some(FAIL), p.code);
      ClosedNotOpen(s.stmt, l, p.px);
      LastByteConcat(Some(FAIL), p.code, Emit(s.stmt, l, p.px).code);
    }
  }

  lemma {:induction false} ClosedNotOpen(s: Statement, last: Option<nat>, px: Proxies)
    ensures !IsOpen(LastByte(last, Emit(s, last, px).code))
  {
    var code := HeadCode(s) + if s.branch.None? then [] else EmitBranch(s.branch.value, LastByte(last, HeadCode(s)), px).code;
    assert HeadCode(s) + [] == HeadCode(s);
    assert Emit(s, last, px).code == Close(code, last);
    LastByteOf(last, code, Op(PASS));
  }

  /** The blocks of the last state stay inside their own bytes if and only if the state is sound behind a
      sentinel; so do those of every state, as it is the last one when it is compiled. */
  lemma {:induction false} StateStaysExactly(states: seq<State>, f: nat -> Address)
    requires states != [] && Buildable(states)
    ensures var p, s := EmitStates(Init(states)), Last(states).stmt;
            AllStay(s, LastByte(Some(FAIL), p.code), p.px, f) <==> Sound(s, false)
  {
    var p := EmitStates(Init(states));
    NeverOpen(Init(states));
    BuildableBefore(states);
    StatesMade(Init(states), false);
    StaysInsideExactly(Last(states).stmt, LastByte(Some(FAIL), p.code), p.px, f);
  }
}
