/** Linking: the sweep that replaces proxy numbers by addresses in place
    (crates/radlr-bytecode/build_bytecode.rs:116-155, 235-239). */
module Link {
  import opened Sequences
  import opened Bits
  import opened HashTable
  import opened Bytecode
  import opened Ir
  import opened Compile
  import opened CompileCorrect
  import opened CompileBytes

  /** Eight bytes before the first instruction. */
  const HEADER: Bytes := [0, 0xD2, 0xC1, 0xC4, 0xA0, 0xCC, 0xD2, FAIL]

  // ----- writing numbers -----

  lemma {:induction false} BytePowers()
    ensures Pow2(8) == 0x100 && Pow2(16) == 0x1_0000 && Pow2(24) == 0x100_0000
  {
    assert Pow2(2) == 4;
    Pow2Sum(2, 2);
    Pow2Sum(4, 4);
    Pow2Sum(8, 8);
    Pow2Sum(16, 8);
  }

  /** Masking and shifting a number takes it apart into its bytes. */
  lemma {:induction false} U32Bits(v: nat)
    ensures [And(v, 0xFF), And(Shr(v, 8), 0xFF), And(Shr(v, 16), 0xFF), And(Shr(v, 24), 0xFF)] == U32(v)
  {
    BytePowers();
    BytesOfU32(v);
    ShrIsDiv(v, 8);
    ShrIsDiv(v, 16);
    ShrIsDiv(v, 24);
    AndMask(v, 8);
    AndMask(Shr(v, 8), 8);
    AndMask(Shr(v, 16), 8);
    AndMask(Shr(v, 24), 8);
  }

  method SetU32(bc: array<nat>, offset: nat, v: nat)
    requires offset + 4 <= bc.Length
    modifies bc
    ensures bc[..] == old(bc[..offset]) + U32(v) + old(bc[offset + 4..])
  {
    U32Bits(v);
    bc[offset] := And(v, 0xFF);
    bc[offset + 1] := And(Shr(v, 8), 0xFF);
    bc[offset + 2] := And(Shr(v, 16), 0xFF);
    bc[offset + 3] := And(Shr(v, 24), 0xFF);
    assert bc[offset..offset + 4] == U32(v);
    assert bc[..offset] == old(bc[..offset]) && bc[offset + 4..] == old(bc[offset + 4..]);
    assert bc[..] == bc[..offset] + bc[offset..offset + 4] + bc[offset + 4..];
  }

  /** The number at an offset is replaced by its entry in the table.  Outside the bytes or the table the
      program ends. */
  function Relink(bc: Bytes, table: seq<nat>, offset: nat): (r: Option<Bytes>)
    ensures r.Some? ==> |r.value| == |bc|
  {
    if offset + 4 <= |bc| && ReadU32(bc, offset) < |table|
    then Some(bc[..offset] + U32(table[ReadU32(bc, offset)]) + bc[offset + 4..])
    else None
  }

  /** The same for `n` numbers, one behind another. */
  function RelinkMany(bc: Bytes, table: seq<nat>, offset: nat, n: nat): (r: Option<Bytes>)
    ensures r.Some? ==> |r.value| == |bc|
  {
    if n == 0 then Some(bc)
    else
      var before := RelinkMany(bc, table, offset, n - 1);
      if before.None? then None else Relink(before.value, table, offset + 4 * (n - 1))
  }

  method SetGotoAddress(bc: array<nat>, table: seq<nat>, offset: nat) returns (ok: bool)
    modifies bc
    ensures var r := Relink(old(bc[..]), table, offset); ok == r.Some? && (ok ==> bc[..] == r.value)
  {
    ok := false;
    if offset + 4 <= bc.Length {
      var val := bc[offset] + bc[offset + 1] * 0x100 + bc[offset + 2] * 0x1_0000 + bc[offset + 3] * 0x100_0000;
      assert val == ReadU32(bc[..], offset);
      if val < |table| {
        assert bc[..][..offset] == bc[..offset] && bc[..][offset + 4..] == bc[offset + 4..];
        SetU32(bc, offset, table[val]);
        ok := true;
      }
    }
  }

  method SetGotoAddresses(bc: array<nat>, table: seq<nat>, offset: nat, n: nat) returns (ok: bool)
    modifies bc
    ensures var r := RelinkMany(old(bc[..]), table, offset, n); ok == r.Some? && (ok ==> bc[..] == r.value)
  {
    ghost var start := bc[..];
    ok := true;
    for k := 0 to n
      invariant ok && RelinkMany(start, table, offset, k) == Some(bc[..])
    {
      ok := SetGotoAddress(bc, table, offset + 4 * k);
      if !ok {
        NoneAfter(start, table, offset, k + 1, n);
        return;
      }
    }
  }

  lemma {:induction false} NoneAfter(bc: Bytes, table: seq<nat>, offset: nat, k: nat, n: nat)
    requires k <= n && RelinkMany(bc, table, offset, k).None?
    ensures RelinkMany(bc, table, offset, n).None?
  {
    if k < n {
      NoneAfter(bc, table, offset, k, n - 1);
    }
  }

  // ----- the sweep -----

  /** One step of the sweep: the bytes it leaves and how far it moves, or the end of the program. */
  datatype Jump = Jump(bc: Bytes, step: nat) | Stop

  function Over(r: Option<Bytes>, step: nat): Jump {
    if r.None? then Stop else Jump(r.value, step)
  }

  /** What the sweep does at an address, whatever the bytes there are. */
  function SweepStep(bc: Bytes, table: seq<nat>, pc: nat): (j: Jump)
    requires pc < |bc|
    ensures j.Jump? ==> |j.bc| == |bc| && j.step >= 1
  {
    var op := bc[pc];
    if op == HASH_BRANCH then
      if pc + 18 <= |bc| && IsInputKind(bc[pc + 1]) then
        Over(if ReadU32(bc, pc + 6) == NO_SCANNER then Some(bc) else Relink(bc, table, pc + 6),
             18 + 4 * ReadU32(bc, pc + 10) % WORD32)
      else Stop
    else if op == GOTO || op == PUSH_GOTO || op == PUSH_EXCEPTION_HANDLER then Over(Relink(bc, table, pc + 2), 6)
    else if op == FORK then
      if pc + 3 <= |bc| then
        Over(RelinkMany(bc, table, pc + 3, ReadU16(bc, pc + 1)), 3 + ReadU16(bc, pc + 1) + 4)
      else Stop
    else if op == BYTE_SEQUENCE then if pc + 3 <= |bc| then Jump(bc, 7 + ReadU16(bc, pc + 1)) else Stop
    else if op == VECTOR_BRANCH then Stop
    else if op == REDUCE then Jump(bc, 11)
    else if op == ASSIGN_TOKEN then Jump(bc, 5)
    else Jump(bc, 1)
  }

  /** The bytes that the sweep leaves when it starts at an address, if it gets to the end. */
  function Sweep(bc: Bytes, table: seq<nat>, pc: nat): (r: Option<Bytes>)
    ensures r.Some? ==> |r.value| == |bc|
    decreases |bc| - pc
  {
    if pc >= |bc| then Some(bc)
    else
      match SweepStep(bc, table, pc)
      case Stop => None
      case Jump(bc', step) => Sweep(bc', table, pc + step)
  }

  /** Links the instruction at an address and tells how far to move. */
  method LinkInstruction(bc: array<nat>, table: seq<nat>, i: nat) returns (ok: bool, step: nat)
    requires i < bc.Length
    modifies bc
    ensures match SweepStep(old(bc[..]), table, i)
            case Stop => !ok
            case Jump(bytes, s) => ok && bc[..] == bytes && step == s
  {
    ok, step := true, 1;
    ghost var start := bc[..];
    var op := bc[i];
    assert op == start[i];
    if op == HASH_BRANCH {
      ok := i + 18 <= bc.Length && IsInputKind(bc[i + 1]);
      if ok {
        step := 18 + 4 * ReadU32(bc[..], i + 10) % WORD32;
        if ReadU32(bc[..], i + 6) != NO_SCANNER {
          ok := SetGotoAddress(bc, table, i + 6);
        }
      }
    } else if op == GOTO || op == PUSH_GOTO || op == PUSH_EXCEPTION_HANDLER {
      ok := SetGotoAddress(bc, table, i + 2);
      step := 6;
    } else if op == FORK {
      ok := i + 3 <= bc.Length;
      if ok {
        var len := ReadU16(bc[..], i + 1);
        step := 3 + len + 4;
        ok := SetGotoAddresses(bc, table, i + 3, len);
      }
    } else if op == BYTE_SEQUENCE {
      ok := i + 3 <= bc.Length;
      if ok {
        step := 7 + ReadU16(bc[..], i + 1);
      }
    } else if op == VECTOR_BRANCH {
      ok := false;
    } else if op == REDUCE {
      step := 11;
    } else if op == ASSIGN_TOKEN {
      step := 5;
    }
  }

  /** The sweep in place.  `ok` is false where the source ends the program. */
  method RemapGotoAddresses(bc: array<nat>, table: seq<nat>) returns (ok: bool)
    modifies bc
    ensures var r := Sweep(old(bc[..]), table, |HEADER|); ok == r.Some? && (ok ==> bc[..] == r.value)
  {
    var i := |HEADER|;
    ok := true;
    while i < bc.Length
      invariant ok && Sweep(bc[..], table, i) == Sweep(old(bc[..]), table, |HEADER|)
      decreases bc.Length - i
    {
      ghost var before := bc[..];
      var step;
      ok, step := LinkInstruction(bc, table, i);
      if !ok {
        assert SweepStep(before, table, i).Stop?;
        return;
      }
      assert SweepStep(before, table, i) == Jump(bc[..], step);
      i := i + step;
    }
  }

  // ----- the slot of an instruction -----

  /** Where an instruction holds a proxy number, and which. */
  function SlotOf(i: Instr): Option<nat> {
    match i
    case PushGoto(_) => Some(2)
    case Goto(_) => Some(2)
    case HashBranch(_, _, s, _, _) => if s == NO_SCANNER then None else Some(6)
    case _ => None
  }

  function ProxyIn(i: Instr): nat
    requires SlotOf(i).Some?
  {
    match i
    case PushGoto(t) => t
    case Goto(t) => t
    case HashBranch(_, _, s, _, _) => s
  }

  /** The bytes of an instruction around its slot. */
  function Before(i: Instr): Bytes
    requires SlotOf(i).Some?
  {
    match i
    case PushGoto(_) => [PUSH_GOTO, NORMAL_STATE_FLAG]
    case Goto(_) => [GOTO, NORMAL_STATE_FLAG]
    case HashBranch(k, d, _, _, _) => [HASH_BRANCH, k] + U32(d)
  }

  function Behind(i: Instr): Bytes
    requires SlotOf(i).Some?
  {
    match i
    case HashBranch(_, _, _, m, cs) => U32(|cs|) + U32(m) + U32s(cs)
    case _ => []
  }

  lemma {:induction false} AroundSlot(f: nat -> Address, i: Instr)
    requires SlotOf(i).Some?
    ensures |Before(i)| == SlotOf(i).value
    ensures Encode(i) == Before(i) + U32(ProxyIn(i)) + Behind(i)
    ensures Encode(Retarget(f, i)) == Before(i) + U32(f(ProxyIn(i))) + Behind(i)
  {
    if i.HashBranch? {
      var k, d, s, m, cs := i.kind, i.default_, i.scanner, i.modBase, i.cells;
      FiveParts([HASH_BRANCH, k] + U32(d), U32(s), U32(|cs|), U32(m), U32s(cs));
      FiveParts([HASH_BRANCH, k] + U32(d), U32(f(s)), U32(|cs|), U32(m), U32s(cs));
    } else {
      assert Before(i) + U32(ProxyIn(i)) + [] == Before(i) + U32(ProxyIn(i));
      assert Before(i) + U32(f(ProxyIn(i))) + [] == Before(i) + U32(f(ProxyIn(i)));
    }
  }

  lemma {:induction false} FiveParts(a: Bytes, b: Bytes, c: Bytes, d: Bytes, e: Bytes)
    ensures a + b + c + d + e == a + b + (c + d + e)
  {
  }

  lemma {:induction false} NoSlot(f: nat -> Address, i: Instr)
    requires SlotOf(i).None? && !i.Fork?
    ensures Retarget(f, i) == i
  {
  }

  // ----- the whole program -----

  /** The address that the table gives to a proxy number. */
  function AddressIn(table: seq<nat>): nat -> Address
    requires AllBelow(table, WORD32)
  {
    (p: nat) => if p < |table| then table[p] else 0
  }

  /** The program in the middle of the sweep: instructions before `k` are linked. */
  function Swept(code: seq<Instr>, f: nat -> Address, k: nat): Bytes
    requires k <= |code|
  {
    HEADER + EncodeAll(RetargetAll(f, code[..k])) + EncodeAll(code[k..])
  }

  lemma {:induction false} SweptNext(code: seq<Instr>, f: nat -> Address, k: nat) returns (pre: Bytes, post: Bytes)
    requires k < |code|
    ensures |pre| == 8 + Size(code[..k]) && Size(code[..k + 1]) == Size(code[..k]) + Len(code[k])
    ensures Swept(code, f, k) == pre + Encode(code[k]) + post
    ensures Swept(code, f, k + 1) == pre + Encode(Retarget(f, code[k])) + post
  {
    TakeOneMore(code, k);
    DropFirst(code, k);
    RetargetSize(f, code[..k]);
    EncodedSize(RetargetAll(f, code[..k]));
    pre := HEADER + EncodeAll(RetargetAll(f, code[..k]));
    post := EncodeAll(code[k + 1..]);
    EncodeConcat([code[k]], code[k + 1..]);
    EncodeOne(code[k]);
    Assoc(pre, Encode(code[k]), post);
    RetargetConcat(f, code[..k], [code[k]]);
    EncodeSnoc(RetargetAll(f, code[..k]), Retarget(f, code[k]));
    Assoc(HEADER, EncodeAll(RetargetAll(f, code[..k])), Encode(Retarget(f, code[k])));
  }

  lemma {:induction false} EncodeSnoc(code: seq<Instr>, i: Instr)
    ensures EncodeAll(code + [i]) == EncodeAll(code) + Encode(i)
  {
    EncodeConcat(code, [i]);
    EncodeOne(i);
  }

  lemma {:induction false} SweptStart(code: seq<Instr>, f: nat -> Address)
    ensures Swept(code, f, 0) == HEADER + EncodeAll(code)
    ensures Swept(code, f, |code|) == HEADER + EncodeAll(RetargetAll(f, code))
  {
    assert code[..0] == [] && code[0..] == code;
    assert code[..|code|] == code && code[|code|..] == [];
    assert HEADER + [] == HEADER;
    var bytes := HEADER + EncodeAll(RetargetAll(f, code));
    assert bytes + [] == bytes;
  }

  lemma {:induction false} PieceAt(pre: Bytes, mid: Bytes, post: Bytes)
    ensures HasAt(pre + mid + post, |pre|, mid)
  {
    forall j | 0 <= j < |mid|
      ensures (pre + mid + post)[|pre| + j] == mid[j]
    {
    }
  }

  lemma {:induction false} MiddleReplaced(pre: Bytes, a: Bytes, t: Bytes, v: Bytes, b: Bytes, post: Bytes)
    ensures var bc, o := pre + (a + t + b) + post, |pre| + |a|;
            && HasAt(bc, o, t) && bc[..o] + v + bc[o + |t|..] == pre + (a + v + b) + post
  {
    var bc, o := pre + (a + t + b) + post, |pre| + |a|;
    assert bc == (pre + a) + t + (b + post);
    PieceAt(pre + a, t, b + post);
    assert bc[..o] == pre + a && bc[o + |t|..] == b + post;
    assert (pre + a) + v + (b + post) == pre + (a + v + b) + post;
  }

  /** Replacing the slot of an instruction in the program replaces the instruction by the linked one. */
  lemma {:induction false} SlotReplaced(f: nat -> Address, i: Instr, pre: Bytes, post: Bytes)
    requires SlotOf(i).Some? && ProxyIn(i) < WORD32
    ensures var bc, o := pre + Encode(i) + post, |pre| + SlotOf(i).value;
            && o + 4 <= |bc| && ReadU32(bc, o) == ProxyIn(i)
            && bc[..o] + U32(f(ProxyIn(i))) + bc[o + 4..] == pre + Encode(Retarget(f, i)) + post
  {
    AroundSlot(f, i);
    MiddleReplaced(pre, Before(i), U32(ProxyIn(i)), U32(f(ProxyIn(i))), Behind(i), post);
    ReadBackU32(pre + Encode(i) + post, |pre| + SlotOf(i).value, ProxyIn(i));
  }

  /** What the sweep reads at the start of an instruction. */
  lemma {:induction false} StepAt(bc: Bytes, table: seq<nat>, pc: nat, i: Instr)
    requires Valid(i) && HasAt(bc, pc, Encode(i))
    ensures pc < |bc|
    ensures SweepStep(bc, table, pc)
         == if i.Fork? then Over(RelinkMany(bc, table, pc + 3, |i.targets|), 7 + |i.targets|)
            else if SlotOf(i).Some? then Over(Relink(bc, table, pc + SlotOf(i).value), Len(i))
            else Jump(bc, Len(i))
  {
    EncodedLen(i);
    assert bc[pc] == Encode(i)[0];
    if i.HashBranch? {
      HashHeader(bc, pc, i);
    } else if i.ByteSequence? {
      SequenceHeader(bc, pc, i);
    } else if i.Fork? {
      ForkHeader(bc, pc, i);
    }
  }

  lemma {:induction false} SequenceHeader(bc: Bytes, pc: nat, i: Instr)
    requires i.ByteSequence? && Valid(i) && HasAt(bc, pc, Encode(i))
    ensures pc + 3 <= |bc| && bc[pc] == BYTE_SEQUENCE && ReadU16(bc, pc + 1) == |i.bytes|
  {
    assert bc[pc] == Encode(i)[0];
    HasParts(bc, pc, [BYTE_SEQUENCE] + U16(|i.bytes|) + U32(i.default_), i.bytes);
    HasParts(bc, pc, [BYTE_SEQUENCE] + U16(|i.bytes|), U32(i.default_));
    HasParts(bc, pc, [BYTE_SEQUENCE], U16(|i.bytes|));
    ReadBackU16(bc, pc + 1, |i.bytes|);
  }

  lemma {:induction false} ForkHeader(bc: Bytes, pc: nat, i: Instr)
    requires i.Fork? && Valid(i) && HasAt(bc, pc, Encode(i))
    ensures pc + 3 <= |bc| && bc[pc] == FORK && ReadU16(bc, pc + 1) == |i.targets|
  {
    assert bc[pc] == Encode(i)[0];
    HasParts(bc, pc, [FORK] + U16(|i.targets|), U32s(i.targets));
    HasParts(bc, pc, [FORK], U16(|i.targets|));
    ReadBackU16(bc, pc + 1, |i.targets|);
  }

  /** At the start of an instruction that is no fork, the sweep links it and moves behind it. */
  lemma {:induction false} StepLinks(table: seq<nat>, i: Instr, pre: Bytes, post: Bytes)
    requires AllBelow(table, WORD32) && Valid(i) && Targets(i, |table|) && !i.Fork?
    ensures |pre| < |pre + Encode(i) + post|
    ensures SweepStep(pre + Encode(i) + post, table, |pre|)
         == Jump(pre + Encode(Retarget(AddressIn(table), i)) + post, Len(i))
  {
    var f := AddressIn(table);
    PieceAt(pre, Encode(i), post);
    StepAt(pre + Encode(i) + post, table, |pre|, i);
    if SlotOf(i).Some? {
      SlotReplaced(f, i, pre, post);
    } else {
      NoSlot(f, i);
    }
  }

  lemma {:induction false} TargetReplaced(table: seq<nat>, t: nat, pre: Bytes, post: Bytes)
    requires AllBelow(table, WORD32) && t < |table| && t < WORD32
    ensures Relink(pre + U32(t) + post, table, |pre|) == Some(pre + U32(AddressIn(table)(t)) + post)
  {
    var bc := pre + U32(t) + post;
    PieceAt(pre, U32(t), post);
    ReadBackU32(bc, |pre|, t);
    assert bc[..|pre|] == pre && bc[|pre| + 4..] == post;
  }

  lemma {:induction false} SplitTargets(ts: seq<nat>, n: nat)
    requires n < |ts|
    ensures U32s(ts[..n + 1]) == U32s(ts[..n]) + U32(ts[n]) && U32s(ts[n..]) == U32(ts[n]) + U32s(ts[n + 1..])
  {
    TakeOneMore(ts, n);
    DropFirst(ts, n);
    U32sConcat([ts[n]], ts[n + 1..]);
    assert Init([ts[n]]) == [] && U32s([ts[n]]) == U32(ts[n]);
  }

  lemma {:induction false} U32sConcat(a: seq<nat>, b: seq<nat>)
    ensures U32s(a + b) == U32s(a) + U32s(b)
  {
    if b == [] {
      assert a + b == a;
    } else {
      assert Init(a + b) == a + Init(b) && Last(a + b) == Last(b);
      U32sConcat(a, Init(b));
      Assoc(U32s(a), U32s(Init(b)), U32(Last(b)));
    }
  }

  lemma {:induction false} NamesTake(f: nat -> Address, ts: seq<nat>, n: nat)
    requires n < |ts|
    ensures RetargetNames(f, ts[..n + 1]) == RetargetNames(f, ts[..n]) + [f(ts[n])]
    ensures U32s(RetargetNames(f, ts[..n + 1])) == U32s(RetargetNames(f, ts[..n])) + U32(f(ts[n]))
  {
    TakeOneMore(ts, n);
    var r := RetargetNames(f, ts[..n]);
    assert Init(r + [f(ts[n])]) == r;
  }

  lemma {:induction false} NothingReplaced(table: seq<nat>, ts: seq<nat>, pre: Bytes, post: Bytes)
    requires AllBelow(table, WORD32)
    ensures PartlyLinked(table, ts, 0, pre, post) == pre + U32s(ts) + post
  {
    assert ts[..0] == [] && ts[0..] == ts;
    assert U32s(RetargetNames(AddressIn(table), [])) == [];
    assert pre + [] == pre;
  }

  lemma {:induction false} AllReplaced(table: seq<nat>, ts: seq<nat>, pre: Bytes, post: Bytes)
    requires AllBelow(table, WORD32)
    ensures PartlyLinked(table, ts, |ts|, pre, post) == pre + U32s(RetargetNames(AddressIn(table), ts)) + post
  {
    assert ts[..|ts|] == ts && ts[|ts|..] == [];
    var linked := U32s(RetargetNames(AddressIn(table), ts));
    assert pre + linked + [] == pre + linked;
  }

  /** Each state of the bytes comes from the one before it by relinking the next number. */
  ghost predicate RelinkedInTurn(states: seq<Bytes>, table: seq<nat>, offset: nat) {
    forall n :: 0 <= n < |states| - 1 ==> RelinkedNext(states, table, offset, n)
  }

  ghost predicate RelinkedNext(states: seq<Bytes>, table: seq<nat>, offset: nat, n: nat)
    requires n < |states| - 1
  {
    Relink(states[n], table, offset + 4 * n) == Some(states[n + 1])
  }

  lemma {:induction false} ManyRelinked(states: seq<Bytes>, table: seq<nat>, offset: nat, n: nat)
    requires n < |states| && RelinkedInTurn(states, table, offset)
    ensures RelinkMany(states[0], table, offset, n) == Some(states[n])
  {
    if n > 0 {
      ManyRelinked(states, table, offset, n - 1);
      assert RelinkedNext(states, table, offset, n - 1);
    }
  }

  /** Relinking the targets of a fork one after another replaces them all. */
  lemma {:induction false} TargetsReplaced(table: seq<nat>, ts: seq<nat>, pre: Bytes, post: Bytes)
    requires AllBelow(table, WORD32) && AllBelow(ts, |table|) && AllBelow(ts, WORD32)
    ensures RelinkMany(pre + U32s(ts) + post, table, |pre|, |ts|)
         == Some(pre + U32s(RetargetNames(AddressIn(table), ts)) + post)
  {
    var states := seq(|ts| + 1, n requires 0 <= n <= |ts| => PartlyLinked(table, ts, n, pre, post));
    forall n | 0 <= n < |ts|
      ensures RelinkedNext(states, table, |pre|, n)
    {
      NextTarget(table, ts, n, pre, post);
    }
    ManyRelinked(states, table, |pre|, |ts|);
    NothingReplaced(table, ts, pre, post);
    AllReplaced(table, ts, pre, post);
  }

  function PartlyLinked(table: seq<nat>, ts: seq<nat>, n: nat, pre: Bytes, post: Bytes): Bytes
    requires AllBelow(table, WORD32) && n <= |ts|
  {
    pre + U32s(RetargetNames(AddressIn(table), ts[..n])) + U32s(ts[n..]) + post
  }

  lemma {:induction false} AroundTarget(table: seq<nat>, ts: seq<nat>, n: nat, pre: Bytes, post: Bytes)
    returns (before: Bytes, behind: Bytes)
    requires AllBelow(table, WORD32) && n < |ts|
    ensures |before| == |pre| + 4 * n
    ensures PartlyLinked(table, ts, n, pre, post) == before + U32(ts[n]) + behind
    ensures PartlyLinked(table, ts, n + 1, pre, post) == before + U32(AddressIn(table)(ts[n])) + behind
  {
    var f := AddressIn(table);
    SplitTargets(ts, n);
    NamesTake(f, ts, n);
    var done, rest := U32s(RetargetNames(f, ts[..n])), U32s(ts[n + 1..]);
    var t, t' := U32(ts[n]), U32(f(ts[n]));
    FourPieces(pre, done, t, rest, post);
    FourPieces(pre, done, t', rest, post);
    before, behind := pre + done, rest + post;
  }

  lemma {:induction false} NextTarget(table: seq<nat>, ts: seq<nat>, n: nat, pre: Bytes, post: Bytes)
    requires AllBelow(table, WORD32) && n < |ts| && ts[n] < |table| && ts[n] < WORD32
    ensures Relink(PartlyLinked(table, ts, n, pre, post), table, |pre| + 4 * n)
         == Some(PartlyLinked(table, ts, n + 1, pre, post))
  {
    var before, behind := AroundTarget(table, ts, n, pre, post);
    TargetReplaced(table, ts[n], before, behind);
  }

  lemma {:induction false} FourPieces(a: Bytes, b: Bytes, c: Bytes, d: Bytes, e: Bytes)
    ensures a + b + (c + d) + e == (a + b) + c + (d + e) && a + (b + c) + d + e == (a + b) + c + (d + e)
  {
  }

  /** At the start of a fork, the sweep links all its targets, but moves as if each took one byte. */
  lemma {:induction false} ForkLinks(table: seq<nat>, i: Instr, pre: Bytes, post: Bytes)
    requires AllBelow(table, WORD32) && Valid(i) && Targets(i, |table|) && i.Fork?
    ensures |pre| < |pre + Encode(i) + post|
    ensures SweepStep(pre + Encode(i) + post, table, |pre|)
         == Jump(pre + Encode(Retarget(AddressIn(table), i)) + post, 7 + |i.targets|)
  {
    var ts, f := i.targets, AddressIn(table);
    var head := [FORK] + U16(|ts|);
    PieceAt(pre, Encode(i), post);
    StepAt(pre + Encode(i) + post, table, |pre|, i);
    TargetsReplaced(table, ts, pre + head, post);
    Assoc(pre, head, U32s(ts));
    var linked := U32s(RetargetNames(f, ts));
    Assoc(pre, head, linked);
  }

  // ----- exactly when the sweep links a program -----

  /** The address of an instruction. */
  function Start(code: seq<Instr>, k: nat): nat
    requires k <= |code|
  {
    8 + Size(code[..k])
  }

  /** The sweep at an address of the bytes. */
  datatype Place = Place(bc: Bytes, pc: nat)

  /** The places where the sweep should pass: at each instruction and at the end of the program, the
      instructions before it linked and nothing else changed. */
  function Track(code: seq<Instr>, f: nat -> Address): (track: seq<Place>)
    ensures |track| == |code| + 1
  {
    seq(|code| + 1, k requires 0 <= k <= |code| => Place(Swept(code, f, k), Start(code, k)))
  }

  /** Where the sweep, set down anywhere, is on track again: the number of the place that it meets from
      place `k` on. */
  function Detour(track: seq<Place>, table: seq<nat>, at: Place, k: nat): (j: Option<nat>)
    requires k < |track|
    ensures j.Some? ==> k <= j.value < |track|
    decreases |at.bc| - at.pc, |track| - k
  {
    if at.pc >= |at.bc| then if at.bc == Last(track).bc then Some(|track| - 1) else None
    else if track[k].pc <= at.pc && k < |track| - 1 then
      if at == track[k] then Some(k) else Detour(track, table, at, k + 1)
    else
      match SweepStep(at.bc, table, at.pc)
      case Stop => None
      case Jump(bc, step) => Detour(track, table, Place(bc, at.pc + step), k)
  }

  /** Where the sweep is set down behind a fork: the fork is linked, but one byte is taken for each target. */
  function BehindFork(track: seq<Place>, k: nat, targets: nat): Place
    requires k < |track| - 1
  {
    Place(track[k + 1].bc, track[k].pc + 7 + targets)
  }

  /** From a place on, the detour behind each fork that the sweep meets leads back on track. */
  predicate Returning(code: seq<Instr>, track: seq<Place>, table: seq<nat>, k: nat)
    requires |track| == |code| + 1 && k <= |code|
    decreases |code| - k
  {
    if k == |code| then true
    else if !code[k].Fork? then Returning(code, track, table, k + 1)
    else
      var j := Detour(track, table, BehindFork(track, k, |code[k].targets|), k + 1);
      j.Some? && Returning(code, track, table, j.value)
  }

  /** The detour behind each fork of the program leads back on track. */
  predicate ForksReturn(code: seq<Instr>, table: seq<nat>)
    requires AllBelow(table, WORD32)
  {
    Returning(code, Track(code, AddressIn(table)), table, 0)
  }

  /** The bytes of the program, every name replaced by its address and nothing else changed. */
  function Wanted(code: seq<Instr>, table: seq<nat>): Bytes
    requires AllBelow(table, WORD32)
  {
    HEADER + EncodeAll(RetargetAll(AddressIn(table), code))
  }

  /** The sweep moves from a place of the track over one instruction. */
  predicate MovesOn(track: seq<Place>, table: seq<nat>, i: Instr, k: nat)
    requires k < |track| - 1
  {
    && track[k].pc < |track[k].bc| && track[k + 1].pc == track[k].pc + Len(i)
    && SweepStep(track[k].bc, table, track[k].pc) == Jump(track[k + 1].bc, if i.Fork? then 7 + |i.targets| else Len(i))
  }

  ghost predicate IsTrack(code: seq<Instr>, track: seq<Place>, table: seq<nat>) {
    && |track| == |code| + 1
    && (forall k :: 0 <= k < |code| ==> MovesOn(track, table, code[k], k))
    && (forall k :: 0 <= k <= |code| ==> |track[k].bc| == Last(track).pc)
  }

  lemma {:induction false} TrackMoves(code: seq<Instr>, table: seq<nat>, k: nat)
    requires AllBelow(table, WORD32) && AllValid(code, |table|, false) && k < |code|
    ensures MovesOn(Track(code, AddressIn(table)), table, code[k], k)
  {
    var f, i := AddressIn(table), code[k];
    var pre, post := SweptNext(code, f, k);
    if i.Fork? {
      ForkLinks(table, i, pre, post);
    } else {
      StepLinks(table, i, pre, post);
    }
  }

  lemma {:induction false} TrackIsTrack(code: seq<Instr>, table: seq<nat>)
    requires AllBelow(table, WORD32) && AllValid(code, |table|, false)
    ensures IsTrack(code, Track(code, AddressIn(table)), table)
  {
    var track := Track(code, AddressIn(table));
    forall k | 0 <= k < |code|
      ensures MovesOn(track, table, code[k], k)
    {
      TrackMoves(code, table, k);
    }
    assert code[..|code|] == code;
    forall k | 0 <= k <= |code|
      ensures |track[k].bc| == Last(track).pc
    {
      SweptEnd(code, AddressIn(table), k);
    }
  }

  lemma {:induction false} TrackPlace(code: seq<Instr>, table: seq<nat>, k: nat)
    requires AllBelow(table, WORD32) && k <= |code|
    ensures Track(code, AddressIn(table))[k] == Place(Swept(code, AddressIn(table), k), Start(code, k))
  {
  }

  lemma {:induction false} WholeTrack(code: seq<Instr>, table: seq<nat>) returns (track: seq<Place>)
    requires AllBelow(table, WORD32) && AllValid(code, |table|, false)
    ensures track == Track(code, AddressIn(table)) && IsTrack(code, track, table)
    ensures track[0].bc == HEADER + EncodeAll(code) && track[0].pc == |HEADER| && Last(track).bc == Wanted(code, table)
  {
    track := Track(code, AddressIn(table));
    SweptStart(code, AddressIn(table));
    assert code[..0] == [];
    TrackPlace(code, table, 0);
    TrackPlace(code, table, |code|);
    TrackIsTrack(code, table);
  }

  /** A detour that comes back changes nothing of what the sweep leaves in the end; one that does not come
      back leaves other bytes than wanted, or none. */
  lemma {:induction false} DetourDecides(track: seq<Place>, table: seq<nat>, at: Place, k: nat)
    requires k < |track| && |at.bc| == Last(track).pc == |Last(track).bc|
    ensures var j := Detour(track, table, at, k);
            if j.Some? then Sweep(at.bc, table, at.pc) == Sweep(track[j.value].bc, table, track[j.value].pc)
            else Sweep(at.bc, table, at.pc) != Some(Last(track).bc)
    decreases |at.bc| - at.pc, |track| - k
  {
    if at.pc < |at.bc| {
      if track[k].pc <= at.pc && k < |track| - 1 {
        if at != track[k] {
          DetourDecides(track, table, at, k + 1);
        }
      } else if SweepStep(at.bc, table, at.pc).Jump? {
        var j := SweepStep(at.bc, table, at.pc);
        DetourDecides(track, table, Place(j.bc, at.pc + j.step), k);
      }
    }
  }

  /** What the sweep leaves from a place of the track. */
  function SweepAt(track: seq<Place>, table: seq<nat>, k: nat): Option<Bytes>
    requires k < |track|
  {
    Sweep(track[k].bc, table, track[k].pc)
  }

  lemma {:induction false} PlainMoves(track: seq<Place>, table: seq<nat>, i: Instr, k: nat)
    requires k < |track| - 1 && MovesOn(track, table, i, k) && !i.Fork?
    ensures SweepAt(track, table, k) == SweepAt(track, table, k + 1)
  {
  }

  lemma {:induction false} ForkThen(track: seq<Place>, table: seq<nat>, ts: seq<nat>, k: nat)
    requires k < |track| - 1 && MovesOn(track, table, Fork(ts), k)
    ensures var at := BehindFork(track, k, |ts|); SweepAt(track, table, k) == Sweep(at.bc, table, at.pc)
  {
  }

  lemma {:induction false} ForkDecides(track: seq<Place>, table: seq<nat>, ts: seq<nat>, k: nat)
    requires k < |track| - 1 && MovesOn(track, table, Fork(ts), k)
    requires |track[k + 1].bc| == Last(track).pc == |Last(track).bc|
    ensures var j := Detour(track, table, BehindFork(track, k, |ts|), k + 1);
            if j.Some? then SweepAt(track, table, k) == SweepAt(track, table, j.value)
            else SweepAt(track, table, k) != Some(Last(track).bc)
  {
    ForkThen(track, table, ts, k);
    DetourDecides(track, table, BehindFork(track, k, |ts|), k + 1);
  }

  lemma {:induction false} AtTheEnd(track: seq<Place>, table: seq<nat>)
    requires track != [] && |Last(track).bc| == Last(track).pc
    ensures SweepAt(track, table, |track| - 1) == Some(Last(track).bc)
  {
  }

  lemma {:induction false} LinkedFrom(code: seq<Instr>, track: seq<Place>, table: seq<nat>, k: nat)
    requires IsTrack(code, track, table) && k <= |code|
    ensures SweepAt(track, table, k) == Some(Last(track).bc) <==> Returning(code, track, table, k)
    decreases |code| - k
  {
    if k == |code| {
      AtTheEnd(track, table);
    } else {
      assert MovesOn(track, table, code[k], k);
      if code[k].Fork? {
        var ts := code[k].targets;
        ForkDecides(track, table, ts, k);
        var j := Detour(track, table, BehindFork(track, k, |ts|), k + 1);
        if j.Some? {
          LinkedFrom(code, track, table, j.value);
        }
      } else {
        PlainMoves(track, table, code[k], k);
        LinkedFrom(code, track, table, k + 1);
      }
    }
  }

  /** The sweep writes the address of every name into its slot, changes no other byte and gets to the end,
      if and only if the detour behind each fork leads back on track. */
  lemma {:induction false} LinkedExactly(code: seq<Instr>, table: seq<nat>)
    requires AllBelow(table, WORD32) && AllValid(code, |table|, false)
    ensures Sweep(HEADER + EncodeAll(code), table, |HEADER|) == Some(Wanted(code, table)) <==> ForksReturn(code, table)
  {
    var track := WholeTrack(code, table);
    LinkedFrom(code, track, table, 0);
  }

  /** In particular it links every program without forks. */
  lemma {:induction false} ForkFreeReturns(code: seq<Instr>, track: seq<Place>, table: seq<nat>, k: nat)
    requires |track| == |code| + 1 && k <= |code| && forall i :: 0 <= i < |code| ==> !code[i].Fork?
    ensures Returning(code, track, table, k)
    decreases |code| - k
  {
    if k < |code| {
      ForkFreeReturns(code, track, table, k + 1);
    }
  }

  /** The sweep has ended when all instructions are linked, and not before. */
  lemma {:induction false} SweptEnd(code: seq<Instr>, f: nat -> Address, k: nat)
    requires k <= |code|
    ensures |Swept(code, f, k)| == 8 + Size(code)
    ensures 8 + Size(code[..k]) < |Swept(code, f, k)| <==> k < |code|
  {
    RetargetSize(f, code[..k]);
    EncodedSize(RetargetAll(f, code[..k]));
    EncodedSize(code[k..]);
    assert code == code[..k] + code[k..];
    SizeConcat(code[..k], code[k..]);
    if k < |code| {
      assert code[k..] != [];
      EncodedLen(Last(code[k..]));
    }
  }

  lemma {:induction false} SizeConcat(a: seq<Instr>, b: seq<Instr>)
    ensures Size(a + b) == Size(a) + Size(b)
  {
    if b == [] {
      assert a + b == a;
    } else {
      assert Init(a + b) == a + Init(b) && Last(a + b) == Last(b);
      SizeConcat(a, Init(b));
    }
  }
}
