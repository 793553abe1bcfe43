/** The sweep behind a fork, decided from the addresses of its paths alone.

    The sweep takes one byte for each path where the fork has four (crates/radlr-bytecode/build_bytecode.rs:142-149),
    so it goes on inside the addresses that it has just written, taking their bytes for opcodes. */
module LinkForks {
  import opened Sequences
  import opened Bytecode
  import opened Ir
  import opened Compile
  import opened CompileCorrect
  import opened CompileBytes
  import opened Link

  /** How the walk through the addresses of a fork ends: back at the closing PASS or right behind it, at an
      opcode that ends the program or writes over an address, or somewhere in the code that follows. */
  datatype Walk = Back | Meets(offset: nat) | Leaves

  /** How far the sweep moves where it does not write. */
  function Quiet(area: Bytes, i: nat): (step: Option<nat>)
    requires i + 1 < |area|
    ensures step.Some? ==> step.value >= 1
  {
    var op := area[i];
    if op in {HASH_BRANCH, GOTO, PUSH_GOTO, PUSH_EXCEPTION_HANDLER, VECTOR_BRANCH} then None
    else if op == FORK then if i + 3 <= |area| && ReadU16(area, i + 1) == 0 then Some(7) else None
    else if op == BYTE_SEQUENCE then if i + 3 <= |area| then Some(7 + ReadU16(area, i + 1)) else None
    else if op == REDUCE then Some(11)
    else if op == ASSIGN_TOKEN then Some(5)
    else Some(1)
  }

  /** Where the sweep writes, counted from the opcode; an opcode that ends the program stands for a write. */
  function WriteAt(op: nat): nat {
    if op == HASH_BRANCH then 6 else if op == FORK then 3 else 2
  }

  /** A write that begins at an address of the fork, or else in the code behind it. */
  function Loud(area: Bytes, i: nat): Walk
    requires i + 1 < |area|
  {
    if area[i] == VECTOR_BRANCH || (area[i] != BYTE_SEQUENCE && i + WriteAt(area[i]) + 1 < |area|) then Meets(i)
    else Leaves
  }

  /** The walk over the addresses of a fork and its closing PASS. */
  function WalkFork(area: Bytes, i: nat): Walk
    decreases |area| - i
  {
    if i > |area| then Leaves
    else if i + 1 >= |area| then Back
    else if Quiet(area, i).Some? then WalkFork(area, i + Quiet(area, i).value)
    else Loud(area, i)
  }

  /** The addresses of a fork's paths, and its closing PASS. */
  function Area(table: seq<nat>, targets: seq<nat>): (area: Bytes)
    requires AllBelow(table, WORD32)
    ensures |area| == 4 * |targets| + 1
  {
    U32s(RetargetNames(AddressIn(table), targets)) + [PASS]
  }

  /** The walk behind a fork, from the addresses of its paths. */
  function WalkOf(table: seq<nat>, targets: seq<nat>): Walk
    requires AllBelow(table, WORD32)
  {
    WalkFork(Area(table, targets), 4 + |targets|)
  }

  /** From an instruction on, the walks behind all forks come back. */
  predicate AllBack(code: seq<Instr>, table: seq<nat>, k: nat)
    requires AllBelow(table, WORD32)
  {
    forall i :: k <= i < |code| && code[i].Fork? ==> WalkOf(table, code[i].targets).Back?
  }

  /** No walk gets into the code behind its fork. */
  predicate NoneLeaves(code: seq<Instr>, table: seq<nat>)
    requires AllBelow(table, WORD32)
  {
    forall i :: 0 <= i < |code| && code[i].Fork? ==> !WalkOf(table, code[i].targets).Leaves?
  }

  // ----- a walk that comes back -----

  lemma {:induction false} AreaByte(bc: Bytes, base: nat, area: Bytes, i: nat)
    requires HasAt(bc, base, area)
    ensures i < |area| ==> base + i < |bc| && bc[base + i] == area[i]
    ensures i + 3 <= |area| ==> base + i + 3 <= |bc| && ReadU16(bc, base + i + 1) == ReadU16(area, i + 1)
  {
    if i + 3 <= |area| {
      assert bc[base + (i + 1)] == area[i + 1] && bc[base + (i + 2)] == area[i + 2];
    }
  }

  lemma {:induction false} QuietIsStep(bc: Bytes, table: seq<nat>, base: nat, area: Bytes, i: nat)
    requires HasAt(bc, base, area) && i + 1 < |area| && Quiet(area, i).Some?
    ensures base + i < |bc| && SweepStep(bc, table, base + i) == Jump(bc, Quiet(area, i).value)
  {
    AreaByte(bc, base, area, i);
  }

  /** The walk's steps are those of the sweep, up to where the walk ends. */
  lemma {:induction false} WalkIsSweep(bc: Bytes, table: seq<nat>, base: nat, area: Bytes, i: nat) returns (end: nat)
    requires HasAt(bc, base, area) && !WalkFork(area, i).Leaves?
    ensures Sweep(bc, table, base + i) == Sweep(bc, table, base + end)
    ensures if WalkFork(area, i).Back? then end == |area| - 1 || end == |area|
            else end + 1 < |area| && Quiet(area, end).None? && Loud(area, end) == Meets(end)
    decreases |area| - i
  {
    end := i;
    if i + 1 < |area| && Quiet(area, i).Some? {
      QuietIsStep(bc, table, base, area, i);
      end := WalkIsSweep(bc, table, base, area, i + Quiet(area, i).value);
    }
  }

  lemma {:induction false} FirstEncoded(code: seq<Instr>, k: nat)
    requires k < |code|
    ensures EncodeAll(code[k..]) == Encode(code[k]) + EncodeAll(code[k + 1..])
  {
    DropFirst(code, k);
    EncodeConcat([code[k]], code[k + 1..]);
    EncodeOne(code[k]);
  }

  lemma {:induction false} LinkedSplit(code: seq<Instr>, f: nat -> Address, k: nat)
    requires k < |code|
    ensures EncodeAll(RetargetAll(f, code[k..])) == Encode(Retarget(f, code[k])) + EncodeAll(RetargetAll(f, code[k + 1..]))
  {
    DropFirst(code, k);
    RetargetConcat(f, [code[k]], code[k + 1..]);
    assert RetargetAll(f, [code[k]]) == [Retarget(f, code[k])];
    EncodeConcat([Retarget(f, code[k])], RetargetAll(f, code[k + 1..]));
    EncodeOne(Retarget(f, code[k]));
  }

  /** The wanted bytes up to an instruction, and from there on. */
  lemma {:induction false} WantedFrom(code: seq<Instr>, table: seq<nat>, k: nat)
    requires AllBelow(table, WORD32) && k <= |code|
    ensures var f := AddressIn(table);
            Wanted(code, table) == HEADER + EncodeAll(RetargetAll(f, code[..k])) + EncodeAll(RetargetAll(f, code[k..]))
  {
    var f := AddressIn(table);
    assert code == code[..k] + code[k..];
    RetargetConcat(f, code[..k], code[k..]);
    EncodeConcat(RetargetAll(f, code[..k]), RetargetAll(f, code[k..]));
    Assoc(HEADER, EncodeAll(RetargetAll(f, code[..k])), EncodeAll(RetargetAll(f, code[k..])));
  }

  /** The bytes around a linked fork, with all behind it linked as well and with nothing behind it linked yet. */
  lemma {:induction false} AroundFork(code: seq<Instr>, table: seq<nat>, k: nat)
    returns (pre: Bytes, fork: Bytes, wanted: Bytes, now: Bytes)
    requires AllBelow(table, WORD32) && k + 1 < |code| && code[k].Fork? && code[k + 1] == Op(PASS)
    ensures |pre| == Start(code, k) && fork == Encode(Retarget(AddressIn(table), code[k]))
    ensures Wanted(code, table) == pre + fork + ([PASS] + wanted)
    ensures Swept(code, AddressIn(table), k + 1) == pre + fork + ([PASS] + now)
    ensures Start(code, k + 1) == Start(code, k) + |fork|
  {
    var f := AddressIn(table);
    var post;
    pre, post := SweptNext(code, f, k);
    fork := Encode(Retarget(f, code[k]));
    EncodedLen(Retarget(f, code[k]));
    RetargetSize(f, code[..k]);
    EncodedSize(RetargetAll(f, code[..k]));
    SweptTail(code, f, k, pre, post);
    FirstEncoded(code, k + 1);
    WantedFrom(code, table, k);
    LinkedSplit(code, f, k);
    LinkedSplit(code, f, k + 1);
    wanted, now := EncodeAll(RetargetAll(f, code[k + 2..])), EncodeAll(code[k + 2..]);
    Assoc(pre, fork, [PASS] + wanted);
  }

  /** The pieces around an instruction are what comes before it and behind it. */
  lemma {:induction false} SweptTail(code: seq<Instr>, f: nat -> Address, k: nat, pre: Bytes, post: Bytes)
    requires k < |code| && |pre| == Start(code, k) && Swept(code, f, k) == pre + Encode(code[k]) + post
    ensures pre == HEADER + EncodeAll(RetargetAll(f, code[..k])) && post == EncodeAll(code[k + 1..])
  {
    RetargetSize(f, code[..k]);
    EncodedSize(RetargetAll(f, code[..k]));
    FirstEncoded(code, k);
    SamePieces(pre, Encode(code[k]), post, HEADER + EncodeAll(RetargetAll(f, code[..k])), EncodeAll(code[k + 1..]));
  }

  lemma {:induction false} SamePieces(a: Bytes, b: Bytes, c: Bytes, a': Bytes, c': Bytes)
    requires |a| == |a'| && a + b + c == a' + (b + c')
    ensures a == a' && c == c'
  {
    assert a == (a + b + c)[..|a|] && a' == (a' + (b + c'))[..|a|];
    assert c == (a + b + c)[|a| + |b|..] && c' == (a' + (b + c'))[|a| + |b|..];
  }

  lemma {:induction false} AreaInPieces(pre: Bytes, head: Bytes, linked: Bytes, rest: Bytes)
    ensures HasAt(pre + (head + linked) + ([PASS] + rest), |pre| + |head|, linked + [PASS])
  {
    var bc := pre + (head + linked) + ([PASS] + rest);
    PieceAt(pre, head + linked, [PASS] + rest);
    HasParts(bc, |pre|, head, linked);
    assert bc == (pre + (head + linked)) + [PASS] + rest;
    PieceAt(pre + (head + linked), [PASS], rest);
    HasParts(bc, |pre| + |head|, linked, [PASS]);
  }

  /** Where the addresses of a fork and its closing PASS lie once the fork is linked. */
  lemma {:induction false} AreaLies(code: seq<Instr>, table: seq<nat>, k: nat) returns (area: Bytes)
    requires AllBelow(table, WORD32) && k + 1 < |code| && code[k].Fork? && code[k + 1] == Op(PASS)
    ensures area == Area(table, code[k].targets) && Start(code, k + 1) == Start(code, k) + 2 + |area|
    ensures HasAt(Swept(code, AddressIn(table), k + 1), Start(code, k) + 3, area)
    ensures HasAt(Wanted(code, table), Start(code, k) + 3, area)
  {
    var pre, fork, wanted, now := AroundFork(code, table, k);
    var ts := code[k].targets;
    var head, linked := [FORK] + U16(|ts|), U32s(RetargetNames(AddressIn(table), ts));
    area := Area(table, ts);
    AreaInPieces(pre, head, linked, wanted);
    AreaInPieces(pre, head, linked, now);
  }

  /** The addresses of a linked fork lie in their place on the track, and in the wanted bytes. */
  ghost predicate ForkLies(track: seq<Place>, area: Bytes, k: nat) {
    && k + 2 < |track|
    && HasAt(track[k + 1].bc, track[k].pc + 3, area) && HasAt(Last(track).bc, track[k].pc + 3, area)
    && track[k + 1].pc == track[k].pc + 2 + |area|
  }

  /** The track of a program whose forks are closed. */
  ghost predicate ForkTrack(code: seq<Instr>, track: seq<Place>, table: seq<nat>)
    requires AllBelow(table, WORD32)
  {
    && IsTrack(code, track, table)
    && forall k :: 0 <= k < |code| && code[k].Fork? ==>
                     AllBelow(code[k].targets, |table|) && ForkLies(track, Area(table, code[k].targets), k)
  }

  lemma {:induction false} TrackOfForks(code: seq<Instr>, table: seq<nat>) returns (track: seq<Place>)
    requires AllBelow(table, WORD32) && AllValid(code, |table|, false) && ForksClosed(code)
    ensures track == Track(code, AddressIn(table)) && ForkTrack(code, track, table)
    ensures track[0].bc == HEADER + EncodeAll(code) && track[0].pc == |HEADER| && Last(track).bc == Wanted(code, table)
  {
    track := WholeTrack(code, table);
    forall k | 0 <= k < |code| && code[k].Fork?
      ensures AllBelow(code[k].targets, |table|) && ForkLies(track, Area(table, code[k].targets), k)
    {
      assert Valid(code[k]) && Targets(code[k], |table|);
      TrackPlace(code, table, k);
      TrackPlace(code, table, k + 1);
      ForkOnTrack(code, table, track, k);
    }
  }

  lemma {:induction false} ForkOnTrack(code: seq<Instr>, table: seq<nat>, track: seq<Place>, k: nat)
    requires AllBelow(table, WORD32) && k + 1 < |code| && code[k].Fork? && code[k + 1] == Op(PASS)
    requires |track| == |code| + 1 && track[k].pc == Start(code, k)
    requires track[k + 1] == Place(Swept(code, AddressIn(table), k + 1), Start(code, k + 1))
    requires Last(track).bc == Wanted(code, table)
    ensures ForkLies(track, Area(table, code[k].targets), k)
  {
    var area := AreaLies(code, table, k);
    LiesWhere(track, k, Start(code, k), Start(code, k + 1), Swept(code, AddressIn(table), k + 1), Wanted(code, table), area);
  }

  lemma {:induction false} LiesWhere(track: seq<Place>, k: nat, start: nat, next: nat, now: Bytes, wanted: Bytes, area: Bytes)
    requires k + 2 < |track| && track[k].pc == start && track[k + 1] == Place(now, next) && next == start + 2 + |area|
    requires Last(track).bc == wanted && HasAt(now, start + 3, area) && HasAt(wanted, start + 3, area)
    ensures ForkLies(track, area, k)
  {
  }

  lemma {:induction false} PassStep(bc: Bytes, table: seq<nat>, pc: nat)
    requires pc < |bc| && bc[pc] == PASS
    ensures Sweep(bc, table, pc) == Sweep(bc, table, pc + 1)
  {
  }

  lemma {:induction false} AreaBack(bc: Bytes, table: seq<nat>, base: nat, ts: seq<nat>)
    requires AllBelow(table, WORD32) && HasAt(bc, base, Area(table, ts)) && WalkOf(table, ts).Back?
    ensures Sweep(bc, table, base + (4 + |ts|)) == Sweep(bc, table, base + 4 * |ts|)
  {
    var area := Area(table, ts);
    var end := WalkIsSweep(bc, table, base, area, 4 + |ts|);
    AreaByte(bc, base, area, 4 * |ts|);
    PassStep(bc, table, base + 4 * |ts|);
  }

  /** The sweep at a fork goes on behind it, a byte taken for each path. */
  predicate StepsBehind(track: seq<Place>, table: seq<nat>, targets: nat, k: nat)
    requires k < |track| - 1
  {
    var at := BehindFork(track, k, targets);
    SweepAt(track, table, k) == Sweep(at.bc, table, at.pc)
  }

  /** Behind a fork whose walk comes back, the sweep goes on as from the next instruction. */
  lemma {:induction false} BackMovesOn(track: seq<Place>, table: seq<nat>, ts: seq<nat>, k: nat)
    requires AllBelow(table, WORD32) && ForkLies(track, Area(table, ts), k) && StepsBehind(track, table, |ts|, k)
    requires WalkOf(table, ts).Back?
    ensures SweepAt(track, table, k) == SweepAt(track, table, k + 1)
  {
    var next := track[k + 1];
    AreaBack(next.bc, table, track[k].pc + 3, ts);
    assert SweepAt(track, table, k + 1) == Sweep(next.bc, table, next.pc);
  }

  lemma {:induction false} BackLinks(code: seq<Instr>, track: seq<Place>, table: seq<nat>, k: nat)
    requires AllBelow(table, WORD32) && ForkTrack(code, track, table) && k <= |code| && AllBack(code, table, k)
    ensures SweepAt(track, table, k) == Some(Last(track).bc)
    decreases |code| - k
  {
    if k < |code| {
      BackLinks(code, track, table, k + 1);
      assert MovesOn(track, table, code[k], k);
      if code[k].Fork? {
        ForkThen(track, table, code[k].targets, k);
        BackMovesOn(track, table, code[k].targets, k);
      } else {
        PlainMoves(track, table, code[k], k);
      }
    } else {
      AtTheEnd(track, table);
    }
  }

  /** If the walks behind all forks come back, which their addresses tell, then the sweep links the program
      exactly, however long it is. */
  lemma {:induction false} BackIsLinked(code: seq<Instr>, table: seq<nat>)
    requires AllBelow(table, WORD32) && AllValid(code, |table|, false) && ForksClosed(code) && AllBack(code, table, 0)
    ensures Sweep(HEADER + EncodeAll(code), table, |HEADER|) == Some(Wanted(code, table)) && ForksReturn(code, table)
  {
    var track := TrackOfForks(code, table);
    BackLinks(code, track, table, 0);
    LinkedFrom(code, track, table, 0);
  }

  // ----- a walk that meets a write -----

  /** A program of less than 64 KiB in which every name has a state, and no proxy number happens to be the
      address of its own state. */
  ghost predicate Short(table: seq<nat>) {
    |table| <= WORD16 && forall p :: 0 <= p < |table| ==> 1 <= table[p] < WORD16 && table[p] != p
  }

  lemma {:induction false} ShortBytes(vs: seq<nat>, j: nat)
    requires j < |vs| && vs[j] < WORD16
    ensures var b := U32s(vs);
            b[4 * j] + BYTE * b[4 * j + 1] == vs[j] && b[4 * j + 2] == 0 && b[4 * j + 3] == 0
  {
    if j < |vs| - 1 {
      ShortBytes(Init(vs), j);
    } else {
      BytesOfU32(vs[j]);
    }
  }

  lemma {:induction false} NameAt(f: nat -> Address, ts: seq<nat>, j: nat)
    requires j < |ts|
    ensures RetargetNames(f, ts)[j] == f(ts[j])
  {
    if j < |ts| - 1 {
      NameAt(f, Init(ts), j);
    }
  }

  /** The upper half of every address is zero, and the lower half behind it is not. */
  lemma {:induction false} ShortArea(table: seq<nat>, ts: seq<nat>, o: nat)
    requires Short(table) && AllBelow(table, WORD32) && AllBelow(ts, |table|) && o < 4 * |ts|
    ensures o % 4 >= 2 ==> Area(table, ts)[o] == 0
    ensures o % 4 == 2 ==> var area := Area(table, ts);
                           if o + 3 < |area| then area[o + 2] + BYTE * area[o + 3] > 0
                           else o + 2 < |area| && area[o + 2] == PASS
  {
    var f, j := AddressIn(table), o / 4;
    NameAt(f, ts, j);
    ShortBytes(RetargetNames(f, ts), j);
    if o + 2 < 4 * |ts| && o % 4 == 2 {
      NameAt(f, ts, j + 1);
      ShortBytes(RetargetNames(f, ts), j + 1);
      assert 4 * (j + 1) == o + 2;
    }
  }

  /** The number that the sweep reads across two addresses of a short program is too large for the table if it
      holds the lower half of the second one in its upper half. */
  lemma {:induction false} TooLarge(bc: Bytes, table: seq<nat>, base: nat, ts: seq<nat>, s: nat)
    requires Short(table) && AllBelow(table, WORD32) && AllBelow(ts, |table|) && HasAt(bc, base, Area(table, ts))
    requires s < 4 * |ts| && s % 4 == 2 && base + s + 4 <= |bc|
    ensures ReadU32(bc, base + s) >= WORD16 && ReadU32(bc, base + s) % WORD16 == 0
  {
    ShortArea(table, ts, s);
    ShortArea(table, ts, s + 1);
    AreaByte(bc, base, Area(table, ts), s);
    AreaByte(bc, base, Area(table, ts), s + 1);
    AreaByte(bc, base, Area(table, ts), s + 2);
    AreaByte(bc, base, Area(table, ts), s + 3);
    UpperHalf(bc[base + s + 2], bc[base + s + 3]);
  }

  lemma {:induction false} UpperHalf(x: nat, y: nat)
    requires x + y > 0
    ensures x * 0x1_0000 + y * 0x100_0000 >= WORD16 && (x * 0x1_0000 + y * 0x100_0000) % WORD16 == 0
  {
    assert x * 0x1_0000 + y * 0x100_0000 == (x + y * 0x100) * WORD16;
  }

  /** A number that is in the table is written over by another one, if it begins with the highest byte of an
      address. */
  lemma {:induction false} NotItself(bc: Bytes, table: seq<nat>, o: nat)
    requires Short(table) && o + 4 <= |bc| && bc[o] == 0 && ReadU32(bc, o) < |table|
    ensures Relink(bc, table, o).Some?
    ensures var r := Relink(bc, table, o).value; r[o] != bc[o] || r[o + 1] != bc[o + 1]
  {
    var val := ReadU32(bc, o);
    assert val == BYTE * bc[o + 1];
    BytesOfU32(table[val]);
    assert table[val] == table[val] % BYTE + BYTE * (table[val] / BYTE % BYTE);
  }

  /** The number that the sweep reads across the addresses of a short program is no scanner's absence, and what it
      writes there is never what was there. */
  lemma {:induction false} NoLuck(bc: Bytes, table: seq<nat>, base: nat, ts: seq<nat>, s: nat)
    requires Short(table) && AllBelow(table, WORD32) && AllBelow(ts, |table|) && HasAt(bc, base, Area(table, ts))
    requires s < 4 * |ts| && s % 4 >= 2
    ensures base + s + 4 <= |bc| ==> ReadU32(bc, base + s) % BYTE == 0
    ensures var r := Relink(bc, table, base + s);
            r.Some? ==> r.value[base + s] != bc[base + s] || r.value[base + s + 1] != bc[base + s + 1]
  {
    ShortArea(table, ts, s);
    AreaByte(bc, base, Area(table, ts), s);
    if base + s + 4 <= |bc| {
      LowByteZero(bc, base + s);
      if s % 4 == 2 {
        TooLarge(bc, table, base, ts, s);
      } else if ReadU32(bc, base + s) < |table| {
        NotItself(bc, table, base + s);
      }
    }
  }

  lemma {:induction false} LowByteZero(bc: Bytes, o: nat)
    requires o + 4 <= |bc| && bc[o] == 0
    ensures ReadU32(bc, o) % BYTE == 0
  {
    assert ReadU32(bc, o) == (bc[o + 1] + bc[o + 2] * 0x100 + bc[o + 3] * 0x1_0000) * BYTE;
  }

  // ----- what has been passed stays -----

  lemma {:induction false} RelinkKeeps(bc: Bytes, table: seq<nat>, offset: nat, n: nat)
    requires offset <= |bc|
    ensures var r := RelinkMany(bc, table, offset, n); r.Some? ==> r.value[..offset] == bc[..offset]
    ensures var r := RelinkMany(bc, table, offset, n);
            r.Some? && n > 0 ==> Relink(bc, table, offset).Some? && r.value[..offset + 4] == Relink(bc, table, offset).value[..offset + 4]
  {
    if n > 0 {
      RelinkKeeps(bc, table, offset, n - 1);
      var before := RelinkMany(bc, table, offset, n - 1);
      if before.Some? && RelinkMany(bc, table, offset, n).Some? {
        var o := offset + 4 * (n - 1);
        var r := RelinkMany(bc, table, offset, n).value;
        assert r[..o] == before.value[..o];
        if n > 1 {
          assert r[..offset + 4] == r[..o][..offset + 4];
          assert before.value[..offset + 4] == before.value[..o][..offset + 4];
        }
        assert r[..offset] == r[..o][..offset] && before.value[..offset] == before.value[..o][..offset];
      }
    }
  }

  lemma {:induction false} StepKeeps(bc: Bytes, table: seq<nat>, pc: nat)
    requires pc < |bc| && SweepStep(bc, table, pc).Jump?
    ensures SweepStep(bc, table, pc).bc[..pc] == bc[..pc]
  {
    if bc[pc] == FORK && pc + 3 <= |bc| {
      RelinkKeeps(bc, table, pc + 3, ReadU16(bc, pc + 1));
      var r := RelinkMany(bc, table, pc + 3, ReadU16(bc, pc + 1)).value;
      assert r[..pc] == r[..pc + 3][..pc] && bc[..pc] == bc[..pc + 3][..pc];
    }
  }

  lemma {:induction false} SweepKeeps(bc: Bytes, table: seq<nat>, pc: nat, i: nat)
    requires Sweep(bc, table, pc).Some? && i < pc && i < |bc|
    ensures Sweep(bc, table, pc).value[i] == bc[i]
    decreases |bc| - pc
  {
    if pc < |bc| {
      var j := SweepStep(bc, table, pc);
      StepKeeps(bc, table, pc);
      assert j.bc[i] == j.bc[..pc][i] && bc[i] == bc[..pc][i];
      SweepKeeps(j.bc, table, pc + j.step, i);
    }
  }

  /** `bc'` has, up to its end, what relinking the number at `o` writes. */
  ghost predicate WrittenAt(bc: Bytes, table: seq<nat>, o: nat, bc': Bytes)
    requires |bc'| == |bc|
  {
    var r := Relink(bc, table, o);
    r.Some? && bc'[..o + 4] == r.value[..o + 4]
  }

  /** A write across the addresses of a fork is never mended. */
  lemma {:induction false} NeverMended(bc: Bytes, bc': Bytes, table: seq<nat>, base: nat, ts: seq<nat>, s: nat, pc: nat,
                                       wanted: Bytes)
    requires Short(table) && AllBelow(table, WORD32) && AllBelow(ts, |table|) && s < 4 * |ts| && s % 4 >= 2
    requires HasAt(bc, base, Area(table, ts)) && HasAt(wanted, base, Area(table, ts)) && |bc'| == |bc|
    requires WrittenAt(bc, table, base + s, bc') && pc >= base + s + 2
    ensures Sweep(bc', table, pc) != Some(wanted)
  {
    var o, r := base + s, Relink(bc, table, base + s).value;
    var area := Area(table, ts);
    NoLuck(bc, table, base, ts, s);
    assert bc[base + s] == area[s] == wanted[base + s];
    assert bc[base + (s + 1)] == area[s + 1] == wanted[base + (s + 1)];
    assert bc'[o] == bc'[..o + 4][o] == r[..o + 4][o] && bc'[o + 1] == bc'[..o + 4][o + 1] == r[..o + 4][o + 1];
    if Sweep(bc', table, pc).Some? {
      SweepKeeps(bc', table, pc, o);
      SweepKeeps(bc', table, pc, o + 1);
    }
  }

  /** The step of the sweep at a write inside an address: its first number is written at `s`, and stays. */
  lemma {:induction false} LoudStep(bc: Bytes, table: seq<nat>, base: nat, ts: seq<nat>, i: nat) returns (s: nat)
    requires Short(table) && AllBelow(table, WORD32) && AllBelow(ts, |table|) && HasAt(bc, base, Area(table, ts))
    requires i + 1 < |Area(table, ts)| && Quiet(Area(table, ts), i).None? && Loud(Area(table, ts), i) == Meets(i)
    requires base + i < |bc| && SweepStep(bc, table, base + i).Jump?
    ensures s < 4 * |ts| && s % 4 >= 2 && i + SweepStep(bc, table, base + i).step >= s + 2
    ensures WrittenAt(bc, table, base + s, SweepStep(bc, table, base + i).bc)
  {
    LoudSits(bc, table, base, ts, i);
    UpperBytes(i);
    if Area(table, ts)[i] == FORK {
      s := i + 3;
      LoudFork(bc, table, base, ts, i);
    } else if Area(table, ts)[i] == HASH_BRANCH {
      s := i + 6;
      LoudHash(bc, table, base, ts, i);
    } else {
      s := i + 2;
      LoudGoto(bc, table, base + i, base + s);
    }
  }

  /** What a write at one of the first two bytes of an address begins with. */
  lemma {:induction false} UpperBytes(i: nat)
    ensures i % 4 < 2 ==> (i + 2) % 4 >= 2 && (i + 6) % 4 >= 2
    ensures i % 4 == 0 ==> (i + 3) % 4 == 3
  {
  }

  /** Where a write sits: at one of the first two bytes of an address, with another address behind it. */
  lemma {:induction false} LoudSits(bc: Bytes, table: seq<nat>, base: nat, ts: seq<nat>, i: nat)
    requires Short(table) && AllBelow(table, WORD32) && AllBelow(ts, |table|) && HasAt(bc, base, Area(table, ts))
    requires i + 1 < |Area(table, ts)| && Quiet(Area(table, ts), i).None? && Loud(Area(table, ts), i) == Meets(i)
    requires base + i < |bc| && bc[base + i] != VECTOR_BRANCH
    ensures var op := Area(table, ts)[i];
            && bc[base + i] == op && op in {HASH_BRANCH, GOTO, PUSH_GOTO, PUSH_EXCEPTION_HANDLER, FORK}
            && i % 4 < 2 && i + WriteAt(op) < 4 * |ts|
  {
    AreaByte(bc, base, Area(table, ts), i);
    ShortArea(table, ts, i);
  }

  lemma {:induction false} LoudFork(bc: Bytes, table: seq<nat>, base: nat, ts: seq<nat>, i: nat)
    requires Short(table) && AllBelow(table, WORD32) && AllBelow(ts, |table|) && HasAt(bc, base, Area(table, ts))
    requires i + 3 < 4 * |ts| && i % 4 < 2 && Area(table, ts)[i] == FORK && Quiet(Area(table, ts), i).None?
    requires base + i < |bc| && bc[base + i] == FORK && SweepStep(bc, table, base + i).Jump?
    ensures i % 4 == 0 && SweepStep(bc, table, base + i).step >= 8
    ensures WrittenAt(bc, table, base + (i + 3), SweepStep(bc, table, base + i).bc)
  {
    ForkInside(bc, table, base, ts, i);
    ForkStep(bc, table, base + i);
  }

  lemma {:induction false} LoudHash(bc: Bytes, table: seq<nat>, base: nat, ts: seq<nat>, i: nat)
    requires Short(table) && AllBelow(table, WORD32) && AllBelow(ts, |table|) && HasAt(bc, base, Area(table, ts))
    requires i + 6 < 4 * |ts| && i % 4 < 2
    requires base + i < |bc| && bc[base + i] == HASH_BRANCH && SweepStep(bc, table, base + i).Jump?
    ensures SweepStep(bc, table, base + i).step >= 18
    ensures WrittenAt(bc, table, base + (i + 6), SweepStep(bc, table, base + i).bc)
  {
    UpperBytes(i);
    NoLuck(bc, table, base, ts, i + 6);
    HashStep(bc, table, base + i);
  }

  lemma {:induction false} LoudGoto(bc: Bytes, table: seq<nat>, pc: nat, o: nat)
    requires pc < |bc| && bc[pc] in {GOTO, PUSH_GOTO, PUSH_EXCEPTION_HANDLER} && SweepStep(bc, table, pc).Jump?
    requires o == pc + 2
    ensures SweepStep(bc, table, pc).step == 6 && WrittenAt(bc, table, o, SweepStep(bc, table, pc).bc)
  {
  }

  lemma {:induction false} HashStep(bc: Bytes, table: seq<nat>, pc: nat)
    requires pc < |bc| && bc[pc] == HASH_BRANCH && SweepStep(bc, table, pc).Jump?
    ensures pc + 10 <= |bc| && SweepStep(bc, table, pc).step >= 18
    ensures ReadU32(bc, pc + 6) != NO_SCANNER ==> Relink(bc, table, pc + 6) == Some(SweepStep(bc, table, pc).bc)
  {
  }

  lemma {:induction false} ForkStep(bc: Bytes, table: seq<nat>, pc: nat)
    requires pc + 3 <= |bc| && bc[pc] == FORK && ReadU16(bc, pc + 1) > 0 && SweepStep(bc, table, pc).Jump?
    ensures SweepStep(bc, table, pc).step >= 8 && WrittenAt(bc, table, pc + 3, SweepStep(bc, table, pc).bc)
  {
    RelinkKeeps(bc, table, pc + 3, ReadU16(bc, pc + 1));
  }

  /** Where the walk through the addresses of a fork meets a write, the sweep does not leave the wanted bytes. */
  lemma {:induction false} LoudIsFatal(bc: Bytes, table: seq<nat>, base: nat, ts: seq<nat>, i: nat, wanted: Bytes)
    requires Short(table) && AllBelow(table, WORD32) && AllBelow(ts, |table|)
    requires HasAt(bc, base, Area(table, ts)) && HasAt(wanted, base, Area(table, ts))
    requires i + 1 < |Area(table, ts)| && Quiet(Area(table, ts), i).None? && Loud(Area(table, ts), i) == Meets(i)
    ensures Sweep(bc, table, base + i) != Some(wanted)
  {
    if SweepStep(bc, table, base + i).Jump? {
      var j := SweepStep(bc, table, base + i);
      var s := LoudStep(bc, table, base, ts, i);
      NeverMended(bc, j.bc, table, base, ts, s, base + i + j.step, wanted);
    }
  }

  /** An opcode of a fork inside an address that makes the sweep write is the lowest byte of the address. */
  lemma {:induction false} ForkInside(bc: Bytes, table: seq<nat>, base: nat, ts: seq<nat>, i: nat)
    requires Short(table) && AllBelow(table, WORD32) && AllBelow(ts, |table|) && HasAt(bc, base, Area(table, ts))
    requires i + 4 < |Area(table, ts)| && i % 4 < 2 && Area(table, ts)[i] == FORK && Quiet(Area(table, ts), i).None?
    ensures i % 4 == 0 && base + i + 3 <= |bc| && ReadU16(bc, base + i + 1) > 0
  {
    AreaByte(bc, base, Area(table, ts), i);
    if i % 4 == 1 {
      ShortArea(table, ts, i + 1);
      ShortArea(table, ts, i + 2);
    }
  }

  lemma {:induction false} AreaFatal(bc: Bytes, table: seq<nat>, base: nat, ts: seq<nat>, wanted: Bytes)
    requires AllBelow(table, WORD32) && AllBelow(ts, |table|) && Short(table) && WalkOf(table, ts).Meets?
    requires HasAt(bc, base, Area(table, ts)) && HasAt(wanted, base, Area(table, ts))
    ensures Sweep(bc, table, base + (4 + |ts|)) != Some(wanted)
  {
    var end := WalkIsSweep(bc, table, base, Area(table, ts), 4 + |ts|);
    LoudIsFatal(bc, table, base, ts, end, wanted);
  }

  lemma {:induction false} MeetsIsFatal(track: seq<Place>, table: seq<nat>, ts: seq<nat>, k: nat)
    requires AllBelow(table, WORD32) && AllBelow(ts, |table|) && Short(table)
    requires ForkLies(track, Area(table, ts), k) && StepsBehind(track, table, |ts|, k) && WalkOf(table, ts).Meets?
    ensures SweepAt(track, table, k) != Some(Last(track).bc)
  {
    AreaFatal(track[k + 1].bc, table, track[k].pc + 3, ts, Last(track).bc);
  }

  lemma {:induction false} ShortFork(track: seq<Place>, table: seq<nat>, ts: seq<nat>, k: nat)
    requires AllBelow(table, WORD32) && AllBelow(ts, |table|) && Short(table)
    requires ForkLies(track, Area(table, ts), k) && StepsBehind(track, table, |ts|, k) && !WalkOf(table, ts).Leaves?
    ensures if WalkOf(table, ts).Back? then SweepAt(track, table, k) == SweepAt(track, table, k + 1)
            else SweepAt(track, table, k) != Some(Last(track).bc)
  {
    if WalkOf(table, ts).Back? {
      BackMovesOn(track, table, ts, k);
    } else {
      MeetsIsFatal(track, table, ts, k);
    }
  }

  lemma {:induction false} ShortLinked(code: seq<Instr>, track: seq<Place>, table: seq<nat>, k: nat)
    requires AllBelow(table, WORD32) && ForkTrack(code, track, table)
    requires Short(table) && NoneLeaves(code, table) && k <= |code|
    ensures SweepAt(track, table, k) == Some(Last(track).bc) <==> AllBack(code, table, k)
    decreases |code| - k
  {
    if k < |code| {
      ShortLinked(code, track, table, k + 1);
      ShortStep(code, track, table, k);
    } else {
      BackLinks(code, track, table, k);
    }
  }

  lemma {:induction false} ShortStep(code: seq<Instr>, track: seq<Place>, table: seq<nat>, k: nat)
    requires AllBelow(table, WORD32) && ForkTrack(code, track, table)
    requires Short(table) && NoneLeaves(code, table) && k < |code|
    requires SweepAt(track, table, k + 1) == Some(Last(track).bc) <==> AllBack(code, table, k + 1)
    ensures SweepAt(track, table, k) == Some(Last(track).bc) <==> AllBack(code, table, k)
  {
    assert MovesOn(track, table, code[k], k);
    if code[k].Fork? {
      ForkThen(track, table, code[k].targets, k);
      ShortFork(track, table, code[k].targets, k);
    } else {
      PlainMoves(track, table, code[k], k);
    }
  }

  /** In a short program whose walks stay at their forks, the addresses alone decide: the sweep links the program
      if and only if the walk behind every fork comes back without meeting a write. */
  lemma {:induction false} ShortLinkedExactly(code: seq<Instr>, table: seq<nat>)
    requires AllBelow(table, WORD32) && AllValid(code, |table|, false) && ForksClosed(code)
    requires Short(table) && NoneLeaves(code, table)
    ensures Sweep(HEADER + EncodeAll(code), table, |HEADER|) == Some(Wanted(code, table)) <==> AllBack(code, table, 0)
  {
    var track := TrackOfForks(code, table);
    ShortLinked(code, track, table, 0);
  }

  /** Where the walk meets a goto or a push in the lowest byte of an address, the number read there is looked up in
      vain: the program ends. */
  lemma {:induction false} GotoStops(bc: Bytes, table: seq<nat>, base: nat, ts: seq<nat>, i: nat)
    requires Short(table) && AllBelow(table, WORD32) && AllBelow(ts, |table|) && HasAt(bc, base, Area(table, ts))
    requires i < 4 * |ts| && i % 4 == 0 && Area(table, ts)[i] in {GOTO, PUSH_GOTO, PUSH_EXCEPTION_HANDLER}
    ensures Sweep(bc, table, base + i) == None
  {
    AreaByte(bc, base, Area(table, ts), i);
    if base + i + 6 <= |bc| {
      TooLarge(bc, table, base, ts, i + 2);
    }
  }
}
