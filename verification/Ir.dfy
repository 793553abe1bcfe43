/** The parser's intermediate statements (the nodes that crates/radlr-bytecode/build_bytecode.rs:254-474
    reads from crates/radlr-core/parser/radlr_bc.rs) and what running one of them means. */
module Ir {
  import opened Sequences
  import opened Bytecode

  datatype Option<+T> = None | Some(value: T)

  /** The interned name of a parser state. */
  type Name = nat

  datatype Effect = ReduceRaw(nonterm: nat, rule: nat, length: nat) | SetTokenId(id: nat) | SetLine

  /** What a match reads: a token of the named scanner, or an input value of the given kind. */
  datatype Mode = TokenOf(scanner: Name) | Plain(input: InputKind)

  datatype Arm = DefaultArm(stmt: Statement) | IntArm(vals: seq<nat>, stmt: Statement) | HintArm

  datatype Branch =
    | Pass
    | Fail
    | Accept
    | Gotos(pushes: seq<Name>, goto: Option<Name>, fork: Option<seq<Name>>)
    | Matches(mode: Mode, arms: seq<Arm>)

  datatype Statement = Statement(move: Option<Move>, effects: seq<Effect>, pop: Option<nat>, branch: Option<Branch>)

  /** Skipping a token ends the statement. */
  predicate Skips(s: Statement) {
    s.move == Some(SkipToken) || s.move == Some(PeekSkipToken)
  }

  // ----- the arms of a match -----

  predicate Listed(a: Arm, id: nat) { a.IntArm? && id in a.vals }

  /** The earliest arm that lists an input value. */
  function ArmFor(arms: seq<Arm>, id: nat): (k: nat)
    ensures k <= |arms| && (k < |arms| ==> Listed(arms[k], id))
    ensures forall j :: 0 <= j < k ==> !Listed(arms[j], id)
  {
    if arms == [] || Listed(arms[0], id) then 0 else 1 + ArmFor(arms[1..], id)
  }

  function FirstDefault(arms: seq<Arm>): (k: nat)
    ensures k <= |arms| && (k < |arms| ==> arms[k].DefaultArm?)
    ensures forall j :: 0 <= j < k ==> !arms[j].DefaultArm?
  {
    if arms == [] || arms[0].DefaultArm? then 0 else 1 + FirstDefault(arms[1..])
  }

  function FirstInts(arms: seq<Arm>): (k: nat)
    ensures k <= |arms| && (k < |arms| ==> arms[k].IntArm?)
    ensures forall j :: 0 <= j < k ==> !arms[j].IntArm?
  {
    if arms == [] || arms[0].IntArm? then 0 else 1 + FirstInts(arms[1..])
  }

  // ----- meaning -----

  function Prepend(es: seq<Event>, t: Trace): Trace { Trace(es + t.events, t.end) }

  function MoveEvents(m: Option<Move>): seq<Event> {
    if m.None? then [] else [Moved(m.value)]
  }

  function EffectEvents(effects: seq<Effect>): seq<Event> {
    if effects == [] then []
    else
      EffectEvents(Init(effects)) +
      match Last(effects)
      case ReduceRaw(n, r, l) => [Reduced(n, r, l)]
      case SetTokenId(id) => [Assigned(id)]
      case SetLine => []
  }

  /** A pop drops at least one state. */
  function PopEvents(pop: Option<nat>): seq<Event>
    decreases if pop.None? then 0 else pop.value
  {
    match pop
    case None => []
    case Some(n) => if n <= 1 then [Popped] else PopEvents(Some(n - 1)) + [Popped]
  }

  /** What a match looks at.  A token match that names no scanner asks for the scanner at the highest address. */
  function Probe(mode: Mode, at: Name -> nat): Event {
    match mode
    case TokenOf(scanner) => Scanned(at(scanner))
    case Plain(input) => if input == TokenInput then Scanned(0xFFFF_FFFF) else Probed(input)
  }

  function PushEvents(names: seq<Name>, at: Name -> nat): seq<Event> {
    if names == [] then [] else PushEvents(Init(names), at) + [Pushed(at(Last(names)))]
  }

  function Addresses(names: seq<Name>, at: Name -> nat): seq<nat> {
    if names == [] then [] else Addresses(Init(names), at) + [at(Last(names))]
  }

  function Straight(s: Statement): seq<Event> {
    MoveEvents(s.move) + EffectEvents(s.effects) + PopEvents(s.pop)
  }

  /** The run of a statement, where `at` gives the address of each named state: its moves and effects in
      order, then its branch.  A match takes the earliest arm that lists the input value, otherwise the
      first default, and otherwise fails. */
  function Run(s: Statement, at: Name -> nat, input: seq<Reading>): Trace
    decreases s
  {
    if Skips(s) then Trace([], Skipped(s.move.value))
    else Prepend(Straight(s), if s.branch.None? then Trace([], Passed) else RunBranch(s.branch.value, at, input))
  }

  function RunBranch(b: Branch, at: Name -> nat, input: seq<Reading>): Trace
    decreases b
  {
    match b
    case Pass => Trace([], Passed)
    case Fail => Trace([], Failed)
    case Accept => Trace([], Accepted)
    case Gotos(pushes, goto, fork) =>
      Trace(PushEvents(pushes, at),
            if goto.Some? then WentTo(at(goto.value))
            else if fork.Some? then Forked(Addresses(fork.value, at))
            else Passed)
    case Matches(mode, arms) =>
      if FirstInts(arms) == |arms| then After(CodepointRead, Otherwise(arms, at, input))
      else if input == [] then Trace([], Starved)
      else if mode == Plain(ByteSequenceInput) then
        var k := FirstInts(arms);
        After(Compared(arms[k].vals),
              if arms[k].vals <= input[0].ahead then RunArm(arms[k], at, input[1..])
              else Otherwise(arms, at, input[1..]))
      else
        var k := ArmFor(arms, input[0].id);
        After(Probe(mode, at),
              if k < |arms| then RunArm(arms[k], at, input[1..]) else Otherwise(arms, at, input[1..]))
  }

  function Otherwise(arms: seq<Arm>, at: Name -> nat, input: seq<Reading>): Trace
    decreases arms
  {
    var d := FirstDefault(arms);
    if d < |arms| then RunArm(arms[d], at, input) else Trace([], Failed)
  }

  function RunArm(a: Arm, at: Name -> nat, input: seq<Reading>): Trace
    requires !a.HintArm?
    decreases a
  {
    Run(a.stmt, at, input)
  }

  // ----- statements the compiler accepts -----

  /** The operands fit the fields they are written to. */
  predicate EffectFits(e: Effect) {
    match e
    case ReduceRaw(n, r, l) => n < WORD32 && r < WORD32 && l < WORD16
    case SetTokenId(id) => id < WORD32
    case SetLine => true
  }

  predicate EffectsFit(effects: seq<Effect>) {
    forall i :: 0 <= i < |effects| ==> EffectFits(effects[i])
  }

  /** A match has an arm that runs, and a byte sequence match has just one arm with values. */
  predicate MatchFits(mode: Mode, arms: seq<Arm>) {
    && (FirstInts(arms) < |arms| || FirstDefault(arms) < |arms|)
    && (mode == Plain(ByteSequenceInput) ==>
          && (forall i, j :: 0 <= i < j < |arms| ==> !(arms[i].IntArm? && arms[j].IntArm?))
          && (forall i :: 0 <= i < |arms| && arms[i].IntArm? ==> AllBelow(arms[i].vals, BYTE)))
    && (forall i :: 0 <= i < |arms| && arms[i].IntArm? ==> AllBelow(arms[i].vals, WORD32))
  }

  /** The operands of the statement, and of all statements compiled within its matches, fit their fields. */
  predicate FieldsFit(s: Statement)
    decreases s
  {
    && EffectsFit(s.effects)
    && (s.branch.Some? && s.branch.value.Matches? ==>
          && MatchFits(s.branch.value.mode, s.branch.value.arms)
          && FitInts(s.branch.value.arms) && FitDefault(s.branch.value.arms))
  }

  predicate FitInts(arms: seq<Arm>)
    decreases arms
  {
    forall i :: 0 <= i < |arms| && arms[i].IntArm? ==> FitArm(arms[i])
  }

  /** Of the defaults only the first is compiled. */
  predicate FitDefault(arms: seq<Arm>)
    decreases arms
  {
    FirstDefault(arms) < |arms| ==> FitArm(arms[FirstDefault(arms)])
  }

  predicate FitArm(a: Arm)
    requires !a.HintArm?
    decreases a
  {
    FieldsFit(a.stmt)
  }

  /** The byte of a statement's last effect that ends up last in the bytecode. */
  function ClosingByte(effects: seq<Effect>): Option<nat> {
    if effects == [] then None
    else
      match Last(effects)
      case ReduceRaw(_, _, l) => Some(l / BYTE % BYTE)
      case SetTokenId(id) => Some(id / 0x100_0000 % BYTE)
      case SetLine => ClosingByte(Init(effects))
  }

  /** Nothing in the statement ends it: control reaches whatever is compiled after its last operation. */
  predicate OpenEnded(s: Statement) {
    && !Skips(s)
    && (s.branch.Some? ==> s.branch.value.Gotos? && s.branch.value.goto.None? && s.branch.value.fork.None?)
  }

  /** The statement is closed when it is compiled behind other bytes, whose last one asks for a PASS if the
      bytes are `open`: it has an operation that ends it, or the last byte before its end, its own or that of
      the bytes before it, is not mistaken for a sentinel. */
  predicate Closes(s: Statement, open: bool) {
    OpenEnded(s) && (s.branch.None? || s.branch.value.pushes == []) && s.pop.None? ==>
      if ClosingByte(s.effects).Some? then !IsSentinel(ClosingByte(s.effects).value) else s.move.Some? || open
  }

  /** The statement and all statements compiled within its matches are closed.  A default is compiled behind
      the opcode that reads a code point, or else behind a finished block or nothing. */
  predicate Sound(s: Statement, open: bool)
    decreases s
  {
    && Closes(s, open)
    && (s.branch.Some? && s.branch.value.Matches? ==>
          && SoundInts(s.branch.value.arms)
          && SoundDefault(s.branch.value.arms, FirstInts(s.branch.value.arms) == |s.branch.value.arms|))
  }

  predicate SoundInts(arms: seq<Arm>)
    decreases arms
  {
    forall i :: 0 <= i < |arms| && arms[i].IntArm? ==> SoundArm(arms[i], false)
  }

  predicate SoundDefault(arms: seq<Arm>, open: bool)
    decreases arms
  {
    FirstDefault(arms) < |arms| ==> SoundArm(arms[FirstDefault(arms)], open)
  }

  predicate SoundArm(a: Arm, open: bool)
    requires !a.HintArm?
    decreases a
  {
    Sound(a.stmt, open)
  }

  /** What closes behind nothing closes behind everything. */
  lemma {:induction false} SoundBehind(s: Statement, open: bool)
    requires Sound(s, false)
    ensures Sound(s, open)
  {
  }

  /** No statement forks. */
  predicate ForkFree(s: Statement)
    decreases s
  {
    s.branch.Some? ==>
      && (s.branch.value.Gotos? ==> s.branch.value.fork.None?)
      && (s.branch.value.Matches? ==> ForkFreeArms(s.branch.value.arms))
  }

  predicate ForkFreeArms(arms: seq<Arm>)
    decreases arms
  {
    forall i :: 0 <= i < |arms| ==> ForkFreeArm(arms[i])
  }

  predicate ForkFreeArm(a: Arm)
    decreases a
  {
    a.HintArm? || ForkFree(a.stmt)
  }

  // ----- a run never strays -----

  /** The meaning of a statement never strays, whatever the input. */
  lemma {:induction false} RunStays(s: Statement, at: Name -> nat, input: seq<Reading>)
    ensures Run(s, at, input).end != Astray
    decreases s
  {
    if !Skips(s) && s.branch.Some? && s.branch.value.Matches? {
      var arms := s.branch.value.arms;
      ArmsStay(arms, at, input);
      if input != [] {
        ArmsStay(arms, at, input[1..]);
        assert Otherwise(arms, at, input[1..]).end != Astray;
      }
      assert Otherwise(arms, at, input).end != Astray;
      assert RunBranch(s.branch.value, at, input).end != Astray;
    }
  }

  lemma {:induction false} ArmsStay(arms: seq<Arm>, at: Name -> nat, input: seq<Reading>)
    ensures forall i :: 0 <= i < |arms| && !arms[i].HintArm? ==> RunArm(arms[i], at, input).end != Astray
    decreases arms
  {
    forall i | 0 <= i < |arms| && !arms[i].HintArm?
      ensures RunArm(arms[i], at, input).end != Astray
    {
      ArmStays(arms[i], at, input);
    }
  }

  lemma {:induction false} ArmStays(a: Arm, at: Name -> nat, input: seq<Reading>)
    requires !a.HintArm?
    ensures RunArm(a, at, input).end != Astray
    decreases a
  {
    RunStays(a.stmt, at, input);
  }
}
