/** Joining types (crates/radlr-ascript/build_db.rs:1537-1707): two types become one that covers both, if need
    be a union owned by the non-terminal for which they are joined. */
module TypeJoin {
  import opened Scalars
  import opened Unions

  /** The index table and the union table, which always have the same length. */
  datatype Tables = Tables(lookup: seq<nat>, unions: seq<Union>)

  /** An `Incompatible` join is an error, an `Unhandled` one ends the program. */
  datatype Joined = Joined(type_: Type, tables: Tables) | Incompatible | Unhandled

  const NO_NONTERM := 0xFFFF_FFFF

  // ----- unions -----

  function OwnedBy(unions: seq<Union>, target: nat): (k: nat)
    ensures k <= |unions| && (k < |unions| ==> unions[k].owner == target)
    ensures forall j :: 0 <= j < k ==> unions[j].owner != target
  {
    if unions == [] || unions[0].owner == target then 0 else 1 + OwnedBy(unions[1..], target)
  }

  function AddMembers(unions: seq<Union>, k: nat, more: set<Scalar>): seq<Union>
    requires k < |unions|
  {
    unions[k := unions[k].(members := unions[k].members + more)]
  }

  /** The target's union takes the scalars; without one, a union is made for it. */
  function CreateMulti(t: Tables, scalars: set<Scalar>, target: nat): Joined {
    var k := OwnedBy(t.unions, target);
    if k < |t.unions| then Joined(Single(Multi(k)), t.(unions := AddMembers(t.unions, k, scalars)))
    else if target == NO_NONTERM then Unhandled
    else
      Joined(Single(Multi(|t.lookup|)),
             Tables(t.lookup + [|t.unions|], t.unions + [Union(target, scalars, {})]))
  }

  // ----- scalars -----

  function Max(a: nat, b: nat): nat { if a < b then b else a }

  /** The signed integer for an unsigned one of size `x` and a signed one of size `y`. */
  function SignedOfSize(n: nat): Scalar {
    if n <= 2 then I16 else if n <= 4 then I32 else I64
  }

  function FloatOfSize(n: nat): Scalar { if n <= 4 then F32 else F64 }

  predicate IsWhole(b: Base) { b == BoolBase || b == UintBase || b == IntBase }

  /** No scalar type holds both. */
  predicate NeedsUnion(x: Scalar, y: Scalar) {
    && x != y
    && !(BaseOf(x) == BaseOf(y) && BaseOf(x) != OtherBase)
    && !((BaseOf(x) == BoolBase || BaseOf(x) == UintBase) && BaseOf(y) == IntBase)
    && !(IsWhole(BaseOf(x)) && BaseOf(y) == FloatBase)
  }

  function Widest(x: Scalar, y: Scalar): Scalar
    requires !NeedsUnion(x, y)
  {
    if x == y then x
    else if BaseOf(x) == BaseOf(y) then if ByteSize(x) > ByteSize(y) then x else y
    else if BaseOf(y) == IntBase then SignedOfSize(Max(ByteSize(x) + 1, ByteSize(y)))
    else FloatOfSize(Max(ByteSize(x) + 1, ByteSize(y)))
  }

  /** Two scalars that are not unions, the first with the smaller base. */
  function JoinPlain(x: Scalar, y: Scalar, a: Scalar, b: Scalar, t: Tables, target: nat): Joined {
    if NeedsUnion(x, y) then CreateMulti(t, {a, b}, target) else Joined(Single(Widest(x, y)), t)
  }

  /** Two unions: the one that the target owns takes the other. */
  function JoinMultis(x: Scalar, y: Scalar, a: Scalar, t: Tables, target: nat): Joined
    requires Aligned(t) && x.Multi? && y.Multi? && Names(t, x) && Names(t, y)
  {
    var i, j := t.lookup[x.index], t.lookup[y.index];
    if i == j then Joined(Single(a), t)
    else if t.unions[i].owner == target then Joined(Single(Multi(i)), t.(unions := AddMembers(t.unions, i, {Multi(j)})))
    else if t.unions[j].owner == target then Joined(Single(Multi(j)), t.(unions := AddMembers(t.unions, j, {Multi(i)})))
    else CreateMulti(t, {Multi(i), Multi(j)}, target)
  }

  /** A union and another scalar. */
  function JoinMulti(multi: Scalar, scalar: Scalar, t: Tables, target: nat): Joined
    requires Aligned(t) && multi.Multi? && Names(t, multi)
  {
    var i := t.lookup[multi.index];
    if t.unions[i].owner == target then Joined(Single(multi), t.(unions := AddMembers(t.unions, i, {scalar})))
    else CreateMulti(t, {scalar, multi}, target)
  }

  ghost predicate Names(t: Tables, s: Scalar) { s.Multi? ==> s.index < |t.lookup| }

  ghost predicate Aligned(t: Tables) {
    && |t.lookup| == |t.unions| && (forall k :: 0 <= k < |t.lookup| ==> t.lookup[k] == k)
    && UniqueOwners(t.unions) && InTable(t.unions)
  }

  function JoinScalars(a: Scalar, b: Scalar, t: Tables, target: nat): Joined
    requires Aligned(t) && Names(t, a) && Names(t, b)
  {
    var (x, y) := if BaseRank(BaseOf(a)) < BaseRank(BaseOf(b)) then (a, b) else (b, a);
    if x.Multi? && y.Multi? then JoinMultis(x, y, a, t, target)
    else if x.Multi? then JoinMulti(x, y, t, target)
    else if y.Multi? then JoinMulti(y, x, t, target)
    else JoinPlain(x, y, a, b, t, target)
  }

  // ----- types -----

  function AsScalar(t: Type): Scalar { if t.Single? then t.scalar else Undefined }

  /** The join of two scalars, wrapped into a vector. */
  function InVector(j: Joined): Joined {
    if j.Joined? then Joined(Collection(Vec(AsScalar(j.type_))), j.tables) else j
  }

  ghost predicate TypeNames(t: Tables, x: Type) {
    match x
    case Single(s) => Names(t, s)
    case Collection(Vec(v)) => Names(t, v)
    case Collection(Map(k, v)) => Names(t, k) && Names(t, v)
    case _ => true
  }

  function JoinTypes(a: Type, b: Type, t: Tables, target: nat): Joined
    requires Aligned(t) && TypeNames(t, a) && TypeNames(t, b)
  {
    match b
    case Unknown => Joined(a, t)
    case Collection(bAgg) =>
      (match a
       case Collection(aAgg) => JoinCollections(aAgg, bAgg, t, target)
       case Single(s) => if bAgg.Vec? then InVector(JoinScalars(s, bAgg.val, t, target)) else Unhandled
       case Unknown => Joined(b, t)
       case OfNonterm(_) => Unhandled)
    case Single(bScalar) =>
      (match a
       case Unknown => Joined(b, t)
       case Single(aScalar) => JoinScalars(aScalar, bScalar, t, target)
       case Collection(_) => if bScalar.Struct? then Incompatible else Unhandled
       case OfNonterm(_) => Unhandled)
    case OfNonterm(_) => Unhandled
  }

  function JoinCollections(a: Aggregate, b: Aggregate, t: Tables, target: nat): Joined
    requires Aligned(t) && TypeNames(t, Collection(a)) && TypeNames(t, Collection(b))
  {
    if a.Map? && b.Map? then
      var key := JoinScalars(a.key, b.key, t, target);
      if !key.Joined? then key
      else
        JoinAligned(a.key, b.key, t, target);
        var val := JoinScalars(a.val, b.val, key.tables, target);
        if !val.Joined? then val
        else Joined(Collection(Map(AsScalar(key.type_), AsScalar(val.type_))), val.tables)
    else if a.Vec? && b.Map? then InVector(JoinScalars(a.val, b.val, t, target))
    else InVector(JoinScalars(b.val, a.val, t, target))
  }

  // ----- growth -----

  /** Unions only grow: every union is still there, with the same owner and at least the same members. */
  ghost predicate Grown(t: Tables, u: Tables) {
    && |t.lookup| <= |u.lookup| && |t.unions| <= |u.unions|
    && (forall k :: 0 <= k < |t.unions| ==>
          u.unions[k].owner == t.unions[k].owner && t.unions[k].members <= u.unions[k].members)
  }

  lemma {:induction false} AddAligned(t: Tables, k: nat, more: set<Scalar>)
    requires Aligned(t) && k < |t.unions| && forall s :: s in more ==> Names(t, s)
    ensures var u := t.(unions := AddMembers(t.unions, k, more)); Aligned(u) && Grown(t, u) && more <= u.unions[k].members
  {
  }

  lemma {:induction false} CreateAligned(t: Tables, scalars: set<Scalar>, target: nat)
    requires Aligned(t) && forall s :: s in scalars ==> Names(t, s)
    ensures var j := CreateMulti(t, scalars, target);
            j.Joined? ==> && Aligned(j.tables) && Grown(t, j.tables) && j.type_.Single? && j.type_.scalar.Multi?
                          && j.type_.scalar.index < |j.tables.unions|
                          && scalars <= j.tables.unions[j.type_.scalar.index].members
  {
    var k := OwnedBy(t.unions, target);
    if k < |t.unions| {
      AddAligned(t, k, scalars);
    } else if target != NO_NONTERM {
      var u := CreateMulti(t, scalars, target).tables;
      forall i, j | 0 <= i < j < |u.unions|
        ensures u.unions[i].owner != u.unions[j].owner
      {
        if j < |t.unions| {
          assert t.unions[i].owner != t.unions[j].owner;
        }
      }
      forall i, m: nat | 0 <= i < |u.unions| && Multi(m) in u.unions[i].members
        ensures m < |u.unions|
      {
        if i < |t.unions| {
          assert Multi(m) in t.unions[i].members;
        } else {
          assert Names(t, Multi(m));
        }
      }
    }
  }

  /** The keys are joined before the values. */
  lemma {:induction false} JoinAligned(a: Scalar, b: Scalar, t: Tables, target: nat)
    requires Aligned(t) && Names(t, a) && Names(t, b)
    ensures GoodJoin(t, JoinScalars(a, b, t, target))
  {
    JoinCovers(a, b, t, target);
  }

  // ----- coverage -----

  /** The whole numbers that a numeric scalar can hold without loss: its range, for a float the range in which
      every whole number is exact. */
  function Low(s: Scalar): int {
    match s
    case I8 => -0x80 case I16 => -0x8000 case I32 => -0x8000_0000 case I64 => -0x8000_0000_0000_0000
    case F32 => -0x100_0000 case F64 => -0x20_0000_0000_0000
    case _ => 0
  }

  function High(s: Scalar): int {
    match s
    case Bool => 1
    case U8 => 0xFF case U16 => 0xFFFF case U32 => 0xFFFF_FFFF case U64 => 0xFFFF_FFFF_FFFF_FFFF
    case I8 => 0x7F case I16 => 0x7FFF case I32 => 0x7FFF_FFFF case I64 => 0x7FFF_FFFF_FFFF_FFFF
    case F32 => 0x100_0000 case F64 => 0x20_0000_0000_0000
    case _ => 0
  }

  predicate IsUnsigned(s: Scalar) { s == U8 || s == U16 || s == U32 || s == U64 }

  predicate IsSigned(s: Scalar) { s == I8 || s == I16 || s == I32 || s == I64 }

  predicate IsFloat(s: Scalar) { s == F32 || s == F64 }

  predicate IsNumber(s: Scalar) { s == Bool || IsUnsigned(s) || IsSigned(s) || IsFloat(s) }

  /** Every value of `x` is a value of `r`. */
  predicate Widens(r: Scalar, x: Scalar) {
    || r == x
    || (IsNumber(r) && IsNumber(x) && (IsFloat(x) ==> IsFloat(r)) && Low(r) <= Low(x) && High(x) <= High(r))
    || (r == Token && x == TokenRange)
  }

  /** The scalar is the type, is a member of the union, or is widened. */
  ghost predicate Covers(t: Tables, r: Scalar, x: Scalar) {
    Widens(r, x) || (r.Multi? && r.index < |t.unions| && x in t.unions[r.index].members)
  }

  /** Later joins do not take coverage away. */
  lemma {:induction false} CoverageStays(t: Tables, u: Tables, r: Scalar, x: Scalar)
    requires Grown(t, u) && Covers(t, r, x)
    ensures Covers(u, r, x)
  {
  }

  /** Eight bytes meeting a type that cannot hold them: an unsigned 64-bit integer joined with a signed one, or
      a 64-bit integer joined with a float. */
  predicate TooWide(a: Scalar, b: Scalar) {
    || (a == U64 && IsSigned(b)) || (b == U64 && IsSigned(a))
    || ((a == U64 || a == I64) && IsFloat(b)) || ((b == U64 || b == I64) && IsFloat(a))
  }

  /** The join succeeded with a scalar in aligned tables, and unions only grew. */
  ghost predicate GoodJoin(t: Tables, j: Joined) {
    j.Joined? ==> Aligned(j.tables) && Grown(t, j.tables) && j.type_.Single? && Names(j.tables, j.type_.scalar)
  }

  ghost predicate CoversBoth(j: Joined, a: Scalar, b: Scalar) {
    j.Joined? ==> Covers(j.tables, AsScalar(j.type_), a) && Covers(j.tables, AsScalar(j.type_), b)
  }

  lemma {:induction false} CreateCovers(t: Tables, a: Scalar, b: Scalar, target: nat)
    requires Aligned(t) && Names(t, a) && Names(t, b)
    ensures GoodJoin(t, CreateMulti(t, {a, b}, target)) && CoversBoth(CreateMulti(t, {a, b}, target), a, b)
  {
    CreateAligned(t, {a, b}, target);
  }

  lemma {:induction false} MultisCover(x: Scalar, y: Scalar, a: Scalar, t: Tables, target: nat)
    requires Aligned(t) && x.Multi? && y.Multi? && Names(t, x) && Names(t, y) && (a == x || a == y)
    ensures GoodJoin(t, JoinMultis(x, y, a, t, target)) && CoversBoth(JoinMultis(x, y, a, t, target), x, y)
  {
    var i, j := t.lookup[x.index], t.lookup[y.index];
    AddAligned(t, i, {Multi(j)});
    AddAligned(t, j, {Multi(i)});
    CreateCovers(t, Multi(i), Multi(j), target);
  }

  lemma {:induction false} MultiCovers(multi: Scalar, scalar: Scalar, t: Tables, target: nat)
    requires Aligned(t) && multi.Multi? && Names(t, multi) && !scalar.Multi?
    ensures GoodJoin(t, JoinMulti(multi, scalar, t, target)) && CoversBoth(JoinMulti(multi, scalar, t, target), multi, scalar)
  {
    AddAligned(t, t.lookup[multi.index], {scalar});
    CreateCovers(t, scalar, multi, target);
  }

  lemma {:induction false} SameBaseWidens(x: Scalar, y: Scalar)
    requires BaseOf(x) == BaseOf(y) && BaseOf(x) != OtherBase
    ensures Widens(Widest(x, y), x) && Widens(Widest(x, y), y)
  {
  }

  lemma {:induction false} SignedWidens(x: Scalar, y: Scalar)
    requires (BaseOf(x) == BoolBase || BaseOf(x) == UintBase) && BaseOf(y) == IntBase
    ensures Widens(Widest(x, y), x) && Widens(Widest(x, y), y) <==> x != U64
  {
  }

  lemma {:induction false} FloatWidens(x: Scalar, y: Scalar)
    requires IsWhole(BaseOf(x)) && BaseOf(y) == FloatBase
    ensures Widens(Widest(x, y), x) && Widens(Widest(x, y), y) <==> x != U64 && x != I64
  {
  }

  lemma {:induction false} TooWideOrdered(x: Scalar, y: Scalar)
    requires BaseRank(BaseOf(x)) <= BaseRank(BaseOf(y))
    ensures TooWide(x, y) <==> (x == U64 && BaseOf(y) == IntBase) || ((x == U64 || x == I64) && BaseOf(y) == FloatBase)
    ensures TooWide(x, y) == TooWide(y, x)
  {
  }

  lemma {:induction false} WidestWidens(x: Scalar, y: Scalar)
    requires BaseRank(BaseOf(x)) <= BaseRank(BaseOf(y)) && !x.Multi? && !y.Multi?
    ensures NeedsUnion(x, y) ==> !TooWide(x, y)
    ensures !NeedsUnion(x, y) ==>
              && !Widest(x, y).Multi?
              && (Widens(Widest(x, y), x) && Widens(Widest(x, y), y) <==> !TooWide(x, y))
  {
    TooWideOrdered(x, y);
    if BaseOf(x) == BaseOf(y) && BaseOf(x) != OtherBase {
      SameBaseWidens(x, y);
    } else if (BaseOf(x) == BoolBase || BaseOf(x) == UintBase) && BaseOf(y) == IntBase {
      SignedWidens(x, y);
    } else if IsWhole(BaseOf(x)) && BaseOf(y) == FloatBase {
      FloatWidens(x, y);
    }
  }

  lemma {:induction false} PlainCovers(x: Scalar, y: Scalar, a: Scalar, b: Scalar, t: Tables, target: nat)
    requires Aligned(t) && !x.Multi? && !y.Multi? && ((x == a && y == b) || (x == b && y == a))
    requires BaseRank(BaseOf(x)) <= BaseRank(BaseOf(y))
    ensures GoodJoin(t, JoinPlain(x, y, a, b, t, target))
    ensures JoinPlain(x, y, a, b, t, target).Joined? ==>
              (CoversBoth(JoinPlain(x, y, a, b, t, target), x, y) <==> !TooWide(x, y))
  {
    WidestWidens(x, y);
    if NeedsUnion(x, y) {
      CreateCovers(t, a, b, target);
    } else {
      WideningCovers(t, Widest(x, y), x, y);
    }
  }

  lemma {:induction false} WideningCovers(t: Tables, r: Scalar, x: Scalar, y: Scalar)
    requires !r.Multi?
    ensures CoversBoth(Joined(Single(r), t), x, y) <==> Widens(r, x) && Widens(r, y)
  {
  }

  /** A successful join of scalars keeps the tables aligned, only lets unions grow, and covers both scalars,
      exactly unless 64 bits are too wide for the result. */
  lemma {:induction false} JoinCovers(a: Scalar, b: Scalar, t: Tables, target: nat)
    requires Aligned(t) && Names(t, a) && Names(t, b)
    ensures GoodJoin(t, JoinScalars(a, b, t, target))
    ensures JoinScalars(a, b, t, target).Joined? ==>
              (CoversBoth(JoinScalars(a, b, t, target), a, b) <==> !TooWide(a, b))
  {
    var x, y := if BaseRank(BaseOf(a)) < BaseRank(BaseOf(b)) then a else b,
                if BaseRank(BaseOf(a)) < BaseRank(BaseOf(b)) then b else a;
    if x.Multi? && y.Multi? {
      MultisCover(x, y, a, t, target);
    } else if x.Multi? {
      MultiCovers(x, y, t, target);
    } else if y.Multi? {
      MultiCovers(y, x, t, target);
    } else {
      PlainCovers(x, y, a, b, t, target);
    }
  }

  // ----- no wider than needed -----

  /** A scalar type can stand for both: they are the same, or numbers other than a boolean and an unsigned integer,
      or both tokens. */
  predicate OneScalar(a: Scalar, b: Scalar) {
    || a == b
    || (IsNumber(a) && IsNumber(b) && !(a == Bool && IsUnsigned(b)) && !(b == Bool && IsUnsigned(a)))
    || (a == Token && b == TokenRange) || (b == Token && a == TokenRange)
  }

  ghost predicate HoldsAll(s: Scalar, all: set<Scalar>) { forall x :: x in all ==> Widens(s, x) }

  /** The first of the types, from narrow to wide, that holds them all, or the last one if none does. */
  ghost function FirstHolding(types: seq<Scalar>, all: set<Scalar>): Scalar
    requires types != []
  {
    if HoldsAll(types[0], all) || |types| == 1 then types[0] else FirstHolding(types[1..], all)
  }

  /** The least type for both: one of them where they are of one kind, and else the narrowest float, or the narrowest
      signed integer of at least 16 bits, that holds both. */
  ghost predicate Least(r: Scalar, a: Scalar, b: Scalar) {
    if IsFloat(a) != IsFloat(b) then r == FirstHolding([F32, F64], {a, b})
    else if IsSigned(a) != IsSigned(b) then r == FirstHolding([I16, I32, I64], {a, b})
    else (r == a || r == b) && HoldsAll(r, {a, b})
  }

  lemma {:induction false} FloatsHold(x: Scalar, y: Scalar)
    requires IsFloat(y) && !IsFloat(x) && IsNumber(x)
    ensures HoldsAll(F64, {x, y}) <==> x != U64 && x != I64
    ensures HoldsAll(F32, {x, y}) <==> y == F32 && ByteSize(x) <= 2
  {
  }

  lemma {:induction false} FirstOfThree(a: Scalar, b: Scalar, c: Scalar, all: set<Scalar>)
    ensures FirstHolding([a, b, c], all) == if HoldsAll(a, all) then a else if HoldsAll(b, all) then b else c
    ensures FirstHolding([b, c], all) == if HoldsAll(b, all) then b else c
  {
    var three, two, one := [a, b, c], [b, c], [c];
    assert three[1..] == two && two[1..] == one;
    assert FirstHolding(one, all) == c;
    assert FirstHolding(two, all) == if HoldsAll(b, all) then b else FirstHolding(two[1..], all);
    assert FirstHolding(three, all) == if HoldsAll(a, all) then a else FirstHolding(three[1..], all);
  }

  lemma {:induction false} FloatLeast(x: Scalar, y: Scalar)
    requires IsFloat(y) && !IsFloat(x) && IsNumber(x)
    ensures Least(Widest(x, y), x, y)
  {
    FloatsHold(x, y);
    FirstOfThree(F32, F32, F64, {x, y});
  }

  lemma {:induction false} SignedHold(x: Scalar, y: Scalar)
    requires IsSigned(y) && (IsUnsigned(x) || x == Bool)
    ensures HoldsAll(I64, {x, y}) <==> x != U64
    ensures HoldsAll(I32, {x, y}) <==> ByteSize(x) <= 2 && ByteSize(y) <= 4
    ensures HoldsAll(I16, {x, y}) <==> ByteSize(x) <= 1 && ByteSize(y) <= 2
  {
  }

  lemma {:induction false} SignedWidest(x: Scalar, y: Scalar)
    requires IsSigned(y) && (IsUnsigned(x) || x == Bool)
    ensures Widest(x, y) == if ByteSize(x) <= 1 && ByteSize(y) <= 2 then I16
                            else if ByteSize(x) <= 2 && ByteSize(y) <= 4 then I32 else I64
  {
  }

  lemma {:induction false} SignedFirst(x: Scalar, y: Scalar)
    requires IsSigned(y) && (IsUnsigned(x) || x == Bool)
    ensures FirstHolding([I16, I32, I64], {x, y}) == Widest(x, y)
  {
    SignedHold(x, y);
    SignedWidest(x, y);
    FirstOfThree(I16, I32, I64, {x, y});
  }

  lemma {:induction false} SignedLeast(x: Scalar, y: Scalar)
    requires IsSigned(y) && (IsUnsigned(x) || x == Bool)
    ensures Least(Widest(x, y), x, y)
  {
    SignedFirst(x, y);
  }

  lemma {:induction false} UnionExactly(x: Scalar, y: Scalar)
    requires BaseRank(BaseOf(x)) <= BaseRank(BaseOf(y))
    ensures NeedsUnion(x, y) <==> !OneScalar(x, y)
  {
  }

  /** Two scalars that are not unions become a union exactly if no one scalar type stands for both, and then a union
      that takes just the two; otherwise the least such type, and the tables stay as they are. */
  lemma {:induction false} JoinLeast(a: Scalar, b: Scalar, t: Tables, target: nat)
    requires Aligned(t) && !a.Multi? && !b.Multi?
    ensures var j := JoinScalars(a, b, t, target);
            if OneScalar(a, b) then j.Joined? && j.tables == t && j.type_.Single? && Least(j.type_.scalar, a, b)
            else j == CreateMulti(t, {a, b}, target)
  {
    var x, y := if BaseRank(BaseOf(a)) < BaseRank(BaseOf(b)) then a else b,
                if BaseRank(BaseOf(a)) < BaseRank(BaseOf(b)) then b else a;
    assert JoinScalars(a, b, t, target) == JoinPlain(x, y, a, b, t, target);
    UnionExactly(x, y);
    OneScalarEither(x, y);
    if OneScalar(x, y) {
      PlainLeast(x, y);
      LeastEither(Widest(x, y), x, y);
    }
  }

  lemma {:induction false} OneScalarEither(x: Scalar, y: Scalar)
    ensures OneScalar(x, y) == OneScalar(y, x)
  {
  }

  lemma {:induction false} PlainLeast(x: Scalar, y: Scalar)
    requires BaseRank(BaseOf(x)) <= BaseRank(BaseOf(y)) && OneScalar(x, y) && !NeedsUnion(x, y)
    ensures Least(Widest(x, y), x, y)
  {
    KindsMet(x, y);
    if IsFloat(y) && !IsFloat(x) {
      FloatLeast(x, y);
    } else if IsSigned(y) && !IsSigned(x) {
      SignedLeast(x, y);
    } else {
      SameKindLeast(x, y);
    }
  }

  lemma {:induction false} KindsMet(x: Scalar, y: Scalar)
    requires BaseRank(BaseOf(x)) <= BaseRank(BaseOf(y)) && OneScalar(x, y)
    ensures IsFloat(x) ==> IsFloat(y)
    ensures IsFloat(y) && !IsFloat(x) ==> IsNumber(x)
    ensures IsSigned(y) && !IsSigned(x) ==> IsUnsigned(x) || x == Bool
    ensures IsFloat(x) == IsFloat(y) && (IsSigned(y) ==> IsSigned(x)) ==>
              IsSigned(x) == IsSigned(y) && (x == y || (BaseOf(x) == BaseOf(y) && BaseOf(x) != OtherBase))
  {
  }

  lemma {:induction false} SameKindLeast(x: Scalar, y: Scalar)
    requires IsFloat(x) == IsFloat(y) && IsSigned(x) == IsSigned(y)
    requires x == y || (BaseOf(x) == BaseOf(y) && BaseOf(x) != OtherBase)
    ensures Least(Widest(x, y), x, y)
  {
    if x != y {
      SameBaseWidens(x, y);
    }
  }

  lemma {:induction false} LeastEither(r: Scalar, x: Scalar, y: Scalar)
    requires Least(r, x, y)
    ensures Least(r, y, x)
  {
    assert {x, y} == {y, x};
  }

  /** No union but the target's has changed, and it has taken nothing but the given scalars. */
  ghost predicate AddsOnly(t: Tables, u: Tables, more: set<Scalar>, target: nat) {
    forall k, s :: 0 <= k < |u.unions| && s in u.unions[k].members ==>
      (k < |t.unions| && s in t.unions[k].members) || (s in more && u.unions[k].owner == target)
  }

  lemma {:induction false} CreateAddsOnly(t: Tables, scalars: set<Scalar>, target: nat)
    ensures var j := CreateMulti(t, scalars, target); j.Joined? ==> AddsOnly(t, j.tables, scalars, target)
  {
  }

  lemma {:induction false} MultisAddOnly(x: Scalar, y: Scalar, a: Scalar, t: Tables, target: nat)
    requires Aligned(t) && x.Multi? && y.Multi? && Names(t, x) && Names(t, y)
    ensures var j := JoinMultis(x, y, a, t, target); j.Joined? ==> AddsOnly(t, j.tables, {x, y}, target)
  {
    CreateAddsOnly(t, {x, y}, target);
  }

  lemma {:induction false} MultiAddsOnly(multi: Scalar, scalar: Scalar, t: Tables, target: nat)
    requires Aligned(t) && multi.Multi? && Names(t, multi)
    ensures var j := JoinMulti(multi, scalar, t, target); j.Joined? ==> AddsOnly(t, j.tables, {scalar, multi}, target)
  {
    CreateAddsOnly(t, {scalar, multi}, target);
  }

  /** A join changes no union but the target's, which takes nothing but the two scalars. */
  lemma {:induction false} JoinAddsOnly(a: Scalar, b: Scalar, t: Tables, target: nat)
    requires Aligned(t) && Names(t, a) && Names(t, b)
    ensures var j := JoinScalars(a, b, t, target); j.Joined? ==> AddsOnly(t, j.tables, {a, b}, target)
  {
    var x, y := if BaseRank(BaseOf(a)) < BaseRank(BaseOf(b)) then a else b,
                if BaseRank(BaseOf(a)) < BaseRank(BaseOf(b)) then b else a;
    assert {x, y} == {a, b} && {y, x} == {a, b};
    if x.Multi? && y.Multi? {
      MultisAddOnly(x, y, a, t, target);
    } else if x.Multi? {
      MultiAddsOnly(x, y, t, target);
    } else if y.Multi? {
      MultiAddsOnly(y, x, t, target);
    } else {
      CreateAddsOnly(t, {a, b}, target);
    }
  }

  /** An unsigned integer of 64 bits joined with a signed byte becomes a signed integer of 64 bits, which does not
      hold it. */
  lemma {:induction false} UnsignedDoesNotFit(t: Tables, target: nat)
    requires Aligned(t)
    ensures JoinScalars(U64, I8, t, target) == Joined(Single(I64), t) == JoinScalars(I8, U64, t, target)
    ensures Covers(t, I64, I8) && !Covers(t, I64, U64) && High(I64) < High(U64)
  {
  }

  /** A signed integer of 64 bits joined with a float becomes a float, which does not hold it exactly. */
  lemma {:induction false} SignedDoesNotFit(t: Tables, target: nat)
    requires Aligned(t)
    ensures JoinScalars(I64, F32, t, target) == Joined(Single(F64), t) == JoinScalars(F32, I64, t, target)
    ensures Covers(t, F64, F32) && !Covers(t, F64, I64) && High(F64) < High(I64)
  {
  }

  // ----- types -----

  /** A vector covers what its elements cover, a scalar or the values of a map; a map covers a map key by key
      and value by value. */
  ghost predicate CoversType(t: Tables, r: Type, x: Type) {
    match x
    case Unknown => true
    case OfNonterm(_) => r == x
    case Single(s) => (r.Single? && Covers(t, r.scalar, s)) || (r.Collection? && r.agg.Vec? && Covers(t, r.agg.val, s))
    case Collection(c) => r.Collection? && Covers(t, r.agg.val, c.val) && (r.agg.Map? ==> c.Map? && Covers(t, r.agg.key, c.key))
  }

  /** Some pair of scalars that the join meets is too wide. */
  ghost predicate TooWideTypes(a: Type, b: Type) {
    match (a, b)
    case (Single(x), Single(y)) => TooWide(x, y)
    case (Single(x), Collection(c)) => TooWide(x, c.val)
    case (Collection(c), Collection(d)) => TooWide(c.val, d.val) || (c.Map? && d.Map? && TooWide(c.key, d.key))
    case _ => false
  }

  /** Coverage without unions does not depend on the tables. */
  lemma {:induction false} CoverageKept(a: Scalar, b: Scalar, t: Tables, target: nat, u: Tables)
    requires Aligned(t) && Names(t, a) && Names(t, b) && JoinScalars(a, b, t, target).Joined?
    requires Grown(JoinScalars(a, b, t, target).tables, u)
    ensures var r := AsScalar(JoinScalars(a, b, t, target).type_);
            Covers(u, r, a) && Covers(u, r, b) <==> !TooWide(a, b)
  {
    var j := JoinScalars(a, b, t, target);
    JoinCovers(a, b, t, target);
    if TooWide(a, b) {
      WideIsNoUnion(a, b, t, target);
    } else {
      CoverageStays(j.tables, u, AsScalar(j.type_), a);
      CoverageStays(j.tables, u, AsScalar(j.type_), b);
    }
  }

  lemma {:induction false} WideIsNoUnion(a: Scalar, b: Scalar, t: Tables, target: nat)
    requires Aligned(t) && Names(t, a) && Names(t, b) && JoinScalars(a, b, t, target).Joined? && TooWide(a, b)
    ensures !AsScalar(JoinScalars(a, b, t, target).type_).Multi?
  {
  }

  lemma {:induction false} VectorCovers(a: Scalar, b: Scalar, t: Tables, target: nat)
    requires Aligned(t) && Names(t, a) && Names(t, b)
    ensures var j := InVector(JoinScalars(a, b, t, target));
            j.Joined? ==> && Aligned(j.tables) && Grown(t, j.tables) && TypeNames(j.tables, j.type_)
                          && j.type_.Collection? && j.type_.agg.Vec?
                          && (Covers(j.tables, j.type_.agg.val, a) && Covers(j.tables, j.type_.agg.val, b)
                              <==> !TooWide(a, b))
  {
    JoinCovers(a, b, t, target);
  }

  lemma {:induction false} CollectionsCover(a: Aggregate, b: Aggregate, t: Tables, target: nat)
    requires Aligned(t) && TypeNames(t, Collection(a)) && TypeNames(t, Collection(b))
    ensures var j := JoinCollections(a, b, t, target);
            j.Joined? ==> && Aligned(j.tables) && Grown(t, j.tables) && TypeNames(j.tables, j.type_)
                          && (CoversType(j.tables, j.type_, Collection(a)) && CoversType(j.tables, j.type_, Collection(b))
                              <==> !TooWideTypes(Collection(a), Collection(b)))
  {
    if a.Map? && b.Map? {
      JoinCovers(a.key, b.key, t, target);
      var key := JoinScalars(a.key, b.key, t, target);
      if key.Joined? {
        JoinCovers(a.val, b.val, key.tables, target);
        var val := JoinScalars(a.val, b.val, key.tables, target);
        if val.Joined? {
          CoverageKept(a.key, b.key, t, target, val.tables);
        }
      }
    } else if a.Vec? && b.Map? {
      VectorCovers(a.val, b.val, t, target);
    } else {
      VectorCovers(b.val, a.val, t, target);
    }
  }

  /** Whenever a join of types succeeds, the tables stay aligned and name the result, so that it can be joined
      again, unions only grow, and the result covers both types, exactly unless 64 bits are too wide. */
  lemma {:induction false} TypesCover(a: Type, b: Type, t: Tables, target: nat)
    requires Aligned(t) && TypeNames(t, a) && TypeNames(t, b)
    ensures var j := JoinTypes(a, b, t, target);
            j.Joined? ==> && Aligned(j.tables) && Grown(t, j.tables) && TypeNames(j.tables, j.type_)
                          && (CoversType(j.tables, j.type_, a) && CoversType(j.tables, j.type_, b)
                              <==> !TooWideTypes(a, b))
  {
    if a.Single? && b.Single? {
      JoinCovers(a.scalar, b.scalar, t, target);
    } else if a.Single? && b.Collection? && b.agg.Vec? {
      VectorCovers(a.scalar, b.agg.val, t, target);
    } else if a.Collection? && b.Collection? {
      CollectionsCover(a.agg, b.agg, t, target);
    }
  }
}
