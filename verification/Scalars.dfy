/** The types of the AST script and their order (crates/radlr-ascript/types/ast_types.rs).  Literal values that
    some scalar types carry take no part in equality or order, and are not part of the model. */
module Scalars {

  datatype Scalar =
    | U8 | U16 | U32 | U64
    | I8 | I16 | I32 | I64
    | F32 | F64
    | Flag
    | Str
    | Bool
    | Struct(id: nat)
    | Multi(index: nat)
    | Token
    | TokenRange
    | Undefined

  datatype Aggregate = Vec(val: Scalar) | Map(key: Scalar, val: Scalar)

  datatype Type = Unknown | Single(scalar: Scalar) | Collection(agg: Aggregate) | OfNonterm(nonterm: nat)

  datatype Base = BoolBase | UintBase | IntBase | FloatBase | TokenBase | StringBase | OtherBase

  function Precedence(s: Scalar): nat {
    match s
    case U8 => 0 case U16 => 1 case U32 => 2 case U64 => 3
    case I8 => 4 case I16 => 5 case I32 => 6 case I64 => 7
    case F32 => 8 case F64 => 9
    case Str => 10 case Bool => 11
    case Struct(_) => 12 case Multi(_) => 13
    case Flag => 14 case Token => 15 case TokenRange => 16 case Undefined => 17
  }

  function ByteSize(s: Scalar): nat {
    match s
    case Bool => 1 case I8 => 1 case U8 => 1
    case I16 => 2 case U16 => 2
    case U32 => 4 case I32 => 4 case F32 => 4
    case U64 => 8 case I64 => 8 case F64 => 8
    case Str => 16
    case Struct(_) => 128
    case Multi(_) => 0
    case Flag => 8 case Token => 16 case TokenRange => 8
    case Undefined => 0
  }

  function BaseOf(s: Scalar): Base {
    match s
    case Bool => BoolBase
    case U8 => UintBase case U16 => UintBase case U32 => UintBase case U64 => UintBase
    case I8 => IntBase case I16 => IntBase case I32 => IntBase case I64 => IntBase
    case F32 => FloatBase case F64 => FloatBase
    case Token => TokenBase case TokenRange => TokenBase
    case Str => StringBase
    case _ => OtherBase
  }

  function BaseRank(b: Base): nat {
    match b
    case BoolBase => 0 case UintBase => 1 case IntBase => 2 case FloatBase => 3
    case TokenBase => 4 case StringBase => 5 case OtherBase => 6
  }

  // ----- order -----

  datatype Order = Less | Equal | Greater

  function CompareNat(a: nat, b: nat): Order {
    if a < b then Less else if a == b then Equal else Greater
  }

  function CompareScalar(a: Scalar, b: Scalar): Order {
    if a.Multi? && b.Multi? then CompareNat(a.index, b.index)
    else if a.Struct? && b.Struct? then CompareNat(a.id, b.id)
    else CompareNat(Precedence(a), Precedence(b))
  }

  function CompareAggregate(a: Aggregate, b: Aggregate): Order {
    match (a, b)
    case (Vec(x), Vec(y)) => CompareScalar(x, y)
    case (Map(k, v), Map(l, w)) => if CompareScalar(v, w) == Equal then CompareScalar(k, l) else CompareScalar(v, w)
    case (Vec(_), Map(_, _)) => Less
    case (Map(_, _), Vec(_)) => Greater
  }

  function CompareType(a: Type, b: Type): Order {
    match (a, b)
    case (Unknown, Unknown) => Equal
    case (Unknown, _) => Less
    case (_, Unknown) => Greater
    case (Single(c), Single(d)) => CompareScalar(c, d)
    case (Collection(c), Collection(d)) => CompareAggregate(c, d)
    case (OfNonterm(c), OfNonterm(d)) => CompareNat(c, d)
    case (OfNonterm(_), Single(_)) => Less
    case (Single(_), OfNonterm(_)) => Greater
    case (Single(_), Collection(_)) => Less
    case (Collection(_), Single(_)) => Greater
    case (OfNonterm(_), Collection(_)) => Less
    case (Collection(_), OfNonterm(_)) => Greater
  }

  /** The equality test of types: it looks inside scalars and collections only. */
  predicate SameType(a: Type, b: Type) {
    match (a, b)
    case (Single(c), Single(d)) => c == d
    case (Collection(Vec(x)), Collection(Vec(y))) => x == y
    case (Collection(Map(k, v)), Collection(Map(l, w))) => k == l && v == w
    case _ => false
  }

  function Opposite(o: Order): Order {
    match o case Less => Greater case Equal => Equal case Greater => Less
  }

  /** The order of scalars is total: antisymmetric, transitive, and equal only on equal scalars. */
  lemma {:induction false} ScalarOrderTotal(a: Scalar, b: Scalar, c: Scalar)
    ensures CompareScalar(b, a) == Opposite(CompareScalar(a, b))
    ensures CompareScalar(a, b) == Equal <==> a == b
    ensures CompareScalar(a, b) == Less && CompareScalar(b, c) == Less ==> CompareScalar(a, c) == Less
  {
    if a.Struct? {
      assert Precedence(b) == 12 <==> b.Struct?;
    }
    if a.Multi? {
      assert Precedence(b) == 13 <==> b.Multi?;
    }
  }

  lemma {:induction false} AggregateOrderTotal(a: Aggregate, b: Aggregate, c: Aggregate)
    ensures CompareAggregate(b, a) == Opposite(CompareAggregate(a, b))
    ensures CompareAggregate(a, b) == Equal <==> a == b
    ensures CompareAggregate(a, b) == Less && CompareAggregate(b, c) == Less ==> CompareAggregate(a, c) == Less
  {
    ScalarOrderTotal(a.val, b.val, c.val);
    if a.Map? && b.Map? {
      ScalarOrderTotal(a.key, b.key, if c.Map? then c.key else Undefined);
    }
  }

  /** The order of types is total. */
  lemma {:induction false} TypeOrderTotal(a: Type, b: Type, c: Type)
    ensures CompareType(b, a) == Opposite(CompareType(a, b))
    ensures CompareType(a, b) == Equal <==> a == b
    ensures CompareType(a, b) == Less && CompareType(b, c) == Less ==> CompareType(a, c) == Less
  {
    if a.Single? && b.Single? {
      ScalarOrderTotal(a.scalar, b.scalar, if c.Single? then c.scalar else Undefined);
    }
    if a.Collection? && b.Collection? {
      AggregateOrderTotal(a.agg, b.agg, if c.Collection? then c.agg else Vec(Undefined));
    }
  }

  /** Order and equality test agree exactly on scalars and collections: an unknown type and the type of a
      non-terminal are never found equal to anything, not even to themselves. */
  lemma {:induction false} OrderMatchesEquality(a: Type)
    ensures SameType(a, a) <==> a.Single? || a.Collection?
    ensures forall b :: SameType(a, b) ==> CompareType(a, b) == Equal
    ensures (forall b :: CompareType(a, b) == Equal ==> SameType(a, b)) <==> a.Single? || a.Collection?
  {
    forall b
      ensures SameType(a, b) ==> CompareType(a, b) == Equal
      ensures CompareType(a, b) == Equal && (a.Single? || a.Collection?) ==> SameType(a, b)
    {
      TypeOrderTotal(a, b, a);
    }
    TypeOrderTotal(a, a, a);
  }

  /** The kinds of scalars, from the least to the greatest. */
  function Kinds(struct_: nat, multi: nat): seq<Scalar> {
    [U8, U16, U32, U64, I8, I16, I32, I64, F32, F64, Str, Bool, Struct(struct_), Multi(multi), Flag, Token, TokenRange, Undefined]
  }

  /** Scalars of different kinds are ordered by kind, structs and unions among themselves by their number. */
  lemma {:induction false} KindsAscend(struct_: nat, multi: nat, i: nat, j: nat, a: nat, b: nat)
    requires i < j < 18 && a < b
    ensures CompareScalar(Kinds(struct_, multi)[i], Kinds(struct_, multi)[j]) == Less
    ensures CompareScalar(Struct(a), Struct(b)) == CompareScalar(Multi(a), Multi(b)) == Less
  {
    assert Precedence(Kinds(struct_, multi)[i]) == i && Precedence(Kinds(struct_, multi)[j]) == j;
  }
}
