/** The join of types as it is carried out (crates/radlr-ascript/build_db.rs:1537-1707): both tables are fields
    that the joins update in place. */
module TypeJoiner {
  import opened Scalars
  import opened Unions
  import opened TypeJoin

  datatype Resolved = Ok(type_: Type) | Error | Panic

  /** The result of a method is that of the join, with the joined tables in place. */
  ghost predicate Agrees(r: Resolved, now: Tables, j: Joined) {
    match j
    case Joined(x, tables) => r == Ok(x) && now == tables
    case Incompatible => r == Error
    case Unhandled => r == Panic
  }

  class TypeTables {
    var lookup: seq<nat>
    var unions: seq<Union>

    constructor ()
      ensures Now() == TypeJoin.Tables([], []) && Aligned(Now())
    {
      lookup, unions := [], [];
    }

    function Now(): Tables
      reads this
    {
      TypeJoin.Tables(lookup, unions)
    }

    method FindOwned(target: nat) returns (k: nat)
      ensures k == OwnedBy(unions, target)
    {
      k := 0;
      while k < |unions| && unions[k].owner != target
        invariant k <= |unions| && OwnedBy(unions, target) == k + OwnedBy(unions[k..], target)
      {
        assert unions[k..][1..] == unions[k + 1..];
        k := k + 1;
      }
      assert k < |unions| ==> unions[k..][0] == unions[k];
    }

    method CreateUnion(scalars: set<Scalar>, target: nat) returns (r: Resolved)
      modifies this
      ensures Agrees(r, Now(), CreateMulti(old(Now()), scalars, target))
    {
      var k := FindOwned(target);
      if k < |unions| {
        unions := unions[k := unions[k].(members := unions[k].members + scalars)];
        r := Ok(Single(Multi(k)));
      } else if target == NO_NONTERM {
        r := Panic;
      } else {
        var index := |lookup|;
        lookup := lookup + [|unions|];
        unions := unions + [Union(target, scalars, {})];
        r := Ok(Single(Multi(index)));
      }
    }

    /** Joins two unions. */
    method ResolveUnions(x: Scalar, y: Scalar, a: Scalar, target: nat) returns (r: Resolved)
      requires Aligned(Now()) && x.Multi? && y.Multi? && Names(Now(), x) && Names(Now(), y)
      modifies this
      ensures Agrees(r, Now(), JoinMultis(x, y, a, old(Now()), target))
    {
      var i, j := lookup[x.index], lookup[y.index];
      if i != j {
        if unions[i].owner == target || unions[j].owner == target {
          var used, other := if unions[i].owner == target then i else j, if unions[i].owner == target then j else i;
          unions := unions[used := unions[used].(members := unions[used].members + {Multi(other)})];
          r := Ok(Single(Multi(used)));
        } else {
          r := CreateUnion({Multi(i), Multi(j)}, target);
        }
      } else {
        r := Ok(Single(a));
      }
    }

    /** Joins a union with another scalar. */
    method ResolveUnion(multi: Scalar, scalar: Scalar, target: nat) returns (r: Resolved)
      requires Aligned(Now()) && multi.Multi? && Names(Now(), multi)
      modifies this
      ensures Agrees(r, Now(), JoinMulti(multi, scalar, old(Now()), target))
    {
      var i := lookup[multi.index];
      if unions[i].owner == target {
        unions := unions[i := unions[i].(members := unions[i].members + {scalar})];
        r := Ok(Single(multi));
      } else {
        r := CreateUnion({scalar, multi}, target);
      }
    }

    method ResolveScalars(a: Scalar, b: Scalar, target: nat) returns (r: Resolved)
      requires Aligned(Now()) && Names(Now(), a) && Names(Now(), b)
      modifies this
      ensures Agrees(r, Now(), JoinScalars(a, b, old(Now()), target))
    {
      var x, y := a, b;
      if !(BaseRank(BaseOf(a)) < BaseRank(BaseOf(b))) {
        x, y := b, a;
      }
      if x.Multi? && y.Multi? {
        r := ResolveUnions(x, y, a, target);
      } else if x.Multi? {
        r := ResolveUnion(x, y, target);
      } else if y.Multi? {
        r := ResolveUnion(y, x, target);
      } else if x == y {
        r := Ok(Single(x));
      } else if BaseOf(x) == BaseOf(y) && BaseOf(x) != OtherBase {
        r := Ok(Single(if ByteSize(x) > ByteSize(y) then x else y));
      } else if (BaseOf(x) == BoolBase || BaseOf(x) == UintBase) && BaseOf(y) == IntBase {
        r := Ok(Single(SignedOfSize(Max(ByteSize(x) + 1, ByteSize(y)))));
      } else if IsWhole(BaseOf(x)) && BaseOf(y) == FloatBase {
        r := Ok(Single(FloatOfSize(Max(ByteSize(x) + 1, ByteSize(y)))));
      } else {
        r := CreateUnion({a, b}, target);
      }
    }

    method ResolveVector(a: Scalar, b: Scalar, target: nat) returns (r: Resolved)
      requires Aligned(Now()) && Names(Now(), a) && Names(Now(), b)
      modifies this
      ensures Agrees(r, Now(), InVector(JoinScalars(a, b, old(Now()), target)))
    {
      r := ResolveScalars(a, b, target);
      if r.Ok? {
        r := Ok(Collection(Vec(AsScalar(r.type_))));
      }
    }

    method ResolveMaps(a: Aggregate, b: Aggregate, target: nat) returns (r: Resolved)
      requires Aligned(Now()) && TypeNames(Now(), Collection(a)) && TypeNames(Now(), Collection(b)) && a.Map? && b.Map?
      modifies this
      ensures Agrees(r, Now(), JoinCollections(a, b, old(Now()), target))
    {
      JoinAligned(a.key, b.key, Now(), target);
      var key := ResolveScalars(a.key, b.key, target);
      if !key.Ok? {
        return key;
      }
      var val := ResolveScalars(a.val, b.val, target);
      if !val.Ok? {
        return val;
      }
      r := Ok(Collection(Map(AsScalar(key.type_), AsScalar(val.type_))));
    }

    /** The join of two types. */
    method GetResolvedType(a: Type, b: Type, target: nat) returns (r: Resolved)
      requires Aligned(Now()) && TypeNames(Now(), a) && TypeNames(Now(), b)
      modifies this
      ensures Agrees(r, Now(), JoinTypes(a, b, old(Now()), target))
    {
      match b
      case Unknown => r := Ok(a);
      case Collection(bAgg) =>
        match a {
          case Collection(aAgg) =>
            if aAgg.Map? && bAgg.Map? {
              r := ResolveMaps(aAgg, bAgg, target);
            } else if bAgg.Map? {
              r := ResolveVector(aAgg.val, bAgg.val, target);
            } else {
              r := ResolveVector(bAgg.val, aAgg.val, target);
            }
          case Single(s) =>
            if bAgg.Vec? {
              r := ResolveVector(s, bAgg.val, target);
            } else {
              r := Panic;
            }
          case Unknown => r := Ok(b);
          case OfNonterm(_) => r := Panic;
        }
      case Single(bScalar) =>
        match a {
          case Unknown => r := Ok(b);
          case Single(aScalar) => r := ResolveScalars(aScalar, bScalar, target);
          case Collection(_) => r := if bScalar.Struct? then Error else Panic;
          case OfNonterm(_) => r := Panic;
        }
      case OfNonterm(_) => r := Panic;
    }
  }
}
