/** Marking the structs that need a template (crates/radlr-ascript/build_db.rs:186-215): those that carry a token,
    and all that contain one of those. */
module Templates {
  import opened Scalars
  import opened Unions

  datatype StructDef = StructDef(hasToken: bool, props: seq<Type>, requiresTemplate: bool)

  type Structs = map<nat, StructDef>

  /** Flattened unions hold no unions, so that looking into one goes one level deep. */
  ghost predicate Flattened(unions: seq<Union>) {
    forall k, s :: 0 <= k < |unions| && s in unions[k].members ==> !s.Multi?
  }

  predicate ScalarFits(s: Scalar, n: nat) { s.Multi? ==> s.index < n }

  predicate TypeFits(t: Type, n: nat) {
    match t
    case Single(s) => ScalarFits(s, n)
    case Collection(Vec(v)) => ScalarFits(v, n)
    case Collection(Map(k, v)) => ScalarFits(k, n) && ScalarFits(v, n)
    case _ => true
  }

  /** Every union named by a property is in the table. */
  ghost predicate Fits(structs: Structs, unions: seq<Union>) {
    forall id, i :: id in structs && 0 <= i < |structs[id].props| ==> TypeFits(structs[id].props[i], |unions|)
  }

  // ----- what a type asks for -----

  predicate MemberNeeds(s: Scalar, structs: Structs) {
    s == Token || s == TokenRange || (s.Struct? && s.id in structs && structs[s.id].requiresTemplate)
  }

  predicate ScalarNeeds(s: Scalar, structs: Structs, unions: seq<Union>)
    requires ScalarFits(s, |unions|)
  {
    if s.Multi? then exists m :: m in unions[s.index].members && MemberNeeds(m, structs) else MemberNeeds(s, structs)
  }

  predicate TypeNeeds(t: Type, structs: Structs, unions: seq<Union>)
    requires TypeFits(t, |unions|)
  {
    match t
    case Single(s) => ScalarNeeds(s, structs, unions)
    case Collection(Vec(v)) => ScalarNeeds(v, structs, unions)
    case Collection(Map(k, v)) => ScalarNeeds(k, structs, unions) || ScalarNeeds(v, structs, unions)
    case _ => false
  }

  function StructsOf(members: set<Scalar>): set<nat> {
    set m | m in members && m.Struct? :: m.id
  }

  /** The structs a scalar names, directly or as members of a flattened union. */
  function ScalarStructs(s: Scalar, unions: seq<Union>): set<nat>
    requires ScalarFits(s, |unions|)
  {
    if s.Multi? then StructsOf(unions[s.index].members) else if s.Struct? then {s.id} else {}
  }

  /** The structs a type names; the keys of maps are not looked at. */
  function TypeStructs(t: Type, unions: seq<Union>): set<nat>
    requires TypeFits(t, |unions|)
  {
    match t
    case Single(s) => ScalarStructs(s, unions)
    case Collection(Vec(v)) => ScalarStructs(v, unions)
    case Collection(Map(_, v)) => ScalarStructs(v, unions)
    case _ => {}
  }

  // ----- what a type holds -----

  /** The scalar itself, the element of a vector or the value of a map. */
  ghost predicate HasValue(t: Type, s: Scalar) {
    t == Single(s) || t == Collection(Vec(s)) || exists k :: t == Collection(Map(k, s))
  }

  ghost predicate HasKey(t: Type, s: Scalar) { exists v :: t == Collection(Map(s, v)) }

  /** The scalar, or a member of the union that it names. */
  ghost predicate Among(unions: seq<Union>, s: Scalar, m: Scalar) {
    m == s || (s.Multi? && s.index < |unions| && m in unions[s.index].members)
  }

  ghost predicate Holds(t: Type, unions: seq<Union>, m: Scalar) {
    exists s :: HasValue(t, s) && Among(unions, s, m)
  }

  ghost predicate HoldsAsKey(t: Type, unions: seq<Union>, m: Scalar) {
    exists s :: HasKey(t, s) && Among(unions, s, m)
  }

  /** A token, or a struct that is marked. */
  ghost predicate Asks(structs: Structs, m: Scalar) {
    m == Token || m == TokenRange || exists d :: m == Struct(d) && d in structs && structs[d].requiresTemplate
  }

  lemma {:induction false} ScalarStructsExactly(s: Scalar, unions: seq<Union>, d: nat)
    requires ScalarFits(s, |unions|)
    ensures d in ScalarStructs(s, unions) <==> Among(unions, s, Struct(d))
  {
    if s.Multi? && Struct(d) in unions[s.index].members {
      assert Struct(d).Struct? && Struct(d).id == d;
    }
  }

  /** The structs that a type names are those that it holds. */
  lemma {:induction false} TypeStructsExactly(t: Type, unions: seq<Union>, d: nat)
    requires TypeFits(t, |unions|)
    ensures d in TypeStructs(t, unions) <==> Holds(t, unions, Struct(d))
  {
    match t
    case Single(s) =>
      ScalarStructsExactly(s, unions, d);
      assert HasValue(t, s);
    case Collection(Vec(v)) =>
      ScalarStructsExactly(v, unions, d);
      assert HasValue(t, v);
    case Collection(Map(k, v)) =>
      ScalarStructsExactly(v, unions, d);
      assert HasValue(t, v);
    case _ =>
  }

  lemma {:induction false} ScalarNeedsExactly(s: Scalar, structs: Structs, unions: seq<Union>)
    requires ScalarFits(s, |unions|)
    ensures ScalarNeeds(s, structs, unions) <==> exists m :: Among(unions, s, m) && Asks(structs, m)
  {
    assert forall m :: MemberNeeds(m, structs) <==> Asks(structs, m);
    if s.Multi? {
      assert !Asks(structs, s);
      assert forall m :: m in unions[s.index].members ==> Among(unions, s, m);
    } else {
      assert Among(unions, s, s);
    }
  }

  /** A type needs a template exactly when it holds, or has as the key of a map, a token or a marked struct. */
  lemma {:induction false} TypeNeedsExactly(t: Type, structs: Structs, unions: seq<Union>)
    requires TypeFits(t, |unions|)
    ensures TypeNeeds(t, structs, unions) <==>
              exists m :: (Holds(t, unions, m) || HoldsAsKey(t, unions, m)) && Asks(structs, m)
  {
    match t
    case Single(s) =>
      assert HasValue(t, s);
      ScalarNeedsExactly(s, structs, unions);
    case Collection(Vec(v)) =>
      assert HasValue(t, v);
      ScalarNeedsExactly(v, structs, unions);
    case Collection(Map(k, v)) =>
      assert HasValue(t, v) && HasKey(t, k);
      ScalarNeedsExactly(k, structs, unions);
      ScalarNeedsExactly(v, structs, unions);
    case _ =>
  }

  // ----- the fixpoint -----

  /** The struct has a token itself, or a property that holds one. */
  ghost predicate Seed(structs: Structs, unions: seq<Union>, id: nat)
    requires Fits(structs, unions)
  {
    && id in structs
    && (structs[id].hasToken || exists i :: 0 <= i < |structs[id].props| && NeedsTemplate(structs[id].props[i], structs, unions))
  }

  ghost predicate NeedsTemplate(t: Type, structs: Structs, unions: seq<Union>) {
    exists m :: (Holds(t, unions, m) || HoldsAsKey(t, unions, m)) && Asks(structs, m)
  }

  /** A property of the struct holds `d`. */
  ghost predicate Contains(structs: Structs, unions: seq<Union>, id: nat, d: nat)
    requires Fits(structs, unions)
  {
    id in structs && exists i :: 0 <= i < |structs[id].props| && Holds(structs[id].props[i], unions, Struct(d))
  }

  /** From a struct that carries a token to a struct that contains it, and on. */
  ghost predicate Chain(structs: Structs, unions: seq<Union>, p: seq<nat>)
    requires Fits(structs, unions)
  {
    && p != [] && Seed(structs, unions, p[0])
    && forall t :: 0 <= t < |p| - 1 ==> Contains(structs, unions, p[t + 1], p[t])
  }

  /** The struct carries a token or reaches one that does. */
  ghost predicate Carries(structs: Structs, unions: seq<Union>, id: nat)
    requires Fits(structs, unions)
  {
    exists p :: Chain(structs, unions, p) && p[|p| - 1] == id
  }

  lemma {:induction false} SeedCarries(structs: Structs, unions: seq<Union>, id: nat)
    requires Fits(structs, unions) && Seed(structs, unions, id)
    ensures Carries(structs, unions, id)
  {
    assert Chain(structs, unions, [id]) && [id][|[id]| - 1] == id;
  }

  lemma {:induction false} ContainerCarries(structs: Structs, unions: seq<Union>, id: nat, d: nat)
    requires Fits(structs, unions) && Carries(structs, unions, d) && Contains(structs, unions, id, d)
    ensures Carries(structs, unions, id)
  {
    var p :| Chain(structs, unions, p) && p[|p| - 1] == d;
    var q := p + [id];
    forall t | 0 <= t < |q| - 1
      ensures Contains(structs, unions, q[t + 1], q[t])
    {
      if t < |p| - 1 {
        assert q[t + 1] == p[t + 1] && q[t] == p[t];
      }
    }
    assert q[0] == p[0] && q[|q| - 1] == id;
    assert Chain(structs, unions, q);
  }

  /** The marks are a fixpoint: every seed is marked or waiting, and so is every container of a marked struct. */
  ghost predicate Closed(structs: Structs, unions: seq<Union>, marked: set<nat>, queue: seq<nat>)
    requires Fits(structs, unions)
  {
    && (forall id :: Seed(structs, unions, id) ==> id in marked || id in queue)
    && (forall id, d :: d in marked && Contains(structs, unions, id, d) ==> id in marked || id in queue)
  }

  lemma {:induction false} CarriersMarked(structs: Structs, unions: seq<Union>, marked: set<nat>, p: seq<nat>, t: nat)
    requires Fits(structs, unions) && Closed(structs, unions, marked, []) && Chain(structs, unions, p) && t < |p|
    ensures p[t] in marked
  {
    if t > 0 {
      CarriersMarked(structs, unions, marked, p, t - 1);
      assert Contains(structs, unions, p[t - 1 + 1], p[t - 1]);
    }
  }

  // ----- the marking -----

  /** Which structs contain a struct. */
  type Containers = map<nat, set<nat>>

  ghost predicate KnowsContainers(structs: Structs, unions: seq<Union>, c: Containers, seen: set<nat>)
    requires Fits(structs, unions)
  {
    forall id, d :: (d in c && id in c[d]) <==> id in seen && Contains(structs, unions, id, d)
  }

  function Including(c: Containers, ds: set<nat>, id: nat): (r: Containers)
    ensures forall d, x :: (d in r && x in r[d]) <==> (d in c && x in c[d]) || (d in ds && x == id)
  {
    map d | d in c.Keys + ds :: (if d in c then c[d] else {}) + (if d in ds then {id} else {})
  }

  function PropStructs(props: seq<Type>, unions: seq<Union>): set<nat>
    requires forall i :: 0 <= i < |props| ==> TypeFits(props[i], |unions|)
  {
    if props == [] then {} else PropStructs(props[..|props| - 1], unions) + TypeStructs(props[|props| - 1], unions)
  }

  lemma {:induction false} PropStructsExactly(props: seq<Type>, unions: seq<Union>, d: nat)
    requires forall i :: 0 <= i < |props| ==> TypeFits(props[i], |unions|)
    ensures d in PropStructs(props, unions) <==> exists i :: 0 <= i < |props| && Holds(props[i], unions, Struct(d))
  {
    if props != [] {
      var init, last := props[..|props| - 1], props[|props| - 1];
      PropStructsExactly(init, unions, d);
      TypeStructsExactly(last, unions, d);
      if d in PropStructs(init, unions) {
        var i :| 0 <= i < |init| && Holds(init[i], unions, Struct(d));
        assert props[i] == init[i];
      }
      if i :| 0 <= i < |props| && Holds(props[i], unions, Struct(d)) {
        assert i < |init| ==> init[i] == props[i];
      }
    }
  }

  method AnyNeeds(props: seq<Type>, structs: Structs, unions: seq<Union>) returns (any: bool)
    requires forall i :: 0 <= i < |props| ==> TypeFits(props[i], |unions|)
    ensures any <==> exists i :: 0 <= i < |props| && NeedsTemplate(props[i], structs, unions)
  {
    any := false;
    for k := 0 to |props|
      invariant any <==> exists i :: 0 <= i < k && NeedsTemplate(props[i], structs, unions)
    {
      TypeNeedsExactly(props[k], structs, unions);
      assert TypeNeeds(props[k], structs, unions) <==> NeedsTemplate(props[k], structs, unions);
      if TypeNeeds(props[k], structs, unions) {
        any := true;
      }
    }
  }

  lemma {:induction false} SeenOne(structs: Structs, unions: seq<Union>, c: Containers, seen: set<nat>, id: nat)
    requires Fits(structs, unions) && KnowsContainers(structs, unions, c, seen) && id in structs && id !in seen
    ensures KnowsContainers(structs, unions, Including(c, PropStructs(structs[id].props, unions), id), seen + {id})
  {
    var r := Including(c, PropStructs(structs[id].props, unions), id);
    forall x, d
      ensures (d in r && x in r[d]) <==> x in seen + {id} && Contains(structs, unions, x, d)
    {
      assert (d in c && x in c[d]) <==> x in seen && Contains(structs, unions, x, d);
      if x == id {
        PropStructsExactly(structs[id].props, unions, d);
        assert d in PropStructs(structs[id].props, unions) <==> Contains(structs, unions, id, d);
      }
    }
  }

  /** The structs that need a template from the start, and the containers of every struct. */
  method Survey(structs: Structs, unions: seq<Union>) returns (queue: seq<nat>, containers: Containers)
    requires Fits(structs, unions)
    ensures forall id :: id in queue <==> Seed(structs, unions, id)
    ensures KnowsContainers(structs, unions, containers, structs.Keys)
  {
    queue, containers := [], map[];
    var left := structs.Keys;
    while left != {}
      invariant left <= structs.Keys
      invariant forall id :: id in queue <==> Seed(structs, unions, id) && id !in left
      invariant KnowsContainers(structs, unions, containers, structs.Keys - left)
      decreases |left|
    {
      var id :| id in left;
      var any := AnyNeeds(structs[id].props, structs, unions);
      if structs[id].hasToken || any {
        queue := queue + [id];
      }
      ghost var seen := structs.Keys - left;
      SeenOne(structs, unions, containers, seen, id);
      containers := Including(containers, PropStructs(structs[id].props, unions), id);
      left := left - {id};
      assert structs.Keys - left == seen + {id};
    }
    assert structs.Keys - left == structs.Keys;
  }

  method ToSeq(s: set<nat>) returns (q: seq<nat>)
    ensures forall x :: x in q <==> x in s
  {
    q := [];
    var left := s;
    while left != {}
      invariant forall x :: x in s <==> x in q || x in left
      decreases |left|
    {
      var x :| x in left;
      q := q + [x];
      left := left - {x};
    }
  }

  /** The same structs, with other marks. */
  ghost predicate SameStructs(a: Structs, b: Structs) {
    a.Keys == b.Keys && forall id :: id in a ==> b[id] == a[id].(requiresTemplate := b[id].requiresTemplate)
  }

  /** What holds between two steps of the marking. */
  ghost predicate Progress(structs: Structs, unions: seq<Union>, marked: set<nat>, queue: seq<nat>)
    requires Fits(structs, unions)
  {
    && Closed(structs, unions, marked, queue)
    && (forall id :: id in marked || id in queue ==> id in structs && Carries(structs, unions, id))
  }

  lemma {:induction false} MarkOne(structs: Structs, unions: seq<Union>, containers: Containers, marked: set<nat>,
    after: set<nat>, queue: seq<nat>, more: seq<nat>)
    requires Fits(structs, unions) && KnowsContainers(structs, unions, containers, structs.Keys)
    requires queue != [] && Progress(structs, unions, marked, queue)
    requires forall x :: x in more <==> queue[0] in containers && x in containers[queue[0]]
    requires after == marked + {queue[0]}
    ensures Progress(structs, unions, after, queue[1..] + more)
  {
    var d := queue[0];
    assert queue == [d] + queue[1..] && d in queue;
    forall id | id in more
      ensures id in structs && Carries(structs, unions, id)
    {
      ContainerCarries(structs, unions, id, d);
    }
  }

  lemma {:induction false} SkipOne(structs: Structs, unions: seq<Union>, marked: set<nat>, queue: seq<nat>)
    requires Fits(structs, unions) && queue != [] && queue[0] in marked && Progress(structs, unions, marked, queue)
    ensures Progress(structs, unions, marked, queue[1..])
  {
    assert queue == [queue[0]] + queue[1..];
  }

  lemma {:induction false} MarksLeft(structs: Structs, marked: set<nat>, more: set<nat>, id: nat)
    requires id in structs && id !in marked && marked <= structs.Keys && more == marked + {id}
    ensures |structs.Keys - more| < |structs.Keys - marked|
    ensures more <= structs.Keys
  {
    assert structs.Keys - more == structs.Keys - marked - {id};
  }

  ghost predicate MarksAre(before: Structs, after: Structs, marked: set<nat>) {
    after.Keys == before.Keys && forall id :: id in before ==> after[id] == before[id].(requiresTemplate := id in marked)
  }

  lemma {:induction false} MarksGrow(before: Structs, after: Structs, marked: set<nat>, more: set<nat>, id: nat)
    requires MarksAre(before, after, marked) && id in before && more == marked + {id}
    ensures MarksAre(before, after[id := after[id].(requiresTemplate := true)], more)
  {
  }

  lemma {:induction false} MarkedOnly(structs: Structs, unions: seq<Union>, marked: set<nat>, id: nat)
    requires Fits(structs, unions) && Progress(structs, unions, marked, []) && id in structs
    ensures id in marked <==> Carries(structs, unions, id)
  {
    if Carries(structs, unions, id) {
      var p :| Chain(structs, unions, p) && p[|p| - 1] == id;
      CarriersMarked(structs, unions, marked, p, |p| - 1);
    }
  }

  lemma {:induction false} StartsWithSeeds(structs: Structs, unions: seq<Union>, queue: seq<nat>)
    requires Fits(structs, unions) && forall id :: id in queue <==> Seed(structs, unions, id)
    ensures Progress(structs, unions, {}, queue)
  {
    forall id | id in queue
      ensures id in structs && Carries(structs, unions, id)
    {
      SeedCarries(structs, unions, id);
    }
  }

  class StructTable {
    var structs: Structs

    constructor (s: Structs)
      ensures structs == s
    {
      structs := s;
    }

    /** Marks the structs that need a template; it ends on recursive structs too. */
    method ResolveStructDefinitions(unions: seq<Union>)
      requires Fits(structs, unions) && Flattened(unions)
      requires forall id :: id in structs ==> !structs[id].requiresTemplate
      modifies this
      ensures SameStructs(old(structs), structs)
      ensures forall id :: id in structs ==> (structs[id].requiresTemplate <==> Carries(old(structs), unions, id))
    {
      ghost var s, marked: set<nat> := structs, {};
      var queue, containers := Survey(structs, unions);
      StartsWithSeeds(s, unions, queue);
      while queue != []
        invariant MarksAre(s, structs, marked) && marked <= s.Keys
        invariant Progress(s, unions, marked, queue)
        decreases |s.Keys - marked|, |queue|
      {
        var id := queue[0];
        assert id in queue;
        if !structs[id].requiresTemplate {
          var more := [];
          if id in containers {
            more := ToSeq(containers[id]);
          }
          ghost var after := marked + {id};
          MarkOne(s, unions, containers, marked, after, queue, more);
          MarksLeft(s, marked, after, id);
          MarksGrow(s, structs, marked, after, id);
          structs := structs[id := structs[id].(requiresTemplate := true)];
          queue, marked := queue[1..] + more, after;
        } else {
          SkipOne(s, unions, marked, queue);
          queue := queue[1..];
        }
      }
      forall id | id in structs
        ensures structs[id].requiresTemplate <==> Carries(s, unions, id)
      {
        MarkedOnly(s, unions, marked, id);
      }
    }
  }

  // ----- what the marks mean for types -----

  /** A token, or a struct that carries one. */
  ghost predicate IsCarrier(structs: Structs, unions: seq<Union>, m: Scalar)
    requires Fits(structs, unions)
  {
    m == Token || m == TokenRange || exists d :: m == Struct(d) && d in structs && Carries(structs, unions, d)
  }

  /** Once structs are marked, a type asks for a template exactly when it holds, or has as the key of a map, a token
      or a struct that carries one. */
  lemma {:induction false} MarkedTypeNeeds(before: Structs, after: Structs, unions: seq<Union>, t: Type)
    requires Fits(before, unions) && SameStructs(before, after) && TypeFits(t, |unions|)
    requires forall id :: id in after ==> (after[id].requiresTemplate <==> Carries(before, unions, id))
    ensures TypeNeeds(t, after, unions) <==>
              exists m :: (Holds(t, unions, m) || HoldsAsKey(t, unions, m)) && IsCarrier(before, unions, m)
  {
    TypeNeedsExactly(t, after, unions);
    assert forall m :: Asks(after, m) <==> IsCarrier(before, unions, m);
  }

  /** What is no seed and contains nothing carries nothing. */
  lemma {:induction false} NoWayIn(structs: Structs, unions: seq<Union>, id: nat)
    requires Fits(structs, unions) && !Seed(structs, unions, id)
    requires forall d :: !Contains(structs, unions, id, d)
    ensures !Carries(structs, unions, id)
  {
    forall p | Chain(structs, unions, p)
      ensures p[|p| - 1] != id
    {
      var last := |p| - 1;
      assert last == 0 || (last - 1 < |p| - 1 && Contains(structs, unions, p[last - 1 + 1], p[last - 1]));
    }
  }

  /** A struct that is only a key of a map does not make the map's struct need a template: `outer` has a map
      keyed by `inner`, which carries a token. */
  lemma {:induction false} MapKeysDoNotCount()
    ensures var inner := StructDef(true, [], false);
            var outer := StructDef(false, [Collection(Map(Struct(0), U8))], false);
            var structs := map[0 := inner, 1 := outer];
            Fits(structs, []) && Carries(structs, [], 0) && !Carries(structs, [], 1)
  {
    var inner := StructDef(true, [], false);
    var outer := StructDef(false, [Collection(Map(Struct(0), U8))], false);
    var structs := map[0 := inner, 1 := outer];
    assert Fits(structs, []);
    SeedCarries(structs, [], 0);
    var t := outer.props[0];
    assert t == Collection(Map(Struct(0), U8));
    TypeNeedsExactly(t, structs, []);
    assert !TypeNeeds(t, structs, []) && !NeedsTemplate(t, structs, []);
    assert forall s :: HasValue(t, s) ==> s == U8;
    NoWayIn(structs, [], 1);
  }
}
