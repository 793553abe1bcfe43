/** Rule bodies of the author's grammar become plain rule bodies: optional symbols double the bodies,
    sets multiply them by their orderings, groups and lists become sub-non-terminals
    (crates/radlr-core/grammar/build_grammar.rs:383-818). */
module Desugar {
  import opened Sequences
  import opened Permutations
  import opened Symbols
  import opened Ebnf
  import opened Numbering

  /** An item and its position in the rule that it was written in. */
  datatype Placed = Placed(index: nat, item: Item)

  /** The symbols that the author lets a parser skip everywhere; every rule made carries them. */
  type Skips = seq<LeafSymbol>

  /** The bodies made so far and the sub-non-terminals made so far. */
  datatype Made = Made(bodies: seq<Body>, subs: seq<SubNonTerminal>)

  function Items(ps: seq<Placed>): (r: seq<Item>)
    ensures |r| == |ps| && forall i :: 0 <= i < |ps| ==> r[i] == ps[i].item
  {
    seq(|ps|, i requires 0 <= i < |ps| => ps[i].item)
  }

  function PlaceFrom(index: nat, items: seq<Item>): (r: seq<Placed>)
    ensures |r| == |items| && forall i :: 0 <= i < |items| ==> r[i] == Placed(index + i, items[i])
    ensures Items(r) == items
  {
    seq(|items|, i requires 0 <= i < |items| => Placed(index + i, items[i]))
  }

  function PickPlaced(ps: seq<Placed>, order: seq<nat>): (r: seq<Placed>)
    requires forall i :: 0 <= i < |order| ==> order[i] < |ps|
    ensures |r| == |order| && forall i :: 0 <= i < |order| ==> r[i] == ps[order[i]]
  {
    seq(|order|, i requires 0 <= i < |order| => ps[order[i]])
  }

  // ----- bodies -----

  function ExtendEach(bodies: seq<Body>, x: Body): (r: seq<Body>)
    ensures |r| == |bodies| && forall i :: 0 <= i < |bodies| ==> r[i] == bodies[i] + x
  {
    seq(|bodies|, i requires 0 <= i < |bodies| => bodies[i] + x)
  }

  /** Every body followed by every extension, the extensions outermost. */
  function Cross(bodies: seq<Body>, extensions: seq<Body>): seq<Body> {
    if extensions == [] then [] else Cross(bodies, Init(extensions)) + ExtendEach(bodies, Last(extensions))
  }

  /** The bodies of a set: no body without symbols unless that is allowed, and no body twice. */
  function Keep(pending: seq<Body>, allowEmpty: bool): seq<Body> {
    if pending == [] then []
    else
      var kept, x := Keep(Init(pending), allowEmpty), Last(pending);
      if (x == [] && !allowEmpty) || x in kept then kept else kept + [x]
  }

  function Orders(n: nat, unordered: bool): seq<seq<nat>> {
    if unordered then Permute(Indices(n)) else [Indices(n)]
  }

  lemma {:induction false} OrdersInRange(n: nat, unordered: bool, o: seq<nat>)
    ensures o in Orders(n, unordered) <==> IsOrder(o, n, unordered)
    ensures o in Orders(n, unordered) ==> |o| == n && forall i :: 0 <= i < |o| ==> o[i] < n
  {
    if unordered {
      PermuteComplete(Indices(n), o);
      if o in Permute(Indices(n)) {
        OrderingInRange(n, o);
      }
    }
  }

  ghost predicate AllInRange(orders: seq<seq<nat>>, n: nat) {
    forall o, i :: o in orders && 0 <= i < |o| ==> o[i] < n
  }

  lemma {:induction false} OrdersAllInRange(n: nat, unordered: bool)
    ensures AllInRange(Orders(n, unordered), n)
  {
    forall o, i | o in Orders(n, unordered) && 0 <= i < |o|
      ensures o[i] < n
    {
      OrdersInRange(n, unordered, o);
    }
  }

  function MakeRules(bodies: seq<Body>, ast: Ast, skips: Skips): (r: seq<Rule>)
    ensures |r| == |bodies| && forall i :: 0 <= i < |bodies| ==> r[i] == Rule(bodies[i], skips, ast)
  {
    seq(|bodies|, i requires 0 <= i < |bodies| => Rule(bodies[i], skips, ast))
  }

  function Renumber(b: Body): (r: Body)
    ensures |r| == |b| && forall i :: 0 <= i < |b| ==> r[i] == b[i].(originalIndex := i)
  {
    seq(|b|, i requires 0 <= i < |b| => b[i].(originalIndex := i))
  }

  /** The first element of a list: the body without its separator. */
  function FirstBody(b: Body, separated: bool): Body {
    if separated && b != [] then Renumber(b[1..]) else b
  }

  /** The rest of a list: the list itself, then separator and element. */
  function NextBody(b: Body, list: SymbolRef): Body {
    Renumber([list] + b)
  }

  function FirstBodies(bodies: seq<Body>, separated: bool): (r: seq<Body>)
    ensures |r| == |bodies| && forall i :: 0 <= i < |bodies| ==> r[i] == FirstBody(bodies[i], separated)
  {
    seq(|bodies|, i requires 0 <= i < |bodies| => FirstBody(bodies[i], separated))
  }

  function NextBodies(bodies: seq<Body>, list: SymbolRef): (r: seq<Body>)
    ensures |r| == |bodies| && forall i :: 0 <= i < |bodies| ==> r[i] == NextBody(bodies[i], list)
  {
    seq(|bodies|, i requires 0 <= i < |bodies| => NextBody(bodies[i], list))
  }

  /** What a list repeats: the separator, if there is one, and the element. */
  function ListItems(e: Atom, sep: Separator): (r: seq<Item>)
    ensures |r| == if sep.Separator? then 2 else 1
    ensures Last(r) == One(e, false, "")
  {
    match sep
    case NoSeparator => [One(e, false, "")]
    case Separator(s) => [One(Leaf(s), false, ""), One(e, false, "")]
  }

  lemma {:induction false} ListItemsDepth(e: Atom, sep: Separator)
    ensures ItemsDepth(ListItems(e, sep)) == AtomDepth(e)
  {
    var items := ListItems(e, sep);
    assert ItemsDepth(Init(items)) == 0 by {
      if sep.Separator? {
        assert Init(items) == [One(Leaf(sep.s), false, "")];
        assert Init(Init(items)) == [] && ItemDepth(Last(Init(items))) == 0;
      } else {
        assert Init(items) == [];
      }
    }
  }

  // ----- desugaring -----

  predicate CanSkip(atom: Atom, isOptional: bool) {
    isOptional || (atom.ListOf? && atom.optionalList)
  }

  /** The bodies of a sequence of items, for non-terminal `p` with sub-non-terminals `subs`. */
  function Bodies(p: nat, skips: Skips, items: seq<Placed>, subs: seq<SubNonTerminal>): Made
    decreases ItemsDepth(Items(items)), 3, |items|
  {
    if items == [] then Made([[]], subs)
    else
      InitDepth(items);
      var m := Bodies(p, skips, Init(items), subs);
      var e := ItemBodies(p, skips, Last(items), m.subs);
      Made(Cross(m.bodies, e.bodies), e.subs)
  }

  lemma {:induction false} InitDepth(items: seq<Placed>)
    requires items != []
    ensures Items(Init(items)) == Init(Items(items)) && Last(Items(items)) == Last(items).item
    ensures ItemsDepth(Items(Init(items))) <= ItemsDepth(Items(items))
    ensures ItemDepth(Last(items).item) <= ItemsDepth(Items(items))
  {
  }

  /** What one item adds to a body: its symbol, nothing if it may be left out, or the bodies of a set. */
  function ItemBodies(p: nat, skips: Skips, placed: Placed, subs: seq<SubNonTerminal>): Made
    decreases ItemDepth(placed.item), 2, 0
  {
    match placed.item
    case One(a, isOptional, annotation) =>
      var (id, subs') := AtomSymbol(p, skips, a, annotation, subs);
      var ref := SymbolRef(id, annotation, placed.index);
      Made(if CanSkip(a, isOptional) then [[ref], []] else [[ref]], subs')
    case SetOf(ms, unordered, allowEmpty) =>
      OrdersAllInRange(|ms|, unordered);
      var m := OrderBodies(p, skips, PlaceFrom(placed.index, ms), Orders(|ms|, unordered), subs);
      Made(Keep(m.bodies, allowEmpty), m.subs)
  }

  /** The bodies of the members of a set, in every given order. */
  function OrderBodies(p: nat, skips: Skips, members: seq<Placed>, orders: seq<seq<nat>>, subs: seq<SubNonTerminal>): Made
    requires AllInRange(orders, |members|)
    decreases ItemsDepth(Items(members)), 4, |orders|
  {
    if orders == [] then Made([], subs)
    else
      var m := OrderBodies(p, skips, members, Init(orders), subs);
      PickPlacedDepth(members, Last(orders));
      var e := Bodies(p, skips, PickPlaced(members, Last(orders)), m.subs);
      Made(m.bodies + e.bodies, e.subs)
  }

  lemma {:induction false} PickPlacedDepth(members: seq<Placed>, order: seq<nat>)
    requires forall i :: 0 <= i < |order| ==> order[i] < |members|
    ensures Items(PickPlaced(members, order)) == Pick(Items(members), order)
    ensures ItemsDepth(Items(PickPlaced(members, order))) <= ItemsDepth(Items(members))
  {
    PickDepth(Items(members), order);
    assert Items(PickPlaced(members, order)) == Pick(Items(members), order);
  }

  /** The symbol of an atom; a group or a list becomes a new sub-non-terminal. */
  function AtomSymbol(p: nat, skips: Skips, a: Atom, annotation: string, subs: seq<SubNonTerminal>): (SymbolId, seq<SubNonTerminal>)
    decreases AtomDepth(a), 1, 0
  {
    match a
    case Leaf(s) => (s, subs)
    case Group(alts) =>
      var (rules, subs') := AltRules(p, skips, alts, subs);
      var id := Sub(p, |subs'|, Parser);
      (id.AsSym(), subs' + [SubNonTerminal(id, GroupKind, rules)])
    case ListOf(e, sep, _) =>
      ListItemsDepth(e, sep);
      var m := Bodies(p, skips, PlaceFrom(0, ListItems(e, sep)), subs);
      var id := Sub(p, |m.subs|, Parser);
      (id.AsSym(), m.subs + [SubNonTerminal(id, ListKind, ListRules(m.bodies, sep, SymbolRef(id.AsSym(), annotation, 0), skips))])
  }

  function ListRules(bodies: seq<Body>, sep: Separator, list: SymbolRef, skips: Skips): seq<Rule> {
    MakeRules(FirstBodies(bodies, sep.Separator?), ListEntry, skips) + MakeRules(NextBodies(bodies, list), ListIterate, skips)
  }

  /** The rules of a sequence of alternatives. */
  function AltRules(p: nat, skips: Skips, alts: seq<Alternative>, subs: seq<SubNonTerminal>): (seq<Rule>, seq<SubNonTerminal>)
    decreases AltsDepth(alts), 4, |alts|
  {
    if alts == [] then ([], subs)
    else
      var (rules, subs') := AltRules(p, skips, Init(alts), subs);
      var m := Bodies(p, skips, PlaceFrom(0, Last(alts).items), subs');
      (rules + MakeRules(m.bodies, Last(alts).ast, skips), m.subs)
  }

  // ----- the terminals recorded -----

  /** References are not recorded as symbols of the non-terminal. */
  function Terminals(s: LeafSymbol): (ts: set<SymbolId>)
    ensures forall x :: x in ts ==> IsTerminal(x)
  {
    if IsReference(s) then {} else {s}
  }

  function SkipTerminals(skips: Skips): (ts: set<SymbolId>)
    ensures forall x :: x in ts ==> IsTerminal(x)
  {
    set s | s in skips && IsTerminal(s)
  }

  function SeparatorTerminals(sep: Separator): (ts: set<SymbolId>)
    ensures forall x :: x in ts ==> IsTerminal(x)
  {
    match sep
    case NoSeparator => {}
    case Separator(s) => Terminals(s)
  }

  function AtomTerminals(a: Atom, skips: Skips): (ts: set<SymbolId>)
    ensures forall x :: x in ts ==> IsTerminal(x)
    decreases AtomDepth(a), 0, 0
  {
    match a
    case Leaf(s) => Terminals(s)
    case Group(alts) => AltsTerminals(alts, skips)
    case ListOf(e, sep, _) => SeparatorTerminals(sep) + AtomTerminals(e, skips) + SkipTerminals(skips)
  }

  function ItemTerminals(item: Item, skips: Skips): (ts: set<SymbolId>)
    ensures forall x :: x in ts ==> IsTerminal(x)
    decreases ItemDepth(item), 1, 0
  {
    match item
    case One(a, _, _) => AtomTerminals(a, skips)
    case SetOf(ms, _, _) => ItemsTerminals(ms, skips) + SkipTerminals(skips)
  }

  function ItemsTerminals(items: seq<Item>, skips: Skips): (ts: set<SymbolId>)
    ensures forall x :: x in ts ==> IsTerminal(x)
    decreases ItemsDepth(items), 2, |items|
  {
    if items == [] then {} else ItemsTerminals(Init(items), skips) + ItemTerminals(Last(items), skips)
  }

  /** The terminals recorded while the alternatives are processed, the skipped ones with every rule. */
  function AltsTerminals(alts: seq<Alternative>, skips: Skips): (ts: set<SymbolId>)
    ensures forall x :: x in ts ==> IsTerminal(x)
    decreases AltsDepth(alts), 3, |alts|
  {
    if alts == [] then {}
    else AltsTerminals(Init(alts), skips) + ItemsTerminals(Last(alts).items, skips) + SkipTerminals(skips)
  }

  lemma {:induction false} ItemsTerminalsExactly(items: seq<Item>, skips: Skips)
    ensures forall x :: x in ItemsTerminals(items, skips)
                   <==> exists i :: 0 <= i < |items| && x in ItemTerminals(items[i], skips)
  {
    if items != [] {
      var init := Init(items);
      ItemsTerminalsExactly(init, skips);
      forall x
        ensures x in ItemsTerminals(items, skips)
           <==> exists i :: 0 <= i < |items| && x in ItemTerminals(items[i], skips)
      {
        if i :| 0 <= i < |items| && x in ItemTerminals(items[i], skips) {
          if i < |init| {
            assert init[i] == items[i];
          }
        }
        if x in ItemsTerminals(init, skips) {
          var i :| 0 <= i < |init| && x in ItemTerminals(init[i], skips);
          assert items[i] == init[i];
        }
      }
    }
  }

  lemma {:induction false} ListTerminals(e: Atom, sep: Separator, skips: Skips)
    ensures ItemsTerminals(ListItems(e, sep), skips) == SeparatorTerminals(sep) + AtomTerminals(e, skips)
  {
    var items := ListItems(e, sep);
    ItemsTerminalsExactly(items, skips);
    if sep.Separator? {
      assert AtomTerminals(Leaf(sep.s), skips) == Terminals(sep.s);
      assert ItemTerminals(items[0], skips) == Terminals(sep.s) && ItemTerminals(items[1], skips) == AtomTerminals(e, skips);
    } else {
      assert ItemTerminals(items[0], skips) == AtomTerminals(e, skips);
    }
  }

  // ----- definitions -----

  /** One definition of non-terminal `p`, in a grammar file with the given skipped symbols. */
  datatype Definition = Definition(p: nat, skips: Skips, alts: seq<Alternative>)

  datatype Processed = Ok(nterm: NonTerm) | EmptyRule

  /** The rules and sub-non-terminals of a definition; a rule without symbols is an error. */
  function ProcessNonTerm(d: Definition): Processed {
    var (rules, subs) := AltRules(d.p, d.skips, d.alts, []);
    if exists r :: r in rules && r.symbols == [] then EmptyRule
    else Ok(NonTerm(Standard(d.p, Parser), rules, subs, AltsTerminals(d.alts, d.skips)))
  }

  // ----- numbering -----

  ghost predicate BodiesBelow(p: nat, bodies: seq<Body>, n: nat) {
    forall b :: b in bodies ==> RefersBelow(p, b, n)
  }

  /** The list of sub-non-terminals has grown to `m.subs`, is well numbered, and covers every body. */
  ghost predicate Grown(p: nat, subs: seq<SubNonTerminal>, m: Made) {
    subs <= m.subs && WellNumbered(p, m.subs) && BodiesBelow(p, m.bodies, |m.subs|)
  }

  lemma {:induction false} ConcatRefers(p: nat, a: Body, b: Body, n: nat)
    requires RefersBelow(p, a, n) && RefersBelow(p, b, n)
    ensures RefersBelow(p, a + b, n)
  {
  }

  lemma {:induction false} SameIdsRefer(p: nat, a: Body, b: Body, n: nat)
    requires RefersBelow(p, a, n) && |a| == |b| && forall i :: 0 <= i < |a| ==> a[i].id == b[i].id
    ensures RefersBelow(p, b, n)
  {
    forall i | 0 <= i < |b| && IsSubSymbol(b[i].id)
      ensures exists k: nat :: k < n && b[i].id == NonTerminal(Sub(p, k, Parser))
    {
      assert IsSubSymbol(a[i].id);
    }
  }

  lemma {:induction false} BodiesHigher(p: nat, bodies: seq<Body>, n: nat, m: nat)
    requires BodiesBelow(p, bodies, n) && n <= m
    ensures BodiesBelow(p, bodies, m)
  {
    forall b | b in bodies
      ensures RefersBelow(p, b, m)
    {
      RefersHigher(p, b, n, m);
    }
  }

  lemma {:induction false} FromCross(bodies: seq<Body>, extensions: seq<Body>, b: Body) returns (u: Body, v: Body)
    requires b in Cross(bodies, extensions)
    ensures u in bodies && v in extensions && b == u + v
  {
    SplitLast(extensions);
    if b in Cross(bodies, Init(extensions)) {
      u, v := FromCross(bodies, Init(extensions), b);
    } else {
      var i :| 0 <= i < |bodies| && ExtendEach(bodies, Last(extensions))[i] == b;
      u, v := bodies[i], Last(extensions);
    }
  }

  lemma {:induction false} InCross(bodies: seq<Body>, extensions: seq<Body>, u: Body, v: Body)
    requires u in bodies && v in extensions
    ensures u + v in Cross(bodies, extensions)
  {
    SplitLast(extensions);
    if v in Init(extensions) {
      InCross(bodies, Init(extensions), u, v);
    } else {
      var i :| 0 <= i < |bodies| && bodies[i] == u;
      assert ExtendEach(bodies, v)[i] == u + v;
    }
  }

  /** What is kept of a set: exactly the pending bodies that have a symbol, or all of them. */
  lemma {:induction false} KeepExactly(pending: seq<Body>, allowEmpty: bool, b: Body)
    ensures b in Keep(pending, allowEmpty) <==> b in pending && (b != [] || allowEmpty)
  {
    if pending != [] {
      SplitLast(pending);
      KeepExactly(Init(pending), allowEmpty, b);
      KeepExactly(Init(pending), allowEmpty, Last(pending));
    }
  }

  /** No body is kept twice. */
  lemma {:induction false} KeepOnce(pending: seq<Body>, allowEmpty: bool)
    ensures Distinct(Keep(pending, allowEmpty))
  {
    if pending != [] {
      KeepOnce(Init(pending), allowEmpty);
    }
  }

  lemma {:induction false} CrossBelow(p: nat, bodies: seq<Body>, extensions: seq<Body>, n: nat)
    requires BodiesBelow(p, bodies, n) && BodiesBelow(p, extensions, n)
    ensures BodiesBelow(p, Cross(bodies, extensions), n)
  {
    forall b | b in Cross(bodies, extensions)
      ensures RefersBelow(p, b, n)
    {
      var u, v := FromCross(bodies, extensions, b);
      ConcatRefers(p, u, v, n);
    }
  }

  lemma {:induction false} BodiesGrow(p: nat, skips: Skips, items: seq<Placed>, subs: seq<SubNonTerminal>)
    requires WellNumbered(p, subs)
    ensures Grown(p, subs, Bodies(p, skips, items, subs))
    decreases ItemsDepth(Items(items)), 3, |items|
  {
    if items == [] {
      assert RefersBelow(p, [], |subs|);
    } else {
      InitDepth(items);
      BodiesGrow(p, skips, Init(items), subs);
      var m := Bodies(p, skips, Init(items), subs);
      ItemGrow(p, skips, Last(items), m.subs);
      var e := ItemBodies(p, skips, Last(items), m.subs);
      BodiesHigher(p, m.bodies, |m.subs|, |e.subs|);
      CrossBelow(p, m.bodies, e.bodies, |e.subs|);
    }
  }

  lemma {:induction false} ItemGrow(p: nat, skips: Skips, placed: Placed, subs: seq<SubNonTerminal>)
    requires WellNumbered(p, subs)
    ensures Grown(p, subs, ItemBodies(p, skips, placed, subs))
    decreases ItemDepth(placed.item), 2, 0
  {
    match placed.item
    case One(a, isOptional, annotation) =>
      AtomGrow(p, skips, a, annotation, subs);
      var r := AtomSymbol(p, skips, a, annotation, subs);
      assert RefersBelow(p, [SymbolRef(r.0, annotation, placed.index)], |r.1|);
      assert RefersBelow(p, [], |r.1|);
    case SetOf(ms, unordered, allowEmpty) =>
      OrdersAllInRange(|ms|, unordered);
      OrdersGrow(p, skips, PlaceFrom(placed.index, ms), Orders(|ms|, unordered), subs);
      var m := OrderBodies(p, skips, PlaceFrom(placed.index, ms), Orders(|ms|, unordered), subs);
      forall b | b in Keep(m.bodies, allowEmpty)
        ensures RefersBelow(p, b, |m.subs|)
      {
        KeepExactly(m.bodies, allowEmpty, b);
      }
  }

  lemma {:induction false} OrdersGrow(p: nat, skips: Skips, members: seq<Placed>, orders: seq<seq<nat>>, subs: seq<SubNonTerminal>)
    requires WellNumbered(p, subs) && AllInRange(orders, |members|)
    ensures Grown(p, subs, OrderBodies(p, skips, members, orders, subs))
    decreases ItemsDepth(Items(members)), 4, |orders|
  {
    if orders != [] {
      OrdersGrow(p, skips, members, Init(orders), subs);
      PickPlacedDepth(members, Last(orders));
      var m := OrderBodies(p, skips, members, Init(orders), subs);
      BodiesGrow(p, skips, PickPlaced(members, Last(orders)), m.subs);
      var e := Bodies(p, skips, PickPlaced(members, Last(orders)), m.subs);
      BodiesHigher(p, m.bodies, |m.subs|, |e.subs|);
    }
  }

  ghost predicate SymbolBelow(p: nat, s: SymbolId, n: nat) {
    IsSubSymbol(s) ==> exists k: nat :: k < n && s == NonTerminal(Sub(p, k, Parser))
  }

  lemma {:induction false} AtomGrow(p: nat, skips: Skips, a: Atom, annotation: string, subs: seq<SubNonTerminal>)
    requires WellNumbered(p, subs)
    ensures var (id, subs') := AtomSymbol(p, skips, a, annotation, subs);
            subs <= subs' && WellNumbered(p, subs') && SymbolBelow(p, id, |subs'|)
    decreases AtomDepth(a), 1, 0
  {
    match a
    case Leaf(s) =>
    case Group(alts) =>
      AltsGrow(p, skips, alts, subs);
      var r := AltRules(p, skips, alts, subs);
      AddSub(p, r.1, SubNonTerminal(Sub(p, |r.1|, Parser), GroupKind, r.0));
    case ListOf(e, sep, _) =>
      ListItemsDepth(e, sep);
      var items := PlaceFrom(0, ListItems(e, sep));
      BodiesGrow(p, skips, items, subs);
      var m := Bodies(p, skips, items, subs);
      var id := Sub(p, |m.subs|, Parser);
      ListBelow(p, skips, m, sep, SymbolRef(id.AsSym(), annotation, 0));
      AddSub(p, m.subs, SubNonTerminal(id, ListKind, ListRules(m.bodies, sep, SymbolRef(id.AsSym(), annotation, 0), skips)));
  }

  lemma {:induction false} AddSub(p: nat, subs: seq<SubNonTerminal>, sub: SubNonTerminal)
    requires WellNumbered(p, subs) && Numbered(p, sub, |subs|)
    ensures WellNumbered(p, subs + [sub])
  {
  }

  lemma {:induction false} ListBelow(p: nat, skips: Skips, m: Made, sep: Separator, list: SymbolRef)
    requires BodiesBelow(p, m.bodies, |m.subs|) && list.id == NonTerminal(Sub(p, |m.subs|, Parser))
    ensures RulesReferBelow(p, ListRules(m.bodies, sep, list, skips), |m.subs| + 1)
  {
    var n := |m.subs| + 1;
    BodiesHigher(p, m.bodies, |m.subs|, n);
    var rules := ListRules(m.bodies, sep, list, skips);
    forall r | r in rules
      ensures RefersBelow(p, r.symbols, n)
    {
      var i :| 0 <= i < |rules| && rules[i] == r;
      var b := m.bodies[if i < |m.bodies| then i else i - |m.bodies|];
      assert b in m.bodies;
      assert SymbolBelow(p, list.id, n);
      FirstBelow(p, b, sep.Separator?, n);
      NextBelow(p, b, list, n);
    }
  }

  lemma {:induction false} FirstBelow(p: nat, b: Body, separated: bool, n: nat)
    requires RefersBelow(p, b, n)
    ensures RefersBelow(p, FirstBody(b, separated), n)
  {
    if separated && b != [] {
      assert RefersBelow(p, b[1..], n);
      SameIdsRefer(p, b[1..], FirstBody(b, true), n);
    }
  }

  lemma {:induction false} NextBelow(p: nat, b: Body, list: SymbolRef, n: nat)
    requires RefersBelow(p, b, n) && SymbolBelow(p, list.id, n)
    ensures RefersBelow(p, NextBody(b, list), n)
  {
    assert RefersBelow(p, [list], n);
    ConcatRefers(p, [list], b, n);
    SameIdsRefer(p, [list] + b, NextBody(b, list), n);
  }

  lemma {:induction false} AltsGrow(p: nat, skips: Skips, alts: seq<Alternative>, subs: seq<SubNonTerminal>)
    requires WellNumbered(p, subs)
    ensures var (rules, subs') := AltRules(p, skips, alts, subs);
            subs <= subs' && WellNumbered(p, subs') && RulesReferBelow(p, rules, |subs'|)
    decreases AltsDepth(alts), 4, |alts|
  {
    if alts != [] {
      AltsGrow(p, skips, Init(alts), subs);
      var r := AltRules(p, skips, Init(alts), subs);
      var items := PlaceFrom(0, Last(alts).items);
      BodiesGrow(p, skips, items, r.1);
      var m := Bodies(p, skips, items, r.1);
      RulesReferHigher(p, r.0, |r.1|, |m.subs|);
      MadeRulesBelow(p, skips, m.bodies, Last(alts).ast, |m.subs|);
    }
  }

  lemma {:induction false} MadeRulesBelow(p: nat, skips: Skips, bodies: seq<Body>, ast: Ast, n: nat)
    requires BodiesBelow(p, bodies, n)
    ensures RulesReferBelow(p, MakeRules(bodies, ast, skips), n)
  {
    forall r | r in MakeRules(bodies, ast, skips)
      ensures RefersBelow(p, r.symbols, n)
    {
      var i :| 0 <= i < |bodies| && MakeRules(bodies, ast, skips)[i] == r;
      assert bodies[i] in bodies;
    }
  }
}
