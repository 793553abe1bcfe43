/** The builder of one non-terminal: rule bodies are doubled, extended and multiplied in place while
    sub-non-terminals are pushed to the non-terminal's list
    (crates/radlr-core/grammar/build_grammar.rs:26-51, 383-818). */
module DesugarBuilder {
  import opened Sequences
  import opened Permutations
  import opened Symbols
  import opened Ebnf
  import opened Desugar

  lemma {:induction false} CrossOne(bodies: seq<Body>, x: Body)
    ensures Cross(bodies, [x]) == ExtendEach(bodies, x)
  {
    assert Init([x]) == [] && Cross(bodies, []) == [];
  }

  lemma {:induction false} CrossOptional(bodies: seq<Body>, x: Body)
    ensures Cross(bodies, [x, []]) == ExtendEach(bodies, x) + bodies
  {
    CrossOne(bodies, x);
    assert Init([x, []]) == [x];
    forall i | 0 <= i < |bodies|
      ensures ExtendEach(bodies, [])[i] == bodies[i]
    {
      assert bodies[i] + [] == bodies[i];
    }
    assert ExtendEach(bodies, []) == bodies;
  }

  /** All orderings of the given positions. */
  method GetIndexPermutations(indexes: seq<nat>) returns (out: seq<seq<nat>>)
    ensures out == Permute(indexes)
    decreases |indexes|
  {
    if |indexes| > 1 {
      out := [];
      for i := 0 to |indexes|
        invariant out == PermuteFirst(indexes, i)
      {
        var rest := GetIndexPermutations(Without(indexes, i));
        out := out + PrefixEach(indexes[i], rest);
      }
    } else {
      out := [indexes];
    }
  }

  /** The members of a set record the same terminals in every order. */
  lemma {:induction false} OrderTerminals(ms: seq<Item>, order: seq<nat>, unordered: bool, skips: Skips)
    requires IsOrder(order, |ms|, unordered) && forall i :: 0 <= i < |order| ==> order[i] < |ms|
    ensures ItemsTerminals(Pick(ms, order), skips) == ItemsTerminals(ms, skips)
  {
    var picked := Pick(ms, order);
    ItemsTerminalsExactly(ms, skips);
    ItemsTerminalsExactly(picked, skips);
    forall x | x in ItemsTerminals(ms, skips)
      ensures x in ItemsTerminals(picked, skips)
    {
      var i :| 0 <= i < |ms| && x in ItemTerminals(ms[i], skips);
      assert Indices(|ms|)[i] == i && i in multiset(Indices(|ms|));
      assert i in multiset(order) && i in order;
      var j :| 0 <= j < |order| && order[j] == i;
      assert picked[j] == ms[i];
    }
  }

  ghost predicate PicksSame(members: seq<Placed>, order: seq<nat>, skips: Skips)
    requires forall i :: 0 <= i < |order| ==> order[i] < |members|
  {
    ItemsTerminals(Items(PickPlaced(members, order)), skips) == ItemsTerminals(Items(members), skips)
  }

  /** Every ordering records the same terminals. */
  ghost predicate SameTerminals(members: seq<Placed>, orders: seq<seq<nat>>, skips: Skips)
    requires AllInRange(orders, |members|)
  {
    forall k :: 0 <= k < |orders| ==> (assert orders[k] in orders; PicksSame(members, orders[k], skips))
  }

  lemma {:induction false} EveryOrder(ms: seq<Item>, index: nat, unordered: bool, skips: Skips)
    ensures var orders := Orders(|ms|, unordered);
            orders != [] && AllInRange(orders, |ms|) && SameTerminals(PlaceFrom(index, ms), orders, skips)
  {
    OrdersAllInRange(|ms|, unordered);
    OrdersInRange(|ms|, unordered, Indices(|ms|));
    var members, orders := PlaceFrom(index, ms), Orders(|ms|, unordered);
    forall k | 0 <= k < |orders|
      ensures orders[k] in orders && PicksSame(members, orders[k], skips)
    {
      OrdersInRange(|ms|, unordered, orders[k]);
      PickPlacedDepth(members, orders[k]);
      OrderTerminals(ms, orders[k], unordered, skips);
    }
  }

  lemma {:induction false} OrderNext(p: nat, skips: Skips, members: seq<Placed>, orders: seq<seq<nat>>, k: nat,
    subs: seq<SubNonTerminal>)
    requires AllInRange(orders, |members|) && k < |orders|
    ensures orders[k] in orders && AllInRange(orders[..k], |members|) && AllInRange(orders[..k + 1], |members|)
    ensures var m := OrderBodies(p, skips, members, orders[..k], subs);
            var e := Bodies(p, skips, PickPlaced(members, orders[k]), m.subs);
            OrderBodies(p, skips, members, orders[..k + 1], subs) == Made(m.bodies + e.bodies, e.subs)
  {
    TakeOneMore(orders, k);
    assert orders[..k + 1] <= orders;
  }

  function RecordedAfter(k: nat, before: set<SymbolId>, recorded: set<SymbolId>): set<SymbolId> {
    if k == 0 then before else before + recorded
  }

  lemma {:induction false} RecordedAgain(k: nat, before: set<SymbolId>, recorded: set<SymbolId>)
    ensures RecordedAfter(k, before, recorded) + recorded == RecordedAfter(k + 1, before, recorded)
  {
  }

  class NonTermData {
    const root: nat
    const skips: Skips
    var subNonterminals: seq<SubNonTerminal>
    var symbols: set<SymbolId>

    constructor (root: nat, skips: Skips)
      ensures this.root == root && this.skips == skips && subNonterminals == [] && symbols == {}
    {
      this.root, this.skips := root, skips;
      subNonterminals, symbols := [], {};
    }

    /** Records a symbol of the grammar file; references are not symbols of their own. */
    method RecordSymbol(s: LeafSymbol)
      modifies this`symbols
      ensures symbols == old(symbols) + Terminals(s)
    {
      if !IsReference(s) {
        symbols := symbols + {s};
      }
    }

    /** The skipped symbols of the rules, each of them recorded. */
    method RecordSkipped()
      modifies this`symbols
      ensures symbols == old(symbols) + SkipTerminals(skips)
    {
      for k := 0 to |skips|
        invariant symbols == old(symbols) + SkipTerminals(skips[..k])
      {
        TakeOneMore(skips, k);
        RecordSymbol(skips[k]);
      }
      assert skips[..|skips|] == skips;
    }

    /** The bodies of a rule; every group and list in it becomes a sub-non-terminal. */
    method ProcessRuleSymbols(items: seq<Placed>) returns (rules: seq<Body>)
      modifies this
      ensures Made(rules, subNonterminals) == Bodies(root, skips, items, old(subNonterminals))
      ensures symbols == old(symbols) + (ItemsTerminals(Items(items), skips) + SkipTerminals(skips))
      decreases ItemsDepth(Items(items)), 3, |items|
    {
      rules := [[]];
      assert items[..0] == [];
      for k := 0 to |items|
        invariant Made(rules, subNonterminals) == Bodies(root, skips, items[..k], old(subNonterminals))
        invariant symbols == old(symbols) + ItemsTerminals(Items(items[..k]), skips)
      {
        TakeOneMore(items, k);
        PrefixDepth(items, k);
        InitDepth(items[..k + 1]);
        var placed := items[k];
        ghost var before := rules;
        match placed.item {
          case One(a, isOptional, annotation) =>
            var id := ProcessAtom(a, annotation);
            var ref := SymbolRef(id, annotation, placed.index);
            rules := AppendSymbol(rules, ref, CanSkip(a, isOptional));
          case SetOf(ms, unordered, allowEmpty) =>
            var pending := ProcessOrders(ms, placed.index, unordered);
            rules := MultiplyBySet(rules, pending, allowEmpty);
        }
      }
      assert items[..|items|] == items;
      RecordSkipped();
    }

    /** Doubles the bodies for an optional symbol and pushes the symbol to the original ones. */
    static method AppendSymbol(bodies: seq<Body>, ref: SymbolRef, canSkip: bool) returns (rules: seq<Body>)
      ensures rules == Cross(bodies, if canSkip then [[ref], []] else [[ref]])
    {
      var original := |bodies|;
      rules := bodies;
      if canSkip {
        rules := rules + rules;
      }
      ghost var rest := rules[original..];
      for i := 0 to original
        invariant |rules| == original + |rest| && rules[original..] == rest
        invariant forall j :: 0 <= j < i ==> rules[j] == bodies[j] + [ref]
        invariant forall j :: i <= j < original ==> rules[j] == bodies[j]
      {
        rules := rules[i := rules[i] + [ref]];
      }
      assert rules[..original] == ExtendEach(bodies, [ref]);
      assert rules == rules[..original] + rules[original..];
      if canSkip {
        CrossOptional(bodies, [ref]);
      } else {
        CrossOne(bodies, [ref]);
      }
    }

    /** Replaces every body by its extensions with the bodies of a set, each of them once. */
    static method MultiplyBySet(bodies: seq<Body>, pending: seq<Body>, allowEmpty: bool) returns (rules: seq<Body>)
      ensures rules == Cross(bodies, Keep(pending, allowEmpty))
    {
      rules := [];
      var seen: set<Body> := {};
      assert pending[..0] == [];
      for k := 0 to |pending|
        invariant rules == Cross(bodies, Keep(pending[..k], allowEmpty))
        invariant forall x :: x in seen <==> x in Keep(pending[..k], allowEmpty)
      {
        TakeOneMore(pending, k);
        var x := pending[k];
        ghost var kept := Keep(pending[..k], allowEmpty);
        if x == [] && !allowEmpty {
          continue;
        }
        if x in seen {
          continue;
        }
        seen := seen + {x};
        assert Init(kept + [x]) == kept;
        rules := rules + ExtendEach(bodies, x);
      }
      assert pending[..|pending|] == pending;
    }

    /** The bodies of the members of a set, in each of its orderings. */
    method ProcessOrders(ms: seq<Item>, index: nat, unordered: bool) returns (pending: seq<Body>)
      modifies this
      ensures AllInRange(Orders(|ms|, unordered), |ms|)
      ensures Made(pending, subNonterminals)
           == OrderBodies(root, skips, PlaceFrom(index, ms), Orders(|ms|, unordered), old(subNonterminals))
      ensures symbols == old(symbols) + (ItemsTerminals(ms, skips) + SkipTerminals(skips))
      decreases ItemsDepth(ms), 5
    {
      var orders := [Indices(|ms|)];
      if unordered {
        orders := GetIndexPermutations(Indices(|ms|));
      }
      EveryOrder(ms, index, unordered, skips);
      pending := ProcessInOrders(PlaceFrom(index, ms), orders);
    }

    method ProcessInOrders(members: seq<Placed>, orders: seq<seq<nat>>) returns (pending: seq<Body>)
      requires orders != [] && AllInRange(orders, |members|) && SameTerminals(members, orders, skips)
      modifies this
      ensures Made(pending, subNonterminals) == OrderBodies(root, skips, members, orders, old(subNonterminals))
      ensures symbols == old(symbols) + (ItemsTerminals(Items(members), skips) + SkipTerminals(skips))
      decreases ItemsDepth(Items(members)), 4
    {
      pending := [];
      ghost var recorded := ItemsTerminals(Items(members), skips) + SkipTerminals(skips);
      assert orders[..0] == [];
      for k := 0 to |orders|
        invariant AllInRange(orders[..k], |members|)
        invariant Made(pending, subNonterminals) == OrderBodies(root, skips, members, orders[..k], old(subNonterminals))
        invariant symbols == RecordedAfter(k, old(symbols), recorded)
      {
        OrderNext(root, skips, members, orders, k, old(subNonterminals));
        PickPlacedDepth(members, orders[k]);
        assert PicksSame(members, orders[k], skips);
        var bodies := ProcessRuleSymbols(PickPlaced(members, orders[k]));
        pending := pending + bodies;
        RecordedAgain(k, old(symbols), recorded);
      }
      assert orders[..|orders|] == orders;
    }

    /** The symbol of an atom; pushes a sub-non-terminal for a group or a list. */
    method ProcessAtom(a: Atom, annotation: string) returns (id: SymbolId)
      modifies this
      ensures (id, subNonterminals) == AtomSymbol(root, skips, a, annotation, old(subNonterminals))
      ensures symbols == old(symbols) + AtomTerminals(a, skips)
      decreases AtomDepth(a), 1
    {
      match a {
        case Leaf(s) =>
          RecordSymbol(s);
          id := s;
        case Group(alts) =>
          var rules := ProcessAlternatives(alts);
          var index := Sub(root, |subNonterminals|, Parser);
          subNonterminals := subNonterminals + [SubNonTerminal(index, GroupKind, rules)];
          id := index.AsSym();
        case ListOf(e, sep, _) =>
          ListItemsDepth(e, sep);
          var bodies := ProcessRuleSymbols(PlaceFrom(0, ListItems(e, sep)));
          var index := Sub(root, |subNonterminals|, Parser);
          id := index.AsSym();
          var rules := ListRules(bodies, sep, SymbolRef(id, annotation, 0), skips);
          ListTerminals(e, sep, skips);
          subNonterminals := subNonterminals + [SubNonTerminal(index, ListKind, rules)];
      }
    }

    /** The rules of a sequence of alternatives. */
    method ProcessAlternatives(alts: seq<Alternative>) returns (rules: seq<Rule>)
      modifies this
      ensures (rules, subNonterminals) == AltRules(root, skips, alts, old(subNonterminals))
      ensures symbols == old(symbols) + AltsTerminals(alts, skips)
      decreases AltsDepth(alts), 4, |alts|
    {
      rules := [];
      assert alts[..0] == [];
      for k := 0 to |alts|
        invariant (rules, subNonterminals) == AltRules(root, skips, alts[..k], old(subNonterminals))
        invariant symbols == old(symbols) + AltsTerminals(alts[..k], skips)
      {
        TakeOneMore(alts, k);
        DepthOfAlt(alts, k);
        var bodies := ProcessRuleSymbols(PlaceFrom(0, alts[k].items));
        rules := rules + MakeRules(bodies, alts[k].ast, skips);
      }
      assert alts[..|alts|] == alts;
    }
  }

  /** Builds a non-terminal from its alternatives, refusing a rule without symbols. */
  method ProcessNonTerminal(d: Definition) returns (r: Processed)
    ensures r == ProcessNonTerm(d)
  {
    var data := new NonTermData(d.p, d.skips);
    var rules := data.ProcessAlternatives(d.alts);
    for k := 0 to |rules|
      invariant forall i :: 0 <= i < k ==> rules[i].symbols != []
    {
      if rules[k].symbols == [] {
        assert rules[k] in rules;
        return EmptyRule;
      }
    }
    r := Ok(NonTerm(Standard(d.p, Parser), rules, data.subNonterminals, data.symbols));
  }

  lemma {:induction false} PrefixDepth(items: seq<Placed>, k: nat)
    requires k < |items|
    ensures ItemDepth(items[k].item) <= ItemsDepth(Items(items))
  {
    DepthOfItem(Items(items), k);
  }
}
