/** What each plain rule was made for: which alternative or list, with which action, and which item each of its
    symbols stands for, under which name and position (crates/radlr-core/grammar/build_grammar.rs:452-818).  The
    words that rules derive do not tell this, but the syntax tree is built from it. */
module RuleShapes {
  import opened Sequences
  import opened Symbols
  import opened Ebnf
  import opened Numbering
  import opened Desugar
  import opened DesugarLanguage
  import opened Merge
  import opened Appended

  /** The non-terminal being processed, and the symbols skipped in its grammar file. */
  datatype Context = Context(p: nat, skips: Skips)

  // ----- shapes -----

  /** The symbol stands for the atom: it is the symbol named, or refers to the sub-non-terminal made for the
      group or the list. */
  ghost predicate Stands(c: Context, subs: seq<SubNonTerminal>, s: SymbolId, a: Atom, annotation: string)
    decreases AtomDepth(a), 0, 1
  {
    if a.Leaf? then s == a.s
    else exists k: nat :: k < |subs| && s == NonTerminal(Sub(c.p, k, Parser)) && MadeFor(c, subs, k, a, annotation)
  }

  /** Sub-non-terminal `k` is the group or the list. */
  ghost predicate MadeFor(c: Context, subs: seq<SubNonTerminal>, k: nat, a: Atom, annotation: string)
    requires k < |subs|
    decreases AtomDepth(a), 0, 0
  {
    match a
    case Leaf(_) => false
    case Group(alts) => subs[k].kind == GroupKind && forall r :: r in subs[k].rules ==> RuleFits(c, subs, r, alts)
    case ListOf(e, sep, _) =>
      subs[k].kind == ListKind && forall r :: r in subs[k].rules ==> ListRuleFits(c, subs, k, r, e, sep, annotation)
  }

  /** The rule is made for one of the alternatives and has its action. */
  ghost predicate RuleFits(c: Context, subs: seq<SubNonTerminal>, r: Rule, alts: seq<Alternative>)
    decreases AltsDepth(alts), 4, 0
  {
    r.skipped == c.skips && exists i :: 0 <= i < |alts| && AltFits(c, subs, r, alts, i)
  }

  ghost predicate AltFits(c: Context, subs: seq<SubNonTerminal>, r: Rule, alts: seq<Alternative>, i: nat)
    requires i < |alts|
    decreases AltsDepth(alts), 3, 0
  {
    DepthOfAlt(alts, i);
    r.ast == alts[i].ast && ItemsFit(c, subs, r.symbols, PlaceFrom(0, alts[i].items))
  }

  /** The body is what the items leave, one after another. */
  ghost predicate ItemsFit(c: Context, subs: seq<SubNonTerminal>, b: Body, items: seq<Placed>)
    decreases ItemsDepth(Items(items)), 2, |items|
  {
    if items == [] then b == []
    else
      InitDepth(items);
      exists k :: 0 <= k <= |b| && ItemsFit(c, subs, b[..k], Init(items)) && ItemFits(c, subs, b[k..], Last(items))
  }

  /** An item leaves one symbol with its name and position, or nothing if it may be left out; a set leaves what its
      members leave in some order. */
  ghost predicate ItemFits(c: Context, subs: seq<SubNonTerminal>, b: Body, placed: Placed)
    decreases ItemDepth(placed.item), 1, 0
  {
    match placed.item
    case One(a, isOptional, annotation) =>
      if b == [] then isOptional || (a.ListOf? && a.optionalList)
      else |b| == 1 && b[0] == SymbolRef(b[0].id, annotation, placed.index) && Stands(c, subs, b[0].id, a, annotation)
    case SetOf(ms, unordered, allowEmpty) =>
      && (b == [] ==> allowEmpty)
      && exists order :: IsOrder(order, |ms|, unordered) && OrderFits(c, subs, b, PlaceFrom(placed.index, ms), order)
  }

  ghost predicate OrderFits(c: Context, subs: seq<SubNonTerminal>, b: Body, members: seq<Placed>, order: seq<nat>)
    decreases ItemsDepth(Items(members)), 3, 0
  {
    && (forall i :: 0 <= i < |order| ==> order[i] < |members|)
    && (PickPlacedDepth(members, order); ItemsFit(c, subs, b, PickPlaced(members, order)))
  }

  /** A rule of list `k` either repeats, and then begins with the list itself, under the name that the author gave
      to the list, followed by separator and element; or it is the element alone.  The action tells which. */
  ghost predicate ListRuleFits(c: Context, subs: seq<SubNonTerminal>, k: nat, r: Rule, e: Atom, sep: Separator,
                               annotation: string)
    decreases AtomDepth(e), 3, 0
  {
    && r.skipped == c.skips
    && (if r.symbols != [] && r.symbols[0].id == NonTerminal(Sub(c.p, k, Parser)) then
          && r.ast == ListIterate
          && r.symbols[0] == SymbolRef(r.symbols[0].id, annotation, 0)
          && NextFits(c, subs, r.symbols[1..], e, sep)
        else r.ast == ListEntry && ItemFits(c, subs, r.symbols, Placed(0, One(e, false, ""))))
  }

  ghost predicate NextFits(c: Context, subs: seq<SubNonTerminal>, b: Body, e: Atom, sep: Separator)
    decreases AtomDepth(e), 2, 0
  {
    match sep
    case NoSeparator => ItemFits(c, subs, b, Placed(1, One(e, false, "")))
    case Separator(s) =>
      b != [] && b[0] == SymbolRef(s, "", 1) && ItemFits(c, subs, b[1..], Placed(2, One(e, false, "")))
  }

  // ----- later sub-non-terminals change nothing -----

  lemma {:induction false} StandsLater(c: Context, subs: seq<SubNonTerminal>, more: seq<SubNonTerminal>, s: SymbolId, a: Atom,
                                       annotation: string)
    requires Stands(c, subs, s, a, annotation) && subs <= more
    ensures Stands(c, more, s, a, annotation)
    decreases AtomDepth(a), 0, 1
  {
    if !a.Leaf? {
      var k: nat :| k < |subs| && s == NonTerminal(Sub(c.p, k, Parser)) && MadeFor(c, subs, k, a, annotation);
      MadeForLater(c, subs, more, k, a, annotation);
    }
  }

  lemma {:induction false} MadeForLater(c: Context, subs: seq<SubNonTerminal>, more: seq<SubNonTerminal>, k: nat, a: Atom,
                                        annotation: string)
    requires k < |subs| && MadeFor(c, subs, k, a, annotation) && subs <= more
    ensures MadeFor(c, more, k, a, annotation)
    decreases AtomDepth(a), 0, 0
  {
    assert more[k] == subs[k];
    match a
    case Group(alts) =>
      forall r | r in subs[k].rules
        ensures RuleFits(c, more, r, alts)
      {
        RuleFitsLater(c, subs, more, r, alts);
      }
    case ListOf(e, sep, _) =>
      forall r | r in subs[k].rules
        ensures ListRuleFits(c, more, k, r, e, sep, annotation)
      {
        ListRuleFitsLater(c, subs, more, k, r, e, sep, annotation);
      }
  }

  lemma {:induction false} RuleFitsLater(c: Context, subs: seq<SubNonTerminal>, more: seq<SubNonTerminal>, r: Rule,
                                         alts: seq<Alternative>)
    requires RuleFits(c, subs, r, alts) && subs <= more
    ensures RuleFits(c, more, r, alts)
    decreases AltsDepth(alts), 4, 0
  {
    var i :| 0 <= i < |alts| && AltFits(c, subs, r, alts, i);
    DepthOfAlt(alts, i);
    ItemsFitLater(c, subs, more, r.symbols, PlaceFrom(0, alts[i].items));
    assert AltFits(c, more, r, alts, i);
  }

  lemma {:induction false} ItemsFitLater(c: Context, subs: seq<SubNonTerminal>, more: seq<SubNonTerminal>, b: Body,
                                         items: seq<Placed>)
    requires ItemsFit(c, subs, b, items) && subs <= more
    ensures ItemsFit(c, more, b, items)
    decreases ItemsDepth(Items(items)), 2, |items|
  {
    if items != [] {
      InitDepth(items);
      var k :| 0 <= k <= |b| && ItemsFit(c, subs, b[..k], Init(items)) && ItemFits(c, subs, b[k..], Last(items));
      ItemsFitLater(c, subs, more, b[..k], Init(items));
      ItemFitsLater(c, subs, more, b[k..], Last(items));
    }
  }

  lemma {:induction false} ItemFitsLater(c: Context, subs: seq<SubNonTerminal>, more: seq<SubNonTerminal>, b: Body,
                                         placed: Placed)
    requires ItemFits(c, subs, b, placed) && subs <= more
    ensures ItemFits(c, more, b, placed)
    decreases ItemDepth(placed.item), 1, 0
  {
    match placed.item
    case One(a, isOptional, annotation) =>
      if b != [] {
        StandsLater(c, subs, more, b[0].id, a, annotation);
      }
    case SetOf(ms, unordered, allowEmpty) =>
      var members := PlaceFrom(placed.index, ms);
      var order :| IsOrder(order, |ms|, unordered) && OrderFits(c, subs, b, members, order);
      PickPlacedDepth(members, order);
      ItemsFitLater(c, subs, more, b, PickPlaced(members, order));
      assert OrderFits(c, more, b, members, order);
  }

  lemma {:induction false} ListRuleFitsLater(c: Context, subs: seq<SubNonTerminal>, more: seq<SubNonTerminal>, k: nat, r: Rule,
                                             e: Atom, sep: Separator, annotation: string)
    requires ListRuleFits(c, subs, k, r, e, sep, annotation) && subs <= more
    ensures ListRuleFits(c, more, k, r, e, sep, annotation)
    decreases AtomDepth(e), 3, 0
  {
    if r.ast == ListEntry {
      ItemFitsLater(c, subs, more, r.symbols, Placed(0, One(e, false, "")));
    } else if sep.Separator? {
      ItemFitsLater(c, subs, more, r.symbols[1..][1..], Placed(2, One(e, false, "")));
    } else {
      ItemFitsLater(c, subs, more, r.symbols[1..], Placed(1, One(e, false, "")));
    }
  }

  // ----- every body made fits its items -----

  lemma {:induction false} BodiesFit(c: Context, items: seq<Placed>, subs: seq<SubNonTerminal>, b: Body)
    requires WellNumbered(c.p, subs) && b in Bodies(c.p, c.skips, items, subs).bodies
    ensures ItemsFit(c, Bodies(c.p, c.skips, items, subs).subs, b, items)
    decreases ItemsDepth(Items(items)), 3, |items|
  {
    if items != [] {
      InitDepth(items);
      var m := Bodies(c.p, c.skips, Init(items), subs);
      BodiesGrow(c.p, c.skips, Init(items), subs);
      ItemGrow(c.p, c.skips, Last(items), m.subs);
      var e := ItemBodies(c.p, c.skips, Last(items), m.subs);
      var x, y := FromCross(m.bodies, e.bodies, b);
      BodiesFit(c, Init(items), subs, x);
      ItemsFitLater(c, m.subs, e.subs, x, Init(items));
      ItemBodiesFit(c, Last(items), m.subs, y);
      assert b[..|x|] == x && b[|x|..] == y;
    }
  }

  lemma {:induction false} ItemBodiesFit(c: Context, placed: Placed, subs: seq<SubNonTerminal>, b: Body)
    requires WellNumbered(c.p, subs) && b in ItemBodies(c.p, c.skips, placed, subs).bodies
    ensures ItemFits(c, ItemBodies(c.p, c.skips, placed, subs).subs, b, placed)
    decreases ItemDepth(placed.item), 2, 0
  {
    match placed.item
    case One(a, isOptional, annotation) =>
      if b != [] {
        AtomStands(c, a, annotation, subs);
      }
    case SetOf(ms, unordered, allowEmpty) =>
      var members, orders := PlaceFrom(placed.index, ms), Orders(|ms|, unordered);
      OrdersAllInRange(|ms|, unordered);
      var m := OrderBodies(c.p, c.skips, members, orders, subs);
      KeepExactly(m.bodies, allowEmpty, b);
      var order := OrderBodiesFit(c, members, orders, subs, b);
      OrdersInRange(|ms|, unordered, order);
  }

  lemma {:induction false} OrderBodiesFit(c: Context, members: seq<Placed>, orders: seq<seq<nat>>, subs: seq<SubNonTerminal>, b: Body)
    returns (order: seq<nat>)
    requires WellNumbered(c.p, subs) && AllInRange(orders, |members|)
    requires b in OrderBodies(c.p, c.skips, members, orders, subs).bodies
    ensures order in orders && OrderFits(c, OrderBodies(c.p, c.skips, members, orders, subs).subs, b, members, order)
    decreases ItemsDepth(Items(members)), 4, |orders|
  {
    SplitLast(orders);
    var m := OrderBodies(c.p, c.skips, members, Init(orders), subs);
    OrdersGrow(c.p, c.skips, members, Init(orders), subs);
    PickPlacedDepth(members, Last(orders));
    var picked := PickPlaced(members, Last(orders));
    BodiesGrow(c.p, c.skips, picked, m.subs);
    var e := Bodies(c.p, c.skips, picked, m.subs);
    if b in m.bodies {
      order := OrderBodiesFit(c, members, Init(orders), subs, b);
      PickPlacedDepth(members, order);
      ItemsFitLater(c, m.subs, e.subs, b, PickPlaced(members, order));
    } else {
      order := Last(orders);
      BodiesFit(c, picked, m.subs, b);
    }
  }

  /** The symbol made for an atom stands for it. */
  lemma {:induction false} AtomStands(c: Context, a: Atom, annotation: string, subs: seq<SubNonTerminal>)
    requires WellNumbered(c.p, subs)
    ensures var (id, subs') := AtomSymbol(c.p, c.skips, a, annotation, subs); Stands(c, subs', id, a, annotation)
    decreases AtomDepth(a), 1, 0
  {
    if a.Group? {
      GroupMade(c, a, annotation, subs);
    } else if a.ListOf? {
      ListMade(c, a, annotation, subs);
    }
  }

  lemma {:induction false} GroupMade(c: Context, a: Atom, annotation: string, subs: seq<SubNonTerminal>)
    requires WellNumbered(c.p, subs) && a.Group?
    ensures var (id, subs') := AtomSymbol(c.p, c.skips, a, annotation, subs);
            subs' != [] && id == NonTerminal(Sub(c.p, |subs'| - 1, Parser)) && MadeFor(c, subs', |subs'| - 1, a, annotation)
    decreases AtomDepth(a), 0, 0
  {
    var made := AltRules(c.p, c.skips, a.alts, subs);
    var id, subs' := AtomSymbol(c.p, c.skips, a, annotation, subs).0, AtomSymbol(c.p, c.skips, a, annotation, subs).1;
    assert made.1 <= subs';
    forall r | r in made.0
      ensures RuleFits(c, subs', r, a.alts)
    {
      AltRulesFit(c, a.alts, subs, r);
      RuleFitsLater(c, made.1, subs', r, a.alts);
    }
  }

  lemma {:induction false} ListMade(c: Context, a: Atom, annotation: string, subs: seq<SubNonTerminal>)
    requires WellNumbered(c.p, subs) && a.ListOf?
    ensures var (id, subs') := AtomSymbol(c.p, c.skips, a, annotation, subs);
            subs' != [] && id == NonTerminal(Sub(c.p, |subs'| - 1, Parser)) && MadeFor(c, subs', |subs'| - 1, a, annotation)
    decreases AtomDepth(a), 0, 0
  {
    var e, sep := a.element, a.separator;
    ListItemsDepth(e, sep);
    var m := Bodies(c.p, c.skips, PlaceFrom(0, ListItems(e, sep)), subs);
    var subs' := AtomSymbol(c.p, c.skips, a, annotation, subs).1;
    var k := |m.subs|;
    var list := SymbolRef(NonTerminal(Sub(c.p, k, Parser)), annotation, 0);
    assert subs'[k].rules == ListRules(m.bodies, sep, list, c.skips);
    forall r | r in subs'[k].rules
      ensures ListRuleFits(c, subs', k, r, e, sep, annotation)
    {
      var b := FromListRules(m.bodies, sep, list, c.skips, r);
      var z := ListBodyFits(c, e, sep, subs, b);
      if r == Rule(FirstBody(b, sep.Separator?), c.skips, ListEntry) {
        EntryFits(c, m.subs, subs', k, e, sep, z, r, annotation);
      } else {
        IterateFits(c, m.subs, subs', k, e, sep, z, r, annotation);
      }
    }
  }

  /** A rule of a list comes from a body, either as the first or as a next one. */
  lemma {:induction false} FromListRules(bodies: seq<Body>, sep: Separator, list: SymbolRef, skips: Skips, r: Rule) returns (b: Body)
    requires r in ListRules(bodies, sep, list, skips)
    ensures b in bodies
    ensures r == Rule(FirstBody(b, sep.Separator?), skips, ListEntry) || r == Rule(NextBody(b, list), skips, ListIterate)
  {
    var rules := ListRules(bodies, sep, list, skips);
    var i :| 0 <= i < |rules| && rules[i] == r;
    b := bodies[if i < |bodies| then i else i - |bodies|];
  }

  function At(b: Body, pos: nat): Body { if b == [] then [] else [b[0].(originalIndex := pos)] }

  /** What a list repeats: the separator and at most one symbol for the element. */
  lemma {:induction false} ListBodyFits(c: Context, e: Atom, sep: Separator, subs: seq<SubNonTerminal>, b: Body) returns (z: Body)
    requires WellNumbered(c.p, subs) && b in Bodies(c.p, c.skips, PlaceFrom(0, ListItems(e, sep)), subs).bodies
    ensures b == SeparatorBody(sep) + z && |z| <= 1
    ensures var made := Bodies(c.p, c.skips, PlaceFrom(0, ListItems(e, sep)), subs).subs;
            && RefersBelow(c.p, z, |made|)
            && forall pos :: ItemFits(c, made, At(z, pos), Placed(pos, One(e, false, "")))
    ensures sep.NoSeparator? ==> z == At(z, 0)
    decreases AtomDepth(e), 3, 0
  {
    z := FromListBodies(c.p, c.skips, e, sep, subs, b);
    ListBodies(c.p, c.skips, e, sep, subs);
    ItemGrow(c.p, c.skips, Element(e, sep), subs);
    ItemBodiesFit(c, Element(e, sep), subs, z);
  }

  lemma {:induction false} EntryFits(c: Context, subs: seq<SubNonTerminal>, more: seq<SubNonTerminal>, k: nat, e: Atom,
                                     sep: Separator, z: Body, r: Rule, annotation: string)
    requires subs <= more && k == |subs| && |z| <= 1 && RefersBelow(c.p, z, k)
    requires ItemFits(c, subs, At(z, 0), Placed(0, One(e, false, "")))
    requires sep.NoSeparator? ==> z == At(z, 0)
    requires r == Rule(FirstBody(SeparatorBody(sep) + z, sep.Separator?), c.skips, ListEntry)
    ensures ListRuleFits(c, more, k, r, e, sep, annotation)
  {
    assert r.symbols == At(z, 0) by {
      if sep.Separator? {
        assert (SeparatorBody(sep) + z)[1..] == z;
      } else {
        assert SeparatorBody(sep) + z == z;
      }
    }
    ItemFitsLater(c, subs, more, r.symbols, Placed(0, One(e, false, "")));
  }

  lemma {:induction false} IterateFits(c: Context, subs: seq<SubNonTerminal>, more: seq<SubNonTerminal>, k: nat, e: Atom,
                                       sep: Separator, z: Body, r: Rule, annotation: string)
    requires subs <= more && |z| <= 1
    requires forall pos :: ItemFits(c, subs, At(z, pos), Placed(pos, One(e, false, "")))
    requires r == Rule(NextBody(SeparatorBody(sep) + z, SymbolRef(NonTerminal(Sub(c.p, k, Parser)), annotation, 0)), c.skips,
                       ListIterate)
    ensures ListRuleFits(c, more, k, r, e, sep, annotation)
  {
    var pos := if sep.Separator? then 2 else 1;
    ItemFitsLater(c, subs, more, At(z, pos), Placed(pos, One(e, false, "")));
    if sep.Separator? {
      assert r.symbols[1..][1..] == At(z, 2);
    } else {
      assert r.symbols[1..] == At(z, 1);
    }
  }

  lemma {:induction false} AltRulesFit(c: Context, alts: seq<Alternative>, subs: seq<SubNonTerminal>, r: Rule)
    requires WellNumbered(c.p, subs) && r in AltRules(c.p, c.skips, alts, subs).0
    ensures RuleFits(c, AltRules(c.p, c.skips, alts, subs).1, r, alts)
    decreases AltsDepth(alts), 4, |alts|
  {
    var init, a := Init(alts), Last(alts);
    AltsGrow(c.p, c.skips, init, subs);
    var (rules, subs') := AltRules(c.p, c.skips, init, subs);
    DepthOfAlt(alts, |alts| - 1);
    BodiesGrow(c.p, c.skips, PlaceFrom(0, a.items), subs');
    var m := Bodies(c.p, c.skips, PlaceFrom(0, a.items), subs');
    if r in rules {
      AltRulesFit(c, init, subs, r);
      RuleFitsLater(c, subs', m.subs, r, init);
      var i :| 0 <= i < |init| && AltFits(c, m.subs, r, init, i);
      assert AltFits(c, m.subs, r, alts, i);
    } else {
      var made := MakeRules(m.bodies, a.ast, c.skips);
      var i :| 0 <= i < |made| && made[i] == r;
      BodiesFit(c, PlaceFrom(0, a.items), subs', r.symbols);
      assert AltFits(c, m.subs, r, alts, |alts| - 1);
    }
  }

  // ----- every sub-non-terminal is made for something -----

  /** Every sub-non-terminal is the group or the list that it was made for, in a grammar file with one of the given
      lists of skipped symbols. */
  ghost predicate AllMade(p: nat, files: set<Skips>, subs: seq<SubNonTerminal>) {
    forall k: nat :: k < |subs| ==> Purpose(p, files, subs, k)
  }

  ghost predicate Purpose(p: nat, files: set<Skips>, subs: seq<SubNonTerminal>, k: nat)
    requires k < |subs|
  {
    exists skips, a, annotation :: skips in files && MadeFor(Context(p, skips), subs, k, a, annotation)
  }

  lemma {:induction false} AllMadeLater(c: Context, files: set<Skips>, subs: seq<SubNonTerminal>, sub: SubNonTerminal, a: Atom,
                                        annotation: string)
    requires AllMade(c.p, files, subs) && c.skips in files && MadeFor(c, subs + [sub], |subs|, a, annotation)
    ensures AllMade(c.p, files, subs + [sub])
  {
    forall k: nat | k < |subs + [sub]|
      ensures Purpose(c.p, files, subs + [sub], k)
    {
      if k < |subs| {
        assert Purpose(c.p, files, subs, k);
        var skips, x, name :| skips in files && MadeFor(Context(c.p, skips), subs, k, x, name);
        MadeForLater(Context(c.p, skips), subs, subs + [sub], k, x, name);
      } else {
        assert c == Context(c.p, c.skips);
      }
    }
  }

  lemma {:induction false} BodiesMade(c: Context, files: set<Skips>, items: seq<Placed>, subs: seq<SubNonTerminal>)
    requires WellNumbered(c.p, subs) && AllMade(c.p, files, subs) && c.skips in files
    ensures AllMade(c.p, files, Bodies(c.p, c.skips, items, subs).subs)
    decreases ItemsDepth(Items(items)), 3, |items|
  {
    if items != [] {
      InitDepth(items);
      BodiesGrow(c.p, c.skips, Init(items), subs);
      BodiesMade(c, files, Init(items), subs);
      ItemMade(c, files, Last(items), Bodies(c.p, c.skips, Init(items), subs).subs);
    }
  }

  lemma {:induction false} ItemMade(c: Context, files: set<Skips>, placed: Placed, subs: seq<SubNonTerminal>)
    requires WellNumbered(c.p, subs) && AllMade(c.p, files, subs) && c.skips in files
    ensures AllMade(c.p, files, ItemBodies(c.p, c.skips, placed, subs).subs)
    decreases ItemDepth(placed.item), 2, 0
  {
    match placed.item
    case One(a, isOptional, annotation) => AtomMade(c, files, a, annotation, subs);
    case SetOf(ms, unordered, allowEmpty) =>
      OrdersAllInRange(|ms|, unordered);
      OrdersMade(c, files, PlaceFrom(placed.index, ms), Orders(|ms|, unordered), subs);
  }

  lemma {:induction false} OrdersMade(c: Context, files: set<Skips>, members: seq<Placed>, orders: seq<seq<nat>>, subs: seq<SubNonTerminal>)
    requires WellNumbered(c.p, subs) && AllInRange(orders, |members|) && AllMade(c.p, files, subs) && c.skips in files
    ensures AllMade(c.p, files, OrderBodies(c.p, c.skips, members, orders, subs).subs)
    decreases ItemsDepth(Items(members)), 4, |orders|
  {
    if orders != [] {
      OrdersGrow(c.p, c.skips, members, Init(orders), subs);
      OrdersMade(c, files, members, Init(orders), subs);
      PickPlacedDepth(members, Last(orders));
      BodiesMade(c, files, PickPlaced(members, Last(orders)), OrderBodies(c.p, c.skips, members, Init(orders), subs).subs);
    }
  }

  lemma {:induction false} AtomMade(c: Context, files: set<Skips>, a: Atom, annotation: string, subs: seq<SubNonTerminal>)
    requires WellNumbered(c.p, subs) && AllMade(c.p, files, subs) && c.skips in files
    ensures AllMade(c.p, files, AtomSymbol(c.p, c.skips, a, annotation, subs).1)
    decreases AtomDepth(a), 1, 0
  {
    match a
    case Leaf(_) =>
    case Group(alts) =>
      AltsMade(c, files, alts, subs);
      GroupMade(c, a, annotation, subs);
      var before, made := AltRules(c.p, c.skips, alts, subs).1, AtomSymbol(c.p, c.skips, a, annotation, subs).1;
      AllMadeLater(c, files, before, Last(made), a, annotation);
    case ListOf(e, sep, _) =>
      ListItemsDepth(e, sep);
      BodiesMade(c, files, PlaceFrom(0, ListItems(e, sep)), subs);
      ListMade(c, a, annotation, subs);
      var before, made := Bodies(c.p, c.skips, PlaceFrom(0, ListItems(e, sep)), subs).subs,
                          AtomSymbol(c.p, c.skips, a, annotation, subs).1;
      AllMadeLater(c, files, before, Last(made), a, annotation);
  }

  lemma {:induction false} AltsMade(c: Context, files: set<Skips>, alts: seq<Alternative>, subs: seq<SubNonTerminal>)
    requires WellNumbered(c.p, subs) && AllMade(c.p, files, subs) && c.skips in files
    ensures AllMade(c.p, files, AltRules(c.p, c.skips, alts, subs).1)
    decreases AltsDepth(alts), 4, |alts|
  {
    if alts != [] {
      AltsGrow(c.p, c.skips, Init(alts), subs);
      AltsMade(c, files, Init(alts), subs);
      DepthOfAlt(alts, |alts| - 1);
      BodiesMade(c, files, PlaceFrom(0, Last(alts).items), AltRules(c.p, c.skips, Init(alts), subs).1);
    }
  }

  // ----- definitions -----

  function Files(src: Source): set<Skips> { set d | d in src :: d.skips }

  /** The rule is made for an alternative of one of the definitions. */
  ghost predicate FromDefinition(src: Source, p: nat, subs: seq<SubNonTerminal>, r: Rule) {
    exists d :: d in src && d.p == p && RuleFits(Context(p, d.skips), subs, r, d.alts)
  }

  lemma {:induction false} RulesOfFit(src: Source, p: nat)
    ensures var (rules, subs) := RulesOf(src, p);
            AllMade(p, Files(src), subs) && forall r :: r in rules ==> FromDefinition(src, p, subs, r)
  {
    if src != [] {
      var init, d := Init(src), Last(src);
      SplitLast(src);
      RulesOfFit(init, p);
      RulesOfGrow(init, p);
      RulesOfPrefix(src, p);
      var (rules, subs) := RulesOf(init, p);
      var all := RulesOf(src, p);
      MoreFiles(p, Files(init), Files(src), subs);
      if d.p == p {
        AltsMade(Context(p, d.skips), Files(src), d.alts, subs);
      }
      forall r | r in all.0
        ensures FromDefinition(src, p, all.1, r)
      {
        if r in rules {
          var e :| e in init && e.p == p && RuleFits(Context(p, e.skips), subs, r, e.alts);
          RuleFitsLater(Context(p, e.skips), subs, all.1, r, e.alts);
        } else {
          AltRulesFit(Context(p, d.skips), d.alts, subs, r);
        }
      }
    }
  }

  lemma {:induction false} MoreFiles(p: nat, files: set<Skips>, more: set<Skips>, subs: seq<SubNonTerminal>)
    requires AllMade(p, files, subs) && files <= more
    ensures AllMade(p, more, subs)
  {
    forall k: nat | k < |subs|
      ensures Purpose(p, more, subs, k)
    {
      assert Purpose(p, files, subs, k);
    }
  }

  /** After all definitions are processed and merged, every rule of a non-terminal is made for an alternative of one
      of its definitions, with the alternative's action, and each of its symbols stands for an item, with the item's
      name and position; every sub-non-terminal is a group or a list of the author with such rules. */
  lemma {:induction false} RulesFitAuthor(src: Source, nterms: seq<NonTerm>, id: NonTermId)
    requires AllProcessed(src, nterms) && id in MergeAll(nterms)
    ensures var n := MergeAll(nterms)[id];
            && (forall r :: r in n.rules ==> FromDefinition(src, id.id, n.subs, r))
            && AllMade(id.id, Files(src), n.subs)
  {
    MergedIsWhole(src, nterms);
    RulesOfFit(src, id.id);
  }

  /** A rule of a list repeats the list if and only if it begins with the list itself, and otherwise starts it; its
      symbols are numbered from 0 on. */
  lemma {:induction false} ListActions(src: Source, nterms: seq<NonTerm>, id: NonTermId, k: nat, r: Rule)
    requires AllProcessed(src, nterms) && id in MergeAll(nterms)
    requires var subs := MergeAll(nterms)[id].subs; k < |subs| && subs[k].kind == ListKind && r in subs[k].rules
    ensures var list := MergeAll(nterms)[id].subs[k].id.AsSym();
            && (r.ast == ListIterate <==> r.symbols != [] && r.symbols[0].id == list)
            && (r.ast == ListEntry <==> !(r.symbols != [] && r.symbols[0].id == list))
    ensures forall i :: 0 <= i < |r.symbols| ==> r.symbols[i].originalIndex == i
  {
    var n := MergeAll(nterms)[id];
    RulesFitAuthor(src, nterms, id);
    MergedIsWhole(src, nterms);
    RulesOfGrow(src, id.id);
    assert Numbered(id.id, n.subs[k], k) && Purpose(id.id, Files(src), n.subs, k);
    var skips, a, annotation :| skips in Files(src) && MadeFor(Context(id.id, skips), n.subs, k, a, annotation);
    var c := Context(id.id, skips);
    assert ListRuleFits(c, n.subs, k, r, a.element, a.separator, annotation);
    ListPositions(c, n.subs, k, r, a.element, a.separator, annotation);
  }

  lemma {:induction false} AtMostOne(c: Context, subs: seq<SubNonTerminal>, b: Body, pos: nat, e: Atom)
    requires ItemFits(c, subs, b, Placed(pos, One(e, false, "")))
    ensures |b| <= 1 && forall i :: 0 <= i < |b| ==> b[i].originalIndex == pos
  {
  }

  lemma {:induction false} ListPositions(c: Context, subs: seq<SubNonTerminal>, k: nat, r: Rule, e: Atom, sep: Separator,
                                         annotation: string)
    requires ListRuleFits(c, subs, k, r, e, sep, annotation)
    ensures forall i :: 0 <= i < |r.symbols| ==> r.symbols[i].originalIndex == i
  {
    if r.ast == ListIterate {
      var next := r.symbols[1..];
      if sep.Separator? {
        AtMostOne(c, subs, next[1..], 2, e);
        assert |next[1..]| == 1 ==> next[1..][0] == r.symbols[2];
      } else {
        AtMostOne(c, subs, next, 1, e);
        assert |next| == 1 ==> next[0] == r.symbols[1];
      }
    } else {
      AtMostOne(c, subs, r.symbols, 0, e);
    }
  }
}
