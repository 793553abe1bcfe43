/** Desugaring preserves the language: in any grammar that has the sub-non-terminals made, the plain
    bodies of a rule derive exactly the words that the author's rule means. */
module DesugarLanguage {
  import opened Sequences
  import opened Permutations
  import opened Symbols
  import opened Cfg
  import opened Ebnf
  import opened Numbering
  import opened Desugar

  /** The sub-non-terminals of `p` have their rules in `g`. */
  ghost predicate Includes(g: Grammar, p: nat, subs: seq<SubNonTerminal>) {
    forall k :: 0 <= k < |subs| ==>
      NonTerminal(Sub(p, k, Parser)) in g && g[NonTerminal(Sub(p, k, Parser))] == subs[k].rules
  }

  /** Named symbols derive, up to height `h`, only words of `L`. */
  ghost predicate LeavesIn(g: Grammar, L: Language, h: nat) {
    forall s, w, k: nat :: k <= h && !IsSubSymbol(s) && SymDerivesIn(g, s, w, k) ==> L(s, w)
  }

  /** Named symbols derive every word of `L`. */
  ghost predicate LeavesOf(g: Grammar, L: Language) {
    forall s, w :: !IsSubSymbol(s) && L(s, w) ==> SymDerives(g, s, w)
  }

  lemma {:induction false} IncludesPrefix(g: Grammar, p: nat, a: seq<SubNonTerminal>, b: seq<SubNonTerminal>)
    requires Includes(g, p, b) && a <= b
    ensures Includes(g, p, a)
  {
  }

  // ----- the shape of a list -----

  function SeparatorBody(sep: Separator): Body {
    match sep
    case NoSeparator => []
    case Separator(s) => [SymbolRef(s, "", 0)]
  }

  function Element(e: Atom, sep: Separator): Placed {
    Placed(if sep.Separator? then 1 else 0, One(e, false, ""))
  }

  /** The bodies of a list are its separator followed by the bodies of its element. */
  lemma {:induction false} ListBodies(p: nat, skips: Skips, e: Atom, sep: Separator, subs: seq<SubNonTerminal>)
    ensures var m := Bodies(p, skips, PlaceFrom(0, ListItems(e, sep)), subs);
            var x := ItemBodies(p, skips, Element(e, sep), subs);
            m.subs == x.subs && m.bodies == Cross([SeparatorBody(sep)], x.bodies)
  {
    var items := PlaceFrom(0, ListItems(e, sep));
    assert Last(items) == Element(e, sep);
    SeparatorOnly(p, skips, e, sep, subs);
  }

  lemma {:induction false} SeparatorOnly(p: nat, skips: Skips, e: Atom, sep: Separator, subs: seq<SubNonTerminal>)
    ensures Bodies(p, skips, Init(PlaceFrom(0, ListItems(e, sep))), subs) == Made([SeparatorBody(sep)], subs)
  {
    var first := Init(PlaceFrom(0, ListItems(e, sep)));
    match sep
    case NoSeparator =>
      assert first == [];
    case Separator(s) =>
      var placed := Placed(0, One(Leaf(s), false, ""));
      assert first == [placed];
      assert Init(first) == [] && Last(first) == placed;
      assert Bodies(p, skips, [], subs) == Made([[]], subs);
      assert ItemBodies(p, skips, placed, subs) == Made([SeparatorBody(sep)], subs);
      OnlyOne(SeparatorBody(sep));
  }

  lemma {:induction false} OnlyOne(x: Body)
    ensures Cross([[]], [x]) == [x]
  {
    assert Init([x]) == [] && Cross([[]], []) == [];
    assert [] + x == x && ExtendEach([[]], x) == [x];
  }

  lemma {:induction false} FromListBodies(p: nat, skips: Skips, e: Atom, sep: Separator, subs: seq<SubNonTerminal>, b: Body) returns (z: Body)
    requires b in Bodies(p, skips, PlaceFrom(0, ListItems(e, sep)), subs).bodies
    ensures z in ItemBodies(p, skips, Element(e, sep), subs).bodies && b == SeparatorBody(sep) + z
  {
    ListBodies(p, skips, e, sep, subs);
    var u;
    u, z := FromCross([SeparatorBody(sep)], ItemBodies(p, skips, Element(e, sep), subs).bodies, b);
  }

  lemma {:induction false} InListBodies(p: nat, skips: Skips, e: Atom, sep: Separator, subs: seq<SubNonTerminal>, z: Body)
    requires z in ItemBodies(p, skips, Element(e, sep), subs).bodies
    ensures SeparatorBody(sep) + z in Bodies(p, skips, PlaceFrom(0, ListItems(e, sep)), subs).bodies
  {
    ListBodies(p, skips, e, sep, subs);
    InCross([SeparatorBody(sep)], ItemBodies(p, skips, Element(e, sep), subs).bodies, SeparatorBody(sep), z);
  }

  // ----- what the bodies derive, the rule means -----

  lemma {:induction false} BodiesSound(
    g: Grammar, p: nat, skips: Skips, L: Language, items: seq<Placed>, subs: seq<SubNonTerminal>, b: Body, w: Word, h: nat)
    requires WellNumbered(p, subs) && Includes(g, p, Bodies(p, skips, items, subs).subs)
    requires b in Bodies(p, skips, items, subs).bodies && DerivesIn(g, b, w, h) && LeavesIn(g, L, h)
    ensures ItemsMatch(L, Items(items), w, b != [])
    decreases ItemsDepth(Items(items)), 3, |items|
  {
    if items != [] {
      InitDepth(items);
      var m := Bodies(p, skips, Init(items), subs);
      BodiesGrow(p, skips, Init(items), subs);
      ItemGrow(p, skips, Last(items), m.subs);
      var e := ItemBodies(p, skips, Last(items), m.subs);
      IncludesPrefix(g, p, m.subs, e.subs);
      var x, y := FromCross(m.bodies, e.bodies, b);
      var u, v := SplitIn(g, x, y, w, h);
      BodiesSound(g, p, skips, L, Init(items), subs, x, u, h);
      ItemSound(g, p, skips, L, Last(items), m.subs, y, v, h);
      JoinMatches(L, Items(items), u, v, x != [], y != []);
    }
  }

  lemma {:induction false} JoinMatches(L: Language, items: seq<Item>, u: Word, v: Word, c: bool, d: bool)
    requires items != [] && ItemsMatch(L, Init(items), u, c) && ItemMatches(L, Last(items), v, d)
    ensures ItemsMatch(L, items, u + v, c || d)
  {
    var w := u + v;
    assert w[..|u|] == u && w[|u|..] == v;
    assert MatchAt(L, items, w, |u|, c, d);
  }

  lemma {:induction false} ItemSound(
    g: Grammar, p: nat, skips: Skips, L: Language, placed: Placed, subs: seq<SubNonTerminal>, b: Body, w: Word, h: nat)
    requires WellNumbered(p, subs) && Includes(g, p, ItemBodies(p, skips, placed, subs).subs)
    requires b in ItemBodies(p, skips, placed, subs).bodies && DerivesIn(g, b, w, h) && LeavesIn(g, L, h)
    ensures ItemMatches(L, placed.item, w, b != [])
    decreases ItemDepth(placed.item), 2, 0
  {
    match placed.item
    case One(a, isOptional, annotation) =>
      if b != [] {
        var id := AtomSymbol(p, skips, a, annotation, subs).0;
        SingleIn(g, SymbolRef(id, annotation, placed.index), w, h);
        AtomSound(g, p, skips, L, a, annotation, subs, w, h);
      }
    case SetOf(ms, unordered, allowEmpty) =>
      OrdersAllInRange(|ms|, unordered);
      var members, orders := PlaceFrom(placed.index, ms), Orders(|ms|, unordered);
      KeepExactly(OrderBodies(p, skips, members, orders, subs).bodies, allowEmpty, b);
      var order := OrdersSound(g, p, skips, L, members, orders, subs, b, w, h);
      OrdersInRange(|ms|, unordered, order);
  }

  lemma {:induction false} OrdersSound(
    g: Grammar, p: nat, skips: Skips, L: Language, members: seq<Placed>, orders: seq<seq<nat>>, subs: seq<SubNonTerminal>,
    b: Body, w: Word, h: nat) returns (order: seq<nat>)
    requires WellNumbered(p, subs) && AllInRange(orders, |members|)
    requires Includes(g, p, OrderBodies(p, skips, members, orders, subs).subs)
    requires b in OrderBodies(p, skips, members, orders, subs).bodies && DerivesIn(g, b, w, h) && LeavesIn(g, L, h)
    ensures order in orders && OrderMatches(L, Items(members), order, w, b != [])
    decreases ItemsDepth(Items(members)), 4, |orders|
  {
    SplitLast(orders);
    var m := OrderBodies(p, skips, members, Init(orders), subs);
    OrdersGrow(p, skips, members, Init(orders), subs);
    PickPlacedDepth(members, Last(orders));
    var picked := PickPlaced(members, Last(orders));
    BodiesGrow(p, skips, picked, m.subs);
    var e := Bodies(p, skips, picked, m.subs);
    IncludesPrefix(g, p, m.subs, e.subs);
    if b in m.bodies {
      order := OrdersSound(g, p, skips, L, members, Init(orders), subs, b, w, h);
    } else {
      BodiesSound(g, p, skips, L, picked, m.subs, b, w, h);
      order := Last(orders);
    }
  }

  lemma {:induction false} AtomSound(
    g: Grammar, p: nat, skips: Skips, L: Language, a: Atom, annotation: string, subs: seq<SubNonTerminal>, w: Word, h: nat)
    requires WellNumbered(p, subs) && Includes(g, p, AtomSymbol(p, skips, a, annotation, subs).1)
    requires SymDerivesIn(g, AtomSymbol(p, skips, a, annotation, subs).0, w, h) && LeavesIn(g, L, h)
    ensures AtomMatches(L, a, w)
    decreases AtomDepth(a), 1, 0
  {
    match a
    case Leaf(s) =>
    case Group(alts) =>
      var r := AltRules(p, skips, alts, subs);
      AltsGrow(p, skips, alts, subs);
      LastSub(g, p, r.1, SubNonTerminal(Sub(p, |r.1|, Parser), GroupKind, r.0));
      var rule :| rule in r.0 && DerivesIn(g, rule.symbols, w, h - 1);
      var i := AltsSound(g, p, skips, L, alts, subs, rule, w, h - 1);
    case ListOf(e, sep, _) =>
      var list := ListOfAtom(g, p, skips, a, annotation, subs);
      ListSound(g, p, skips, L, e, sep, list, subs, w, h);
  }

  lemma {:induction false} LastSub(g: Grammar, p: nat, subs: seq<SubNonTerminal>, sub: SubNonTerminal)
    requires Includes(g, p, subs + [sub])
    ensures Includes(g, p, subs)
    ensures NonTerminal(Sub(p, |subs|, Parser)) in g && g[NonTerminal(Sub(p, |subs|, Parser))] == sub.rules
  {
    assert (subs + [sub])[|subs|] == sub;
    assert subs <= subs + [sub];
  }

  lemma {:induction false} AltsSound(
    g: Grammar, p: nat, skips: Skips, L: Language, alts: seq<Alternative>, subs: seq<SubNonTerminal>, r: Rule, w: Word, h: nat)
    returns (i: nat)
    requires WellNumbered(p, subs) && Includes(g, p, AltRules(p, skips, alts, subs).1)
    requires r in AltRules(p, skips, alts, subs).0 && DerivesIn(g, r.symbols, w, h) && LeavesIn(g, L, h)
    ensures i < |alts| && ItemsMatch(L, alts[i].items, w, r.symbols != []) && AltMatches(L, alts, i, w)
    decreases AltsDepth(alts), 4, |alts|
  {
    var r0 := AltRules(p, skips, Init(alts), subs);
    var items := PlaceFrom(0, Last(alts).items);
    AltsGrow(p, skips, Init(alts), subs);
    BodiesGrow(p, skips, items, r0.1);
    var m := Bodies(p, skips, items, r0.1);
    IncludesPrefix(g, p, r0.1, m.subs);
    if r in r0.0 {
      i := AltsSound(g, p, skips, L, Init(alts), subs, r, w, h);
    } else {
      var j :| 0 <= j < |m.bodies| && MakeRules(m.bodies, Last(alts).ast, skips)[j] == r;
      BodiesSound(g, p, skips, L, items, r0.1, r.symbols, w, h);
      i := |alts| - 1;
    }
    assert alts[i].items == if i < |alts| - 1 then Init(alts)[i].items else Last(alts).items;
  }

  lemma {:induction false} LeavesLower(g: Grammar, L: Language, h: nat, k: nat)
    requires LeavesIn(g, L, h) && k <= h
    ensures LeavesIn(g, L, k)
  {
  }

  lemma {:induction false} FirstIds(sep: Separator, z: Body)
    ensures SameIds(FirstBody(SeparatorBody(sep) + z, sep.Separator?), z)
  {
  }

  lemma {:induction false} NextIds(b: Body, list: SymbolRef)
    ensures SameIds(NextBody(b, list), [list] + b)
  {
  }

  /** The rules of a list: one for an element, one for the list again, the separator and an element. */
  lemma {:induction false} FromListRules(bodies: seq<Body>, sep: Separator, list: SymbolRef, skips: Skips, r: Rule) returns (b: Body, again: bool)
    requires r in ListRules(bodies, sep, list, skips)
    ensures b in bodies && r.symbols == if again then NextBody(b, list) else FirstBody(b, sep.Separator?)
  {
    var first, next := MakeRules(FirstBodies(bodies, sep.Separator?), ListEntry, skips),
                       MakeRules(NextBodies(bodies, list), ListIterate, skips);
    again := r !in first;
    var i :| 0 <= i < |bodies| && (if again then next else first)[i] == r;
    b := bodies[i];
  }

  lemma {:induction false} InListRules(bodies: seq<Body>, sep: Separator, list: SymbolRef, skips: Skips, b: Body, again: bool) returns (r: Rule)
    requires b in bodies
    ensures r in ListRules(bodies, sep, list, skips)
    ensures r.symbols == if again then NextBody(b, list) else FirstBody(b, sep.Separator?)
  {
    var i :| 0 <= i < |bodies| && bodies[i] == b;
    r := ListRules(bodies, sep, list, skips)[if again then |bodies| + i else i];
  }

  /** How the body of a list rule is used. */
  lemma {:induction false} ListBodyUsed(g: Grammar, sep: Separator, list: SymbolRef, z: Body, b: Body, again: bool, w: Word, h: nat)
    returns (u: Word, v: Word, x: Word)
    requires b == SeparatorBody(sep) + z
    requires DerivesIn(g, if again then NextBody(b, list) else FirstBody(b, sep.Separator?), w, h)
    ensures DerivesIn(g, z, x, h)
    ensures if again then w == u + v + x && SymDerivesIn(g, list.id, u, h) && DerivesIn(g, SeparatorBody(sep), v, h)
            else w == x
  {
    if again {
      NextIds(b, list);
      SameIdsIn(g, NextBody(b, list), [list] + b, w, h);
      var rest;
      u, rest := SplitIn(g, [list], b, w, h);
      SingleIn(g, list, u, h);
      v, x := SplitIn(g, SeparatorBody(sep), z, rest, h);
      Assoc(u, v, x);
    } else {
      u, v, x := [], [], w;
      FirstIds(sep, z);
      SameIdsIn(g, FirstBody(b, sep.Separator?), z, w, h);
    }
  }

  lemma {:induction false} SeparatorWords(g: Grammar, L: Language, sep: Separator, v: Word, h: nat)
    requires DerivesIn(g, SeparatorBody(sep), v, h) && LeavesIn(g, L, h)
    ensures match sep case NoSeparator => v == [] case Separator(s) => L(s, v)
  {
    match sep
    case NoSeparator =>
    case Separator(s) => SingleIn(g, SymbolRef(s, "", 0), v, h);
  }

  lemma {:induction false} OneElement(L: Language, e: Atom, sep: Separator, w: Word)
    ensures ListMatches(L, e, sep, w, 1) <==> ElementMatches(L, e, w)
  {
  }

  lemma {:induction false} OneMore(L: Language, e: Atom, sep: Separator, w: Word, u: Word, v: Word, x: Word, n: nat)
    requires w == u + v + x
    requires n >= 1 && ListMatches(L, e, sep, u, n) && ElementMatches(L, e, x)
    requires match sep case NoSeparator => v == [] case Separator(s) => L(s, v)
    ensures ListMatches(L, e, sep, w, n + 1)
  {
    var i, j := |u|, |u| + |v|;
    assert w[..i] == u && w[i..j] == v && w[j..] == x;
  }

  function RulesOfList(p: nat, skips: Skips, e: Atom, sep: Separator, list: SymbolRef, subs: seq<SubNonTerminal>): seq<Rule> {
    ListRules(Bodies(p, skips, PlaceFrom(0, ListItems(e, sep)), subs).bodies, sep, list, skips)
  }

  function SubsOfElement(p: nat, skips: Skips, e: Atom, sep: Separator, subs: seq<SubNonTerminal>): seq<SubNonTerminal> {
    ItemBodies(p, skips, Element(e, sep), subs).subs
  }

  /** `list` has in `g` the rules of a list of `e`. */
  ghost predicate IsList(g: Grammar, p: nat, skips: Skips, e: Atom, sep: Separator, list: SymbolRef, subs: seq<SubNonTerminal>) {
    && Includes(g, p, SubsOfElement(p, skips, e, sep, subs))
    && list.id in g && g[list.id] in {RulesOfList(p, skips, e, sep, list, subs)}
  }

  lemma {:induction false} ListOfAtom(g: Grammar, p: nat, skips: Skips, a: Atom, annotation: string, subs: seq<SubNonTerminal>) returns (list: SymbolRef)
    requires a.ListOf? && Includes(g, p, AtomSymbol(p, skips, a, annotation, subs).1)
    ensures list.id == AtomSymbol(p, skips, a, annotation, subs).0 && IsList(g, p, skips, a.element, a.separator, list, subs)
  {
    ListItemsDepth(a.element, a.separator);
    var m := Bodies(p, skips, PlaceFrom(0, ListItems(a.element, a.separator)), subs);
    var id := Sub(p, |m.subs|, Parser);
    list := SymbolRef(id.AsSym(), annotation, 0);
    LastSub(g, p, m.subs, SubNonTerminal(id, ListKind, ListRules(m.bodies, a.separator, list, skips)));
    ListBodies(p, skips, a.element, a.separator, subs);
  }

  lemma {:induction false} ListStep(
    g: Grammar, p: nat, skips: Skips, e: Atom, sep: Separator, list: SymbolRef, subs: seq<SubNonTerminal>, w: Word, h: nat)
    returns (again: bool, u: Word, v: Word, x: Word, z: Body)
    requires IsList(g, p, skips, e, sep, list, subs) && SymDerivesIn(g, list.id, w, h)
    ensures h > 0 && z in ItemBodies(p, skips, Element(e, sep), subs).bodies && DerivesIn(g, z, x, h - 1)
    ensures if again
            then w == u + v + x && SymDerivesIn(g, list.id, u, h - 1) && DerivesIn(g, SeparatorBody(sep), v, h - 1)
            else w == x
  {
    var r := RuleUsed(g, list.id, w, h);
    var b;
    b, again, z := FromRulesOfList(p, skips, e, sep, list, subs, r);
    u, v, x := ListBodyUsed(g, sep, list, z, b, again, w, h - 1);
  }

  lemma {:induction false} FromRulesOfList(p: nat, skips: Skips, e: Atom, sep: Separator, list: SymbolRef, subs: seq<SubNonTerminal>,
                                           r: Rule) returns (b: Body, again: bool, z: Body)
    requires r in RulesOfList(p, skips, e, sep, list, subs)
    ensures r.symbols == if again then NextBody(b, list) else FirstBody(b, sep.Separator?)
    ensures z in ItemBodies(p, skips, Element(e, sep), subs).bodies && b == SeparatorBody(sep) + z
  {
    b, again := FromListRules(Bodies(p, skips, PlaceFrom(0, ListItems(e, sep)), subs).bodies, sep, list, skips, r);
    z := FromListBodies(p, skips, e, sep, subs, b);
  }

  lemma {:induction false} ElementWord(L: Language, e: Atom, sep: Separator, x: Word, chosen: bool)
    requires ItemMatches(L, Element(e, sep).item, x, chosen)
    ensures ElementMatches(L, e, x) && ListMatches(L, e, sep, x, 1)
  {
    OneElement(L, e, sep, x);
  }

  lemma {:induction false} ElementSound(
    g: Grammar, p: nat, skips: Skips, L: Language, e: Atom, sep: Separator, list: SymbolRef, subs: seq<SubNonTerminal>,
    z: Body, x: Word, h: nat)
    requires WellNumbered(p, subs) && IsList(g, p, skips, e, sep, list, subs)
    requires z in ItemBodies(p, skips, Element(e, sep), subs).bodies && DerivesIn(g, z, x, h) && LeavesIn(g, L, h)
    ensures ElementMatches(L, e, x) && ListMatches(L, e, sep, x, 1)
    decreases AtomDepth(e), 3, 0
  {
    ItemSound(g, p, skips, L, Element(e, sep), subs, z, x, h);
    ElementWord(L, e, sep, x, z != []);
  }

  lemma {:induction false} ListSound(
    g: Grammar, p: nat, skips: Skips, L: Language, e: Atom, sep: Separator, list: SymbolRef, subs: seq<SubNonTerminal>,
    w: Word, h: nat)
    requires WellNumbered(p, subs) && IsList(g, p, skips, e, sep, list, subs)
    requires SymDerivesIn(g, list.id, w, h) && LeavesIn(g, L, h)
    ensures exists n :: n >= 1 && ListMatches(L, e, sep, w, n)
    decreases AtomDepth(e) + 1, 0, h
  {
    var again, u, v, x, z := ListStep(g, p, skips, e, sep, list, subs, w, h);
    LeavesLower(g, L, h, h - 1);
    ElementSound(g, p, skips, L, e, sep, list, subs, z, x, h - 1);
    if again {
      ListSound(g, p, skips, L, e, sep, list, subs, u, h - 1);
      var k :| k >= 1 && ListMatches(L, e, sep, u, k);
      SeparatorWords(g, L, sep, v, h - 1);
      OneMore(L, e, sep, w, u, v, x, k);
      assert ListMatches(L, e, sep, w, k + 1);
    } else {
      assert ListMatches(L, e, sep, w, 1);
    }
  }

  // ----- what the rule means, the bodies derive -----

  lemma {:induction false} BodiesComplete(
    g: Grammar, p: nat, skips: Skips, L: Language, items: seq<Placed>, subs: seq<SubNonTerminal>, w: Word, chosen: bool)
    returns (b: Body)
    requires WellNumbered(p, subs) && Includes(g, p, Bodies(p, skips, items, subs).subs) && LeavesOf(g, L)
    requires ItemsMatch(L, Items(items), w, chosen)
    ensures b in Bodies(p, skips, items, subs).bodies && Derives(g, b, w) && (b != [] <==> chosen)
    decreases ItemsDepth(Items(items)), 3, |items|
  {
    if items == [] {
      Nothing(g);
      return [];
    }
    InitDepth(items);
    var m := Bodies(p, skips, Init(items), subs);
    BodiesGrow(p, skips, Init(items), subs);
    ItemGrow(p, skips, Last(items), m.subs);
    var e := ItemBodies(p, skips, Last(items), m.subs);
    IncludesPrefix(g, p, m.subs, e.subs);
    var k, c, d :| 0 <= k <= |w| && chosen == (c || d) && MatchAt(L, Items(items), w, k, c, d);
    var x := BodiesComplete(g, p, skips, L, Init(items), subs, w[..k], c);
    var y := ItemComplete(g, p, skips, L, Last(items), m.subs, w[k..], d);
    b := CrossDerives(g, m.bodies, e.bodies, x, y, w, k);
  }

  lemma {:induction false} CrossDerives(g: Grammar, bodies: seq<Body>, extensions: seq<Body>, x: Body, y: Body, w: Word, k: nat)
    returns (b: Body)
    requires x in bodies && y in extensions && k <= |w| && Derives(g, x, w[..k]) && Derives(g, y, w[k..])
    ensures b in Cross(bodies, extensions) && Derives(g, b, w) && (b != [] <==> x != [] || y != [])
  {
    InCross(bodies, extensions, x, y);
    Concat(g, x, y, w[..k], w[k..]);
    assert w[..k] + w[k..] == w;
    b := x + y;
  }

  lemma {:induction false} ItemComplete(
    g: Grammar, p: nat, skips: Skips, L: Language, placed: Placed, subs: seq<SubNonTerminal>, w: Word, chosen: bool)
    returns (b: Body)
    requires WellNumbered(p, subs) && Includes(g, p, ItemBodies(p, skips, placed, subs).subs) && LeavesOf(g, L)
    requires ItemMatches(L, placed.item, w, chosen)
    ensures b in ItemBodies(p, skips, placed, subs).bodies && Derives(g, b, w) && (b != [] <==> chosen)
    decreases ItemDepth(placed.item), 2, 0
  {
    match placed.item
    case One(a, isOptional, annotation) =>
      if chosen {
        AtomComplete(g, p, skips, L, a, annotation, subs, w);
        b := [SymbolRef(AtomSymbol(p, skips, a, annotation, subs).0, annotation, placed.index)];
        Single(g, b[0], w);
      } else {
        Nothing(g);
        b := [];
      }
    case SetOf(ms, unordered, allowEmpty) =>
      OrdersAllInRange(|ms|, unordered);
      var members, orders := PlaceFrom(placed.index, ms), Orders(|ms|, unordered);
      var order :| IsOrder(order, |ms|, unordered) && OrderMatches(L, ms, order, w, chosen);
      OrdersInRange(|ms|, unordered, order);
      b := OrdersComplete(g, p, skips, L, members, orders, subs, order, w, chosen);
      KeepExactly(OrderBodies(p, skips, members, orders, subs).bodies, allowEmpty, b);
  }

  lemma {:induction false} OrdersComplete(
    g: Grammar, p: nat, skips: Skips, L: Language, members: seq<Placed>, orders: seq<seq<nat>>, subs: seq<SubNonTerminal>,
    order: seq<nat>, w: Word, chosen: bool) returns (b: Body)
    requires WellNumbered(p, subs) && AllInRange(orders, |members|) && order in orders
    requires Includes(g, p, OrderBodies(p, skips, members, orders, subs).subs) && LeavesOf(g, L)
    requires OrderMatches(L, Items(members), order, w, chosen)
    ensures b in OrderBodies(p, skips, members, orders, subs).bodies && Derives(g, b, w) && (b != [] <==> chosen)
    decreases ItemsDepth(Items(members)), 4, |orders|
  {
    SplitLast(orders);
    var m := OrderBodies(p, skips, members, Init(orders), subs);
    OrdersGrow(p, skips, members, Init(orders), subs);
    PickPlacedDepth(members, Last(orders));
    var picked := PickPlaced(members, Last(orders));
    BodiesGrow(p, skips, picked, m.subs);
    var e := Bodies(p, skips, picked, m.subs);
    IncludesPrefix(g, p, m.subs, e.subs);
    if order in Init(orders) {
      b := OrdersComplete(g, p, skips, L, members, Init(orders), subs, order, w, chosen);
    } else {
      b := BodiesComplete(g, p, skips, L, picked, m.subs, w, chosen);
    }
  }

  lemma {:induction false} AtomComplete(
    g: Grammar, p: nat, skips: Skips, L: Language, a: Atom, annotation: string, subs: seq<SubNonTerminal>, w: Word)
    requires WellNumbered(p, subs) && Includes(g, p, AtomSymbol(p, skips, a, annotation, subs).1) && LeavesOf(g, L)
    requires AtomMatches(L, a, w)
    ensures SymDerives(g, AtomSymbol(p, skips, a, annotation, subs).0, w)
    decreases AtomDepth(a), 1, 0
  {
    match a
    case Leaf(s) =>
    case Group(alts) =>
      var r := AltRules(p, skips, alts, subs);
      AltsGrow(p, skips, alts, subs);
      LastSub(g, p, r.1, SubNonTerminal(Sub(p, |r.1|, Parser), GroupKind, r.0));
      var i :| 0 <= i < |alts| && AltMatches(L, alts, i, w);
      var chosen :| ItemsMatch(L, alts[i].items, w, chosen);
      var rule := AltsComplete(g, p, skips, L, alts, subs, i, w, chosen);
      ByRule(g, NonTerminal(Sub(p, |r.1|, Parser)), rule, w);
    case ListOf(e, sep, _) =>
      var list := ListOfAtom(g, p, skips, a, annotation, subs);
      var n :| n >= 1 && ListMatches(L, e, sep, w, n);
      ListComplete(g, p, skips, L, e, sep, list, subs, w, n);
  }

  lemma {:induction false} AltsComplete(
    g: Grammar, p: nat, skips: Skips, L: Language, alts: seq<Alternative>, subs: seq<SubNonTerminal>, i: nat, w: Word, chosen: bool)
    returns (r: Rule)
    requires WellNumbered(p, subs) && Includes(g, p, AltRules(p, skips, alts, subs).1) && LeavesOf(g, L)
    requires i < |alts| && ItemsMatch(L, alts[i].items, w, chosen)
    ensures r in AltRules(p, skips, alts, subs).0 && Derives(g, r.symbols, w) && (r.symbols != [] <==> chosen)
    decreases AltsDepth(alts), 4, |alts|
  {
    var r0 := AltRules(p, skips, Init(alts), subs);
    var items := PlaceFrom(0, Last(alts).items);
    AltsGrow(p, skips, Init(alts), subs);
    BodiesGrow(p, skips, items, r0.1);
    var m := Bodies(p, skips, items, r0.1);
    IncludesPrefix(g, p, r0.1, m.subs);
    if i < |alts| - 1 {
      r := AltsComplete(g, p, skips, L, Init(alts), subs, i, w, chosen);
    } else {
      var b := BodiesComplete(g, p, skips, L, items, r0.1, w, chosen);
      var j :| 0 <= j < |m.bodies| && m.bodies[j] == b;
      r := MakeRules(m.bodies, Last(alts).ast, skips)[j];
    }
  }

  lemma {:induction false} SeparatorDerives(g: Grammar, L: Language, sep: Separator, v: Word)
    requires LeavesOf(g, L) && match sep case NoSeparator => v == [] case Separator(s) => L(s, v)
    ensures Derives(g, SeparatorBody(sep), v)
  {
    match sep
    case NoSeparator => Nothing(g);
    case Separator(s) => Single(g, SymbolRef(s, "", 0), v);
  }

  lemma {:induction false} ListElementDerives(
    g: Grammar, p: nat, skips: Skips, e: Atom, sep: Separator, list: SymbolRef, subs: seq<SubNonTerminal>, z: Body, w: Word)
    requires IsList(g, p, skips, e, sep, list, subs)
    requires z in ItemBodies(p, skips, Element(e, sep), subs).bodies && Derives(g, z, w)
    ensures SymDerives(g, list.id, w)
  {
    var bodies := Bodies(p, skips, PlaceFrom(0, ListItems(e, sep)), subs).bodies;
    InListBodies(p, skips, e, sep, subs, z);
    var r := InListRules(bodies, sep, list, skips, SeparatorBody(sep) + z, false);
    FirstIds(sep, z);
    SameIdsDerive(g, r.symbols, z, w);
    ByRule(g, list.id, r, w);
  }

  lemma {:induction false} ListAgainDerives(
    g: Grammar, p: nat, skips: Skips, e: Atom, sep: Separator, list: SymbolRef, subs: seq<SubNonTerminal>, z: Body,
    u: Word, v: Word, x: Word)
    requires IsList(g, p, skips, e, sep, list, subs)
    requires z in ItemBodies(p, skips, Element(e, sep), subs).bodies && Derives(g, z, x)
    requires SymDerives(g, list.id, u) && Derives(g, SeparatorBody(sep), v)
    ensures SymDerives(g, list.id, u + v + x)
  {
    var bodies := Bodies(p, skips, PlaceFrom(0, ListItems(e, sep)), subs).bodies;
    InListBodies(p, skips, e, sep, subs, z);
    var b := SeparatorBody(sep) + z;
    var r := InListRules(bodies, sep, list, skips, b, true);
    Single(g, list, u);
    Concat(g, SeparatorBody(sep), z, v, x);
    Concat(g, [list], b, u, v + x);
    Assoc(u, v, x);
    NextIds(b, list);
    SameIdsDerive(g, r.symbols, [list] + b, u + v + x);
    ByRule(g, list.id, r, u + v + x);
  }

  lemma {:induction false} LongerList(L: Language, e: Atom, sep: Separator, w: Word, n: nat) returns (u: Word, v: Word, x: Word)
    requires n > 1 && ListMatches(L, e, sep, w, n)
    ensures w == u + v + x && ListMatches(L, e, sep, u, n - 1) && ElementMatches(L, e, x)
    ensures match sep case NoSeparator => v == [] case Separator(s) => L(s, v)
  {
    var i, j :| 0 <= i <= j <= |w|
      && ListMatches(L, e, sep, w[..i], n - 1)
      && (match sep case NoSeparator => i == j case Separator(s) => L(s, w[i..j]))
      && ElementMatches(L, e, w[j..]);
    u, v, x := w[..i], w[i..j], w[j..];
  }

  lemma {:induction false} ListComplete(
    g: Grammar, p: nat, skips: Skips, L: Language, e: Atom, sep: Separator, list: SymbolRef, subs: seq<SubNonTerminal>,
    w: Word, n: nat)
    requires WellNumbered(p, subs) && IsList(g, p, skips, e, sep, list, subs) && LeavesOf(g, L)
    requires n >= 1 && ListMatches(L, e, sep, w, n)
    ensures SymDerives(g, list.id, w)
    decreases AtomDepth(e) + 1, 0, n
  {
    if n > 1 {
      var u, v, x := LongerList(L, e, sep, w, n);
      var z := ItemComplete(g, p, skips, L, Element(e, sep), subs, x, AtomMatches(L, e, x));
      ListComplete(g, p, skips, L, e, sep, list, subs, u, n - 1);
      SeparatorDerives(g, L, sep, v);
      ListAgainDerives(g, p, skips, e, sep, list, subs, z, u, v, x);
    } else {
      OneElement(L, e, sep, w);
      var z := ItemComplete(g, p, skips, L, Element(e, sep), subs, w, AtomMatches(L, e, w));
      ListElementDerives(g, p, skips, e, sep, list, subs, z, w);
    }
  }

  // ----- whole non-terminals and whole grammars -----

  /** The error is raised exactly when some alternative can be matched without using any symbol,
      whatever the named symbols derive. */
  lemma {:induction false} EmptyRuleExactly(d: Definition, g: Grammar, L: Language)
    requires Includes(g, d.p, AltRules(d.p, d.skips, d.alts, []).1) && LeavesOf(g, L) && LeavesIn(g, L, 0)
    ensures ProcessNonTerm(d).EmptyRule? <==> exists i :: 0 <= i < |d.alts| && ItemsMatch(L, d.alts[i].items, [], false)
  {
    var rules := AltRules(d.p, d.skips, d.alts, []).0;
    if r :| r in rules && r.symbols == [] {
      assert DerivesIn(g, r.symbols, [], 0);
      var i := AltsSound(g, d.p, d.skips, L, d.alts, [], r, [], 0);
    }
    if i :| 0 <= i < |d.alts| && ItemsMatch(L, d.alts[i].items, [], false) {
      var r := AltsComplete(g, d.p, d.skips, L, d.alts, [], i, [], false);
    }
  }

  /** A processed non-terminal is well numbered and refers to its own sub-non-terminals only. */
  lemma {:induction false} ProcessedNumbered(d: Definition)
    requires ProcessNonTerm(d).Ok?
    ensures var n := ProcessNonTerm(d).nterm; WellNumbered(d.p, n.subs) && RulesReferBelow(d.p, n.rules, |n.subs|)
  {
    AltsGrow(d.p, d.skips, d.alts, []);
  }

  /** The author's grammar: all definitions, a non-terminal being defined by one or by several. */
  type Source = seq<Definition>

  ghost predicate HasDefinition(src: Source, p: nat) {
    exists d :: d in src && d.p == p
  }

  /** The symbol stands for the definitions of its non-terminal: a reference always, a token reference when
      the words are those that the scanner reads. */
  ghost predicate Opens(src: Source, tokens: bool, s: SymbolId) {
    && IsReference(s) && s.id.Standard? && InItsForm(s) && HasDefinition(src, s.id.id)
    && (s.NonTerminalToken? ==> tokens)
  }

  ghost predicate SomeAlt(L: Language, alts: seq<Alternative>, w: Word) {
    exists i :: 0 <= i < |alts| && AltMatches(L, alts, i, w)
  }

  /** Some definition of `p` has an alternative that matches `w`. */
  ghost predicate SomeDefinition(src: Source, L: Language, p: nat, w: Word) {
    exists d :: d in src && d.p == p && SomeAlt(L, d.alts, w)
  }

  /** The author's own meaning of a symbol, with non-terminals opened at most `h` deep. */
  ghost predicate Means(src: Source, tokens: bool, s: SymbolId, w: Word, h: nat)
    decreases h
  {
    if Opens(src, tokens, s) then
      h > 0 && SomeDefinition(src, (x: SymbolId, u: Word) => Means(src, tokens, x, u, h - 1), s.id.id, w)
    else w == [s]
  }

  /** The rules and sub-non-terminals of `p` when all its definitions are processed one after the other,
      with one list of sub-non-terminals. */
  function RulesOf(src: Source, p: nat): (seq<Rule>, seq<SubNonTerminal>) {
    if src == [] then ([], [])
    else
      var (rules, subs) := RulesOf(Init(src), p);
      var d := Last(src);
      if d.p != p then (rules, subs)
      else
        var (more, subs') := AltRules(p, d.skips, d.alts, subs);
        (rules + more, subs')
  }

  lemma {:induction false} RulesOfGrow(src: Source, p: nat)
    ensures var (rules, subs) := RulesOf(src, p); WellNumbered(p, subs) && RulesReferBelow(p, rules, |subs|)
  {
    if src != [] {
      RulesOfGrow(Init(src), p);
      var (rules, subs) := RulesOf(Init(src), p);
      var d := Last(src);
      if d.p == p {
        AltsGrow(p, d.skips, d.alts, subs);
        RulesReferHigher(p, rules, |subs|, |AltRules(p, d.skips, d.alts, subs).1|);
      }
    }
  }

  lemma {:induction false} RulesOfPrefix(src: Source, p: nat)
    requires src != []
    ensures RulesOf(Init(src), p).1 <= RulesOf(src, p).1
    ensures Last(src).p == p ==> RulesOf(src, p).1 == AltRules(p, Last(src).skips, Last(src).alts, RulesOf(Init(src), p).1).1
  {
    RulesOfGrow(Init(src), p);
    AltsGrow(p, Last(src).skips, Last(src).alts, RulesOf(Init(src), p).1);
  }

  /** A rule that derives a word shows which definition and which alternative match it. */
  lemma {:induction false} RulesOfSound(g: Grammar, src: Source, p: nat, L: Language, r: Rule, w: Word, h: nat)
    requires Includes(g, p, RulesOf(src, p).1) && LeavesIn(g, L, h)
    requires r in RulesOf(src, p).0 && DerivesIn(g, r.symbols, w, h)
    ensures SomeDefinition(src, L, p, w)
  {
    RulesOfGrow(Init(src), p);
    RulesOfPrefix(src, p);
    SplitLast(src);
    var d, before := Last(src), RulesOf(Init(src), p);
    IncludesPrefix(g, p, before.1, RulesOf(src, p).1);
    if r in before.0 {
      RulesOfSound(g, Init(src), p, L, r, w, h);
      var e :| e in Init(src) && e.p == p && SomeAlt(L, e.alts, w);
      assert e in src;
    } else {
      var i := AltsSound(g, p, d.skips, L, d.alts, before.1, r, w, h);
      assert d in src && SomeAlt(L, d.alts, w);
    }
  }

  /** What an alternative of some definition matches, a rule derives. */
  lemma {:induction false} RulesOfComplete(g: Grammar, src: Source, p: nat, L: Language, d: Definition, w: Word) returns (r: Rule)
    requires Includes(g, p, RulesOf(src, p).1) && LeavesOf(g, L)
    requires d in src && d.p == p && SomeAlt(L, d.alts, w)
    ensures r in RulesOf(src, p).0 && Derives(g, r.symbols, w)
  {
    RulesOfGrow(Init(src), p);
    RulesOfPrefix(src, p);
    var before := RulesOf(Init(src), p);
    IncludesPrefix(g, p, before.1, RulesOf(src, p).1);
    if d in Init(src) {
      r := RulesOfComplete(g, Init(src), p, L, d, w);
    } else {
      var i :| 0 <= i < |d.alts| && AltMatches(L, d.alts, i, w);
      var chosen :| ItemsMatch(L, d.alts[i].items, w, chosen);
      r := AltsComplete(g, p, d.skips, L, d.alts, before.1, i, w, chosen);
    }
  }

  /** `g` has, for every non-terminal of the author's grammar, the rules and sub-non-terminals made. */
  ghost predicate IsDesugared(src: Source, tokens: bool, g: Grammar) {
    && (forall s :: Opens(src, tokens, s) ==> s in g && g[s] == RulesOf(src, s.id.id).0)
    && (forall s :: Opens(src, tokens, s) ==> Includes(g, s.id.id, RulesOf(src, s.id.id).1))
    && (forall s :: s in g && !IsSubSymbol(s) ==> Opens(src, tokens, s))
  }

  ghost predicate Meant(src: Source, tokens: bool, s: SymbolId, w: Word) {
    exists h: nat :: Means(src, tokens, s, w, h)
  }

  ghost function Meaning(src: Source, tokens: bool, h: nat): Language {
    (x: SymbolId, u: Word) => Means(src, tokens, x, u, h)
  }

  lemma {:induction false} MeantIsDerived(src: Source, tokens: bool, g: Grammar, s: SymbolId, w: Word, h: nat)
    requires IsDesugared(src, tokens, g) && !IsSubSymbol(s) && Means(src, tokens, s, w, h)
    ensures SymDerives(g, s, w)
    decreases h
  {
    if Opens(src, tokens, s) {
      var L := Meaning(src, tokens, h - 1);
      forall x, u | !IsSubSymbol(x) && L(x, u)
        ensures SymDerives(g, x, u)
      {
        MeantIsDerived(src, tokens, g, x, u, h - 1);
      }
      var d :| d in src && d.p == s.id.id && SomeAlt(L, d.alts, w);
      var r := RulesOfComplete(g, src, s.id.id, L, d, w);
      ByRule(g, s, r, w);
    } else {
      Terminal(g, s, w);
    }
  }

  lemma {:induction false} DerivedIsMeant(src: Source, tokens: bool, g: Grammar, s: SymbolId, w: Word, k: nat, h: nat)
    requires IsDesugared(src, tokens, g) && !IsSubSymbol(s) && SymDerivesIn(g, s, w, k) && k <= h
    ensures Means(src, tokens, s, w, h)
    decreases k
  {
    if s in g {
      assert Opens(src, tokens, s);
      var L := Meaning(src, tokens, h - 1);
      forall x, u, j: nat | j <= k - 1 && !IsSubSymbol(x) && SymDerivesIn(g, x, u, j)
        ensures L(x, u)
      {
        DerivedIsMeant(src, tokens, g, x, u, j, h - 1);
      }
      var r := RuleUsed(g, s, w, k);
      RulesOfSound(g, src, s.id.id, L, r, w, k - 1);
    }
  }

  /** Desugaring preserves the language of every named symbol of the author's grammar, read by the parser
      with token references as they stand, or by the scanner with them opened. */
  lemma {:induction false} DesugaringSameLanguage(src: Source, tokens: bool, g: Grammar, s: SymbolId, w: Word)
    requires IsDesugared(src, tokens, g) && !IsSubSymbol(s)
    ensures Meant(src, tokens, s, w) <==> SymDerives(g, s, w)
  {
    if h: nat :| Means(src, tokens, s, w, h) {
      MeantIsDerived(src, tokens, g, s, w, h);
    }
    if h: nat :| SymDerivesIn(g, s, w, h) {
      DerivedIsMeant(src, tokens, g, s, w, h, h);
      assert Means(src, tokens, s, w, h);
    }
  }
}
