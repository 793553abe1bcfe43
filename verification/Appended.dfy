/** A definition that is processed on its own and then renumbered past the sub-non-terminals of earlier
    definitions is the same as one processed after them: appending definitions of a non-terminal amounts to
    processing all of its alternatives in one go
    (crates/radlr-core/grammar/build_database.rs:33-79, crates/radlr-core/grammar/build_grammar.rs:383-415). */
module Appended {
  import opened Sequences
  import opened Permutations
  import opened Symbols
  import opened Ebnf
  import opened Desugar
  import opened DesugarLanguage
  import opened Renaming
  import opened Merge

  function ShiftBody(b: Body, offset: nat): Body { RenameBody(Shifting(offset), b) }

  function ShiftAll(bodies: seq<Body>, offset: nat): (r: seq<Body>)
    ensures |r| == |bodies| && forall i :: 0 <= i < |bodies| ==> r[i] == ShiftBody(bodies[i], offset)
  {
    seq(|bodies|, i requires 0 <= i < |bodies| => ShiftBody(bodies[i], offset))
  }

  /** The list `subs`, renumbered past the list `earlier` and appended to it. */
  function After(earlier: seq<SubNonTerminal>, subs: seq<SubNonTerminal>): seq<SubNonTerminal> {
    earlier + ShiftSubs(subs, |earlier|)
  }

  function MadeAfter(earlier: seq<SubNonTerminal>, m: Made): Made {
    Made(ShiftAll(m.bodies, |earlier|), After(earlier, m.subs))
  }

  // ----- shifting and the shape of bodies -----

  lemma {:induction false} ShiftConcat(a: Body, b: Body, k: nat)
    ensures ShiftBody(a + b, k) == ShiftBody(a, k) + ShiftBody(b, k)
  {
  }

  lemma {:induction false} ShiftAllConcat(a: seq<Body>, b: seq<Body>, k: nat)
    ensures ShiftAll(a + b, k) == ShiftAll(a, k) + ShiftAll(b, k)
  {
  }

  lemma {:induction false} ShiftRulesConcat(a: seq<Rule>, b: seq<Rule>, k: nat)
    ensures ShiftRules(a + b, k) == ShiftRules(a, k) + ShiftRules(b, k)
  {
  }

  lemma {:induction false} ShiftCross(a: seq<Body>, b: seq<Body>, k: nat)
    ensures Cross(ShiftAll(a, k), ShiftAll(b, k)) == ShiftAll(Cross(a, b), k)
  {
    if b != [] {
      ShiftCross(a, Init(b), k);
      assert Init(ShiftAll(b, k)) == ShiftAll(Init(b), k);
      ShiftExtend(a, Last(b), k);
      ShiftAllConcat(Cross(a, Init(b)), ExtendEach(a, Last(b)), k);
    }
  }

  lemma {:induction false} ShiftExtend(a: seq<Body>, x: Body, k: nat)
    ensures ExtendEach(ShiftAll(a, k), ShiftBody(x, k)) == ShiftAll(ExtendEach(a, x), k)
  {
    forall i | 0 <= i < |a|
      ensures ExtendEach(ShiftAll(a, k), ShiftBody(x, k))[i] == ShiftAll(ExtendEach(a, x), k)[i]
    {
      ShiftConcat(a[i], x, k);
    }
  }

  /** Different bodies stay different. */
  lemma {:induction false} ShiftInjective(a: Body, b: Body, k: nat)
    ensures ShiftBody(a, k) == ShiftBody(b, k) <==> a == b
  {
    if ShiftBody(a, k) == ShiftBody(b, k) {
      assert |a| == |ShiftBody(a, k)| == |b|;
      forall i | 0 <= i < |a|
        ensures a[i] == b[i]
      {
        assert ShiftBody(a, k)[i] == RenameRef(Shifting(k), a[i]) && ShiftBody(b, k)[i] == RenameRef(Shifting(k), b[i]);
      }
    }
  }

  lemma {:induction false} ShiftMembers(bodies: seq<Body>, x: Body, k: nat)
    ensures ShiftBody(x, k) in ShiftAll(bodies, k) <==> x in bodies
  {
    if ShiftBody(x, k) in ShiftAll(bodies, k) {
      var i :| 0 <= i < |bodies| && ShiftAll(bodies, k)[i] == ShiftBody(x, k);
      ShiftInjective(bodies[i], x, k);
    }
    if x in bodies {
      var i :| 0 <= i < |bodies| && bodies[i] == x;
      assert ShiftAll(bodies, k)[i] == ShiftBody(x, k);
    }
  }

  lemma {:induction false} ShiftKeep(pending: seq<Body>, allowEmpty: bool, k: nat)
    ensures Keep(ShiftAll(pending, k), allowEmpty) == ShiftAll(Keep(pending, allowEmpty), k)
  {
    if pending != [] {
      var kept, x := Keep(Init(pending), allowEmpty), Last(pending);
      ShiftKeep(Init(pending), allowEmpty, k);
      assert Init(ShiftAll(pending, k)) == ShiftAll(Init(pending), k);
      ShiftMembers(kept, x, k);
      assert ShiftBody(x, k) == [] <==> x == [];
      ShiftAllConcat(kept, [x], k);
      assert ShiftAll([x], k) == [ShiftBody(x, k)];
    }
  }

  lemma {:induction false} ShiftMakeRules(bodies: seq<Body>, ast: Ast, skips: Skips, k: nat)
    ensures MakeRules(ShiftAll(bodies, k), ast, skips) == ShiftRules(MakeRules(bodies, ast, skips), k)
  {
  }

  lemma {:induction false} ShiftFirst(b: Body, separated: bool, k: nat)
    ensures FirstBody(ShiftBody(b, k), separated) == ShiftBody(FirstBody(b, separated), k)
  {
    if separated && b != [] {
      assert ShiftBody(b, k)[1..] == ShiftBody(b[1..], k);
      assert Renumber(ShiftBody(b[1..], k)) == ShiftBody(Renumber(b[1..]), k);
    }
  }

  lemma {:induction false} ShiftNext(b: Body, list: SymbolRef, k: nat)
    ensures NextBody(ShiftBody(b, k), RenameRef(Shifting(k), list)) == ShiftBody(NextBody(b, list), k)
  {
    ShiftConcat([list], b, k);
    assert ShiftBody([list], k) == [RenameRef(Shifting(k), list)];
    assert Renumber(ShiftBody([list] + b, k)) == ShiftBody(Renumber([list] + b), k);
  }

  lemma {:induction false} ShiftListRules(bodies: seq<Body>, sep: Separator, list: SymbolRef, skips: Skips, k: nat)
    ensures ListRules(ShiftAll(bodies, k), sep, RenameRef(Shifting(k), list), skips)
         == ShiftRules(ListRules(bodies, sep, list, skips), k)
  {
    forall i | 0 <= i < |bodies|
      ensures FirstBodies(ShiftAll(bodies, k), sep.Separator?)[i] == ShiftAll(FirstBodies(bodies, sep.Separator?), k)[i]
      ensures NextBodies(ShiftAll(bodies, k), RenameRef(Shifting(k), list))[i] == ShiftAll(NextBodies(bodies, list), k)[i]
    {
      ShiftFirst(bodies[i], sep.Separator?, k);
      ShiftNext(bodies[i], list, k);
    }
    var first, next := FirstBodies(bodies, sep.Separator?), NextBodies(bodies, list);
    assert FirstBodies(ShiftAll(bodies, k), sep.Separator?) == ShiftAll(first, k);
    assert NextBodies(ShiftAll(bodies, k), RenameRef(Shifting(k), list)) == ShiftAll(next, k);
    ShiftMakeRules(first, ListEntry, skips, k);
    ShiftMakeRules(next, ListIterate, skips, k);
    ShiftRulesConcat(MakeRules(first, ListEntry, skips), MakeRules(next, ListIterate, skips), k);
  }

  lemma {:induction false} AfterNext(earlier: seq<SubNonTerminal>, subs: seq<SubNonTerminal>, p: nat, kind: SubKind,
    rules: seq<Rule>)
    ensures |After(earlier, subs)| == |earlier| + |subs|
    ensures After(earlier, subs) + [SubNonTerminal(Sub(p, |earlier| + |subs|, Parser), kind, ShiftRules(rules, |earlier|))]
         == After(earlier, subs + [SubNonTerminal(Sub(p, |subs|, Parser), kind, rules)])
  {
  }

  // ----- a definition behind others -----

  lemma {:induction false} BodiesAfter(p: nat, skips: Skips, items: seq<Placed>, earlier: seq<SubNonTerminal>,
    subs: seq<SubNonTerminal>)
    ensures Bodies(p, skips, items, After(earlier, subs)) == MadeAfter(earlier, Bodies(p, skips, items, subs))
    decreases ItemsDepth(Items(items)), 3, |items|
  {
    if items == [] {
      assert ShiftAll([[]], |earlier|) == [[]];
    } else {
      InitDepth(items);
      var m := Bodies(p, skips, Init(items), subs);
      BodiesAfter(p, skips, Init(items), earlier, subs);
      ItemAfter(p, skips, Last(items), earlier, m.subs);
      ShiftCross(m.bodies, ItemBodies(p, skips, Last(items), m.subs).bodies, |earlier|);
    }
  }

  lemma {:induction false} ItemAfter(p: nat, skips: Skips, placed: Placed, earlier: seq<SubNonTerminal>,
    subs: seq<SubNonTerminal>)
    ensures ItemBodies(p, skips, placed, After(earlier, subs)) == MadeAfter(earlier, ItemBodies(p, skips, placed, subs))
    decreases ItemDepth(placed.item), 2, 0
  {
    var k := |earlier|;
    match placed.item
    case One(a, isOptional, annotation) =>
      AtomAfter(p, skips, a, annotation, earlier, subs);
      var ref := SymbolRef(AtomSymbol(p, skips, a, annotation, subs).0, annotation, placed.index);
      assert ShiftBody([ref], k) == [RenameRef(Shifting(k), ref)];
      assert ShiftAll([[ref]], k) == [ShiftBody([ref], k)];
      assert ShiftAll([[ref], []], k) == [ShiftBody([ref], k), []];
    case SetOf(ms, unordered, allowEmpty) =>
      OrdersAllInRange(|ms|, unordered);
      var members, orders := PlaceFrom(placed.index, ms), Orders(|ms|, unordered);
      OrdersAfter(p, skips, members, orders, earlier, subs);
      ShiftKeep(OrderBodies(p, skips, members, orders, subs).bodies, allowEmpty, k);
  }

  lemma {:induction false} OrdersAfter(p: nat, skips: Skips, members: seq<Placed>, orders: seq<seq<nat>>,
    earlier: seq<SubNonTerminal>, subs: seq<SubNonTerminal>)
    requires AllInRange(orders, |members|)
    ensures OrderBodies(p, skips, members, orders, After(earlier, subs))
         == MadeAfter(earlier, OrderBodies(p, skips, members, orders, subs))
    decreases ItemsDepth(Items(members)), 4, |orders|
  {
    if orders != [] {
      var m := OrderBodies(p, skips, members, Init(orders), subs);
      OrdersAfter(p, skips, members, Init(orders), earlier, subs);
      PickPlacedDepth(members, Last(orders));
      var picked := PickPlaced(members, Last(orders));
      BodiesAfter(p, skips, picked, earlier, m.subs);
      ShiftAllConcat(m.bodies, Bodies(p, skips, picked, m.subs).bodies, |earlier|);
    }
  }

  lemma {:induction false} AtomAfter(p: nat, skips: Skips, a: Atom, annotation: string, earlier: seq<SubNonTerminal>,
    subs: seq<SubNonTerminal>)
    ensures var (id, made) := AtomSymbol(p, skips, a, annotation, subs);
            AtomSymbol(p, skips, a, annotation, After(earlier, subs)) == (Shift(|earlier|, id), After(earlier, made))
    decreases AtomDepth(a), 1, 0
  {
    match a
    case Leaf(s) =>
    case Group(alts) =>
      AltsAfter(p, skips, alts, earlier, subs);
      var r := AltRules(p, skips, alts, subs);
      AfterNext(earlier, r.1, p, GroupKind, r.0);
    case ListOf(e, sep, _) =>
      ListItemsDepth(e, sep);
      var items := PlaceFrom(0, ListItems(e, sep));
      BodiesAfter(p, skips, items, earlier, subs);
      var m := Bodies(p, skips, items, subs);
      var list := SymbolRef(Sub(p, |m.subs|, Parser).AsSym(), annotation, 0);
      ShiftListRules(m.bodies, sep, list, skips, |earlier|);
      AfterNext(earlier, m.subs, p, ListKind, ListRules(m.bodies, sep, list, skips));
  }

  /** The rules made behind other sub-non-terminals are the rules made alone, renumbered. */
  lemma {:induction false} AltsAfter(p: nat, skips: Skips, alts: seq<Alternative>, earlier: seq<SubNonTerminal>,
    subs: seq<SubNonTerminal>)
    ensures var (rules, made) := AltRules(p, skips, alts, subs);
            AltRules(p, skips, alts, After(earlier, subs)) == (ShiftRules(rules, |earlier|), After(earlier, made))
    decreases AltsDepth(alts), 4, |alts|
  {
    if alts != [] {
      var r := AltRules(p, skips, Init(alts), subs);
      AltsAfter(p, skips, Init(alts), earlier, subs);
      var items := PlaceFrom(0, Last(alts).items);
      BodiesAfter(p, skips, items, earlier, r.1);
      var m := Bodies(p, skips, items, r.1);
      ShiftMakeRules(m.bodies, Last(alts).ast, skips, |earlier|);
      ShiftRulesConcat(r.0, MakeRules(m.bodies, Last(alts).ast, skips), |earlier|);
    }
  }

  // ----- all definitions -----

  /** No definition was refused, and each became its non-terminal. */
  ghost predicate AllProcessed(src: Source, nterms: seq<NonTerm>) {
    |src| == |nterms| && forall i :: 0 <= i < |src| ==> ProcessNonTerm(src[i]) == Ok(nterms[i])
  }

  function TerminalsOf(src: Source, p: nat): set<SymbolId> {
    if src == [] then {}
    else TerminalsOf(Init(src), p) + if Last(src).p == p then AltsTerminals(Last(src).alts, Last(src).skips) else {}
  }

  /** The non-terminal made of all definitions of `p`. */
  function WholeNonTerm(src: Source, p: nat): NonTerm {
    var (rules, subs) := RulesOf(src, p);
    NonTerm(Standard(p, Parser), rules, subs, TerminalsOf(src, p))
  }

  lemma {:induction false} OneDefinition(d: Definition, n: NonTerm)
    requires ProcessNonTerm(d) == Ok(n)
    ensures n == NonTerm(Standard(d.p, Parser), AltRules(d.p, d.skips, d.alts, []).0, AltRules(d.p, d.skips, d.alts, []).1,
                         AltsTerminals(d.alts, d.skips))
  {
  }

  lemma {:induction false} NoneDefined(src: Source, p: nat)
    requires !HasDefinition(src, p)
    ensures RulesOf(src, p) == ([], []) && TerminalsOf(src, p) == {}
  {
    if src != [] {
      assert Last(src) in src;
      NoneDefined(Init(src), p);
    }
  }

  /** Merging one more definition is processing it behind those that are merged. */
  lemma {:induction false} MergeOneMore(src: Source, d: Definition, n: NonTerm)
    requires ProcessNonTerm(d) == Ok(n)
    ensures Init(src + [d]) == src && Last(src + [d]) == d
    ensures MergeTwo(WholeNonTerm(src, d.p), n) == WholeNonTerm(src + [d], d.p)
  {
    OneDefinition(d, n);
    var earlier := RulesOf(src, d.p).1;
    assert Init(src + [d]) == src;
    AltsAfter(d.p, d.skips, d.alts, earlier, []);
    assert After(earlier, []) == earlier;
  }

  lemma {:induction false} OneMoreDefined(src: Source, p: nat)
    requires src != []
    ensures HasDefinition(src, p) <==> HasDefinition(Init(src), p) || Last(src).p == p
  {
    SplitLast(src);
    if Last(src).p == p {
      assert Last(src) in src;
    }
  }

  /** Merging the separately processed definitions gives, for every non-terminal, what processing its
      definitions in one go gives: nothing is captured, lost or numbered otherwise. */
  lemma {:induction false} MergedIsWhole(src: Source, nterms: seq<NonTerm>)
    requires AllProcessed(src, nterms)
    ensures forall id :: id in MergeAll(nterms) <==> id == Standard(id.id, Parser) && HasDefinition(src, id.id)
    ensures forall id :: id in MergeAll(nterms) ==> MergeAll(nterms)[id] == WholeNonTerm(src, id.id)
  {
    if src != [] {
      var init, d, n := Init(src), Last(src), Last(nterms);
      MergedIsWhole(init, Init(nterms));
      assert ProcessNonTerm(d) == Ok(n);
      var m := MergeAll(Init(nterms));
      EntryIsWhole(src, n, m);
      forall id
        ensures id in MergeAll(nterms) <==> id == Standard(id.id, Parser) && HasDefinition(src, id.id)
        ensures id in MergeAll(nterms) ==> MergeAll(nterms)[id] == WholeNonTerm(src, id.id)
      {
        OneMoreDefined(src, id.id);
        assert id != n.id ==> WholeNonTerm(src, id.id) == WholeNonTerm(init, id.id) || id.id == d.p;
      }
    }
  }

  /** The entry that the last definition leaves behind. */
  lemma {:induction false} EntryIsWhole(src: Source, n: NonTerm, m: map<NonTermId, NonTerm>)
    requires src != [] && ProcessNonTerm(Last(src)) == Ok(n)
    requires Standard(Last(src).p, Parser) in m <==> HasDefinition(Init(src), Last(src).p)
    requires Standard(Last(src).p, Parser) in m ==> m[Standard(Last(src).p, Parser)] == WholeNonTerm(Init(src), Last(src).p)
    ensures n.id == Standard(Last(src).p, Parser)
    ensures (if n.id in m then MergeTwo(m[n.id], n) else n) == WholeNonTerm(src, Last(src).p)
  {
    var init, d := Init(src), Last(src);
    SplitLast(src);
    OneDefinition(d, n);
    MergeOneMore(init, d, n);
    if n.id !in m {
      NoneDefined(init, d.p);
      MergeIntoNothing(n, d.p, WholeNonTerm(init, d.p));
    }
  }

  lemma {:induction false} MergeIntoNothing(n: NonTerm, p: nat, none: NonTerm)
    requires n.id == Standard(p, Parser) && none == NonTerm(Standard(p, Parser), [], [], {})
    ensures MergeTwo(none, n) == n
  {
    ShiftByNothing(n.rules);
    forall k | 0 <= k < |n.subs|
      ensures ShiftSubs(n.subs, 0)[k] == n.subs[k]
    {
      ShiftByNothing(n.subs[k].rules);
    }
    assert ShiftSubs(n.subs, 0) == n.subs;
  }

  lemma {:induction false} ShiftByNothing(rules: seq<Rule>)
    ensures ShiftRules(rules, 0) == rules
  {
    forall i | 0 <= i < |rules|
      ensures ShiftRules(rules, 0)[i] == rules[i]
    {
      assert RenameBody(Shifting(0), rules[i].symbols) == rules[i].symbols;
    }
  }
}
