/** From the author's definitions to the environment that the grammar database is built from: what
    desugaring and merging deliver is what the worklists need
    (crates/radlr-core/grammar/build_grammar.rs:383-945, crates/radlr-core/grammar/build_database.rs:33-79). */
module AuthorGrammar {
  import opened Sequences
  import opened Permutations
  import opened Symbols
  import opened Ebnf
  import opened Numbering
  import opened Desugar
  import opened DesugarLanguage
  import opened Appended
  import opened ParserWorklist
  import opened ParserClosure
  import Merge

  // ----- the symbols of the rules made -----

  /** The symbol is written in its form, and is one of `ts` if it is a terminal. */
  ghost predicate Carries(ts: set<SymbolId>, s: SymbolId) {
    InItsForm(s) && (IsTerminal(s) ==> s in ts)
  }

  ghost predicate BodyCarries(ts: set<SymbolId>, b: Body) {
    forall i :: 0 <= i < |b| ==> Carries(ts, b[i].id)
  }

  ghost predicate BodiesCarry(ts: set<SymbolId>, bodies: seq<Body>) {
    forall b :: b in bodies ==> BodyCarries(ts, b)
  }

  ghost predicate SkipsCarry(ts: set<SymbolId>, skips: seq<SymbolId>) {
    forall s :: s in skips ==> Carries(ts, s) && !IsSubSymbol(s)
  }

  ghost predicate RulesCarry(ts: set<SymbolId>, rules: seq<Rule>) {
    forall r :: r in rules ==> BodyCarries(ts, r.symbols) && SkipsCarry(ts, r.skipped)
  }

  ghost predicate SubsCarry(ts: set<SymbolId>, subs: seq<SubNonTerminal>) {
    forall k :: 0 <= k < |subs| ==> RulesCarry(ts, subs[k].rules)
  }

  ghost predicate MadeCarries(ts: set<SymbolId>, m: Made) { BodiesCarry(ts, m.bodies) && SubsCarry(ts, m.subs) }

  lemma {:induction false} CrossCarries(ts: set<SymbolId>, a: seq<Body>, b: seq<Body>)
    requires BodiesCarry(ts, a) && BodiesCarry(ts, b)
    ensures BodiesCarry(ts, Cross(a, b))
  {
    forall x | x in Cross(a, b)
      ensures BodyCarries(ts, x)
    {
      var u, v := FromCross(a, b, x);
    }
  }

  lemma {:induction false} MadeRulesCarry(ts: set<SymbolId>, bodies: seq<Body>, ast: Ast, skips: Skips)
    requires BodiesCarry(ts, bodies) && SkipTerminals(skips) <= ts
    ensures RulesCarry(ts, MakeRules(bodies, ast, skips))
  {
    var rules := MakeRules(bodies, ast, skips);
    forall r | r in rules
      ensures BodyCarries(ts, r.symbols) && SkipsCarry(ts, r.skipped)
    {
      var i :| 0 <= i < |bodies| && rules[i] == r;
      assert bodies[i] in bodies;
    }
  }

  lemma {:induction false} ListRulesCarry(ts: set<SymbolId>, bodies: seq<Body>, sep: Separator, list: SymbolRef, skips: Skips)
    requires BodiesCarry(ts, bodies) && SkipTerminals(skips) <= ts && Carries(ts, list.id)
    ensures RulesCarry(ts, ListRules(bodies, sep, list, skips))
  {
    var first, next := FirstBodies(bodies, sep.Separator?), NextBodies(bodies, list);
    forall i | 0 <= i < |bodies|
      ensures BodyCarries(ts, first[i]) && BodyCarries(ts, next[i])
    {
      assert bodies[i] in bodies;
      NextCarries(ts, bodies[i], list);
    }
    MadeRulesCarry(ts, first, ListEntry, skips);
    MadeRulesCarry(ts, next, ListIterate, skips);
  }

  lemma {:induction false} NextCarries(ts: set<SymbolId>, b: Body, list: SymbolRef)
    requires BodyCarries(ts, b) && Carries(ts, list.id)
    ensures BodyCarries(ts, NextBody(b, list)) && BodyCarries(ts, FirstBody(b, true)) && BodyCarries(ts, FirstBody(b, false))
  {
    var next := NextBody(b, list);
    forall i | 0 <= i < |next|
      ensures Carries(ts, next[i].id)
    {
      assert next[i].id == ([list] + b)[i].id;
    }
  }

  lemma {:induction false} BodiesAllCarry(ts: set<SymbolId>, p: nat, skips: Skips, items: seq<Placed>, subs: seq<SubNonTerminal>)
    requires ItemsTerminals(Items(items), skips) <= ts && SkipTerminals(skips) <= ts && SubsCarry(ts, subs)
    ensures MadeCarries(ts, Bodies(p, skips, items, subs))
    decreases ItemsDepth(Items(items)), 3, |items|
  {
    if items != [] {
      InitDepth(items);
      BodiesAllCarry(ts, p, skips, Init(items), subs);
      var m := Bodies(p, skips, Init(items), subs);
      ItemCarries(ts, p, skips, Last(items), m.subs);
      CrossCarries(ts, m.bodies, ItemBodies(p, skips, Last(items), m.subs).bodies);
    }
  }

  lemma {:induction false} ItemCarries(ts: set<SymbolId>, p: nat, skips: Skips, placed: Placed, subs: seq<SubNonTerminal>)
    requires ItemTerminals(placed.item, skips) <= ts && SkipTerminals(skips) <= ts && SubsCarry(ts, subs)
    ensures MadeCarries(ts, ItemBodies(p, skips, placed, subs))
    decreases ItemDepth(placed.item), 2, 0
  {
    match placed.item
    case One(a, isOptional, annotation) =>
      AtomCarries(ts, p, skips, a, annotation, subs);
    case SetOf(ms, unordered, allowEmpty) =>
      OrdersAllInRange(|ms|, unordered);
      var members, orders := PlaceFrom(placed.index, ms), Orders(|ms|, unordered);
      OrdersCarry(ts, p, skips, members, orders, subs);
      var pending := OrderBodies(p, skips, members, orders, subs).bodies;
      forall b | b in Keep(pending, allowEmpty)
        ensures BodyCarries(ts, b)
      {
        KeepExactly(pending, allowEmpty, b);
      }
  }

  lemma {:induction false} PickedTerminals(members: seq<Placed>, order: seq<nat>, skips: Skips)
    requires forall i :: 0 <= i < |order| ==> order[i] < |members|
    ensures ItemsTerminals(Items(PickPlaced(members, order)), skips) <= ItemsTerminals(Items(members), skips)
  {
    var picked := PickPlaced(members, order);
    ItemsTerminalsExactly(Items(members), skips);
    ItemsTerminalsExactly(Items(picked), skips);
    forall x | x in ItemsTerminals(Items(picked), skips)
      ensures x in ItemsTerminals(Items(members), skips)
    {
      var i :| 0 <= i < |Items(picked)| && x in ItemTerminals(Items(picked)[i], skips);
      assert Items(picked)[i] == Items(members)[order[i]];
    }
  }

  lemma {:induction false} OrdersCarry(ts: set<SymbolId>, p: nat, skips: Skips, members: seq<Placed>, orders: seq<seq<nat>>,
    subs: seq<SubNonTerminal>)
    requires AllInRange(orders, |members|)
    requires ItemsTerminals(Items(members), skips) <= ts && SkipTerminals(skips) <= ts && SubsCarry(ts, subs)
    ensures MadeCarries(ts, OrderBodies(p, skips, members, orders, subs))
    decreases ItemsDepth(Items(members)), 4, |orders|
  {
    if orders != [] {
      OrdersCarry(ts, p, skips, members, Init(orders), subs);
      PickPlacedDepth(members, Last(orders));
      PickedTerminals(members, Last(orders), skips);
      BodiesAllCarry(ts, p, skips, PickPlaced(members, Last(orders)), OrderBodies(p, skips, members, Init(orders), subs).subs);
    }
  }

  lemma {:induction false} AtomCarries(ts: set<SymbolId>, p: nat, skips: Skips, a: Atom, annotation: string,
    subs: seq<SubNonTerminal>)
    requires AtomTerminals(a, skips) <= ts && SkipTerminals(skips) <= ts && SubsCarry(ts, subs)
    ensures var (id, made) := AtomSymbol(p, skips, a, annotation, subs); Carries(ts, id) && SubsCarry(ts, made)
    decreases AtomDepth(a), 1, 0
  {
    match a
    case Leaf(s) =>
    case Group(alts) =>
      AltsCarry(ts, p, skips, alts, subs);
    case ListOf(e, sep, _) =>
      ListItemsDepth(e, sep);
      ListTerminals(e, sep, skips);
      var items := PlaceFrom(0, ListItems(e, sep));
      BodiesAllCarry(ts, p, skips, items, subs);
      var m := Bodies(p, skips, items, subs);
      ListRulesCarry(ts, m.bodies, sep, SymbolRef(Sub(p, |m.subs|, Parser).AsSym(), annotation, 0), skips);
  }

  lemma {:induction false} AltsCarry(ts: set<SymbolId>, p: nat, skips: Skips, alts: seq<Alternative>, subs: seq<SubNonTerminal>)
    requires AltsTerminals(alts, skips) <= ts && SkipTerminals(skips) <= ts && SubsCarry(ts, subs)
    ensures var (rules, made) := AltRules(p, skips, alts, subs); RulesCarry(ts, rules) && SubsCarry(ts, made)
    decreases AltsDepth(alts), 4, |alts|
  {
    if alts != [] {
      AltsCarry(ts, p, skips, Init(alts), subs);
      var r := AltRules(p, skips, Init(alts), subs);
      var items := PlaceFrom(0, Last(alts).items);
      BodiesAllCarry(ts, p, skips, items, r.1);
      MadeRulesCarry(ts, Bodies(p, skips, items, r.1).bodies, Last(alts).ast, skips);
    }
  }

  // ----- whole non-terminals -----

  lemma {:induction false} WholeCarries(src: Source, p: nat, ts: set<SymbolId>)
    requires TerminalsOf(src, p) <= ts
    ensures RulesCarry(ts, RulesOf(src, p).0) && SubsCarry(ts, RulesOf(src, p).1)
  {
    if src != [] {
      WholeCarries(Init(src), p, ts);
      var d := Last(src);
      if d.p == p && d.alts != [] {
        AltsCarry(ts, p, d.skips, d.alts, RulesOf(Init(src), p).1);
      }
    }
  }

  /** What the rules mention, they carry. */
  lemma {:induction false} MentionedCarried(n: NonTerm, ts: set<SymbolId>)
    requires RulesCarry(ts, n.rules) && SubsCarry(ts, n.subs)
    ensures forall s :: s in Mentioned(n) ==> Carries(ts, s)
  {
    forall s | s in Mentioned(n)
      ensures Carries(ts, s)
    {
      if s in SymbolSet(n.rules) {
        var r := FromSymbols(n.rules, s);
      } else {
        AllMentioned(n.subs);
        var k := FromSubs(n.subs, s);
        var r := FromSymbols(n.subs[k].rules, s);
      }
    }
  }

  lemma {:induction false} TerminalsAreTerminals(src: Source, p: nat)
    ensures forall s :: s in TerminalsOf(src, p) ==> IsTerminal(s)
  {
    if src != [] {
      TerminalsAreTerminals(Init(src), p);
    }
  }

  /** What the definitions of a non-terminal become is fit for the worklists, as long as there are not more
      sub-non-terminals than the numbers set aside for them. */
  lemma {:induction false} WholeGood(src: Source, p: nat)
    requires |RulesOf(src, p).1| <= MAX_SUBS
    ensures GoodNonterm(Standard(p, Parser), WholeNonTerm(src, p))
  {
    var n := WholeNonTerm(src, p);
    RulesOfGrow(src, p);
    WholeCarries(src, p, TerminalsOf(src, p));
    MentionedCarried(n, TerminalsOf(src, p));
    TerminalsAreTerminals(src, p);
  }

  /** The environment holds the author's non-terminals, each made of all its definitions. */
  ghost predicate EnvOf(src: Source, env: Env) {
    && (forall id :: id in env.nonterminals <==> id == Standard(id.id, Parser) && HasDefinition(src, id.id))
    && (forall id :: id in env.nonterminals ==> env.nonterminals[id] == WholeNonTerm(src, id.id))
  }

  ghost predicate FewSubs(src: Source) {
    forall p :: HasDefinition(src, p) ==> |RulesOf(src, p).1| <= MAX_SUBS
  }

  ghost predicate CustomsNamed(customs: map<NonTermId, CustomState>) {
    forall id :: id in customs ==> id.Standard? && id.sub == Parser
  }

  /** Desugaring and merging deliver what the worklists rely on. */
  lemma {:induction false} EnvWellFormed(src: Source, env: Env)
    requires EnvOf(src, env) && FewSubs(src) && CustomsNamed(env.customs)
    ensures WellFormed(env)
  {
    forall id | id in env.nonterminals
      ensures GoodNonterm(id, env.nonterminals[id])
    {
      WholeGood(src, id.id);
    }
  }
}
