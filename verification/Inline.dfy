/** Inlining of anonymous groups: every reference to a group without semantic actions is replaced by
    the bodies of the group, as an ordered product over the symbols of a rule
    (crates/radlr-core/grammar/build_database.rs:625-708). */
module Inline {
  import opened Sequences
  import opened Symbols
  import opened Cfg
  import opened Numbering

  type Candidates = map<NonTermId, SubNonTerminal>

  predicate IsCandidate(sub: SubNonTerminal) {
    sub.kind.GroupKind? && forall r :: r in sub.rules ==> r.ast.NoAst?
  }

  /** The groups that can be inlined, by id. */
  function InlineCandidates(subs: seq<SubNonTerminal>): (c: Candidates)
    ensures forall id :: id in c ==> c[id] in subs && c[id].id == id && IsCandidate(c[id])
    ensures forall s :: s in subs && IsCandidate(s) ==> s.id in c
  {
    if subs == [] then map[]
    else
      SplitLast(subs);
      var c := InlineCandidates(Init(subs));
      if IsCandidate(Last(subs)) then c[Last(subs).id := Last(subs)] else c
  }

  /** References to inlined groups carry no name; a named reference keeps its non-terminal. */
  predicate Inlinable(c: Candidates, s: SymbolRef) {
    s.annotation == "" && s.id.NonTerminal? && s.id.id in c
  }

  predicate Below(c: Candidates, b: Body, n: nat) {
    forall i :: 0 <= i < |b| && Inlinable(c, b[i]) ==> b[i].id.id.Sub? && b[i].id.id.index < n
  }

  /** Groups refer to groups of smaller index only, so that inlining ends. */
  predicate Founded(c: Candidates) {
    forall id :: id in c ==> id.Sub? && forall r :: r in c[id].rules ==> Below(c, r.symbols, id.index)
  }

  const NO_INDEX := 9999

  /** The symbols of an inlined body lose their position, except that the last one takes the position
      of the reference that it replaces. */
  function Reindex(b: Body, index: nat): (r: Body)
    ensures SameIds(b, r)
    ensures forall i :: 0 <= i < |b| ==>
              r[i] == b[i].(originalIndex := if i == |b| - 1 then index else NO_INDEX)
  {
    seq(|b|, i requires 0 <= i < |b| =>
      b[i].(originalIndex := if i == |b| - 1 then index else NO_INDEX))
  }

  function ReindexAll(bs: seq<Body>, index: nat): (r: seq<Body>)
    ensures |r| == |bs| && forall i :: 0 <= i < |bs| ==> r[i] == Reindex(bs[i], index)
  {
    seq(|bs|, i requires 0 <= i < |bs| => Reindex(bs[i], index))
  }

  function AppendToAll(bs: seq<Body>, s: SymbolRef): (r: seq<Body>)
    ensures |r| == |bs| && forall i :: 0 <= i < |bs| ==> r[i] == bs[i] + [s]
  {
    seq(|bs|, i requires 0 <= i < |bs| => bs[i] + [s])
  }

  function Prefixed(o: Body, bs: seq<Body>): (r: seq<Body>)
    ensures |r| == |bs| && forall i :: 0 <= i < |bs| ==> r[i] == o + bs[i]
  {
    seq(|bs|, i requires 0 <= i < |bs| => o + bs[i])
  }

  /** Every body of `a` followed by every body of `b`, in order. */
  function Product(a: seq<Body>, b: seq<Body>): seq<Body> {
    if a == [] then [] else Product(Init(a), b) + Prefixed(Last(a), b)
  }

  /** One more than the largest index of a group that the body refers to. */
  ghost function Bound(c: Candidates, b: Body): nat
    requires Founded(c)
  {
    if b == [] then 0
    else
      var n := Bound(c, Init(b));
      if Inlinable(c, Last(b)) && n <= Last(b).id.id.index then Last(b).id.id.index + 1 else n
  }

  ghost function RulesBound(c: Candidates, rules: seq<Rule>): nat
    requires Founded(c)
  {
    if rules == [] then 0
    else
      var n, k := RulesBound(c, Init(rules)), Bound(c, Last(rules).symbols);
      if n <= k then k else n
  }

  lemma {:induction false} BoundLeast(c: Candidates, b: Body, m: nat)
    requires Founded(c) && Below(c, b, m)
    ensures Bound(c, b) <= m
  {
    if b != [] {
      assert Last(b) == b[|b| - 1];
      BoundLeast(c, Init(b), m);
    }
  }

  lemma {:induction false} RulesBoundLeast(c: Candidates, rules: seq<Rule>, m: nat)
    requires Founded(c) && forall r :: r in rules ==> Below(c, r.symbols, m)
    ensures RulesBound(c, rules) <= m
  {
    if rules != [] {
      assert Last(rules) in rules;
      BoundLeast(c, Last(rules).symbols, m);
      RulesBoundLeast(c, Init(rules), m);
    }
  }

  lemma {:induction false} BoundGroup(c: Candidates, b: Body)
    requires Founded(c) && b != [] && Inlinable(c, Last(b))
    ensures RulesBound(c, c[Last(b).id.id].rules) < Bound(c, b)
  {
    RulesBoundLeast(c, c[Last(b).id.id].rules, Last(b).id.id.index);
  }

  lemma {:induction false} RuleBound(c: Candidates, rules: seq<Rule>, r: Rule)
    requires Founded(c) && r in rules
    ensures Bound(c, r.symbols) <= RulesBound(c, rules)
  {
    SplitLast(rules);
    if r in Init(rules) {
      RuleBound(c, Init(rules), r);
    }
  }

  /** The bodies that a rule body expands to. */
  function Expand(c: Candidates, b: Body, isRoot: bool): seq<Body>
    requires Founded(c)
    decreases Bound(c, b), 0, |b|
  {
    if b == [] then [[]]
    else
      var rest := Expand(c, Init(b), isRoot);
      var s := Last(b);
      if Inlinable(c, s) then
        BoundGroup(c, b);
        var group := ExpandRules(c, c[s.id.id].rules);
        Product(rest, if isRoot then ReindexAll(group, s.originalIndex) else group)
      else AppendToAll(rest, s)
  }

  function ExpandRules(c: Candidates, rules: seq<Rule>): seq<Body>
    requires Founded(c)
    decreases RulesBound(c, rules), 1, |rules|
  {
    if rules == [] then []
    else ExpandRules(c, Init(rules)) + Expand(c, Last(rules).symbols, false)
  }

  // ----- what the product holds -----

  lemma {:induction false} InProduct(a: seq<Body>, b: seq<Body>, u: Body, v: Body)
    requires u in a && v in b
    ensures u + v in Product(a, b)
  {
    SplitLast(a);
    if u in Init(a) {
      InProduct(Init(a), b, u, v);
    } else {
      var i :| 0 <= i < |b| && b[i] == v;
      assert Prefixed(u, b)[i] == u + v;
    }
  }

  lemma {:induction false} FromProduct(a: seq<Body>, b: seq<Body>, o: Body) returns (u: Body, v: Body)
    requires o in Product(a, b)
    ensures u in a && v in b && o == u + v
  {
    SplitLast(a);
    if o in Product(Init(a), b) {
      u, v := FromProduct(Init(a), b, o);
    } else {
      var i :| 0 <= i < |b| && Prefixed(Last(a), b)[i] == o;
      u, v := Last(a), b[i];
    }
  }

  lemma {:induction false} InExpandRules(c: Candidates, rules: seq<Rule>, r: Rule, o: Body)
    requires Founded(c)
    requires r in rules && o in Expand(c, r.symbols, false)
    ensures o in ExpandRules(c, rules)
  {
    SplitLast(rules);
    if r in Init(rules) {
      InExpandRules(c, Init(rules), r, o);
    }
  }

  lemma {:induction false} FromExpandRules(c: Candidates, rules: seq<Rule>, o: Body) returns (r: Rule)
    requires Founded(c)
    requires o in ExpandRules(c, rules)
    ensures r in rules && o in Expand(c, r.symbols, false)
  {
    SplitLast(rules);
    if o in ExpandRules(c, Init(rules)) {
      r := FromExpandRules(c, Init(rules), o);
    } else {
      r := Last(rules);
    }
  }

  // ----- expansion preserves the language of a body -----

  /** The rules of every candidate are the rules of its non-terminal. */
  ghost predicate Holds(g: Grammar, c: Candidates) {
    forall id :: id in c ==> NonTerminal(id) in g && g[NonTerminal(id)] == c[id].rules
  }

  /** A derivation from a body is, no taller, a derivation from one of its expansions. */
  lemma {:induction false} ExpandForward(g: Grammar, c: Candidates, b: Body, isRoot: bool, w: Word, h: nat)
    returns (o: Body)
    requires Founded(c) && Holds(g, c) && DerivesIn(g, b, w, h)
    ensures o in Expand(c, b, isRoot) && DerivesIn(g, o, w, h)
    decreases Bound(c, b), 0, |b|
  {
    if b == [] {
      return [];
    }
    SplitLast(b);
    var s := Last(b);
    var u, v := UnsnocIn(g, Init(b), s, w, h);
    var o1 := ExpandForward(g, c, Init(b), isRoot, u, h);
    if Inlinable(c, s) {
      BoundGroup(c, b);
      var o2 := GroupForward(g, c, s.id.id, v, h);
      var rest, group := Expand(c, Init(b), isRoot), ExpandRules(c, c[s.id.id].rules);
      if isRoot {
        var i :| 0 <= i < |group| && group[i] == o2;
        assert ReindexAll(group, s.originalIndex)[i] == Reindex(o2, s.originalIndex);
        SameIdsIn(g, o2, Reindex(o2, s.originalIndex), v, h);
        o2 := Reindex(o2, s.originalIndex);
      }
      InProduct(rest, if isRoot then ReindexAll(group, s.originalIndex) else group, o1, o2);
      ConcatIn(g, o1, o2, u, v, h);
      o := o1 + o2;
    } else {
      var rest := Expand(c, Init(b), isRoot);
      var i :| 0 <= i < |rest| && rest[i] == o1;
      assert AppendToAll(rest, s)[i] == o1 + [s];
      SnocIn(g, o1, s, u, v, h);
      o := o1 + [s];
    }
  }

  lemma {:induction false} GroupForward(g: Grammar, c: Candidates, id: NonTermId, v: Word, h: nat) returns (o: Body)
    requires Founded(c) && Holds(g, c) && id in c && SymDerivesIn(g, NonTerminal(id), v, h)
    ensures o in ExpandRules(c, c[id].rules) && DerivesIn(g, o, v, h)
    decreases RulesBound(c, c[id].rules), 1, 0
  {
    var r :| r in c[id].rules && DerivesIn(g, r.symbols, v, h - 1);
    RuleBound(c, c[id].rules, r);
    o := ExpandForward(g, c, r.symbols, false, v, h - 1);
    InExpandRules(c, c[id].rules, r, o);
    Taller(g, o, v, h - 1, h);
  }

  /** Whatever an expansion derives, the body derives. */
  lemma {:induction false} ExpandBackward(g: Grammar, c: Candidates, b: Body, isRoot: bool, o: Body, w: Word)
    requires Founded(c) && Holds(g, c)
    requires o in Expand(c, b, isRoot) && Derives(g, o, w)
    ensures Derives(g, b, w)
    decreases Bound(c, b), 0, |b|
  {
    if b == [] {
      return;
    }
    SplitLast(b);
    var s := Last(b);
    var rest := Expand(c, Init(b), isRoot);
    if Inlinable(c, s) {
      BoundGroup(c, b);
      var group := ExpandRules(c, c[s.id.id].rules);
      var o1, o2 := FromProduct(rest, if isRoot then ReindexAll(group, s.originalIndex) else group, o);
      var u, v := Split(g, o1, o2, w);
      if isRoot {
        var i :| 0 <= i < |group| && ReindexAll(group, s.originalIndex)[i] == o2;
        SameIdsDerive(g, group[i], o2, v);
        o2 := group[i];
      }
      GroupBackward(g, c, s.id.id, o2, v);
      ExpandBackward(g, c, Init(b), isRoot, o1, u);
      Snoc(g, Init(b), s, u, v);
    } else {
      var i :| 0 <= i < |rest| && AppendToAll(rest, s)[i] == o;
      var u, v := Unsnoc(g, rest[i], s, w);
      ExpandBackward(g, c, Init(b), isRoot, rest[i], u);
      Snoc(g, Init(b), s, u, v);
    }
  }

  lemma {:induction false} GroupBackward(g: Grammar, c: Candidates, id: NonTermId, o: Body, v: Word)
    requires Founded(c) && Holds(g, c) && id in c
    requires o in ExpandRules(c, c[id].rules) && Derives(g, o, v)
    ensures SymDerives(g, NonTerminal(id), v)
    decreases RulesBound(c, c[id].rules), 1, 0
  {
    var r := FromExpandRules(c, c[id].rules, o);
    RuleBound(c, c[id].rules, r);
    ExpandBackward(g, c, r.symbols, false, o, v);
    ByRule(g, NonTerminal(id), r, v);
  }

  /** The candidates of a well-numbered non-terminal are founded, so that inlining them ends. */
  lemma {:induction false} CandidatesFounded(p: nat, subs: seq<SubNonTerminal>)
    requires WellNumbered(p, subs)
    ensures Founded(InlineCandidates(subs))
  {
    var c := InlineCandidates(subs);
    forall id | id in c
      ensures id.Sub? && forall r :: r in c[id].rules ==> Below(c, r.symbols, id.index)
    {
      var k :| 0 <= k < |subs| && subs[k] == c[id];
      assert Numbered(p, subs[k], k);
      forall r, i | r in c[id].rules && 0 <= i < |r.symbols| && Inlinable(c, r.symbols[i])
        ensures r.symbols[i].id.id.Sub? && r.symbols[i].id.id.index < id.index
      {
        var j :| 0 <= j < |subs| && subs[j] == c[r.symbols[i].id.id];
        assert Numbered(p, subs[j], j);
        assert RefersBelow(p, r.symbols, k);
      }
    }
  }

  /** Nothing that could be inlined is left in an expansion. */
  lemma {:induction false} FullyExpanded(c: Candidates, b: Body, isRoot: bool, o: Body, i: nat)
    requires Founded(c) && o in Expand(c, b, isRoot) && i < |o|
    ensures !Inlinable(c, o[i])
    decreases Bound(c, b), 0, |b|
  {
    if b == [] {
      return;
    }
    var s, rest := Last(b), Expand(c, Init(b), isRoot);
    if Inlinable(c, s) {
      BoundGroup(c, b);
      var group := ExpandRules(c, c[s.id.id].rules);
      var o1, o2 := FromProduct(rest, if isRoot then ReindexAll(group, s.originalIndex) else group, o);
      if i < |o1| {
        FullyExpanded(c, Init(b), isRoot, o1, i);
      } else {
        var k :| 0 <= k < |group| && (o2 == group[k] || o2 == Reindex(group[k], s.originalIndex));
        var j: nat := i - |o1|;
        assert |Reindex(group[k], s.originalIndex)| == |group[k]| == |o2|;
        assert o[i] == o2[j] && Inlinable(c, o2[j]) == Inlinable(c, group[k][j]);
        var r := FromExpandRules(c, c[s.id.id].rules, group[k]);
        RuleBound(c, c[s.id.id].rules, r);
        FullyExpanded(c, r.symbols, false, group[k], j);
      }
    } else {
      var k :| 0 <= k < |rest| && AppendToAll(rest, s)[k] == o;
      if i < |rest[k]| {
        FullyExpanded(c, Init(b), isRoot, rest[k], i);
      }
    }
  }

  predicate IdsWithin(b: Body, ids: set<SymbolId>) {
    forall i :: 0 <= i < |b| ==> b[i].id in ids
  }

  /** The bodies of every group hold symbols of the set only. */
  ghost predicate GroupsWithin(c: Candidates, ids: set<SymbolId>) {
    forall id, r :: id in c && r in c[id].rules ==> IdsWithin(r.symbols, ids)
  }

  /** An expansion holds no symbol that the body and the groups do not hold. */
  lemma {:induction false} ExpandWithin(c: Candidates, b: Body, isRoot: bool, o: Body, ids: set<SymbolId>)
    requires Founded(c) && o in Expand(c, b, isRoot) && IdsWithin(b, ids) && GroupsWithin(c, ids)
    ensures IdsWithin(o, ids)
    decreases Bound(c, b), 0, |b|
  {
    if b == [] {
      return;
    }
    var s, rest := Last(b), Expand(c, Init(b), isRoot);
    if Inlinable(c, s) {
      BoundGroup(c, b);
      var group := ExpandRules(c, c[s.id.id].rules);
      var o1, o2 := FromProduct(rest, if isRoot then ReindexAll(group, s.originalIndex) else group, o);
      ExpandWithin(c, Init(b), isRoot, o1, ids);
      var body := FromGroup(group, isRoot, s.originalIndex, o2);
      GroupWithin(c, s.id.id, body, ids);
      assert IdsWithin(o2, ids);
    } else {
      var k :| 0 <= k < |rest| && AppendToAll(rest, s)[k] == o;
      ExpandWithin(c, Init(b), isRoot, rest[k], ids);
    }
  }

  lemma {:induction false} FromGroup(group: seq<Body>, isRoot: bool, index: nat, o: Body) returns (body: Body)
    requires o in if isRoot then ReindexAll(group, index) else group
    ensures body in group && SameIds(body, o)
  {
    var from := if isRoot then ReindexAll(group, index) else group;
    var k :| 0 <= k < |from| && from[k] == o;
    body := group[k];
    assert o == if isRoot then Reindex(body, index) else body;
  }

  lemma {:induction false} GroupWithin(c: Candidates, id: NonTermId, body: Body, ids: set<SymbolId>)
    requires Founded(c) && id in c && body in ExpandRules(c, c[id].rules) && GroupsWithin(c, ids)
    ensures IdsWithin(body, ids)
    decreases RulesBound(c, c[id].rules), 1
  {
    var r := FromExpandRules(c, c[id].rules, body);
    RuleBound(c, c[id].rules, r);
    ExpandWithin(c, r.symbols, false, body, ids);
  }

  /** The bodies of every group are not empty. */
  ghost predicate GroupsNotEmpty(c: Candidates) {
    forall id, r :: id in c && r in c[id].rules ==> r.symbols != []
  }

  /** Without empty bodies to begin with, no expansion is empty. */
  lemma {:induction false} ExpandNotEmpty(c: Candidates, b: Body, isRoot: bool, o: Body)
    requires Founded(c) && o in Expand(c, b, isRoot) && b != [] && GroupsNotEmpty(c)
    ensures o != []
    decreases Bound(c, b), 0, |b|
  {
    var s, rest := Last(b), Expand(c, Init(b), isRoot);
    if Inlinable(c, s) {
      BoundGroup(c, b);
      var group := ExpandRules(c, c[s.id.id].rules);
      var o1, o2 := FromProduct(rest, if isRoot then ReindexAll(group, s.originalIndex) else group, o);
      var k :| 0 <= k < |group| && (o2 == group[k] || o2 == Reindex(group[k], s.originalIndex));
      var r := FromExpandRules(c, c[s.id.id].rules, group[k]);
      RuleBound(c, c[s.id.id].rules, r);
      ExpandNotEmpty(c, r.symbols, false, group[k]);
      assert |Reindex(group[k], s.originalIndex)| == |group[k]|;
    } else {
      var k :| 0 <= k < |rest| && AppendToAll(rest, s)[k] == o;
    }
  }

  // ----- rules -----

  function WithBodies(r: Rule, bodies: seq<Body>): (rules: seq<Rule>)
    ensures |rules| == |bodies| && forall i :: 0 <= i < |bodies| ==> rules[i] == r.(symbols := bodies[i])
  {
    seq(|bodies|, i requires 0 <= i < |bodies| => r.(symbols := bodies[i]))
  }

  /** The rules with their groups inlined. */
  function ExpandAll(c: Candidates, rules: seq<Rule>): seq<Rule>
    requires Founded(c)
  {
    if rules == [] then []
    else
      var r := Last(rules);
      ExpandAll(c, Init(rules)) + WithBodies(r, Expand(c, r.symbols, true))
  }

  /** Inlining is optional for parser rules and always done for scanner rules. */
  function InlineRules(c: Candidates, rules: seq<Rule>, allowed: bool, isScanner: bool): seq<Rule>
    requires Founded(c)
  {
    if allowed || isScanner then ExpandAll(c, rules) else rules
  }

  lemma {:induction false} InExpandAll(c: Candidates, rules: seq<Rule>, r: Rule, o: Body)
    requires Founded(c) && r in rules && o in Expand(c, r.symbols, true)
    ensures r.(symbols := o) in ExpandAll(c, rules)
  {
    SplitLast(rules);
    if r in Init(rules) {
      InExpandAll(c, Init(rules), r, o);
    } else {
      var bodies := Expand(c, r.symbols, true);
      var i :| 0 <= i < |bodies| && bodies[i] == o;
      assert WithBodies(r, bodies)[i] == r.(symbols := o);
    }
  }

  lemma {:induction false} FromExpandAll(c: Candidates, rules: seq<Rule>, m: Rule) returns (r: Rule)
    requires Founded(c) && m in ExpandAll(c, rules)
    ensures r in rules && m.symbols in Expand(c, r.symbols, true) && m == r.(symbols := m.symbols)
  {
    SplitLast(rules);
    if m in ExpandAll(c, Init(rules)) {
      r := FromExpandAll(c, Init(rules), m);
    } else {
      r := Last(rules);
      var bodies := Expand(c, r.symbols, true);
      var i :| 0 <= i < |bodies| && WithBodies(r, bodies)[i] == m;
      assert m.symbols == bodies[i];
    }
  }

  /** In any grammar that has the groups, the inlined rules derive what the rules derive. */
  lemma {:induction false} InlinedRulesSameLanguage(
    g: Grammar, c: Candidates, rules: seq<Rule>, allowed: bool, isScanner: bool, w: Word)
    requires Founded(c) && Holds(g, c)
    ensures RulesDerive(g, InlineRules(c, rules, allowed, isScanner), w) <==> RulesDerive(g, rules, w)
  {
    if allowed || isScanner {
      if r :| r in rules && Derives(g, r.symbols, w) {
        var h: nat :| DerivesIn(g, r.symbols, w, h);
        var o := ExpandForward(g, c, r.symbols, true, w, h);
        InExpandAll(c, rules, r, o);
        assert Derives(g, r.(symbols := o).symbols, w);
      }
      if m :| m in ExpandAll(c, rules) && Derives(g, m.symbols, w) {
        var r := FromExpandAll(c, rules, m);
        ExpandBackward(g, c, r.symbols, true, m.symbols, w);
      }
    }
  }

  lemma {:induction false} InlinedWithin(
    c: Candidates, rules: seq<Rule>, allowed: bool, isScanner: bool, ids: set<SymbolId>, m: Rule)
    requires Founded(c) && GroupsWithin(c, ids) && m in InlineRules(c, rules, allowed, isScanner)
    requires forall r :: r in rules ==> IdsWithin(r.symbols, ids)
    ensures IdsWithin(m.symbols, ids) && exists r :: r in rules && m.skipped == r.skipped
  {
    if allowed || isScanner {
      var r := FromExpandAll(c, rules, m);
      ExpandWithin(c, r.symbols, true, m.symbols, ids);
    }
  }

  lemma {:induction false} InlinedNotEmpty(c: Candidates, rules: seq<Rule>, allowed: bool, isScanner: bool, m: Rule)
    requires Founded(c) && GroupsNotEmpty(c) && m in InlineRules(c, rules, allowed, isScanner)
    requires forall r :: r in rules ==> r.symbols != []
    ensures m.symbols != []
  {
    if allowed || isScanner {
      var r := FromExpandAll(c, rules, m);
      ExpandNotEmpty(c, r.symbols, true, m.symbols);
    }
  }

  // ----- grammars -----

  /** `cs` gives the candidates of the non-terminal that owns each symbol. */
  ghost predicate IsInlined(g: Grammar, ig: Grammar, cs: map<SymbolId, Candidates>, allowed: bool) {
    && g.Keys == ig.Keys == cs.Keys
    && forall s :: s in g ==>
         && Founded(cs[s]) && Holds(g, cs[s])
         && ig[s] == InlineRules(cs[s], g[s], allowed, false)
  }

  lemma {:induction false} InlineForward(
    g: Grammar, ig: Grammar, cs: map<SymbolId, Candidates>, allowed: bool, b: Body, w: Word, h: nat)
    requires IsInlined(g, ig, cs, allowed) && DerivesIn(g, b, w, h)
    ensures Derives(ig, b, w)
    decreases h, 1, |b|
  {
    if b == [] {
      Nothing(ig);
    } else {
      SplitLast(b);
      var u, v := UnsnocIn(g, Init(b), Last(b), w, h);
      InlineForward(g, ig, cs, allowed, Init(b), u, h);
      SymInlineForward(g, ig, cs, allowed, Last(b).id, v, h);
      Snoc(ig, Init(b), Last(b), u, v);
    }
  }

  lemma {:induction false} SymInlineForward(
    g: Grammar, ig: Grammar, cs: map<SymbolId, Candidates>, allowed: bool, s: SymbolId, w: Word, h: nat)
    requires IsInlined(g, ig, cs, allowed) && SymDerivesIn(g, s, w, h)
    ensures SymDerives(ig, s, w)
    decreases h, 0, 0
  {
    if s in g {
      var r :| r in g[s] && DerivesIn(g, r.symbols, w, h - 1);
      var m := r;
      if allowed {
        var o := ExpandForward(g, cs[s], r.symbols, true, w, h - 1);
        InExpandAll(cs[s], g[s], r, o);
        m := r.(symbols := o);
      }
      InlineForward(g, ig, cs, allowed, m.symbols, w, h - 1);
      ByRule(ig, s, m, w);
    } else {
      Terminal(ig, s, w);
    }
  }

  lemma {:induction false} InlineBackward(
    g: Grammar, ig: Grammar, cs: map<SymbolId, Candidates>, allowed: bool, b: Body, w: Word, h: nat)
    requires IsInlined(g, ig, cs, allowed) && DerivesIn(ig, b, w, h)
    ensures Derives(g, b, w)
    decreases h, 1, |b|
  {
    if b == [] {
      Nothing(g);
    } else {
      SplitLast(b);
      var u, v := UnsnocIn(ig, Init(b), Last(b), w, h);
      InlineBackward(g, ig, cs, allowed, Init(b), u, h);
      SymInlineBackward(g, ig, cs, allowed, Last(b).id, v, h);
      Snoc(g, Init(b), Last(b), u, v);
    }
  }

  lemma {:induction false} SymInlineBackward(
    g: Grammar, ig: Grammar, cs: map<SymbolId, Candidates>, allowed: bool, s: SymbolId, w: Word, h: nat)
    requires IsInlined(g, ig, cs, allowed) && SymDerivesIn(ig, s, w, h)
    ensures SymDerives(g, s, w)
    decreases h, 0, 0
  {
    if s in ig {
      var m :| m in ig[s] && DerivesIn(ig, m.symbols, w, h - 1);
      InlineBackward(g, ig, cs, allowed, m.symbols, w, h - 1);
      assert RulesDerive(g, ig[s], w);
      InlinedRulesSameLanguage(g, cs[s], g[s], allowed, false, w);
      ByRules(g, s, w);
    } else {
      Terminal(g, s, w);
    }
  }

  /** Inlining the groups of every rule of a grammar preserves the language of every symbol. */
  lemma {:induction false} InliningSameLanguage(
    g: Grammar, ig: Grammar, cs: map<SymbolId, Candidates>, allowed: bool, s: SymbolId, w: Word)
    requires IsInlined(g, ig, cs, allowed)
    ensures SymDerives(g, s, w) <==> SymDerives(ig, s, w)
  {
    if h: nat :| SymDerivesIn(g, s, w, h) {
      SymInlineForward(g, ig, cs, allowed, s, w, h);
    }
    if h: nat :| SymDerivesIn(ig, s, w, h) {
      SymInlineBackward(g, ig, cs, allowed, s, w, h);
    }
  }

  // ----- the builder -----

  /** `outputs` extended by one symbol, a group reference being replaced by all of its bodies. */
  method InlineGroups(syms: Body, c: Candidates, isRoot: bool) returns (outputs: seq<Body>)
    requires Founded(c)
    ensures outputs == Expand(c, syms, isRoot)
    decreases Bound(c, syms), 0, |syms|
  {
    outputs := [[]];
    assert syms[..0] == [];
    for k := 0 to |syms|
      invariant outputs == Expand(c, syms[..k], isRoot)
    {
      var sym := syms[k];
      TakeOneMore(syms, k);
      if Inlinable(c, sym) {
        InlinedReference(c, syms, k);
        var out := InlineGroupRules(c[sym.id.id].rules, c);
        if isRoot {
          out := ReindexAll(out, sym.originalIndex);
        }
        outputs := AppendEach(outputs, out);
      } else {
        outputs := AppendToAll(outputs, sym);
      }
    }
    assert syms[..|syms|] == syms;
  }

  lemma {:induction false} BoundPrefix(c: Candidates, b: Body, k: nat)
    requires Founded(c) && k <= |b|
    ensures Bound(c, b[..k]) <= Bound(c, b)
    decreases |b| - k
  {
    if k < |b| {
      TakeOneMore(b, k);
      BoundPrefix(c, b, k + 1);
    } else {
      assert b[..k] == b;
    }
  }

  lemma {:induction false} InlinedReference(c: Candidates, b: Body, k: nat)
    requires Founded(c) && k < |b| && Inlinable(c, b[k])
    ensures RulesBound(c, c[b[k].id.id].rules) < Bound(c, b)
  {
    TakeOneMore(b, k);
    BoundGroup(c, b[..k + 1]);
    BoundPrefix(c, b, k + 1);
  }

  method InlineGroupRules(rules: seq<Rule>, c: Candidates) returns (out: seq<Body>)
    requires Founded(c)
    ensures out == ExpandRules(c, rules)
    decreases RulesBound(c, rules), 1, |rules|
  {
    out := [];
    assert rules[..0] == [];
    for k := 0 to |rules|
      invariant out == ExpandRules(c, rules[..k])
    {
      TakeOneMore(rules, k);
      RuleBound(c, rules, rules[k]);
      var o := InlineGroups(rules[k].symbols, c, false);
      out := out + o;
    }
    assert rules[..|rules|] == rules;
  }

  method AppendEach(outputs: seq<Body>, out: seq<Body>) returns (r: seq<Body>)
    ensures r == Product(outputs, out)
  {
    r := [];
    assert outputs[..0] == [];
    for k := 0 to |outputs|
      invariant r == Product(outputs[..k], out)
    {
      TakeOneMore(outputs, k);
      r := r + Prefixed(outputs[k], out);
    }
    assert outputs[..|outputs|] == outputs;
  }
}
