/** What inlining must leave alone: which references it replaces, the positions of the symbols in a rule, and the
    semantic actions.  The words that rules derive tell none of it
    (crates/radlr-core/grammar/build_database.rs:625-708). */
module InlineActions {
  import opened Sequences
  import opened Symbols
  import opened Cfg
  import opened Numbering
  import opened Inline

  // ----- which references are replaced -----

  /** An unnamed reference to a group none of whose rules has an action. */
  ghost predicate Anonymous(p: nat, subs: seq<SubNonTerminal>, s: SymbolRef) {
    && s.annotation == ""
    && exists k: nat :: k < |subs| && s.id == NonTerminal(Sub(p, k, Parser)) && subs[k].kind == GroupKind
                        && forall r :: r in subs[k].rules ==> r.ast == NoAst
  }

  lemma {:induction false} InlinableExactly(p: nat, subs: seq<SubNonTerminal>, s: SymbolRef)
    requires WellNumbered(p, subs)
    ensures Inlinable(InlineCandidates(subs), s) <==> Anonymous(p, subs, s)
  {
    var c := InlineCandidates(subs);
    if Inlinable(c, s) {
      var k :| 0 <= k < |subs| && subs[k] == c[s.id.id];
      assert Numbered(p, subs[k], k);
    }
    if Anonymous(p, subs, s) {
      var k: nat :| k < |subs| && s.id == NonTerminal(Sub(p, k, Parser)) && subs[k].kind == GroupKind
                    && forall r :: r in subs[k].rules ==> r.ast == NoAst;
      assert Numbered(p, subs[k], k) && subs[k] in subs;
    }
  }

  // ----- where the symbols of an expansion come from -----

  /** The symbols that stand in the rule for one symbol of it: the symbol itself, or, for a group that is replaced,
      symbols without a position, except that the last one takes the position of the group. */
  ghost predicate InPlaceOf(p: nat, subs: seq<SubNonTerminal>, s: SymbolRef, o: Body) {
    if Anonymous(p, subs, s) then
      && (forall i :: 0 <= i < |o| ==> !Anonymous(p, subs, o[i]))
      && (forall i :: 0 <= i < |o| ==> o[i].originalIndex == if i == |o| - 1 then s.originalIndex else 9999)
    else o == [s]
  }

  /** Symbol by symbol. */
  ghost predicate Expands(p: nat, subs: seq<SubNonTerminal>, b: Body, o: Body) {
    if b == [] then o == []
    else exists k :: 0 <= k <= |o| && Expands(p, subs, Init(b), o[..k]) && InPlaceOf(p, subs, Last(b), o[k..])
  }

  lemma {:induction false} ExpandedInPlace(p: nat, subs: seq<SubNonTerminal>, b: Body, o: Body)
    requires WellNumbered(p, subs) && Founded(InlineCandidates(subs)) && o in Expand(InlineCandidates(subs), b, true)
    ensures Expands(p, subs, b, o)
  {
    if b == [] {
      return;
    }
    var c, s := InlineCandidates(subs), Last(b);
    var rest := Expand(c, Init(b), true);
    InlinableExactly(p, subs, s);
    if Inlinable(c, s) {
      BoundGroup(c, b);
      var group := ExpandRules(c, c[s.id.id].rules);
      var o1, o2 := FromProduct(rest, ReindexAll(group, s.originalIndex), o);
      ExpandedInPlace(p, subs, Init(b), o1);
      GroupInPlace(p, subs, s, group, o2);
      assert o[..|o1|] == o1 && o[|o1|..] == o2;
    } else {
      var k :| 0 <= k < |rest| && AppendToAll(rest, s)[k] == o;
      ExpandedInPlace(p, subs, Init(b), rest[k]);
      assert o[..|rest[k]|] == rest[k] && o[|rest[k]|..] == [s];
    }
  }

  lemma {:induction false} GroupInPlace(p: nat, subs: seq<SubNonTerminal>, s: SymbolRef, group: seq<Body>, o: Body)
    requires WellNumbered(p, subs) && Founded(InlineCandidates(subs)) && Inlinable(InlineCandidates(subs), s)
    requires group == ExpandRules(InlineCandidates(subs), InlineCandidates(subs)[s.id.id].rules)
    requires o in ReindexAll(group, s.originalIndex)
    ensures InPlaceOf(p, subs, s, o)
  {
    var c := InlineCandidates(subs);
    InlinableExactly(p, subs, s);
    var k :| 0 <= k < |group| && ReindexAll(group, s.originalIndex)[k] == o;
    assert o == Reindex(group[k], s.originalIndex);
    forall i | 0 <= i < |o|
      ensures !Anonymous(p, subs, o[i])
    {
      var r := FromExpandRules(c, c[s.id.id].rules, group[k]);
      FullyExpanded(c, r.symbols, false, group[k], i);
      InlinableExactly(p, subs, o[i]);
    }
  }

  /** Without inlining the rules stay as they are; otherwise an inlined rule keeps the action and the skipped symbols of the rule it comes from, and stands for it symbol by
      symbol: exactly the unnamed references to groups without actions are replaced. */
  lemma {:induction false} InlinedFrom(p: nat, subs: seq<SubNonTerminal>, rules: seq<Rule>, allowed: bool, isScanner: bool, m: Rule)
    requires WellNumbered(p, subs) && Founded(InlineCandidates(subs))
    requires m in InlineRules(InlineCandidates(subs), rules, allowed, isScanner)
    ensures !allowed && !isScanner ==> InlineRules(InlineCandidates(subs), rules, allowed, isScanner) == rules
    ensures allowed || isScanner ==>
              exists r :: r in rules && m.ast == r.ast && m.skipped == r.skipped && Expands(p, subs, r.symbols, m.symbols)
  {
    if allowed || isScanner {
      var r := FromExpandAll(InlineCandidates(subs), rules, m);
      ExpandedInPlace(p, subs, r.symbols, m.symbols);
    }
  }

  // ----- actions -----

  /** Symbols that mark the place where an action is applied; a rule without an action leaves no mark. */
  ghost predicate IsMarking(mark: Ast -> Body) {
    mark(NoAst) == [] && forall a, i :: 0 <= i < |mark(a)| ==> !mark(a)[i].id.NonTerminal?
  }

  function MarkRule(mark: Ast -> Body, r: Rule): Rule { r.(symbols := r.symbols + mark(r.ast)) }

  function MarkRules(mark: Ast -> Body, rules: seq<Rule>): (marked: seq<Rule>)
    ensures |marked| == |rules| && forall i :: 0 <= i < |rules| ==> marked[i] == MarkRule(mark, rules[i])
  {
    seq(|rules|, i requires 0 <= i < |rules| => MarkRule(mark, rules[i]))
  }

  /** The grammar in which every rule with an action derives, behind its words, the mark of the action.  What it
      derives tells which actions are applied, in which order and to which words. */
  ghost function Marked(mark: Ast -> Body, g: Grammar): Grammar {
    map s | s in g :: MarkRules(mark, g[s])
  }

  lemma {:induction false} UnmarkedRules(mark: Ast -> Body, rules: seq<Rule>)
    requires IsMarking(mark) && forall r :: r in rules ==> r.ast == NoAst
    ensures MarkRules(mark, rules) == rules
  {
    forall i | 0 <= i < |rules|
      ensures MarkRules(mark, rules)[i] == rules[i]
    {
      assert rules[i] in rules;
      assert rules[i].symbols + [] == rules[i].symbols;
    }
  }

  function ExtendAll(bs: seq<Body>, x: Body): (r: seq<Body>)
    ensures |r| == |bs| && forall i :: 0 <= i < |bs| ==> r[i] == bs[i] + x
  {
    seq(|bs|, i requires 0 <= i < |bs| => bs[i] + x)
  }

  /** Symbols that are not replaced follow every expansion. */
  lemma {:induction false} ExpandMarked(c: Candidates, b: Body, x: Body)
    requires Founded(c) && forall i :: 0 <= i < |x| ==> !x[i].id.NonTerminal?
    ensures Expand(c, b + x, true) == ExtendAll(Expand(c, b, true), x)
  {
    if x == [] {
      assert b + x == b;
      var all := Expand(c, b, true);
      forall i | 0 <= i < |all|
        ensures ExtendAll(all, [])[i] == all[i]
      {
        assert all[i] + [] == all[i];
      }
    } else {
      ExpandMarked(c, b, Init(x));
      assert Init(b + x) == b + Init(x) && Last(b + x) == Last(x) == x[|x| - 1];
      SplitLast(x);
      var all := Expand(c, b, true);
      assert AppendToAll(ExtendAll(all, Init(x)), Last(x)) == ExtendAll(all, x) by {
        forall i | 0 <= i < |all|
          ensures AppendToAll(ExtendAll(all, Init(x)), Last(x))[i] == ExtendAll(all, x)[i]
        {
          Assoc(all[i], Init(x), [Last(x)]);
        }
      }
    }
  }

  lemma {:induction false} ExpandOneMarked(mark: Ast -> Body, c: Candidates, r: Rule)
    requires IsMarking(mark) && Founded(c)
    ensures WithBodies(MarkRule(mark, r), Expand(c, MarkRule(mark, r).symbols, true))
         == MarkRules(mark, WithBodies(r, Expand(c, r.symbols, true)))
  {
    ExpandMarked(c, r.symbols, mark(r.ast));
  }

  lemma {:induction false} MarkConcat(mark: Ast -> Body, a: seq<Rule>, b: seq<Rule>)
    ensures MarkRules(mark, a + b) == MarkRules(mark, a) + MarkRules(mark, b)
  {
  }

  lemma {:induction false} ExpandAllMarked(mark: Ast -> Body, c: Candidates, rules: seq<Rule>)
    requires IsMarking(mark) && Founded(c)
    ensures ExpandAll(c, MarkRules(mark, rules)) == MarkRules(mark, ExpandAll(c, rules))
  {
    if rules != [] {
      var init, r := Init(rules), Last(rules);
      ExpandAllMarked(mark, c, init);
      assert Init(MarkRules(mark, rules)) == MarkRules(mark, init) && Last(MarkRules(mark, rules)) == MarkRule(mark, r);
      ExpandOneMarked(mark, c, r);
      MarkConcat(mark, ExpandAll(c, init), WithBodies(r, Expand(c, r.symbols, true)));
    }
  }

  /** The groups that are replaced have no actions. */
  ghost predicate Silent(c: Candidates) {
    forall id, r :: id in c && r in c[id].rules ==> r.ast == NoAst
  }

  lemma {:induction false} CandidatesSilent(subs: seq<SubNonTerminal>)
    ensures Silent(InlineCandidates(subs))
  {
  }

  lemma {:induction false} MarkedIsInlined(mark: Ast -> Body, g: Grammar, ig: Grammar, cs: map<SymbolId, Candidates>, allowed: bool)
    requires IsMarking(mark) && IsInlined(g, ig, cs, allowed) && forall s :: s in cs ==> Silent(cs[s])
    ensures IsInlined(Marked(mark, g), Marked(mark, ig), cs, allowed)
  {
    var mg, mi := Marked(mark, g), Marked(mark, ig);
    assert mg.Keys == g.Keys && mi.Keys == ig.Keys;
    forall s | s in mg
      ensures Founded(cs[s]) && Holds(mg, cs[s]) && mi[s] == InlineRules(cs[s], mg[s], allowed, false)
    {
      assert Founded(cs[s]) && Holds(g, cs[s]) && Silent(cs[s]);
      ExpandAllMarked(mark, cs[s], g[s]);
      forall id | id in cs[s]
        ensures NonTerminal(id) in mg && mg[NonTerminal(id)] == cs[s][id].rules
      {
        UnmarkedRules(mark, cs[s][id].rules);
      }
    }
  }

  /** Whatever the marks, inlining keeps the marked words of every symbol: the same actions are applied in the same
      order to the same words. */
  lemma {:induction false} InliningKeepsActions(mark: Ast -> Body, g: Grammar, ig: Grammar, cs: map<SymbolId, Candidates>,
                                                allowed: bool, s: SymbolId, w: Word)
    requires IsMarking(mark) && IsInlined(g, ig, cs, allowed) && forall s :: s in cs ==> Silent(cs[s])
    ensures SymDerives(Marked(mark, g), s, w) <==> SymDerives(Marked(mark, ig), s, w)
  {
    MarkedIsInlined(mark, g, ig, cs, allowed);
    InliningSameLanguage(Marked(mark, g), Marked(mark, ig), cs, allowed, s, w);
  }
}
