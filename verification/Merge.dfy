/** Non-terminals that are defined more than once are merged: the rules of the later definition are
    appended, and its sub-non-terminals are renumbered past the existing ones
    (crates/radlr-core/grammar/build_database.rs:33-79). */
module Merge {
  import opened Sequences
  import opened Symbols
  import opened Cfg
  import opened Numbering
  import opened Renaming

  function ShiftId(id: NonTermId, offset: nat): NonTermId {
    if id.Sub? then id.(index := id.index + offset) else id
  }

  function Shift(offset: nat, s: SymbolId): SymbolId {
    if s.NonTerminal? then NonTerminal(ShiftId(s.id, offset)) else s
  }

  function Shifting(offset: nat): Naming { s => Shift(offset, s) }

  function ShiftRules(rules: seq<Rule>, offset: nat): seq<Rule> {
    RenameRules(Shifting(offset), rules)
  }

  function ShiftSubs(subs: seq<SubNonTerminal>, offset: nat): (r: seq<SubNonTerminal>)
    ensures |r| == |subs|
    ensures forall k :: 0 <= k < |subs| ==>
              r[k] == subs[k].(id := ShiftId(subs[k].id, offset), rules := ShiftRules(subs[k].rules, offset))
  {
    seq(|subs|, k requires 0 <= k < |subs| =>
      subs[k].(id := ShiftId(subs[k].id, offset), rules := ShiftRules(subs[k].rules, offset)))
  }

  /** The later definition `b` appended to the existing definition `a`. */
  function MergeTwo(a: NonTerm, b: NonTerm): NonTerm {
    var offset := |a.subs|;
    a.(rules := a.rules + ShiftRules(b.rules, offset),
       subs := a.subs + ShiftSubs(b.subs, offset),
       symbols := a.symbols + b.symbols)
  }

  /** All definitions, by identity. */
  function MergeAll(nterms: seq<NonTerm>): map<NonTermId, NonTerm> {
    if nterms == [] then map[]
    else
      var m, n := MergeAll(Init(nterms)), Last(nterms);
      m[n.id := if n.id in m then MergeTwo(m[n.id], n) else n]
  }

  // ----- the numbering survives merging -----

  /** A definition whose sub-non-terminals are well numbered and whose rules refer to them only. */
  ghost predicate Sound(p: nat, n: NonTerm) {
    n.id == Standard(p, Parser) && WellNumbered(p, n.subs) && RulesReferBelow(p, n.rules, |n.subs|)
  }

  lemma {:induction false} ShiftRefers(p: nat, rules: seq<Rule>, n: nat, offset: nat)
    requires RulesReferBelow(p, rules, n)
    ensures RulesReferBelow(p, ShiftRules(rules, offset), n + offset)
  {
    var shifted := ShiftRules(rules, offset);
    forall r, i | r in shifted && 0 <= i < |r.symbols| && IsSubSymbol(r.symbols[i].id)
      ensures exists k: nat :: k < n + offset && r.symbols[i].id == NonTerminal(Sub(p, k, Parser))
    {
      var j :| 0 <= j < |shifted| && shifted[j] == r;
      assert rules[j] in rules && RefersBelow(p, rules[j].symbols, n);
      var s := rules[j].symbols[i].id;
      assert r.symbols[i].id == Shift(offset, s) && IsSubSymbol(s);
      var k: nat :| k < n && s == NonTerminal(Sub(p, k, Parser));
      assert r.symbols[i].id == NonTerminal(Sub(p, k + offset, Parser));
    }
  }

  /** Entry `offset + k` of the merged list is entry `k` of the later definition, renumbered. */
  lemma {:induction false} MergedSubs(a: NonTerm, b: NonTerm, k: nat)
    requires k < |a.subs| + |b.subs|
    ensures |MergeTwo(a, b).subs| == |a.subs| + |b.subs|
    ensures MergeTwo(a, b).subs[k]
         == if k < |a.subs| then a.subs[k] else ShiftSubs(b.subs, |a.subs|)[k - |a.subs|]
  {
  }

  lemma {:induction false} MergeTwoSound(p: nat, a: NonTerm, b: NonTerm)
    requires Sound(p, a) && Sound(p, b)
    ensures Sound(p, MergeTwo(a, b))
  {
    var m, offset := MergeTwo(a, b), |a.subs|;
    forall k | 0 <= k < |m.subs|
      ensures Numbered(p, m.subs[k], k)
    {
      MergedSubs(a, b, k);
      if k < offset {
        assert Numbered(p, a.subs[k], k);
      } else {
        var sub := b.subs[k - offset];
        assert Numbered(p, sub, k - offset);
        ShiftRefers(p, sub.rules, if sub.kind.ListKind? then k - offset + 1 else k - offset, offset);
      }
    }
    RulesReferHigher(p, a.rules, offset, |m.subs|);
    ShiftRefers(p, b.rules, |b.subs|, offset);
  }

  ghost predicate AllSound(nterms: seq<NonTerm>) {
    forall n :: n in nterms ==> n.id.Standard? && Sound(n.id.id, n)
  }

  /** However many definitions are merged, every merged non-terminal is well numbered. */
  lemma {:induction false} MergeAllSound(nterms: seq<NonTerm>)
    requires AllSound(nterms)
    ensures forall id :: id in MergeAll(nterms) ==> id.Standard? && Sound(id.id, MergeAll(nterms)[id])
    ensures MergeAll(nterms).Keys == set n | n in nterms :: n.id
  {
    if nterms != [] {
      SplitLast(nterms);
      MergeAllSound(Init(nterms));
      var m, n := MergeAll(Init(nterms)), Last(nterms);
      if n.id in m {
        MergeTwoSound(n.id.id, m[n.id], n);
      }
    }
  }

  // ----- merging preserves the language -----

  /** The sub-non-terminals of parent `p`, moved to a parent number of their own. */
  function Apart(p: nat, q: nat, s: SymbolId): SymbolId {
    if s.NonTerminal? && s.id.Sub? && s.id.id == p then NonTerminal(s.id.(id := q)) else s
  }

  /** The move from that parent number back to `p`, past the first `offset` entries. */
  function Back(p: nat, q: nat, offset: nat, s: SymbolId): SymbolId {
    if s.NonTerminal? && s.id.Sub? && s.id.id == q then NonTerminal(Sub(p, s.id.index + offset, s.id.sub)) else s
  }

  ghost predicate Avoids(q: nat, rules: seq<Rule>) {
    forall r, i :: r in rules && 0 <= i < |r.symbols| && IsSubSymbol(r.symbols[i].id) ==> r.symbols[i].id.id.id != q
  }

  ghost predicate OfParent(q: nat, s: SymbolId) {
    s.NonTerminal? && s.id.Sub? && s.id.id == q
  }

  /** `g` keeps the two definitions apart, the sub-non-terminals of `b` under the unused parent number
      `q`; `mg` has the merged definition.  Everything else is the same. */
  ghost predicate KeptApart(g: Grammar, mg: Grammar, p: nat, q: nat, a: NonTerm, b: NonTerm) {
    var A := NonTerminal(Standard(p, Parser));
    var apart := Depart(p, q);
    var m := MergeTwo(a, b);
    && q != p && Sound(p, a) && Sound(p, b)
    && A in g && A in mg && g[A] == a.rules + RenameRules(apart, b.rules) && mg[A] == m.rules
    && (forall k :: 0 <= k < |a.subs| ==>
          NonTerminal(Sub(p, k, Parser)) in g && g[NonTerminal(Sub(p, k, Parser))] == a.subs[k].rules)
    && (forall k :: 0 <= k < |b.subs| ==>
          NonTerminal(Sub(q, k, Parser)) in g
          && g[NonTerminal(Sub(q, k, Parser))] == RenameRules(apart, b.subs[k].rules))
    && (forall k :: 0 <= k < |m.subs| ==>
          NonTerminal(Sub(p, k, Parser)) in mg && mg[NonTerminal(Sub(p, k, Parser))] == m.subs[k].rules)
    && (forall s :: s in g && OfParent(p, s) ==> s.id.sub.Parser? && s.id.index < |a.subs|)
    && (forall s :: s in g && OfParent(q, s) ==> s.id.sub.Parser? && s.id.index < |b.subs|)
    && (forall s :: s in g && s != A && !OfParent(p, s) && !OfParent(q, s) ==>
          s in mg && mg[s] == g[s] && Avoids(p, g[s]) && Avoids(q, g[s]))
    && (forall s :: s in mg ==> !OfParent(q, s) && (OfParent(p, s) || s in g))
  }

  lemma {:induction false} ParentAvoids(p: nat, q: nat, rules: seq<Rule>, n: nat)
    requires RulesReferBelow(p, rules, n) && p != q
    ensures Avoids(q, rules)
  {
    forall r, i | r in rules && 0 <= i < |r.symbols| && IsSubSymbol(r.symbols[i].id)
      ensures r.symbols[i].id.id.id != q
    {
      assert RefersBelow(p, r.symbols, n);
    }
  }

  lemma {:induction false} AvoidedUnchanged(p: nat, q: nat, offset: nat, rules: seq<Rule>)
    requires Avoids(q, rules)
    ensures RenameRules(Return(p, q, offset), rules) == rules
  {
    var f := Return(p, q, offset);
    forall j | 0 <= j < |rules|
      ensures RenameRules(f, rules)[j] == rules[j]
    {
      assert rules[j] in rules;
      assert RenameBody(f, rules[j].symbols) == rules[j].symbols;
    }
  }

  lemma {:induction false} ApartAndBack(p: nat, q: nat, offset: nat, rules: seq<Rule>, n: nat)
    requires RulesReferBelow(p, rules, n) && p != q
    ensures RenameRules(Return(p, q, offset), RenameRules(Depart(p, q), rules))
         == ShiftRules(rules, offset)
  {
    var f, apart := Return(p, q, offset), Depart(p, q);
    forall j | 0 <= j < |rules|
      ensures RenameRules(f, RenameRules(apart, rules))[j] == ShiftRules(rules, offset)[j]
    {
      var b := rules[j].symbols;
      assert rules[j] in rules && RefersBelow(p, b, n);
      forall i | 0 <= i < |b|
        ensures f(apart(b[i].id)) == Shift(offset, b[i].id)
      {
        if IsSubSymbol(b[i].id) {
          var k: nat :| k < n && b[i].id == NonTerminal(Sub(p, k, Parser));
        }
      }
      assert RenameBody(f, RenameBody(apart, b)) == RenameBody(Shifting(offset), b);
    }
  }

  lemma {:induction false} RenameRulesConcat(f: Naming, a: seq<Rule>, b: seq<Rule>)
    ensures RenameRules(f, a + b) == RenameRules(f, a) + RenameRules(f, b)
  {
  }

  function Return(p: nat, q: nat, offset: nat): Naming { s => Back(p, q, offset, s) }

  function Depart(p: nat, q: nat): Naming { s => Apart(p, q, s) }

  lemma {:induction false} RootRenamed(p: nat, q: nat, a: NonTerm, b: NonTerm)
    requires Sound(p, a) && Sound(p, b) && p != q
    ensures RenameRules(Return(p, q, |a.subs|), a.rules + RenameRules(Depart(p, q), b.rules)) == MergeTwo(a, b).rules
  {
    var f := Return(p, q, |a.subs|);
    RenameRulesConcat(f, a.rules, RenameRules(Depart(p, q), b.rules));
    ParentAvoids(p, q, a.rules, |a.subs|);
    AvoidedUnchanged(p, q, |a.subs|, a.rules);
    ApartAndBack(p, q, |a.subs|, b.rules, |b.subs|);
  }

  lemma {:induction false} EarlierSubRenamed(p: nat, q: nat, a: NonTerm, b: NonTerm, k: nat)
    requires Sound(p, a) && Sound(p, b) && p != q && k < |a.subs|
    ensures k < |MergeTwo(a, b).subs|
    ensures RenameRules(Return(p, q, |a.subs|), a.subs[k].rules) == MergeTwo(a, b).subs[k].rules
  {
    MergedSubs(a, b, k);
    assert Numbered(p, a.subs[k], k);
    RulesReferHigher(p, a.subs[k].rules, if a.subs[k].kind.ListKind? then k + 1 else k, k + 1);
    ParentAvoids(p, q, a.subs[k].rules, k + 1);
    AvoidedUnchanged(p, q, |a.subs|, a.subs[k].rules);
  }

  lemma {:induction false} LaterSub(a: NonTerm, b: NonTerm, k: nat)
    requires k < |b.subs|
    ensures |a.subs| + k < |MergeTwo(a, b).subs|
    ensures MergeTwo(a, b).subs[|a.subs| + k].rules == ShiftRules(b.subs[k].rules, |a.subs|)
  {
    MergedSubs(a, b, |a.subs| + k);
  }

  lemma {:induction false} LaterSubRenamed(p: nat, q: nat, a: NonTerm, b: NonTerm, k: nat)
    requires Sound(p, a) && Sound(p, b) && p != q && k < |b.subs|
    ensures |a.subs| + k < |MergeTwo(a, b).subs|
    ensures RenameRules(Return(p, q, |a.subs|), RenameRules(Depart(p, q), b.subs[k].rules))
         == MergeTwo(a, b).subs[|a.subs| + k].rules
  {
    LaterSub(a, b, k);
    var rules := b.subs[k].rules;
    assert Numbered(p, b.subs[k], k);
    ApartAndBack(p, q, |a.subs|, rules, if b.subs[k].kind.ListKind? then k + 1 else k);
  }

  lemma {:induction false} MergeRenamesSymbol(g: Grammar, mg: Grammar, p: nat, q: nat, a: NonTerm, b: NonTerm, s: SymbolId)
    requires KeptApart(g, mg, p, q, a, b) && s in g
    ensures var f := Return(p, q, |a.subs|); f(s) in mg && mg[f(s)] == RenameRules(f, g[s])
  {
    if s == NonTerminal(Standard(p, Parser)) {
      RootRenamed(p, q, a, b);
    } else if OfParent(p, s) {
      EarlierSubRenamed(p, q, a, b, s.id.index);
    } else if OfParent(q, s) {
      LaterSubRenamed(p, q, a, b, s.id.index);
    } else {
      AvoidedUnchanged(p, q, |a.subs|, g[s]);
    }
  }

  lemma {:induction false} DepartRefers(p: nat, q: nat, rules: seq<Rule>, n: nat)
    requires RulesReferBelow(p, rules, n)
    ensures RulesReferBelow(q, RenameRules(Depart(p, q), rules), n)
  {
    var moved := RenameRules(Depart(p, q), rules);
    forall r, i | r in moved && 0 <= i < |r.symbols| && IsSubSymbol(r.symbols[i].id)
      ensures exists k: nat :: k < n && r.symbols[i].id == NonTerminal(Sub(q, k, Parser))
    {
      var j :| 0 <= j < |moved| && moved[j] == r;
      assert rules[j] in rules && RefersBelow(p, rules[j].symbols, n);
      var s := rules[j].symbols[i].id;
      assert r.symbols[i].id == Apart(p, q, s) && IsSubSymbol(s);
      var k: nat :| k < n && s == NonTerminal(Sub(p, k, Parser));
      assert r.symbols[i].id == NonTerminal(Sub(q, k, Parser));
    }
  }

  lemma {:induction false} StableEntry(g: Grammar, mg: Grammar, p: nat, q: nat, a: NonTerm, b: NonTerm, o: nat, k: nat)
    requires KeptApart(g, mg, p, q, a, b) && ((o == p && k < |a.subs|) || (o == q && k < |b.subs|))
    ensures Stable(g, mg, Return(p, q, |a.subs|), NonTerminal(Sub(o, k, Parser)))
  {
  }

  lemma {:induction false} StableForeign(g: Grammar, mg: Grammar, p: nat, q: nat, a: NonTerm, b: NonTerm, s: SymbolId)
    requires KeptApart(g, mg, p, q, a, b) && !OfParent(p, s) && !OfParent(q, s)
    ensures Stable(g, mg, Return(p, q, |a.subs|), s)
  {
  }

  /** The sub-non-terminals that a body refers to have rules when both grammars are set up as above. */
  lemma {:induction false} StableOwn(g: Grammar, mg: Grammar, p: nat, q: nat, a: NonTerm, b: NonTerm, o: nat, body: Body, n: nat)
    requires KeptApart(g, mg, p, q, a, b) && RefersBelow(o, body, n)
    requires (o == p && n <= |a.subs|) || (o == q && n <= |b.subs|)
    ensures StableBody(g, mg, Return(p, q, |a.subs|), body)
  {
    forall i | 0 <= i < |body|
      ensures Stable(g, mg, Return(p, q, |a.subs|), body[i].id)
    {
      if IsSubSymbol(body[i].id) {
        var k: nat :| k < n && body[i].id == NonTerminal(Sub(o, k, Parser));
        StableEntry(g, mg, p, q, a, b, o, k);
      } else {
        StableForeign(g, mg, p, q, a, b, body[i].id);
      }
    }
  }

  lemma {:induction false} StableOther(g: Grammar, mg: Grammar, p: nat, q: nat, a: NonTerm, b: NonTerm, rules: seq<Rule>, r: Rule)
    requires KeptApart(g, mg, p, q, a, b) && Avoids(p, rules) && Avoids(q, rules) && r in rules
    ensures StableBody(g, mg, Return(p, q, |a.subs|), r.symbols)
  {
    forall i | 0 <= i < |r.symbols|
      ensures Stable(g, mg, Return(p, q, |a.subs|), r.symbols[i].id)
    {
      StableForeign(g, mg, p, q, a, b, r.symbols[i].id);
    }
  }

  lemma {:induction false} StableRule(g: Grammar, mg: Grammar, p: nat, q: nat, a: NonTerm, b: NonTerm, s: SymbolId, r: Rule)
    requires KeptApart(g, mg, p, q, a, b) && s in g && r in g[s]
    ensures StableBody(g, mg, Return(p, q, |a.subs|), r.symbols)
  {
    if s == NonTerminal(Standard(p, Parser)) {
      DepartRefers(p, q, b.rules, |b.subs|);
      if r in a.rules {
        StableOwn(g, mg, p, q, a, b, p, r.symbols, |a.subs|);
      } else {
        StableOwn(g, mg, p, q, a, b, q, r.symbols, |b.subs|);
      }
    } else if OfParent(p, s) {
      var sub := a.subs[s.id.index];
      assert Numbered(p, sub, s.id.index);
      RulesReferHigher(p, sub.rules, if sub.kind.ListKind? then s.id.index + 1 else s.id.index, |a.subs|);
      StableOwn(g, mg, p, q, a, b, p, r.symbols, |a.subs|);
    } else if OfParent(q, s) {
      var sub := b.subs[s.id.index];
      assert Numbered(p, sub, s.id.index);
      RulesReferHigher(p, sub.rules, if sub.kind.ListKind? then s.id.index + 1 else s.id.index, |b.subs|);
      DepartRefers(p, q, sub.rules, |b.subs|);
      StableOwn(g, mg, p, q, a, b, q, r.symbols, |b.subs|);
    } else {
      StableOther(g, mg, p, q, a, b, g[s], r);
    }
  }

  /** Merging two definitions derives exactly what the definitions derive with their
      sub-non-terminals kept apart: no reference is captured and none is lost. */
  lemma {:induction false} MergingSameLanguage(
    g: Grammar, mg: Grammar, p: nat, q: nat, a: NonTerm, b: NonTerm, s: SymbolId, w: Word)
    requires KeptApart(g, mg, p, q, a, b) && s in g
    ensures SymDerives(g, s, w) <==> SymDerives(mg, Back(p, q, |a.subs|, s), w)
  {
    var f := Return(p, q, |a.subs|);
    assert IsRenaming(g, mg, f) by {
      forall x | x in g
        ensures f(x) in mg && mg[f(x)] == RenameRules(f, g[x])
      {
        MergeRenamesSymbol(g, mg, p, q, a, b, x);
      }
      forall x, r | x in g && r in g[x]
        ensures StableBody(g, mg, f, r.symbols)
      {
        StableRule(g, mg, p, q, a, b, x, r);
      }
    }
    RenamingSameLanguage(g, mg, f, s, w);
  }

  /** Collects the definitions, merging into an entry that is already there. */
  method MergeDefinitions(nterms: seq<NonTerm>) returns (out: map<NonTermId, NonTerm>)
    ensures out == MergeAll(nterms)
  {
    out := map[];
    assert nterms[..0] == [];
    for k := 0 to |nterms|
      invariant out == MergeAll(nterms[..k])
    {
      TakeOneMore(nterms, k);
      var n := nterms[k];
      if n.id in out {
        var merged := MergeInto(out[n.id], n);
        out := out[n.id := merged];
      } else {
        out := out[n.id := n];
      }
    }
    assert nterms[..|nterms|] == nterms;
  }

  method MergeInto(existing: NonTerm, n: NonTerm) returns (merged: NonTerm)
    ensures merged == MergeTwo(existing, n)
  {
    merged := existing;
    var offset := |existing.subs|;
    ghost var rules, subs := ShiftRules(n.rules, offset), ShiftSubs(n.subs, offset);
    for k := 0 to |n.rules|
      invariant merged == existing.(rules := existing.rules + rules[..k])
    {
      TakeOneMore(rules, k);
      merged := merged.(rules := merged.rules + [RenameRule(Shifting(offset), n.rules[k])]);
    }
    assert rules[..|rules|] == rules;
    for k := 0 to |n.subs|
      invariant merged == existing.(rules := existing.rules + rules, subs := existing.subs + subs[..k])
    {
      TakeOneMore(subs, k);
      var sub := n.subs[k].(id := ShiftId(n.subs[k].id, offset), rules := ShiftRules(n.subs[k].rules, offset));
      merged := merged.(subs := merged.subs + [sub]);
    }
    assert subs[..|subs|] == subs;
    merged := merged.(symbols := merged.symbols + n.symbols);
  }
}
