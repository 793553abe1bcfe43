/** Scanner rules are made from parser rules by renaming every non-terminal to its token form and by
    replacing immediate left recursion with right recursion through a fresh prime non-terminal
    (crates/radlr-core/grammar/build_database.rs:205-304, 764-794). */
module LeftRecursion {
  import opened Sequences
  import opened Symbols
  import opened Cfg

  // ----- renaming -----

  function TokSym(s: SymbolId): SymbolId {
    if s.NonTerminal? || s.NonTerminalToken? then s.id.AsTokSym() else s
  }

  function TokRef(s: SymbolRef): SymbolRef { s.(id := TokSym(s.id)) }

  function TokBody(b: Body): (t: Body)
    ensures |t| == |b| && forall i :: 0 <= i < |b| ==> t[i] == TokRef(b[i])
  {
    seq(|b|, i requires 0 <= i < |b| => TokRef(b[i]))
  }

  function TokRule(r: Rule): Rule { r.(symbols := TokBody(r.symbols)) }

  function TokRules(rules: seq<Rule>): (t: seq<Rule>)
    ensures |t| == |rules| && forall i :: 0 <= i < |t| ==> t[i] == TokRule(rules[i])
  {
    seq(|rules|, i requires 0 <= i < |rules| => TokRule(rules[i]))
  }

  // ----- splitting -----

  /** The test of the source: the first symbol is the non-terminal, in the very form it was queued in. */
  predicate Leads(q: NonTermId, r: Rule)
    requires r.symbols != []
  {
    r.symbols[0].id == NonTerminal(q)
  }

  predicate NoEmptyBody(rules: seq<Rule>) {
    forall r :: r in rules ==> r.symbols != []
  }

  /** The rules whose test has the given outcome, in order. */
  function Group(q: NonTermId, rules: seq<Rule>, leads: bool): (s: seq<Rule>)
    requires NoEmptyBody(rules)
    ensures forall r :: r in s <==> r in rules && Leads(q, r) == leads
  {
    if rules == [] then []
    else Group(q, Init(rules), leads) + if Leads(q, Last(rules)) == leads then [Last(rules)] else []
  }

  function WithTail(r: Rule, tail: SymbolRef): Rule { r.(symbols := r.symbols + [tail]) }

  function AllWithTail(rules: seq<Rule>, tail: SymbolRef): (t: seq<Rule>)
    ensures |t| == |rules| && forall i :: 0 <= i < |t| ==> t[i] == WithTail(rules[i], tail)
  {
    seq(|rules|, i requires 0 <= i < |rules| => WithTail(rules[i], tail))
  }

  function WithoutHead(r: Rule): Rule
    requires r.symbols != []
  {
    r.(symbols := r.symbols[1..])
  }

  /** For every left-recursive rule `A > A x`, the rules `x` and `x A'`. */
  function PrimeRules(rules: seq<Rule>, tail: SymbolRef): (t: seq<Rule>)
    requires NoEmptyBody(rules)
    ensures forall r :: r in t <==>
              exists o :: o in rules && (r == WithoutHead(o) || r == WithTail(WithoutHead(o), tail))
  {
    if rules == [] then []
    else
      var o := Last(rules);
      SplitLast(rules);
      PrimeRules(Init(rules), tail) + [WithoutHead(o), WithTail(WithoutHead(o), tail)]
  }

  datatype TokenRules =
    | Plain(rules: seq<Rule>)
    | Primed(rules: seq<Rule>, primeRules: seq<Rule>)
    | NoBaseRule

  function PrimeRef(prime: NonTermId): SymbolRef { SymbolRef(prime.AsTokSym(), "", 0) }

  /** The scanner rules of a queued non-terminal. */
  function ToTokenRules(q: NonTermId, rules: seq<Rule>, prime: NonTermId): TokenRules
    requires NoEmptyBody(rules)
  {
    var recursive, base := Group(q, rules, true), Group(q, rules, false);
    if recursive == [] then Plain(TokRules(rules))
    else if base == [] then NoBaseRule
    else
      Primed(TokRules(base + AllWithTail(base, PrimeRef(prime))),
             TokRules(PrimeRules(recursive, PrimeRef(prime))))
  }

  /** Every rule goes to one side of the test, as often as it is there. */
  lemma {:induction false} GroupsSplit(q: NonTermId, rules: seq<Rule>)
    requires NoEmptyBody(rules)
    ensures multiset(Group(q, rules, true)) + multiset(Group(q, rules, false)) == multiset(rules)
  {
    if rules != [] {
      GroupsSplit(q, Init(rules));
      SplitLast(rules);
    }
  }

  // ----- what the scanner rules keep of a rule -----

  /** The symbols, in token form, with their names and positions. */
  ghost predicate SameRefs(b: Body, t: Body) {
    |t| == |b| && forall i :: 0 <= i < |b| ==>
      t[i].annotation == b[i].annotation && t[i].originalIndex == b[i].originalIndex
      && if IsReference(b[i].id) then t[i].id == b[i].id.id.AsTokSym() else t[i].id == b[i].id
  }

  /** A scanner rule made of `r`, without its first symbol if that leads, and with or without the prime behind it. */
  ghost predicate KeepsRule(q: NonTermId, r: Rule, prime: NonTermId, m: Rule)
    requires r.symbols != []
  {
    && m.ast == r.ast && m.skipped == r.skipped
    && exists t :: (m.symbols == t || m.symbols == t + [SymbolRef(prime.AsTokSym(), "", 0)])
                   && SameRefs(if Leads(q, r) then r.symbols[1..] else r.symbols, t)
  }

  lemma {:induction false} FormKeeps(q: NonTermId, r: Rule, prime: NonTermId, f: Rule)
    requires r.symbols != []
    requires var o := if Leads(q, r) then WithoutHead(r) else r; f == o || f == WithTail(o, PrimeRef(prime))
    ensures KeepsRule(q, r, prime, TokRule(f))
  {
    var o := if Leads(q, r) then WithoutHead(r) else r;
    assert SameRefs(o.symbols, TokBody(o.symbols));
    TokBodyTail(o.symbols, PrimeRef(prime));
  }

  /** Every scanner rule is made of a rule of the non-terminal and keeps its action, its skipped symbols, and the names
      and positions of its symbols. */
  lemma {:induction false} RulesKept(q: NonTermId, rules: seq<Rule>, prime: NonTermId, m: Rule)
    requires NoEmptyBody(rules)
    requires match ToTokenRules(q, rules, prime)
             case Plain(t) => m in t
             case Primed(t, p) => m in t || m in p
             case NoBaseRule => false
    ensures exists r :: r in rules && KeepsRule(q, r, prime, m)
  {
    var recursive, base, tail := Group(q, rules, true), Group(q, rules, false), PrimeRef(prime);
    if recursive == [] {
      var r := TokRuleFrom(rules, m);
      assert !Leads(q, r);
      FormKeeps(q, r, prime, r);
    } else if m in TokRules(base + AllWithTail(base, tail)) {
      var f := TokRuleFrom(base + AllWithTail(base, tail), m);
      var r := f;
      if f !in base {
        r := WithTailFrom(base, tail, f);
      }
      FormKeeps(q, r, prime, f);
    } else {
      var f := TokRuleFrom(PrimeRules(recursive, tail), m);
      var r :| r in recursive && (f == WithoutHead(r) || f == WithTail(WithoutHead(r), tail));
      FormKeeps(q, r, prime, f);
    }
  }

  // ----- the two grammars -----

  /** A grammar in which `A` and its token form `tk:A` have the same rules, none of them empty. */
  ghost predicate IsSource(g: Grammar) {
    && (forall s :: s in g ==> NoEmptyBody(g[s]) && (s.NonTerminal? || s.NonTerminalToken?))
    && (forall s {:trigger TokSym(s)} :: s in g ==> TokSym(s) in g && g[TokSym(s)] == g[s])
  }

  /** A symbol is a non-terminal of the source, or stands for itself on both sides. */
  ghost predicate Known(g: Grammar, tg: Grammar, s: SymbolId) {
    s in g || (TokSym(s) == s && s !in tg)
  }

  ghost predicate Within(g: Grammar, tg: Grammar, b: Body) {
    forall i :: 0 <= i < |b| ==> Known(g, tg, b[i].id)
  }

  /** The queue entry and the prime identity that each token non-terminal was made from. */
  type Makers = map<SymbolId, (NonTermId, NonTermId)>

  /** `t` has the scanner rules made from its queue entry with its prime. */
  ghost predicate MadeFrom(g: Grammar, tg: Grammar, mk: Makers, t: SymbolId) {
    && t in mk && t in g && t in tg && NoEmptyBody(g[t])
    && var (q, prime) := mk[t];
       && t == q.AsTokSym()
       && match ToTokenRules(q, g[t], prime)
          case Plain(rules) => tg[t] == rules
          case Primed(rules, primeRules) =>
            && NonTerminal(q) in g && g[NonTerminal(q)] == g[t]
            && prime.AsTokSym() !in g && prime.AsTokSym() in tg
            && tg[t] == rules && tg[prime.AsTokSym()] == primeRules
          case NoBaseRule => false
  }

  /** Every non-terminal of `g` has its scanner rules in `tg`, and every symbol of a rule of `g` is
      known. */
  ghost predicate IsTokenForm(g: Grammar, tg: Grammar, mk: Makers) {
    && IsSource(g)
    && (forall t {:trigger MadeFrom(g, tg, mk, t)} :: t in g && t.NonTerminalToken? ==> MadeFrom(g, tg, mk, t))
    && (forall s, r :: s in g && r in g[s] ==> Within(g, tg, r.symbols))
  }

  /** The prime symbol of a token non-terminal, and the test for its left-recursive rules. */
  ghost function PrimeOf(mk: Makers, t: SymbolId): SymbolRef {
    if t in mk then PrimeRef(mk[t].1) else PrimeRef(Standard(0, Scanner))
  }

  ghost predicate IsLeading(mk: Makers, t: SymbolId, r: Rule) {
    t in mk && r.symbols != [] && Leads(mk[t].0, r)
  }

  ghost predicate HasPrime(g: Grammar, mk: Makers, t: SymbolId) {
    t in g && exists r :: r in g[t] && IsLeading(mk, t, r)
  }

  lemma {:induction false} TokBodySnoc(b: Body)
    requires b != []
    ensures Init(TokBody(b)) == TokBody(Init(b)) && Last(TokBody(b)) == TokRef(Last(b))
  {
  }

  lemma {:induction false} TokBodyTail(b: Body, tail: SymbolRef)
    requires TokRef(tail) == tail
    ensures TokBody(b + [tail]) == TokBody(b) + [tail]
  {
  }

  // ----- the scanner rules, rule by rule -----

  lemma {:induction false} TokRuleIn(rules: seq<Rule>, r: Rule)
    requires r in rules
    ensures TokRule(r) in TokRules(rules)
  {
    var i :| 0 <= i < |rules| && rules[i] == r;
    assert TokRules(rules)[i] == TokRule(r);
  }

  lemma {:induction false} TokRuleFrom(rules: seq<Rule>, t: Rule) returns (r: Rule)
    requires t in TokRules(rules)
    ensures r in rules && t == TokRule(r)
  {
    var i :| 0 <= i < |rules| && TokRules(rules)[i] == t;
    r := rules[i];
  }

  lemma {:induction false} WithTailIn(rules: seq<Rule>, tail: SymbolRef, r: Rule)
    requires r in rules
    ensures WithTail(r, tail) in AllWithTail(rules, tail)
  {
    var i :| 0 <= i < |rules| && rules[i] == r;
    assert AllWithTail(rules, tail)[i] == WithTail(r, tail);
  }

  lemma {:induction false} WithTailFrom(rules: seq<Rule>, tail: SymbolRef, t: Rule) returns (r: Rule)
    requires t in AllWithTail(rules, tail)
    ensures r in rules && t == WithTail(r, tail)
  {
    var i :| 0 <= i < |rules| && AllWithTail(rules, tail)[i] == t;
    r := rules[i];
  }

  /** A rule as it reappears in the scanner: alone, or followed by the prime non-terminal. */
  function Form(r: Rule, tail: SymbolRef, continued: bool): Rule {
    if continued then WithTail(r, tail) else r
  }

  lemma {:induction false} Outcome(g: Grammar, tg: Grammar, mk: Makers, t: SymbolId)
    requires MadeFrom(g, tg, mk, t)
    ensures ToTokenRules(mk[t].0, g[t], mk[t].1).Primed? <==> HasPrime(g, mk, t)
    ensures ToTokenRules(mk[t].0, g[t], mk[t].1).Plain? <==> !HasPrime(g, mk, t)
  {
    var recursive := Group(mk[t].0, g[t], true);
    if recursive != [] {
      assert recursive[0] in recursive && IsLeading(mk, t, recursive[0]);
    }
  }

  lemma {:induction false} MainRule(g: Grammar, tg: Grammar, mk: Makers, t: SymbolId, r: Rule, continued: bool)
    requires MadeFrom(g, tg, mk, t) && r in g[t] && !IsLeading(mk, t, r)
    requires continued ==> HasPrime(g, mk, t)
    ensures TokRule(Form(r, PrimeOf(mk, t), continued)) in tg[t]
  {
    Outcome(g, tg, mk, t);
    var tail, base := PrimeOf(mk, t), Group(mk[t].0, g[t], false);
    if HasPrime(g, mk, t) {
      if continued {
        WithTailIn(base, tail, r);
      }
      TokRuleIn(base + AllWithTail(base, tail), Form(r, tail, continued));
    } else {
      TokRuleIn(g[t], r);
    }
  }

  lemma {:induction false} MainRuleFrom(g: Grammar, tg: Grammar, mk: Makers, t: SymbolId, m: Rule) returns (r: Rule, continued: bool)
    requires MadeFrom(g, tg, mk, t) && m in tg[t]
    ensures r in g[t] && m == TokRule(Form(r, PrimeOf(mk, t), continued))
    ensures continued ==> HasPrime(g, mk, t)
    ensures !IsLeading(mk, t, r)
  {
    Outcome(g, tg, mk, t);
    var tail, base := PrimeOf(mk, t), Group(mk[t].0, g[t], false);
    continued := false;
    if HasPrime(g, mk, t) {
      var f := TokRuleFrom(base + AllWithTail(base, tail), m);
      if f in base {
        r := f;
      } else {
        r := WithTailFrom(base, tail, f);
        continued := true;
      }
    } else {
      r := TokRuleFrom(g[t], m);
    }
  }

  lemma {:induction false} PrimeRule(g: Grammar, tg: Grammar, mk: Makers, t: SymbolId, r: Rule, continued: bool)
    requires MadeFrom(g, tg, mk, t) && r in g[t] && IsLeading(mk, t, r)
    ensures r.symbols != [] && PrimeOf(mk, t).id in tg
    ensures TokRule(Form(WithoutHead(r), PrimeOf(mk, t), continued)) in tg[PrimeOf(mk, t).id]
    ensures HasPrime(g, mk, t) && r.symbols[0].id in g && g[r.symbols[0].id] == g[t] && TokSym(r.symbols[0].id) == t
  {
    assert HasPrime(g, mk, t);
    Outcome(g, tg, mk, t);
    var source := PrimeRules(Group(mk[t].0, g[t], true), PrimeOf(mk, t));
    TokRuleIn(source, Form(WithoutHead(r), PrimeOf(mk, t), continued));
  }

  lemma {:induction false} PrimeRuleFrom(g: Grammar, tg: Grammar, mk: Makers, t: SymbolId, m: Rule) returns (r: Rule, continued: bool)
    requires MadeFrom(g, tg, mk, t) && HasPrime(g, mk, t) && PrimeOf(mk, t).id in tg && m in tg[PrimeOf(mk, t).id]
    ensures r in g[t] && IsLeading(mk, t, r) && r.symbols != []
    ensures m == TokRule(Form(WithoutHead(r), PrimeOf(mk, t), continued))
  {
    Outcome(g, tg, mk, t);
    var tail := PrimeOf(mk, t);
    var recursive := Group(mk[t].0, g[t], true);
    var f := TokRuleFrom(PrimeRules(recursive, tail), m);
    r :| r in recursive && (f == WithoutHead(r) || f == WithTail(WithoutHead(r), tail));
    continued := f != WithoutHead(r);
  }

  /** Derivations from the scanner form of a rule, with or without the prime non-terminal after it. */
  lemma {:induction false} FormDerives(tg: Grammar, r: Rule, mk: Makers, t: SymbolId, continued: bool, u: Word, v: Word) returns (m: Rule)
    requires Derives(tg, TokBody(r.symbols), u)
    requires if continued then SymDerives(tg, PrimeOf(mk, t).id, v) else v == []
    ensures m == TokRule(Form(r, PrimeOf(mk, t), continued)) && Derives(tg, m.symbols, u + v)
  {
    m := TokRule(Form(r, PrimeOf(mk, t), continued));
    if continued {
      TokBodyTail(r.symbols, PrimeOf(mk, t));
      Snoc(tg, TokBody(r.symbols), PrimeOf(mk, t), u, v);
    } else {
      assert u + v == u;
    }
  }

  lemma {:induction false} FormSplits(tg: Grammar, m: Rule, r: Rule, mk: Makers, t: SymbolId, continued: bool, w: Word, h: nat)
    returns (u: Word, v: Word)
    requires m == TokRule(Form(r, PrimeOf(mk, t), continued)) && DerivesIn(tg, m.symbols, w, h)
    ensures w == u + v && DerivesIn(tg, TokBody(r.symbols), u, h)
    ensures if continued then SymDerivesIn(tg, PrimeOf(mk, t).id, v, h) else v == []
  {
    if continued {
      TokBodyTail(r.symbols, PrimeOf(mk, t));
      u, v := UnsnocIn(tg, TokBody(r.symbols), PrimeOf(mk, t), w, h);
    } else {
      u, v := w, [];
    }
  }

  // ----- parser derivations are scanner derivations -----

  lemma {:induction false} RulesWithin(g: Grammar, tg: Grammar, mk: Makers, s: SymbolId, r: Rule)
    requires IsTokenForm(g, tg, mk) && s in g && r in g[s]
    ensures Within(g, tg, r.symbols) && r.symbols != []
    ensures Within(g, tg, r.symbols[1..])
  {
  }

  lemma {:induction false} Maker(g: Grammar, tg: Grammar, mk: Makers, s: SymbolId)
    requires IsTokenForm(g, tg, mk) && s in g
    ensures TokSym(s) in g && g[TokSym(s)] == g[s] && MadeFrom(g, tg, mk, TokSym(s))
  {
  }

  lemma {:induction false} BodyForward(g: Grammar, tg: Grammar, mk: Makers, b: Body, w: Word, h: nat)
    requires IsTokenForm(g, tg, mk) && Within(g, tg, b) && DerivesIn(g, b, w, h)
    ensures Derives(tg, TokBody(b), w)
    decreases h, 2, |b|
  {
    if b == [] {
      Nothing(tg);
    } else {
      SplitLast(b);
      var u, v := UnsnocIn(g, Init(b), Last(b), w, h);
      BodyForward(g, tg, mk, Init(b), u, h);
      assert Last(b) == b[|b| - 1];
      SymForward(g, tg, mk, Last(b).id, v, h);
      TokBodySnoc(b);
      SplitLast(TokBody(b));
      Snoc(tg, TokBody(Init(b)), TokRef(Last(b)), u, v);
    }
  }

  lemma {:induction false} SymForward(g: Grammar, tg: Grammar, mk: Makers, s: SymbolId, w: Word, h: nat)
    requires IsTokenForm(g, tg, mk) && Known(g, tg, s) && SymDerivesIn(g, s, w, h)
    ensures SymDerives(tg, TokSym(s), w)
    decreases h, 1, 0
  {
    if s in g {
      assert w + [] == w;
      Spine(g, tg, mk, s, w, [], false, h);
    } else {
      Terminal(tg, s, w);
    }
  }

  /** A left-recursive derivation of `u`, continued by the prime non-terminal deriving `v`. */
  lemma {:induction false} Spine(
    g: Grammar, tg: Grammar, mk: Makers, s: SymbolId, u: Word, v: Word, continued: bool, h: nat)
    requires IsTokenForm(g, tg, mk) && s in g && SymDerivesIn(g, s, u, h)
    requires if continued then HasPrime(g, mk, TokSym(s)) && SymDerives(tg, PrimeOf(mk, TokSym(s)).id, v) else v == []
    ensures SymDerives(tg, TokSym(s), u + v)
    decreases h, 0, 0
  {
    var t := TokSym(s);
    var r := RuleUsed(g, s, u, h);
    RulesWithin(g, tg, mk, s, r);
    Maker(g, tg, mk, s);
    if IsLeading(mk, t, r) {
      var u1, u2 := HeadSplitIn(g, r.symbols, u, h - 1);
      BodyForward(g, tg, mk, r.symbols[1..], u2, h - 1);
      PrimeRule(g, tg, mk, t, r, continued);
      var m := FormDerives(tg, WithoutHead(r), mk, t, continued, u2, v);
      ByRule(tg, PrimeOf(mk, t).id, m, u2 + v);
      Spine(g, tg, mk, r.symbols[0].id, u1, u2 + v, true, h - 1);
      Assoc(u1, u2, v);
    } else {
      BodyForward(g, tg, mk, r.symbols, u, h - 1);
      MainRule(g, tg, mk, t, r, continued);
      var m := FormDerives(tg, r, mk, t, continued, u, v);
      ByRule(tg, t, m, u + v);
    }
  }

  // ----- scanner derivations are parser derivations -----

  lemma {:induction false} TokUnsnoc(tg: Grammar, b: Body, w: Word, h: nat) returns (u: Word, v: Word)
    requires b != [] && DerivesIn(tg, TokBody(b), w, h)
    ensures w == u + v && DerivesIn(tg, TokBody(Init(b)), u, h) && SymDerivesIn(tg, TokSym(Last(b).id), v, h)
  {
    TokBodySnoc(b);
    SplitLast(TokBody(b));
    u, v := UnsnocIn(tg, TokBody(Init(b)), TokRef(Last(b)), w, h);
  }

  lemma {:induction false} MainSplit(g: Grammar, tg: Grammar, mk: Makers, t: SymbolId, w: Word, h: nat)
    returns (r: Rule, continued: bool, u: Word, v: Word)
    requires MadeFrom(g, tg, mk, t) && SymDerivesIn(tg, t, w, h)
    ensures h > 0 && w == u + v && r in g[t] && DerivesIn(tg, TokBody(r.symbols), u, h - 1)
    ensures if continued then HasPrime(g, mk, t) && SymDerivesIn(tg, PrimeOf(mk, t).id, v, h - 1) else v == []
  {
    var m := RuleUsed(tg, t, w, h);
    r, continued := MainRuleFrom(g, tg, mk, t, m);
    u, v := FormSplits(tg, m, r, mk, t, continued, w, h - 1);
  }

  lemma {:induction false} PrimeSplit(g: Grammar, tg: Grammar, mk: Makers, t: SymbolId, w: Word, h: nat)
    returns (r: Rule, continued: bool, u: Word, v: Word)
    requires MadeFrom(g, tg, mk, t) && HasPrime(g, mk, t) && SymDerivesIn(tg, PrimeOf(mk, t).id, w, h)
    ensures h > 0 && w == u + v && r in g[t] && IsLeading(mk, t, r) && r.symbols != []
    ensures DerivesIn(tg, TokBody(r.symbols[1..]), u, h - 1)
    ensures if continued then SymDerivesIn(tg, PrimeOf(mk, t).id, v, h - 1) else v == []
  {
    PrimeHasRules(g, tg, mk, t);
    var m := RuleUsed(tg, PrimeOf(mk, t).id, w, h);
    r, continued := PrimeRuleFrom(g, tg, mk, t, m);
    u, v := FormSplits(tg, m, WithoutHead(r), mk, t, continued, w, h - 1);
  }

  lemma {:induction false} BodyBackward(g: Grammar, tg: Grammar, mk: Makers, b: Body, w: Word, h: nat)
    requires IsTokenForm(g, tg, mk) && Within(g, tg, b) && DerivesIn(tg, TokBody(b), w, h)
    ensures Derives(g, b, w)
    decreases h, 2, |b|
  {
    if b == [] {
      Nothing(g);
    } else {
      var u, v := TokUnsnoc(tg, b, w, h);
      BodyBackward(g, tg, mk, Init(b), u, h);
      assert Last(b) == b[|b| - 1];
      SymBackward(g, tg, mk, Last(b).id, v, h);
      Snoc(g, Init(b), Last(b), u, v);
      SplitLast(b);
    }
  }

  lemma {:induction false} SymBackward(g: Grammar, tg: Grammar, mk: Makers, s: SymbolId, w: Word, h: nat)
    requires IsTokenForm(g, tg, mk) && Known(g, tg, s) && SymDerivesIn(tg, TokSym(s), w, h)
    ensures SymDerives(g, s, w)
    decreases h, 1, 0
  {
    if s in g {
      var t := TokSym(s);
      Maker(g, tg, mk, s);
      var r, continued, u, v := MainSplit(g, tg, mk, t, w, h);
      RulesWithin(g, tg, mk, t, r);
      BodyBackward(g, tg, mk, r.symbols, u, h - 1);
      ByRule(g, s, r, u);
      if continued {
        PrimeBackward(g, tg, mk, s, u, v, h - 1);
      } else {
        assert u + v == u;
      }
    } else {
      Terminal(g, s, w);
    }
  }

  /** Whatever the prime non-terminal derives can follow anything that the non-terminal derives. */
  lemma {:induction false} PrimeBackward(
    g: Grammar, tg: Grammar, mk: Makers, s: SymbolId, u: Word, v: Word, h: nat)
    requires IsTokenForm(g, tg, mk) && s in g && HasPrime(g, mk, TokSym(s))
    requires SymDerives(g, s, u) && SymDerivesIn(tg, PrimeOf(mk, TokSym(s)).id, v, h)
    ensures SymDerives(g, s, u + v)
    decreases h, 0, 0
  {
    var t := TokSym(s);
    Maker(g, tg, mk, s);
    var r, continued, v1, v2 := PrimeSplit(g, tg, mk, t, v, h);
    RulesWithin(g, tg, mk, t, r);
    BodyBackward(g, tg, mk, r.symbols[1..], v1, h - 1);
    PrimeRule(g, tg, mk, t, r, continued);
    Prepend(g, s, r, u, v1);
    if continued {
      PrimeBackward(g, tg, mk, s, u + v1, v2, h - 1);
      Assoc(u, v1, v2);
    } else {
      assert v1 + v2 == v1;
    }
  }

  lemma {:induction false} PrimeHasRules(g: Grammar, tg: Grammar, mk: Makers, t: SymbolId)
    requires MadeFrom(g, tg, mk, t) && HasPrime(g, mk, t)
    ensures PrimeOf(mk, t).id in tg
  {
    var r :| r in g[t] && IsLeading(mk, t, r);
    PrimeRule(g, tg, mk, t, r, false);
  }

  lemma {:induction false} Prepend(g: Grammar, s: SymbolId, r: Rule, u: Word, v: Word)
    requires s in g && r in g[s] && r.symbols != [] && r.symbols[0].id in g && g[r.symbols[0].id] == g[s]
    requires SymDerives(g, s, u) && Derives(g, r.symbols[1..], v)
    ensures SymDerives(g, s, u + v)
  {
    ByRules(g, s, u);
    ByRules(g, r.symbols[0].id, u);
    Single(g, r.symbols[0], u);
    Concat(g, [r.symbols[0]], r.symbols[1..], u, v);
    SplitFirst(r.symbols);
    ByRule(g, s, r, u + v);
  }

  // ----- the results -----

  /** Renaming to token form and removing left recursion preserve the language of every symbol. */
  lemma {:induction false} SameLanguage(g: Grammar, tg: Grammar, mk: Makers, s: SymbolId, w: Word)
    requires IsTokenForm(g, tg, mk) && Known(g, tg, s)
    ensures SymDerives(g, s, w) <==> SymDerives(tg, TokSym(s), w)
  {
    if h: nat :| SymDerivesIn(g, s, w, h) {
      SymForward(g, tg, mk, s, w, h);
    }
    if h: nat :| SymDerivesIn(tg, TokSym(s), w, h) {
      SymBackward(g, tg, mk, s, w, h);
    }
  }

  ghost predicate StartsWith(rules: seq<Rule>, t: SymbolId) {
    exists r :: r in rules && r.symbols != [] && r.symbols[0].id == t
  }

  /** The rule begins with the non-terminal being converted, written in any of its forms. */
  ghost predicate IsLeftRecursive(q: NonTermId, r: Rule) {
    r.symbols != [] && TokSym(r.symbols[0].id) == q.AsTokSym()
  }

  lemma {:induction false} FormHead(r: Rule, tail: SymbolRef)
    requires r.symbols != []
    ensures TokRule(r).symbols != [] && TokRule(r).symbols[0].id == TokSym(r.symbols[0].id)
    ensures TokRule(WithTail(r, tail)).symbols != []
         && TokRule(WithTail(r, tail)).symbols[0].id == TokSym(r.symbols[0].id)
  {
  }

  /** The scanner rules of a non-terminal are still immediately left recursive exactly when one of its
      rules begins with the non-terminal in a form that the test does not recognise. */
  lemma {:induction false} StillLeftRecursive(q: NonTermId, rules: seq<Rule>, prime: NonTermId)
    requires NoEmptyBody(rules) && !ToTokenRules(q, rules, prime).NoBaseRule?
    ensures StartsWith(ToTokenRules(q, rules, prime).rules, q.AsTokSym())
       <==> exists r :: r in rules && IsLeftRecursive(q, r) && !Leads(q, r)
  {
    var t, tail := q.AsTokSym(), PrimeRef(prime);
    var made, base := ToTokenRules(q, rules, prime).rules, Group(q, rules, false);
    var source := if ToTokenRules(q, rules, prime).Plain? then rules else base + AllWithTail(base, tail);
    if StartsWith(made, t) {
      var m :| m in made && m.symbols != [] && m.symbols[0].id == t;
      var f := TokRuleFrom(source, m);
      if f in base {
        FormHead(f, tail);
        assert IsLeftRecursive(q, f);
      } else if ToTokenRules(q, rules, prime).Primed? {
        var r := WithTailFrom(base, tail, f);
        FormHead(r, tail);
        assert IsLeftRecursive(q, r);
      }
    }
    if r :| r in rules && IsLeftRecursive(q, r) && !Leads(q, r) {
      assert r in source;
      TokRuleIn(source, r);
      FormHead(r, tail);
    }
  }

  /** With the queue entry and the references in parser form, nothing is left recursive. */
  lemma {:induction false} NotLeftRecursive(q: NonTermId, rules: seq<Rule>, prime: NonTermId)
    requires NoEmptyBody(rules) && !ToTokenRules(q, rules, prime).NoBaseRule?
    requires q.sub == Parser
    requires forall r :: r in rules && IsLeftRecursive(q, r) ==>
               r.symbols[0].id.NonTerminal? && r.symbols[0].id.id.sub == Parser
    ensures !StartsWith(ToTokenRules(q, rules, prime).rules, q.AsTokSym())
  {
    StillLeftRecursive(q, rules, prime);
  }

  lemma {:induction false} GroupEmpty(q: NonTermId, rules: seq<Rule>, leads: bool)
    requires NoEmptyBody(rules)
    ensures Group(q, rules, leads) == [] <==> forall r :: r in rules ==> Leads(q, r) != leads
  {
    if rules != [] {
      SplitLast(rules);
      GroupEmpty(q, Init(rules), leads);
    }
  }

  lemma {:induction false} AllLead(q: NonTermId, rules: seq<Rule>)
    requires NoEmptyBody(rules) && ToTokenRules(q, rules, q).NoBaseRule?
    ensures forall r :: r in rules ==> r.symbols[0].id == NonTerminal(q)
  {
    GroupEmpty(q, rules, false);
  }

  /** The prime rules are left recursive exactly when some left-recursive rule has nothing after its
      first symbol. */
  lemma {:induction false} PrimeLeftRecursive(q: NonTermId, rules: seq<Rule>, prime: NonTermId)
    requires NoEmptyBody(rules) && ToTokenRules(q, rules, prime).Primed?
    requires forall r, i :: r in rules && 0 <= i < |r.symbols| ==> TokSym(r.symbols[i].id) != prime.AsTokSym()
    ensures StartsWith(ToTokenRules(q, rules, prime).primeRules, prime.AsTokSym())
       <==> exists r :: r in rules && Leads(q, r) && |r.symbols| == 1
  {
    if StartsWith(ToTokenRules(q, rules, prime).primeRules, prime.AsTokSym()) {
      var r := PrimeLoopFrom(q, rules, prime);
    }
    if r :| r in rules && Leads(q, r) && |r.symbols| == 1 {
      PrimeLoopIn(q, rules, prime, r);
    }
  }

  lemma {:induction false} PrimeLoopFrom(q: NonTermId, rules: seq<Rule>, prime: NonTermId) returns (r: Rule)
    requires NoEmptyBody(rules) && ToTokenRules(q, rules, prime).Primed?
    requires forall r, i :: r in rules && 0 <= i < |r.symbols| ==> TokSym(r.symbols[i].id) != prime.AsTokSym()
    requires StartsWith(ToTokenRules(q, rules, prime).primeRules, prime.AsTokSym())
    ensures r in rules && Leads(q, r) && |r.symbols| == 1
  {
    var t, tail := prime.AsTokSym(), PrimeRef(prime);
    var source := PrimeRules(Group(q, rules, true), tail);
    var m :| m in TokRules(source) && m.symbols != [] && m.symbols[0].id == t;
    var f := TokRuleFrom(source, m);
    r :| r in Group(q, rules, true) && (f == WithoutHead(r) || f == WithTail(WithoutHead(r), tail));
    if |r.symbols| > 1 {
      assert TokSym(r.symbols[1].id) != t;
      FormHead(WithoutHead(r), tail);
    }
  }

  lemma {:induction false} PrimeLoopIn(q: NonTermId, rules: seq<Rule>, prime: NonTermId, r: Rule)
    requires NoEmptyBody(rules) && ToTokenRules(q, rules, prime).Primed?
    requires r in rules && Leads(q, r) && |r.symbols| == 1
    ensures StartsWith(ToTokenRules(q, rules, prime).primeRules, prime.AsTokSym())
  {
    var recursive, tail := Group(q, rules, true), PrimeRef(prime);
    var source, f := PrimeRules(recursive, tail), WithTail(WithoutHead(r), tail);
    assert r in recursive && f in source && f.symbols == [tail];
    TokRuleIn(source, f);
  }

  /** Conversion gives up only on a non-terminal that derives nothing at all. */
  lemma {:induction false} NoBaseRuleDerivesNothing(g: Grammar, q: NonTermId, w: Word, h: nat)
    requires NonTerminal(q) in g && NoEmptyBody(g[NonTerminal(q)])
    requires ToTokenRules(q, g[NonTerminal(q)], q).NoBaseRule?
    ensures !SymDerivesIn(g, NonTerminal(q), w, h)
    decreases h
  {
    if SymDerivesIn(g, NonTerminal(q), w, h) {
      AllLead(q, g[NonTerminal(q)]);
      var u := LeadingStep(g, NonTerminal(q), w, h);
      NoBaseRuleDerivesNothing(g, q, u, h - 1);
    }
  }

  lemma {:induction false} LeadingStep(g: Grammar, s: SymbolId, w: Word, h: nat) returns (u: Word)
    requires s in g && NoEmptyBody(g[s]) && forall r :: r in g[s] ==> r.symbols[0].id == s
    requires SymDerivesIn(g, s, w, h)
    ensures h > 0 && SymDerivesIn(g, s, u, h - 1)
  {
    var r := RuleUsed(g, s, w, h);
    var v;
    u, v := HeadSplitIn(g, r.symbols, w, h - 1);
  }
}
