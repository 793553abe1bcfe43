/** What the second worklist leaves behind: every reference of a scanner rule is indexed, and each token
    non-terminal derives what its source derives. */
module TokenClosure {
  import opened Sequences
  import opened Symbols
  import opened Cfg
  import opened Inline
  import opened LeftRecursion
  import opened Tables
  import opened ParserWorklist
  import opened ParserClosure
  import opened TokenWorklist

  /** The parser form of a token symbol. */
  function ParseOf(t: SymbolId): SymbolId
    requires t.NonTerminalToken?
  {
    t.id.AsSym()
  }

  /** Every entry is a token symbol with a source. */
  ghost predicate TokenKeys(env: Env, mk: Makers) {
    forall t :: t in mk ==> t.NonTerminalToken? && t.id.sub == Scanner && Sourced(env, mk[t].0)
  }

  function ParseForms(tokens: set<SymbolId>): set<SymbolId> {
    set t | t in tokens && t.NonTerminalToken? :: ParseOf(t)
  }

  /** The grammar that the scanner rules were made from: the sources of all token non-terminals, under both
      their forms. */
  ghost function Sources(env: Env, mk: Makers): Grammar
    requires WellFormed(env)
  {
    map s | s in mk.Keys + ParseForms(mk.Keys) && TokSym(s) in mk && Sourced(env, mk[TokSym(s)].0) ::
      TokenSource(env, mk[TokSym(s)].0)
  }

  lemma {:induction false} KeysAreTokens(env: Env, before: Grammar, made: Grammar, mk: Makers)
    requires WellFormed(env) && TokenTables(env, before, made, mk)
    ensures TokenKeys(env, mk)
  {
    forall t | t in mk
      ensures t.NonTerminalToken? && t.id.sub == Scanner && Sourced(env, mk[t].0)
    {
      assert TokenMade(env, made, mk, t);
    }
  }

  lemma {:induction false} KeyForms(mk: Makers, s: SymbolId)
    requires forall t :: t in mk ==> t.NonTerminalToken? && t.id.sub == Scanner
    ensures s in mk.Keys + ParseForms(mk.Keys) <==> s in mk || (s.NonTerminal? && s.id.sub == Parser && TokSym(s) in mk)
    ensures s in mk.Keys + ParseForms(mk.Keys) ==> TokSym(s) in mk
  {
    if s.NonTerminal? && s.id.sub == Parser && TokSym(s) in mk {
      assert ParseOf(TokSym(s)) == s;
    }
    if s in mk {
      assert TokSym(s) == s;
    }
  }

  lemma {:induction false} SourceKeys(env: Env, mk: Makers, s: SymbolId)
    requires WellFormed(env) && TokenKeys(env, mk)
    ensures s in Sources(env, mk) <==> s in mk || (s.NonTerminal? && s.id.sub == Parser && TokSym(s) in mk)
    ensures s in Sources(env, mk) ==> TokSym(s) in mk && Sources(env, mk)[s] == TokenSource(env, mk[TokSym(s)].0)
  {
    KeyForms(mk, s);
  }

  /** A symbol that a source refers to is itself a key of the sources, once everything is indexed. */
  lemma {:induction false} ReferenceKnown(env: Env, before: Grammar, tokens: seq<NonTermId>, made: Grammar, mk: Makers,
    t: SymbolId, m: Rule, i: nat)
    requires WellFormed(env) && TokenInv(env, before, tokens, made, mk, [], 0) && TokenKeys(env, mk)
    requires forall s :: s in before ==> s.NonTerminal?
    requires t in mk && m in TokenSource(env, mk[t].0) && i < |m.symbols|
    ensures Known(Sources(env, mk), made, m.symbols[i].id)
    ensures IsReference(m.symbols[i].id) ==> m.symbols[i].id in Sources(env, mk)
  {
    var x := m.symbols[i].id;
    var q := mk[t].0;
    assert TokenMade(env, made, mk, t) && SourceFollowed(env, made, mk, [], 0, t);
    SourceMentions(env, q, m);
    assert GoodNonterm(Owner(q), env.nonterminals[Owner(q)]);
    assert x in Mentioned(env.nonterminals[Owner(q)]);
    if IsReference(x) {
      assert Waiting(made, [], 0, TokSym(x));
      assert RefersTo(m, x.id);
      ReferenceFits(env, q, m, x.id);
      assert Accounted(env, mk, TokSym(x));
      SourceKeys(env, mk, x);
    }
  }

  lemma {:induction false} SourcesAreSource(env: Env, made: Grammar, mk: Makers)
    requires WellFormed(env) && (forall t :: t in mk ==> TokenMade(env, made, mk, t)) && TokenKeys(env, mk)
    ensures IsSource(Sources(env, mk))
  {
    var g := Sources(env, mk);
    forall s | s in g
      ensures NoEmptyBody(g[s]) && (s.NonTerminal? || s.NonTerminalToken?) && TokSym(s) in g && g[TokSym(s)] == g[s]
    {
      SourceKeys(env, mk, s);
      SourceKeys(env, mk, TokSym(s));
      assert TokenMade(env, made, mk, TokSym(s));
    }
  }

  /** A left-recursive rule names the queued id in parser form, so that id was queued in parser form. */
  lemma {:induction false} PrimedIsParser(env: Env, q: NonTermId, prime: NonTermId)
    requires WellFormed(env) && Sourced(env, q) && NoEmptyBody(TokenSource(env, q))
    requires ToTokenRules(q, TokenSource(env, q), prime).Primed?
    ensures q.sub == Parser
  {
    var source := TokenSource(env, q);
    var recursive := Group(q, source, true);
    assert recursive[0] in recursive;
    var m := recursive[0];
    SourceMentions(env, q, m);
    assert GoodNonterm(Owner(q), env.nonterminals[Owner(q)]);
    assert m.symbols[0].id in Mentioned(env.nonterminals[Owner(q)]);
  }

  lemma {:induction false} SourceMade(env: Env, made: Grammar, mk: Makers, t: SymbolId)
    requires WellFormed(env) && (forall u :: u in mk ==> TokenMade(env, made, mk, u)) && TokenKeys(env, mk) && t in mk
    ensures MadeFrom(Sources(env, mk), made, mk, t)
  {
    var g := Sources(env, mk);
    var (q, prime) := mk[t];
    assert TokenMade(env, made, mk, t);
    SourceKeys(env, mk, t);
    assert TokSym(t) == t;
    if ToTokenRules(q, TokenSource(env, q), prime).Primed? {
      PrimedIsParser(env, q, prime);
      SourceKeys(env, mk, NonTerminal(q));
      assert TokSym(NonTerminal(q)) == t;
      SourceKeys(env, mk, prime.AsTokSym());
      KeysBelow(env, made, mk);
    }
  }

  /** Sources have indices below those of the primes. */
  lemma {:induction false} KeysBelow(env: Env, made: Grammar, mk: Makers)
    requires WellFormed(env) && forall u :: u in mk ==> TokenMade(env, made, mk, u)
    ensures forall t :: t in mk ==> t.NonTerminalToken? && (t.id.Sub? ==> t.id.index < MAX_SUBS)
  {
    forall t | t in mk
      ensures t.NonTerminalToken? && (t.id.Sub? ==> t.id.index < MAX_SUBS)
    {
      assert TokenMade(env, made, mk, t);
      var q := mk[t].0;
      assert GoodNonterm(Owner(q), env.nonterminals[Owner(q)]);
    }
  }

  lemma {:induction false} SourcesWithin(env: Env, before: Grammar, tokens: seq<NonTermId>, made: Grammar, mk: Makers)
    requires WellFormed(env) && TokenInv(env, before, tokens, made, mk, [], 0) && TokenKeys(env, mk)
    requires forall s :: s in before ==> s.NonTerminal?
    ensures forall s, r :: s in Sources(env, mk) && r in Sources(env, mk)[s] ==> Within(Sources(env, mk), made, r.symbols)
  {
    var g := Sources(env, mk);
    forall s, r: Rule | s in g && r in g[s]
      ensures Within(g, made, r.symbols)
    {
      SourceKeys(env, mk, s);
      forall i | 0 <= i < |r.symbols|
        ensures Known(g, made, r.symbols[i].id)
      {
        ReferenceKnown(env, before, tokens, made, mk, TokSym(s), r, i);
      }
    }
  }

  /** Every reference in the rules of the grammar is a key of the grammar. */
  ghost predicate RefersInside(g: Grammar) {
    forall s, r: Rule, i :: s in g && r in g[s] && 0 <= i < |r.symbols| && IsReference(r.symbols[i].id) ==> r.symbols[i].id in g
  }

  lemma {:induction false} SourcesInside(env: Env, before: Grammar, tokens: seq<NonTermId>, made: Grammar, mk: Makers)
    requires WellFormed(env) && TokenInv(env, before, tokens, made, mk, [], 0) && TokenKeys(env, mk)
    requires forall s :: s in before ==> s.NonTerminal?
    ensures RefersInside(Sources(env, mk))
  {
    var g := Sources(env, mk);
    forall s, r: Rule, i | s in g && r in g[s] && 0 <= i < |r.symbols| && IsReference(r.symbols[i].id)
      ensures r.symbols[i].id in g
    {
      SourceKeys(env, mk, s);
      ReferenceKnown(env, before, tokens, made, mk, TokSym(s), r, i);
    }
  }

  /** Without errors, the tables hold a token form of the sources. */
  lemma {:induction false} TablesAreTokenForm(env: Env, before: Grammar, tokens: seq<NonTermId>, made: Grammar, mk: Makers)
    requires WellFormed(env) && TokenInv(env, before, tokens, made, mk, [], 0)
    requires forall s :: s in before ==> s.NonTerminal?
    ensures IsTokenForm(Sources(env, mk), made, mk)
  {
    var g := Sources(env, mk);
    KeysAreTokens(env, before, made, mk);
    SourcesAreSource(env, made, mk);
    forall t | t in g && t.NonTerminalToken?
      ensures MadeFrom(g, made, mk, t)
    {
      SourceKeys(env, mk, t);
      SourceMade(env, made, mk, t);
    }
    SourcesWithin(env, before, tokens, made, mk);
  }

  /** A token non-terminal of the finished tables derives exactly what its source derives. */
  lemma {:induction false} TokenSameLanguage(env: Env, before: Grammar, tokens: seq<NonTermId>, made: Grammar, mk: Makers,
    q: NonTermId, w: Word)
    requires WellFormed(env) && TokenInv(env, before, tokens, made, mk, [], 0)
    requires (forall s :: s in before ==> s.NonTerminal?) && q in tokens && q in env.nonterminals
    ensures SymDerives(Sources(env, mk), q.AsTokSym(), w) <==> SymDerives(made, q.AsTokSym(), w)
    ensures q.AsTokSym() in Sources(env, mk) && Sources(env, mk)[q.AsTokSym()] == TokenSource(env, q)
  {
    TablesAreTokenForm(env, before, tokens, made, mk);
    KeysAreTokens(env, before, made, mk);
    var t := q.AsTokSym();
    assert GoodNonterm(q, env.nonterminals[q]);
    assert Waiting(made, [], 0, t) && Accounted(env, mk, t);
    SourceKeys(env, mk, t);
    SameLanguage(Sources(env, mk), made, mk, t, w);
    assert TokenMade(env, made, mk, t);
    SameOwner(env, q, mk[t].0);
  }

  lemma {:induction false} SameOwner(env: Env, q: NonTermId, p: NonTermId)
    requires WellFormed(env) && Sourced(env, q) && Sourced(env, p) && q.AsTokSym() == p.AsTokSym()
    ensures TokenSource(env, q) == TokenSource(env, p)
  {
    assert Owner(q) == Owner(p) && q.Sub? == p.Sub?;
  }

  // ----- what is reached is made -----

  /** Without errors, every token that the parser's grammar refers to was queued. */
  lemma {:induction false} ReferencedQueued(env: Env, roots: seq<NonTermId>, before: Grammar, tokens: seq<NonTermId>,
    symbols: map<SymbolId, nat>)
    requires WellFormed(env) && Inv(env, roots, before, [], tokens, symbols, 0)
    ensures forall q :: Referenced(env, roots, q) ==> q in tokens
  {
    forall q | Referenced(env, roots, q)
      ensures q in tokens
    {
      var a :| Reachable(env, roots, a) && MentionsToken(env, a, q);
      IndexedIffReachable(env, roots, before, tokens, symbols, a);
      assert RecordedFor(env.nonterminals[a], tokens, symbols);
    }
  }

  /** An indexed token symbol whose index is not that of a prime was made from a source. */
  lemma {:induction false} MadeFromSource(env: Env, before: Grammar, tokens: seq<NonTermId>, made: Grammar, mk: Makers,
    q: NonTermId)
    requires WellFormed(env) && TokenInv(env, before, tokens, made, mk, [], 0) && q.AsTokSym() in made
    requires q.Sub? ==> q.index < MAX_SUBS
    ensures q.AsTokSym() in mk && Sourced(env, q) && NoEmptyBody(TokenSource(env, q))
    ensures Sourced(env, mk[q.AsTokSym()].0) && TokenSource(env, mk[q.AsTokSym()].0) == TokenSource(env, q)
    ensures mk[q.AsTokSym()].0.AsTokSym() == q.AsTokSym()
  {
    var t := q.AsTokSym();
    assert Accounted(env, mk, t);
    assert TokenMade(env, made, mk, t);
    var p := mk[t].0;
    assert Owner(p) == Owner(q) && p.Sub? == q.Sub? && (q.Sub? ==> p.index == q.index);
    SameOwner(env, q, p);
  }

  lemma {:induction false} ReachedIsMade(env: Env, roots: seq<NonTermId>, before: Grammar, tokens: seq<NonTermId>,
    made: Grammar, mk: Makers, path: seq<NonTermId>)
    requires WellFormed(env) && TokenInv(env, before, tokens, made, mk, [], 0) && TokenPath(env, roots, path)
    requires forall q :: Referenced(env, roots, q) ==> q in tokens && q in env.nonterminals
    ensures var q := Last(path); q.AsTokSym() in mk && Sourced(env, q) && NoEmptyBody(TokenSource(env, q))
  {
    var q := Last(path);
    if |path| == 1 {
      assert Waiting(made, [], 0, q.AsTokSym());
      assert GoodNonterm(q, env.nonterminals[q]);
    } else {
      var p := Last(Init(path));
      ReachedIsMade(env, roots, before, tokens, made, mk, Init(path));
      assert GoodNonterm(Owner(p), env.nonterminals[Owner(p)]);
      MadeFromSource(env, before, tokens, made, mk, p);
      var m :| m in TokenSource(env, p) && RefersTo(m, q);
      ReferenceFits(env, p, m, q);
      FollowedReference(env, made, mk, p.AsTokSym(), m, q);
    }
    MadeFromSource(env, before, tokens, made, mk, q);
  }

  lemma {:induction false} FollowedReference(env: Env, made: Grammar, mk: Makers, t: SymbolId, m: Rule, q: NonTermId)
    requires WellFormed(env) && t in mk && TokenMade(env, made, mk, t) && SourceFollowed(env, made, mk, [], 0, t)
    requires m in TokenSource(env, mk[t].0) && RefersTo(m, q)
    ensures q.AsTokSym() in made
  {
    var i :| 0 <= i < |m.symbols| && IsReference(m.symbols[i].id) && m.symbols[i].id.id == q;
    assert Waiting(made, [], 0, TokSym(m.symbols[i].id));
  }

  // ----- left recursion in the finished tables -----

  /** The first symbol of some rule is `t`, in a form that conversion does not recognise for the id `q`: as
      long as `q` is in parser form that is the token form only. */
  ghost predicate Unrecognised(q: NonTermId, rules: seq<Rule>) {
    exists r :: r in rules && r.symbols != [] && TokSym(r.symbols[0].id) == q.AsTokSym()
                && (q.sub == Parser ==> r.symbols[0].id.NonTerminalToken?)
  }

  /** A token non-terminal of the finished tables is immediately left recursive exactly when a rule of its
      source begins with it in a form not recognised for the queue entry that it was made from. */
  lemma {:induction false} TableLeftRecursive(env: Env, before: Grammar, tokens: seq<NonTermId>, made: Grammar, mk: Makers,
    t: SymbolId)
    requires WellFormed(env) && TokenInv(env, before, tokens, made, mk, [], 0) && t in mk
    ensures t in made && Sourced(env, mk[t].0)
    ensures StartsWith(made[t], t) <==> Unrecognised(mk[t].0, TokenSource(env, mk[t].0))
  {
    var (q, prime) := mk[t];
    assert TokenMade(env, made, mk, t);
    var source := TokenSource(env, q);
    StillLeftRecursive(q, source, prime);
    forall r | r in source
      ensures IsLeftRecursive(q, r) && !Leads(q, r) <==>
                TokSym(r.symbols[0].id) == q.AsTokSym() && (q.sub == Parser ==> r.symbols[0].id.NonTerminalToken?)
    {
      FirstInForm(env, q, r);
    }
  }

  /** A source begins with references in their form. */
  lemma {:induction false} FirstInForm(env: Env, q: NonTermId, r: Rule)
    requires WellFormed(env) && Sourced(env, q) && r in TokenSource(env, q) && r.symbols != []
    ensures InItsForm(r.symbols[0].id)
  {
    SourceMentions(env, q, r);
    assert GoodNonterm(Owner(q), env.nonterminals[Owner(q)]);
    assert r.symbols[0].id in Mentioned(env.nonterminals[Owner(q)]);
  }

  /** The queue entry that a symbol was made from is one of those that reach it first. */
  lemma {:induction false} MakerForm(env: Env, roots: seq<NonTermId>, before: Grammar, tokens: seq<NonTermId>,
    made: Grammar, mk: Makers, q: NonTermId)
    requires WellFormed(env) && TokenInv(env, before, tokens, made, mk, [], 0) && Traced(env, roots, made, mk, [])
    requires q.AsTokSym() in mk && q.sub == Parser && !FirstReached(env, roots, q)
    ensures mk[q.AsTokSym()].0.sub != Parser
  {
    var t := q.AsTokSym();
    assert TokenMade(env, made, mk, t);
    assert FirstReached(env, roots, mk[t].0);
    if mk[t].0.sub == Parser {
      assert false;
    }
  }


  // ----- the scanner rules are closed -----

  lemma {:induction false} FormReference(r: Rule, tail: SymbolRef, continued: bool, i: nat)
    requires i < |TokRule(Form(r, tail, continued)).symbols|
    ensures var x := TokRule(Form(r, tail, continued)).symbols[i].id;
            x == TokSym(tail.id) || exists j :: 0 <= j < |r.symbols| && x == TokSym(r.symbols[j].id)
  {
    if i < |r.symbols| {
      assert TokRule(Form(r, tail, continued)).symbols[i].id == TokSym(r.symbols[i].id);
    }
  }

  /** Every reference of every scanner rule is indexed. */
  lemma {:induction false} ScannerRulesClosed(env: Env, before: Grammar, tokens: seq<NonTermId>, made: Grammar, mk: Makers,
    t: SymbolId, m: Rule, i: nat)
    requires WellFormed(env) && TokenInv(env, before, tokens, made, mk, [], 0)
    requires forall s :: s in before ==> s.NonTerminal?
    requires t in made && t.NonTerminalToken? && m in made[t] && i < |m.symbols| && IsReference(m.symbols[i].id)
    ensures m.symbols[i].id in made && m.symbols[i].id == TokSym(m.symbols[i].id)
  {
    assert Accounted(env, mk, t);
    if t in mk {
      MainClosed(env, before, tokens, made, mk, t, m, i);
    } else {
      var u :| IsPrimeOf(env, mk, u, t);
      PrimeClosed(env, before, tokens, made, mk, u, m, i);
    }
  }

  lemma {:induction false} MainClosed(env: Env, before: Grammar, tokens: seq<NonTermId>, made: Grammar, mk: Makers,
    t: SymbolId, m: Rule, i: nat)
    requires WellFormed(env) && TokenInv(env, before, tokens, made, mk, [], 0)
    requires t in mk && m in made[t] && i < |m.symbols| && IsReference(m.symbols[i].id)
    ensures m.symbols[i].id in made && m.symbols[i].id == TokSym(m.symbols[i].id)
  {
    var (q, prime) := mk[t];
    var source, tail := TokenSource(env, q), PrimeRef(prime);
    assert TokenMade(env, made, mk, t) && SourceFollowed(env, made, mk, [], 0, t);
    var base := Group(q, source, false);
    var out := ToTokenRules(q, source, prime);
    var all := if out.Plain? then source else base + AllWithTail(base, tail);
    var f := TokRuleFrom(all, m);
    if f in source {
      ReferenceIndexed(env, made, mk, t, f, m, i);
    } else {
      var r := WithTailFrom(base, tail, f);
      TailIndexed(env, made, mk, t, r, m, i);
    }
  }

  lemma {:induction false} TailIndexed(env: Env, made: Grammar, mk: Makers, t: SymbolId, r: Rule, m: Rule, i: nat)
    requires WellFormed(env) && t in mk && TokenMade(env, made, mk, t) && SourceFollowed(env, made, mk, [], 0, t)
    requires r in TokenSource(env, mk[t].0) && mk[t].1.AsTokSym() in made
    requires m == TokRule(WithTail(r, PrimeRef(mk[t].1))) && i < |m.symbols| && IsReference(m.symbols[i].id)
    ensures m.symbols[i].id in made && m.symbols[i].id == TokSym(m.symbols[i].id)
  {
    FormReference(r, PrimeRef(mk[t].1), true, i);
    if j :| 0 <= j < |r.symbols| && m.symbols[i].id == TokSym(r.symbols[j].id) {
      assert IsReference(r.symbols[j].id);
      assert Waiting(made, [], 0, TokSym(r.symbols[j].id));
    }
  }

  lemma {:induction false} ReferenceIndexed(env: Env, made: Grammar, mk: Makers, t: SymbolId, f: Rule, m: Rule, i: nat)
    requires WellFormed(env) && t in mk && TokenMade(env, made, mk, t) && SourceFollowed(env, made, mk, [], 0, t)
    requires f in TokenSource(env, mk[t].0) && m == TokRule(f) && i < |m.symbols| && IsReference(m.symbols[i].id)
    ensures m.symbols[i].id in made && m.symbols[i].id == TokSym(m.symbols[i].id)
  {
    assert m.symbols[i].id == TokSym(f.symbols[i].id) && IsReference(f.symbols[i].id);
    assert Waiting(made, [], 0, TokSym(f.symbols[i].id));
  }

  lemma {:induction false} PrimeClosed(env: Env, before: Grammar, tokens: seq<NonTermId>, made: Grammar, mk: Makers,
    u: SymbolId, m: Rule, i: nat)
    requires WellFormed(env) && TokenInv(env, before, tokens, made, mk, [], 0)
    requires u in mk && IsPrimeOf(env, mk, u, mk[u].1.AsTokSym()) && mk[u].1.AsTokSym() in made
    requires m in made[mk[u].1.AsTokSym()] && i < |m.symbols| && IsReference(m.symbols[i].id)
    ensures m.symbols[i].id in made && m.symbols[i].id == TokSym(m.symbols[i].id)
  {
    var (q, prime) := mk[u];
    var source, tail := TokenSource(env, q), PrimeRef(prime);
    assert TokenMade(env, made, mk, u) && SourceFollowed(env, made, mk, [], 0, u);
    var recursive := Group(q, source, true);
    var f := TokRuleFrom(PrimeRules(recursive, tail), m);
    var o :| o in recursive && (f == WithoutHead(o) || f == WithTail(WithoutHead(o), tail));
    HeadlessIndexed(env, made, mk, u, o, f, m, i);
  }

  lemma {:induction false} HeadlessIndexed(env: Env, made: Grammar, mk: Makers, u: SymbolId, o: Rule, f: Rule, m: Rule, i: nat)
    requires WellFormed(env) && u in mk && TokenMade(env, made, mk, u) && SourceFollowed(env, made, mk, [], 0, u)
    requires o in TokenSource(env, mk[u].0) && o.symbols != [] && mk[u].1.AsTokSym() in made
    requires f == WithoutHead(o) || f == WithTail(WithoutHead(o), PrimeRef(mk[u].1))
    requires m == TokRule(f) && i < |m.symbols| && IsReference(m.symbols[i].id)
    ensures m.symbols[i].id in made && m.symbols[i].id == TokSym(m.symbols[i].id)
  {
    FormReference(WithoutHead(o), PrimeRef(mk[u].1), f != WithoutHead(o), i);
    if j :| 0 <= j < |WithoutHead(o).symbols| && m.symbols[i].id == TokSym(WithoutHead(o).symbols[j].id) {
      assert o.symbols[j + 1] == WithoutHead(o).symbols[j] && IsReference(o.symbols[j + 1].id);
      assert Waiting(made, [], 0, TokSym(o.symbols[j + 1].id));
    }
  }
}
