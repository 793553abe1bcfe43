/** The construction of the grammar database from beginning to end
    (crates/radlr-core/grammar/build_database.rs:86-395): both worklists, the scanner non-terminals of
    terminals, and the conversion of every symbol. */
module BuildDatabase {
  import opened Sequences
  import opened Symbols
  import opened Cfg
  import opened LeftRecursion
  import opened Spelling
  import opened Tables
  import opened ParserWorklist
  import opened ParserClosure
  import opened TokenWorklist
  import opened TokenClosure
  import opened GrammarDatabase

  /** The numbers of terminals are their own, and not those of non-terminals. */
  ghost predicate IdsApart(env: Env, ids: TerminalIds) {
    && (forall s, r :: IsTerminal(s) && IsTerminal(r) && ids(s) == ids(r) ==> s == r)
    && (forall s, a :: IsTerminal(s) && a in env.nonterminals ==> ids(s) != a.id)
  }

  /** The tables of both worklists, when neither recorded an error. */
  ghost predicate BothDone(env: Env, roots: seq<NonTermId>, before: Grammar, tokens: seq<NonTermId>,
                           symbols: map<SymbolId, nat>, made: Grammar, mk: Makers)
    requires WellFormed(env)
  {
    && Inv(env, roots, before, [], tokens, symbols, 0)
    && TokenInv(env, before, tokens, made, mk, [], 0) && Traced(env, roots, made, mk, [])
  }

  lemma {:induction false} ParserSymbols(env: Env, roots: seq<NonTermId>, before: Grammar, tokens: seq<NonTermId>,
    symbols: map<SymbolId, nat>)
    requires WellFormed(env) && Inv(env, roots, before, [], tokens, symbols, 0)
    ensures forall s :: s in before ==> s.NonTerminal?
  {
    forall s | s in before
      ensures s.NonTerminal?
    {
      assert IsParserSymbol(env, s);
    }
  }

  /** A standard token non-terminal of the tables is the token form of a non-terminal. */
  lemma {:induction false} TokenOwner(env: Env, before: Grammar, tokens: seq<NonTermId>, made: Grammar, mk: Makers,
    t: SymbolId)
    requires WellFormed(env) && TokenInv(env, before, tokens, made, mk, [], 0)
    requires t in made && t.NonTerminalToken? && t.id.Standard?
    ensures Owner(t.id) in env.nonterminals
  {
    assert Accounted(env, mk, t) && TokenMade(env, made, mk, t);
    assert Owner(mk[t].0) == Owner(t.id);
  }

  lemma {:induction false} TerminalsFresh(env: Env, ids: TerminalIds, before: Grammar, tokens: seq<NonTermId>,
    made: Grammar, mk: Makers, symbols: set<SymbolId>)
    requires WellFormed(env) && IdsApart(env, ids) && TokenInv(env, before, tokens, made, mk, [], 0)
    requires forall s :: s in before ==> s.NonTerminal?
    ensures TerminalsApart(ids, made, symbols)
  {
    forall s | s in symbols && IsTerminal(s)
      ensures ScannerOf(ids, s) !in made
    {
      if ScannerOf(ids, s) in made {
        TokenOwner(env, before, tokens, made, mk, ScannerOf(ids, s));
      }
    }
  }

  lemma {:induction false} SymbolsIndexed(env: Env, roots: seq<NonTermId>, before: Grammar, tokens: seq<NonTermId>,
    symbols: map<SymbolId, nat>, made: Grammar, mk: Makers)
    requires WellFormed(env) && BothDone(env, roots, before, tokens, symbols, made, mk)
    ensures ReferencesIndexed(symbols, made)
  {
    forall s | s in symbols && IsReference(s)
      ensures s.id.AsTokSym() in made
    {
      assert Waiting(made, [], 0, s.id.AsParse().AsTokSym());
      assert s.id.AsParse().AsTokSym() == s.id.AsTokSym();
    }
  }

  /** The owner of a rule in the tables has the rule. */
  lemma {:induction false} RuleInMade(made: Grammar, order: seq<SymbolId>, ranges: seq<seq<nat>>, rules: seq<DbRule>, r: nat)
    requires Holds(made, order, ranges, rules) && r < |rules|
    ensures rules[r].nonterm < |order| && order[rules[r].nonterm] in made
    ensures rules[r].rule in made[order[rules[r].nonterm]]
    ensures rules[r].isScanner == order[rules[r].nonterm].NonTerminalToken?
  {
    var i := rules[r].nonterm;
    assert OwnedRight(order, rules[r]) && HeldAt(made, order, ranges, rules, i);
    OwnerOfRule(ranges, rules, i, r);
    var j :| 0 <= j < |ranges[i]| && ranges[i][j] == r;
    assert RulesAt(rules, ranges[i])[j] == rules[r].rule;
  }

  lemma {:induction false} ParserRuleConvertible(env: Env, roots: seq<NonTermId>, before: Grammar, tokens: seq<NonTermId>,
    symbols: map<SymbolId, nat>, made: Grammar, mk: Makers, all: set<SymbolId>, s: SymbolId, r: DbRule)
    requires WellFormed(env) && BothDone(env, roots, before, tokens, symbols, made, mk) && made.Keys <= all
    requires s in before && r.rule in before[s] && !r.isScanner
    ensures RuleConvertible(r, all, symbols.Keys)
  {
    ParserRulesClosed(env, roots, before, tokens, symbols, s, r.rule);
    forall x | Resolved(before, tokens, symbols, x)
      ensures Convertible(x, all, symbols.Keys, false)
    {
      if x.NonTerminalToken? {
        assert Waiting(made, [], 0, x.id.AsParse().AsTokSym());
        assert x.id.AsParse().AsTokSym() == x;
      }
    }
  }

  lemma {:induction false} ScannerRuleConvertible(env: Env, before: Grammar, tokens: seq<NonTermId>,
    symbols: map<SymbolId, nat>, made: Grammar, mk: Makers, all: set<SymbolId>, t: SymbolId, r: DbRule, plain: Rule)
    requires WellFormed(env) && TokenInv(env, before, tokens, made, mk, [], 0) && made.Keys <= all
    requires forall s :: s in before ==> s.NonTerminal?
    requires t in made && t.NonTerminalToken? && plain in made[t] && r.isScanner
    requires r.rule.symbols == SpellBody(plain.symbols)
    ensures RuleConvertible(r, all, symbols.Keys)
  {
    forall i | 0 <= i < |r.rule.symbols|
      ensures Convertible(r.rule.symbols[i].id, all, symbols.Keys, true)
    {
      SpelledSymbols(plain.symbols, i);
      var x := r.rule.symbols[i].id;
      if j :| 0 <= j < |plain.symbols| && plain.symbols[j].id == x && IsReference(x) {
        ScannerRulesClosed(env, before, tokens, made, mk, t, plain, j);
      }
    }
  }

  lemma {:induction false} TerminalRuleConvertible(x: SymbolId, r: DbRule, plain: Rule, all: set<SymbolId>, symbols: set<SymbolId>)
    requires IsTerminal(x) && plain in TerminalRules(x) && r.isScanner && r.rule.symbols == SpellBody(plain.symbols)
    ensures RuleConvertible(r, all, symbols)
  {
    forall i | 0 <= i < |r.rule.symbols|
      ensures Convertible(r.rule.symbols[i].id, all, symbols, true)
    {
      SpelledSymbols(plain.symbols, i);
    }
  }

  /** After both worklists and the terminals, every symbol of every rule can be converted. */
  lemma {:induction false} EverythingConvertible(env: Env, roots: seq<NonTermId>, ids: TerminalIds, before: Grammar,
    tokens: seq<NonTermId>, symbols: map<SymbolId, nat>, made: Grammar, mk: Makers, made': Grammar,
    order: seq<SymbolId>, ranges: seq<seq<nat>>, rules: seq<DbRule>)
    requires WellFormed(env) && BothDone(env, roots, before, tokens, symbols, made, mk)
    requires WithTerminals(ids, made, symbols.Keys - {Default}, made') && Holds(Spelled(made'), order, ranges, rules)
    ensures AllConvertible(rules, made'.Keys, symbols.Keys)
  {
    ParserSymbols(env, roots, before, tokens, symbols);
    forall k | 0 <= k < |rules|
      ensures RuleConvertible(rules[k], made'.Keys, symbols.Keys)
    {
      RuleInMade(Spelled(made'), order, ranges, rules, k);
      var s := order[rules[k].nonterm];
      if s in before {
        ParserRuleConvertible(env, roots, before, tokens, symbols, made, mk, made'.Keys, s, rules[k]);
      } else {
        TerminalsAdded(env, ids, before, made, mk, symbols.Keys - {Default}, made');
        var plain := SpelledFrom(made'[s], rules[k].rule);
        if s in made {
          ScannerRuleConvertible(env, before, tokens, symbols, made, mk, made'.Keys, s, rules[k], plain);
        } else {
          var x :| x in symbols.Keys - {Default} && IsTerminal(x) && s == ScannerOf(ids, x);
          assert made'[s] == TerminalRules(x);
          TerminalRuleConvertible(x, rules[k], plain, made'.Keys, symbols.Keys);
        }
      }
    }
  }

  /** Scanner rules for terminals do not disturb the token form. */
  lemma {:induction false} TokenFormExtends(g: Grammar, tg: Grammar, tg': Grammar, mk: Makers)
    requires IsTokenForm(g, tg, mk)
    requires forall s :: s in tg ==> s in tg' && tg'[s] == tg[s]
    requires (forall s :: s in tg' ==> IsReference(s)) && RefersInside(g)
    ensures IsTokenForm(g, tg', mk)
  {
    forall t | t in g && t.NonTerminalToken?
      ensures MadeFrom(g, tg', mk, t)
    {
      assert MadeFrom(g, tg, mk, t);
    }
    forall s, r: Rule | s in g && r in g[s]
      ensures Within(g, tg', r.symbols)
    {
      assert Within(g, tg, r.symbols);
      forall i | 0 <= i < |r.symbols|
        ensures Known(g, tg', r.symbols[i].id)
      {
        assert Known(g, tg, r.symbols[i].id);
      }
    }
  }

  // ----- why a grammar is refused -----

  /** A non-terminal is reached that is missing or defined twice, or that refers to a missing token; or a
      token is reached that is missing, has a rule without symbols, or begins with itself in every rule. */
  ghost predicate Defective(env: Env, roots: seq<NonTermId>)
    requires WellFormed(env)
  {
    || (exists a :: Reachable(env, roots, a) && (Dangling(env, a) || !Proper(env, a)))
    || (exists q :: TokenReached(env, roots, q)
                    && (Owner(q) !in env.nonterminals || EmptySource(env, q) || OnlyRecursive(env, q)))
  }

  /** The id is reached first in another form, and so its rules were not seen to begin with it. */
  ghost predicate OtherFormFirst(env: Env, roots: seq<NonTermId>, q: NonTermId)
    requires WellFormed(env)
  {
    exists p :: p != q && p.AsTokSym() == q.AsTokSym() && FirstReached(env, roots, p)
  }

  /** Everything that is reached is there and can be indexed. */
  ghost predicate Clean(env: Env, roots: seq<NonTermId>)
    requires WellFormed(env)
  {
    && (forall a :: Reachable(env, roots, a) ==> IsParserSymbol(env, a.AsSym()) && !Dangling(env, a))
    && (forall q :: TokenReached(env, roots, q) ==> CleanToken(env, roots, q))
  }

  ghost predicate CleanToken(env: Env, roots: seq<NonTermId>, q: NonTermId)
    requires WellFormed(env)
  {
    && Sourced(env, q) && NoEmptyBody(TokenSource(env, q))
    && (OnlyRecursive(env, q) ==> OtherFormFirst(env, roots, q))
  }

  lemma {:induction false} DoneIsClean(env: Env, roots: seq<NonTermId>, before: Grammar, tokens: seq<NonTermId>,
    symbols: map<SymbolId, nat>, made: Grammar, mk: Makers)
    requires WellFormed(env) && BothDone(env, roots, before, tokens, symbols, made, mk)
    ensures Clean(env, roots)
  {
    forall a | Reachable(env, roots, a)
      ensures IsParserSymbol(env, a.AsSym()) && !Dangling(env, a)
    {
      NothingMissing(env, roots, before, tokens, symbols, a);
    }
    forall q | TokenReached(env, roots, q)
      ensures CleanToken(env, roots, q)
    {
      DoneIsCleanToken(env, roots, before, tokens, symbols, made, mk, q);
    }
  }

  lemma {:induction false} DoneIsCleanToken(env: Env, roots: seq<NonTermId>, before: Grammar, tokens: seq<NonTermId>,
    symbols: map<SymbolId, nat>, made: Grammar, mk: Makers, q: NonTermId)
    requires WellFormed(env) && BothDone(env, roots, before, tokens, symbols, made, mk) && TokenReached(env, roots, q)
    ensures q.AsTokSym() in mk && CleanToken(env, roots, q)
  {
    ReferencedQueued(env, roots, before, tokens, symbols);
    var path :| TokenPath(env, roots, path) && Last(path) == q;
    ReachedIsMade(env, roots, before, tokens, made, mk, path);
    if OnlyRecursive(env, q) {
      NotOnlyRecursive(env, roots, before, tokens, made, mk, q);
    }
  }

  lemma {:induction false} NotOnlyRecursive(env: Env, roots: seq<NonTermId>, before: Grammar, tokens: seq<NonTermId>,
    made: Grammar, mk: Makers, q: NonTermId)
    requires WellFormed(env) && TokenInv(env, before, tokens, made, mk, [], 0) && Traced(env, roots, made, mk, [])
    requires q.AsTokSym() in mk && OnlyRecursive(env, q)
    ensures OtherFormFirst(env, roots, q)
  {
    var t := q.AsTokSym();
    var (p, prime) := mk[t];
    assert TokenMade(env, made, mk, t) && FirstReached(env, roots, p);
    var source := TokenSource(env, q);
    GroupEmpty(q, source, false);
    assert source[0] in source && Leads(q, source[0]);
    if p == q {
      assert false;
    }
  }

  datatype Outcome = Built(rules: seq<ConvertedRule>) | Rejected

  /** Every reference of a parser rule is indexed, and every token reference was made from a source. */
  ghost predicate ReferencesFollowed(made: Grammar, mk: Makers) {
    forall s, r: Rule, i :: s in made && s.NonTerminal? && r in made[s] && 0 <= i < |r.symbols| ==>
      ReferenceFollowed(made, mk, r.symbols[i].id)
  }

  ghost predicate ReferenceFollowed(made: Grammar, mk: Makers, x: SymbolId) {
    (x.NonTerminal? ==> x in made) && (x.NonTerminalToken? ==> x in mk)
  }

  /** What the finished database guarantees. */
  ghost predicate Finished(env: Env, roots: seq<NonTermId>, made: Grammar, mk: Makers)
    requires WellFormed(env)
  {
    && Clean(env, roots) && ReferencesFollowed(made, mk) && ScannerClosed(made)
    && (forall a :: Named(env, a) ==> (a.AsSym() in made <==> Reachable(env, roots, a)))
    && (forall s :: s in made && s.NonTerminal? ==> IsParserSymbol(env, s) && made[s] == ParserRules(env, s))
    && TokenKeys(env, mk) && RefersInside(Sources(env, mk)) && IsTokenForm(Sources(env, mk), made, mk)
  }

  /** The scanner rules, those of the terminals included, refer to scanner rules only. */
  lemma {:induction false} ScannerFinished(env: Env, ids: TerminalIds, before: Grammar, tokens: seq<NonTermId>,
    made: Grammar, mk: Makers, symbols: set<SymbolId>, made': Grammar)
    requires WellFormed(env) && TokenInv(env, before, tokens, made, mk, [], 0)
    requires forall s :: s in before ==> s.NonTerminal?
    requires WithTerminals(ids, made, symbols, made')
    ensures ScannerClosed(made')
  {
    TerminalsAdded(env, ids, before, made, mk, symbols, made');
    forall s, r: Rule, i | s in made' && s.NonTerminalToken? && r in made'[s] && 0 <= i < |r.symbols|
      ensures ScannerSymbol(made', r.symbols[i].id)
    {
      if s in made {
        if IsReference(r.symbols[i].id) {
          ScannerRulesClosed(env, before, tokens, made, mk, s, r, i);
        }
      } else {
        var x :| x in symbols && IsTerminal(x) && s == ScannerOf(ids, x);
        assert made'[s] == TerminalRules(x);
      }
    }
  }

  lemma {:induction false} FollowedInParser(env: Env, roots: seq<NonTermId>, before: Grammar, tokens: seq<NonTermId>,
    symbols: map<SymbolId, nat>, made: Grammar, mk: Makers, made': Grammar)
    requires WellFormed(env) && BothDone(env, roots, before, tokens, symbols, made, mk)
    requires forall s :: s in before ==> s in made' && made'[s] == before[s]
    requires forall s :: s in made' && s !in before ==> s.NonTerminalToken?
    ensures ReferencesFollowed(made', mk)
  {
    forall s, r: Rule, i | s in made' && s.NonTerminal? && r in made'[s] && 0 <= i < |r.symbols|
      ensures ReferenceFollowed(made', mk, r.symbols[i].id)
    {
      ParserRulesClosed(env, roots, before, tokens, symbols, s, r);
      var x := r.symbols[i].id;
      assert Resolved(before, tokens, symbols, x);
      if x.NonTerminalToken? {
        var q := x.id.AsParse();
        assert Waiting(made, [], 0, q.AsTokSym()) && q.AsTokSym() == x;
        assert GoodNonterm(q, env.nonterminals[q]);
        MadeFromSource(env, before, tokens, made, mk, q);
      }
    }
  }

  lemma {:induction false} DatabaseFinished(env: Env, roots: seq<NonTermId>, ids: TerminalIds, before: Grammar,
    tokens: seq<NonTermId>, symbols: map<SymbolId, nat>, made: Grammar, mk: Makers, made': Grammar)
    requires WellFormed(env) && BothDone(env, roots, before, tokens, symbols, made, mk)
    requires WithTerminals(ids, made, symbols.Keys - {Default}, made')
    ensures Finished(env, roots, made', mk)
  {
    ParserSymbols(env, roots, before, tokens, symbols);
    TerminalsAdded(env, ids, before, made, mk, symbols.Keys - {Default}, made');
    ParserFinished(env, roots, before, tokens, symbols, made');
    ExtendedTokenForm(env, ids, before, tokens, made, mk, symbols.Keys - {Default}, made');
    KeysAreTokens(env, before, made, mk);
    SourcesInside(env, before, tokens, made, mk);
    DoneIsClean(env, roots, before, tokens, symbols, made, mk);
    FollowedInParser(env, roots, before, tokens, symbols, made, mk, made');
    ScannerFinished(env, ids, before, tokens, made, mk, symbols.Keys - {Default}, made');
  }

  lemma {:induction false} TerminalsAdded(env: Env, ids: TerminalIds, before: Grammar, made: Grammar, mk: Makers,
    symbols: set<SymbolId>, made': Grammar)
    requires WellFormed(env) && TokenTables(env, before, made, mk) && WithTerminals(ids, made, symbols, made')
    ensures forall s :: s in before ==> s in made' && made'[s] == before[s]
    ensures forall s :: s in made' && s !in before ==> s.NonTerminalToken?
  {
  }

  lemma {:induction false} ParserFinished(env: Env, roots: seq<NonTermId>, before: Grammar, tokens: seq<NonTermId>,
    symbols: map<SymbolId, nat>, made': Grammar)
    requires WellFormed(env) && Inv(env, roots, before, [], tokens, symbols, 0)
    requires forall s :: s in before ==> s in made' && made'[s] == before[s]
    requires forall s :: s in made' && s !in before ==> s.NonTerminalToken?
    ensures forall a :: Named(env, a) ==> (a.AsSym() in made' <==> Reachable(env, roots, a))
    ensures forall s :: s in made' && s.NonTerminal? ==> IsParserSymbol(env, s) && made'[s] == ParserRules(env, s)
  {
    forall a | Named(env, a)
      ensures a.AsSym() in made' <==> Reachable(env, roots, a)
    {
      IndexedIffReachable(env, roots, before, tokens, symbols, a);
    }
  }

  lemma {:induction false} ExtendedTokenForm(env: Env, ids: TerminalIds, before: Grammar, tokens: seq<NonTermId>,
    made: Grammar, mk: Makers, symbols: set<SymbolId>, made': Grammar)
    requires WellFormed(env) && TokenInv(env, before, tokens, made, mk, [], 0)
    requires forall s :: s in before ==> s.NonTerminal?
    requires WithTerminals(ids, made, symbols, made')
    ensures IsTokenForm(Sources(env, mk), made', mk)
  {
    TablesAreTokenForm(env, before, tokens, made, mk);
    KeysAreTokens(env, before, made, mk);
    SourcesInside(env, before, tokens, made, mk);
    TokenFormExtends(Sources(env, mk), made, made', mk);
  }

  /** Both worklists, one after the other. */
  method IndexBoth(env: Env, roots: seq<NonTermId>, db: Database)
    returns (ok: bool, ghost before: Grammar, ghost tokens: seq<NonTermId>, ghost symbols: map<SymbolId, nat>,
             ghost mk: Makers)
    requires db.states == StatesOf(env)
    requires WellFormed(env) && db.Valid() && db.made == map[] && db.symbols == map[Default := 0]
    modifies db
    ensures db.Valid()
    ensures ok ==> BothDone(env, roots, before, tokens, symbols, db.made, mk) && db.symbols == symbols
    ensures !ok ==> Defective(env, roots)
  {
    mk, before, symbols := map[], map[], map[];
    var failed, errors, queue := IndexParser(env, roots, db);
    ok, tokens := !failed && errors == 0, queue;
    if ok {
      before, symbols := db.made, db.symbols;
      var stop, tokenErrors;
      stop, tokenErrors, mk := IndexTokens(env, roots, queue, db);
      ok := stop == TokenWorklist.Stop.Done && tokenErrors == 0;
    }
  }

  /** Builds the tables and converts every symbol of every rule.  When it succeeds, no lookup was missing and
      nothing reached is missing; when it does not, something that is reached has a defect. */
  method BuildCompileDb(env: Env, roots: seq<NonTermId>, ids: TerminalIds, db: Database)
    returns (out: Outcome, ghost mk: Makers)
    requires db.states == StatesOf(env)
    requires WellFormed(env) && IdsApart(env, ids) && db.Valid() && db.made == map[] && db.symbols == map[Default := 0]
    modifies db
    ensures db.Valid()
    ensures out.Rejected? ==> Defective(env, roots)
    ensures out.Built? ==> Finished(env, roots, db.made, mk) && |out.rules| == |db.rules|
    ensures out.Built? ==> TerminalsScanned(ids, db.symbols.Keys, db.made)
    ensures Labelled(StatesOf(env), db.order, db.names, db.customs)
    ensures out.Built? ==> forall r :: 0 <= r < |out.rules| ==>
                             StandsFor(out.rules[r], db.rules[r], db.order, db.symbolOrder)
  {
    var ok;
    ghost var before, tokens, symbols;
    ok, before, tokens, symbols, mk := IndexBoth(env, roots, db);
    if !ok {
      return Rejected, mk;
    }
    ghost var made := db.made;
    ReadyForTerminals(env, roots, ids, before, tokens, symbols, made, mk);
    IndexTerminals(ids, db);
    EverythingConvertible(env, roots, ids, before, tokens, symbols, made, mk, db.made, db.order, db.ranges, db.rules);
    DatabaseFinished(env, roots, ids, before, tokens, symbols, made, mk, db.made);
    var rules := ConvertRuleSymbolIds(db);
    out := Built(rules);
  }

  lemma {:induction false} ReadyForTerminals(env: Env, roots: seq<NonTermId>, ids: TerminalIds, before: Grammar,
    tokens: seq<NonTermId>, symbols: map<SymbolId, nat>, made: Grammar, mk: Makers)
    requires WellFormed(env) && IdsApart(env, ids) && BothDone(env, roots, before, tokens, symbols, made, mk)
    ensures TerminalsApart(ids, made, symbols.Keys - {Default}) && ReferencesIndexed(symbols, made)
  {
    ParserSymbols(env, roots, before, tokens, symbols);
    TerminalsFresh(env, ids, before, tokens, made, mk, symbols.Keys - {Default});
    SymbolsIndexed(env, roots, before, tokens, symbols, made, mk);
  }
}
