/** From the author's definitions to the finished database: its parser rules derive what the author's EBNF
    means with token references as they stand, and its scanner rules derive what it means with them opened
    (crates/radlr-core/grammar/compile.rs:68-97, crates/radlr-core/grammar/build_database.rs:15-395). */
module AuthorLanguage {
  import opened Sequences
  import opened Symbols
  import opened Cfg
  import opened Numbering
  import opened Desugar
  import opened DesugarLanguage
  import opened Appended
  import opened AuthorGrammar
  import opened Renaming
  import opened Inline
  import opened InlineActions
  import opened LeftRecursion
  import opened Spelling
  import opened ParserWorklist
  import opened TokenWorklist
  import opened TokenClosure
  import opened BuildDatabase
  import DesugarBuilder
  import GrammarDatabase
  import Merge
  import ParserClosure
  import Tables

  // ----- the grammar of the environment -----

  /** The symbol is a non-terminal or a sub-non-terminal of the environment, in parser form or, where tokens
      are opened, in scanner form. */
  ghost predicate EnvKey(env: Env, tokens: bool, s: SymbolId) {
    && IsReference(s) && InItsForm(s) && (s.NonTerminalToken? ==> tokens) && Sourced(env, s.id)
  }

  ghost function EnvKeys(env: Env, tokens: bool): set<SymbolId> {
    (set id | id in env.nonterminals :: id.AsSym())
    + (set id, k | id in env.nonterminals && 0 <= k < |env.nonterminals[id].subs| :: SubSym(id, k))
    + (if tokens then TokenUniverse(env) else {})
  }

  lemma {:induction false} KeyIncluded(env: Env, tokens: bool, s: SymbolId)
    requires WellFormed(env) && EnvKey(env, tokens, s)
    ensures s in EnvKeys(env, tokens)
  {
    var id := Owner(s.id);
    assert GoodNonterm(id, env.nonterminals[id]);
    if s.NonTerminalToken? {
      InUniverse(env, s.id);
      assert s.id.AsTokSym() == s;
    } else if s.id.Standard? {
      assert s == id.AsSym();
    } else {
      assert s == SubSym(id, s.id.index);
    }
  }

  ghost function EnvRules(env: Env, s: SymbolId): seq<Rule>
    requires IsReference(s) && Sourced(env, s.id)
  {
    var n := env.nonterminals[Owner(s.id)];
    if s.id.Standard? then n.rules else n.subs[s.id.index].rules
  }

  /** The rules of the environment as they are. */
  ghost function EnvGrammar(env: Env, tokens: bool): Grammar {
    map s | s in EnvKeys(env, tokens) && EnvKey(env, tokens, s) :: EnvRules(env, s)
  }

  ghost function EnvCandidates(env: Env, s: SymbolId): Candidates
    requires IsReference(s) && Sourced(env, s.id)
  {
    CandidatesOf(env.nonterminals[Owner(s.id)])
  }

  lemma {:induction false} CandidatesEnd(env: Env, s: SymbolId)
    requires WellFormed(env) && IsReference(s) && Sourced(env, s.id)
    ensures Founded(EnvCandidates(env, s))
  {
    GoodFounded(Owner(s.id), env.nonterminals[Owner(s.id)]);
  }

  ghost function InlinedRulesOf(env: Env, tokens: bool, s: SymbolId): seq<Rule>
    requires WellFormed(env) && IsReference(s) && Sourced(env, s.id)
  {
    CandidatesEnd(env, s);
    InlineRules(EnvCandidates(env, s), EnvRules(env, s), env.inlining, tokens)
  }

  /** The rules of the environment with groups inlined. */
  ghost function InlinedGrammar(env: Env, tokens: bool): Grammar
    requires WellFormed(env)
  {
    map s | s in EnvKeys(env, tokens) && EnvKey(env, tokens, s) :: InlinedRulesOf(env, tokens, s)
  }

  lemma {:induction false} InEnvGrammar(env: Env, tokens: bool, s: SymbolId)
    requires WellFormed(env)
    ensures s in EnvGrammar(env, tokens) <==> EnvKey(env, tokens, s)
    ensures s in InlinedGrammar(env, tokens) <==> EnvKey(env, tokens, s)
    ensures EnvKey(env, tokens, s) ==> EnvGrammar(env, tokens)[s] == EnvRules(env, s)
    ensures EnvKey(env, tokens, s) ==> InlinedGrammar(env, tokens)[s] == InlinedRulesOf(env, tokens, s)
  {
    if EnvKey(env, tokens, s) {
      KeyIncluded(env, tokens, s);
    }
  }

  /** The groups of a non-terminal have their rules in the grammar of the environment. */
  lemma {:induction false} GroupsHeld(env: Env, tokens: bool, s: SymbolId)
    requires WellFormed(env) && EnvKey(env, tokens, s)
    ensures Inline.Holds(EnvGrammar(env, tokens), EnvCandidates(env, s))
  {
    var owner := Owner(s.id);
    var n, c := env.nonterminals[owner], EnvCandidates(env, s);
    assert GoodNonterm(owner, n);
    forall id | id in c
      ensures NonTerminal(id) in EnvGrammar(env, tokens) && EnvGrammar(env, tokens)[NonTerminal(id)] == c[id].rules
    {
      var k :| 0 <= k < |n.subs| && n.subs[k] == c[id];
      assert Numbered(owner.id, n.subs[k], k);
      InEnvGrammar(env, tokens, NonTerminal(id));
    }
  }

  lemma {:induction false} EnvInlined(env: Env, tokens: bool) returns (cs: map<SymbolId, Candidates>)
    requires WellFormed(env)
    ensures IsInlined(EnvGrammar(env, tokens), InlinedGrammar(env, tokens), cs, env.inlining || tokens)
    ensures forall s :: s in cs ==> Silent(cs[s])
  {
    var g, ig := EnvGrammar(env, tokens), InlinedGrammar(env, tokens);
    cs := map s | s in EnvKeys(env, tokens) && EnvKey(env, tokens, s) :: EnvCandidates(env, s);
    forall s
      ensures s in g <==> s in ig
      ensures s in g <==> s in cs
    {
      InEnvGrammar(env, tokens, s);
    }
    assert g.Keys == ig.Keys == cs.Keys;
    forall s | s in g
      ensures Founded(cs[s]) && Inline.Holds(g, cs[s])
      ensures ig[s] == InlineRules(cs[s], g[s], env.inlining || tokens, false)
    {
      InEnvGrammar(env, tokens, s);
      CandidatesEnd(env, s);
      GroupsHeld(env, tokens, s);
    }
    forall s | s in cs
      ensures Silent(cs[s])
    {
      CandidatesSilent(env.nonterminals[Owner(s.id)].subs);
    }
  }

  /** The environment is the desugared form of the author's grammar. */
  lemma {:induction false} EnvDesugared(src: Source, env: Env, tokens: bool)
    requires WellFormed(env) && EnvOf(src, env)
    ensures IsDesugared(src, tokens, EnvGrammar(env, tokens))
  {
    var g := EnvGrammar(env, tokens);
    forall s | Opens(src, tokens, s)
      ensures s in g && g[s] == RulesOf(src, s.id.id).0 && Includes(g, s.id.id, RulesOf(src, s.id.id).1)
    {
      InEnvGrammar(env, tokens, s);
      EnvIncludes(src, env, tokens, s.id.id);
    }
    forall s | s in g && !IsSubSymbol(s)
      ensures Opens(src, tokens, s)
    {
      InEnvGrammar(env, tokens, s);
    }
  }

  lemma {:induction false} EnvIncludes(src: Source, env: Env, tokens: bool, p: nat)
    requires WellFormed(env) && EnvOf(src, env) && HasDefinition(src, p)
    ensures Includes(EnvGrammar(env, tokens), p, RulesOf(src, p).1)
  {
    var g, subs := EnvGrammar(env, tokens), RulesOf(src, p).1;
    assert Standard(p, Parser) in env.nonterminals;
    forall k | 0 <= k < |subs|
      ensures NonTerminal(Sub(p, k, Parser)) in g && g[NonTerminal(Sub(p, k, Parser))] == subs[k].rules
    {
      InEnvGrammar(env, tokens, NonTerminal(Sub(p, k, Parser)));
    }
  }

  /** Desugared, merged and inlined, a named symbol derives what its author means. */
  lemma {:induction false} EnvLanguage(src: Source, env: Env, tokens: bool, s: SymbolId, w: Word)
    requires WellFormed(env) && EnvOf(src, env) && !IsSubSymbol(s)
    ensures Meant(src, tokens, s, w) <==> SymDerives(InlinedGrammar(env, tokens), s, w)
  {
    EnvDesugared(src, env, tokens);
    DesugaringSameLanguage(src, tokens, EnvGrammar(env, tokens), s, w);
    var cs := EnvInlined(env, tokens);
    InliningSameLanguage(EnvGrammar(env, tokens), InlinedGrammar(env, tokens), cs, env.inlining || tokens, s, w);
  }

  // ----- a part of a grammar -----

  /** `part` has the rules of `g` for its symbols, and no rule of its own leads out of it. */
  ghost predicate PartOf(part: Grammar, g: Grammar) {
    && (forall s :: s in part ==> s in g && part[s] == g[s])
    && (forall s, r: Rule, i :: s in part && r in part[s] && 0 <= i < |r.symbols| && r.symbols[i].id in g ==>
          r.symbols[i].id in part)
  }

  function Same(): Naming { s => s }

  lemma {:induction false} SameRules(rules: seq<Rule>)
    ensures RenameRules(Same(), rules) == rules
  {
    forall i | 0 <= i < |rules|
      ensures RenameRules(Same(), rules)[i] == rules[i]
    {
      assert RenameBody(Same(), rules[i].symbols) == rules[i].symbols;
    }
  }

  lemma {:induction false} PartLanguage(part: Grammar, g: Grammar, s: SymbolId, w: Word)
    requires PartOf(part, g) && (s in part || s !in g)
    ensures SymDerives(part, s, w) <==> SymDerives(g, s, w)
  {
    forall x | x in part
      ensures g[x] == RenameRules(Same(), part[x])
    {
      SameRules(part[x]);
    }
    RenamingSameLanguage(part, g, Same(), s, w);
  }

  // ----- the parser's rules -----

  /** The parser rules of the tables, without the custom states, which have none. */
  ghost function ParserPart(env: Env, made: Grammar): Grammar {
    map s | s in made && s.NonTerminal? && s.id !in env.customs :: made[s]
  }

  lemma {:induction false} ParserIsPart(env: Env, roots: seq<NonTermId>, made: Grammar, mk: Makers)
    requires WellFormed(env) && Finished(env, roots, made, mk)
    ensures PartOf(ParserPart(env, made), InlinedGrammar(env, false))
  {
    var part, g := ParserPart(env, made), InlinedGrammar(env, false);
    forall s | s in part
      ensures s in g && part[s] == g[s]
    {
      ParserRule(env, roots, made, mk, s);
    }
    forall s, r: Rule, i | s in part && r in part[s] && 0 <= i < |r.symbols| && r.symbols[i].id in g
      ensures r.symbols[i].id in part
    {
      var x := r.symbols[i].id;
      InEnvGrammar(env, false, x);
      assert ReferenceFollowed(made, mk, x);
      assert IsParserSymbol(env, x);
    }
  }

  lemma {:induction false} ParserRule(env: Env, roots: seq<NonTermId>, made: Grammar, mk: Makers, s: SymbolId)
    requires WellFormed(env) && Finished(env, roots, made, mk) && s in ParserPart(env, made)
    ensures s in InlinedGrammar(env, false) && made[s] == InlinedGrammar(env, false)[s]
  {
    assert IsParserSymbol(env, s) && made[s] == ParserRules(env, s);
    InEnvGrammar(env, false, s);
    assert EnvKey(env, false, s);
  }

  lemma {:induction false} ParserPartSpelled(env: Env, made: Grammar)
    ensures ParserPart(env, Spelled(made)) == ParserPart(env, made)
  {
  }

  /** Every non-terminal that the parser can reach derives, by the parser rules that the finished tables hold,
      exactly the words that the author's definitions of it mean. */
  lemma {:induction false} ParserLanguage(src: Source, env: Env, roots: seq<NonTermId>, made: Grammar, mk: Makers,
    a: NonTermId, w: Word)
    requires WellFormed(env) && EnvOf(src, env) && Finished(env, roots, made, mk)
    requires a in env.nonterminals && Reachable(env, roots, a)
    ensures Meant(src, false, a.AsSym(), w) <==> SymDerives(ParserPart(env, Spelled(made)), a.AsSym(), w)
  {
    ParserPartSpelled(env, made);
    assert GoodNonterm(a, env.nonterminals[a]) && IsParserSymbol(env, a.AsSym());
    assert ParserClosure.Named(env, a);
    ParserIsPart(env, roots, made, mk);
    PartLanguage(ParserPart(env, made), InlinedGrammar(env, false), a.AsSym(), w);
    EnvLanguage(src, env, false, a.AsSym(), w);
  }

  lemma {:induction false} MarkedPart(mark: Ast -> Body, part: Grammar, g: Grammar)
    requires PartOf(part, g) && IsMarking(mark) && forall s :: s in g ==> s.NonTerminal?
    ensures PartOf(Marked(mark, part), Marked(mark, g))
  {
    var mp, mg := Marked(mark, part), Marked(mark, g);
    forall s, m: Rule, i | s in mp && m in mp[s] && 0 <= i < |m.symbols| && m.symbols[i].id in mg
      ensures m.symbols[i].id in mp
    {
      var j :| 0 <= j < |mp[s]| && mp[s][j] == m;
      var r := part[s][j];
      assert r in part[s] && m == MarkRule(mark, r);
      if i < |r.symbols| {
        assert m.symbols[i] == r.symbols[i];
      }
    }
  }

  /** The parser rules in the finished tables apply the same actions, in the same order and to the same words, as the
      rules that desugaring made of the author's definitions. */
  lemma {:induction false} ParserActions(env: Env, roots: seq<NonTermId>, made: Grammar, mk: Makers, mark: Ast -> Body,
    a: NonTermId, w: Word)
    requires WellFormed(env) && Finished(env, roots, made, mk) && IsMarking(mark)
    requires a in env.nonterminals && Reachable(env, roots, a)
    ensures SymDerives(Marked(mark, EnvGrammar(env, false)), a.AsSym(), w)
       <==> SymDerives(Marked(mark, ParserPart(env, Spelled(made))), a.AsSym(), w)
  {
    var part, g := ParserPart(env, made), InlinedGrammar(env, false);
    ParserPartSpelled(env, made);
    assert GoodNonterm(a, env.nonterminals[a]) && IsParserSymbol(env, a.AsSym());
    assert ParserClosure.Named(env, a);
    ParserIsPart(env, roots, made, mk);
    forall s | s in g
      ensures s.NonTerminal?
    {
      InEnvGrammar(env, false, s);
    }
    MarkedPart(mark, part, g);
    PartLanguage(Marked(mark, part), Marked(mark, g), a.AsSym(), w);
    var cs := EnvInlined(env, false);
    InliningKeepsActions(mark, EnvGrammar(env, false), g, cs, env.inlining, a.AsSym(), w);
  }

  // ----- the scanner's rules -----

  /** A symbol and the id that its token form was made from have the same source. */
  lemma {:induction false} SameSource(env: Env, s: SymbolId, q: NonTermId)
    requires WellFormed(env) && IsReference(s) && InItsForm(s) && Sourced(env, q) && s.id.AsTokSym() == q.AsTokSym()
    ensures EnvKey(env, true, s) && InlinedRulesOf(env, true, s) == TokenSource(env, q)
  {
    assert Owner(s.id) == Owner(q) && s.id.Sub? == q.Sub? && (q.Sub? ==> s.id.index == q.index);
  }

  lemma {:induction false} MakerOf(env: Env, made: Grammar, mk: Makers, t: SymbolId)
    requires WellFormed(env) && TokenKeys(env, mk) && IsTokenForm(Sources(env, mk), made, mk) && t in mk
    ensures Sourced(env, mk[t].0) && t == mk[t].0.AsTokSym()
  {
    SourceKeys(env, mk, t);
    assert MadeFrom(Sources(env, mk), made, mk, t);
  }

  lemma {:induction false} SourceRule(env: Env, made: Grammar, mk: Makers, s: SymbolId)
    requires WellFormed(env) && TokenKeys(env, mk) && IsTokenForm(Sources(env, mk), made, mk) && s in Sources(env, mk)
    ensures s in InlinedGrammar(env, true) && Sources(env, mk)[s] == InlinedGrammar(env, true)[s]
  {
    SourceKeys(env, mk, s);
    var t := TokSym(s);
    MakerOf(env, made, mk, t);
    SameSource(env, s, mk[t].0);
    InEnvGrammar(env, true, s);
  }

  lemma {:induction false} SourcesArePart(env: Env, made: Grammar, mk: Makers)
    requires WellFormed(env) && TokenKeys(env, mk) && IsTokenForm(Sources(env, mk), made, mk)
    requires RefersInside(Sources(env, mk))
    ensures PartOf(Sources(env, mk), InlinedGrammar(env, true))
  {
    var part, g := Sources(env, mk), InlinedGrammar(env, true);
    forall s | s in part
      ensures s in g && part[s] == g[s]
    {
      SourceRule(env, made, mk, s);
    }
    forall x | x in g
      ensures IsReference(x)
    {
      InEnvGrammar(env, true, x);
    }
    InsideIsPart(part, g);
  }

  lemma {:induction false} InsideIsPart(part: Grammar, g: Grammar)
    requires RefersInside(part) && (forall x :: x in g ==> IsReference(x))
    requires forall s :: s in part ==> s in g && part[s] == g[s]
    ensures PartOf(part, g)
  {
  }

  /** The token references of the parser's rules. */
  ghost predicate TokenOfParser(made: Grammar, t: SymbolId) {
    && t.NonTerminalToken?
    && exists s, r: Rule, i ::
         s in made && s.NonTerminal? && r in made[s] && 0 <= i < |r.symbols| && r.symbols[i].id == t
  }

  /** Only named non-terminals are referred to as tokens. */
  lemma {:induction false} TokenNamed(env: Env, s: SymbolId, r: Rule, i: nat)
    requires WellFormed(env) && IsParserSymbol(env, s) && r in ParserRules(env, s)
    requires i < |r.symbols| && r.symbols[i].id.NonTerminalToken?
    ensures r.symbols[i].id.id.Standard?
  {
    var t := r.symbols[i].id;
    ParserClosure.EmittedMentions(env, s, r);
    var n := env.nonterminals[Owner(s.id)];
    assert GoodNonterm(Owner(s.id), n) && t in Mentioned(n);
    if t.id.Sub? {
      ParserClosure.OwnSubs(Owner(s.id), n, t);
    }
  }

  /** A token that the parser's rules refer to is a named one, with scanner rules. */
  lemma {:induction false} TokenHasRules(env: Env, roots: seq<NonTermId>, made: Grammar, mk: Makers, t: SymbolId)
    requires WellFormed(env) && Finished(env, roots, made, mk) && TokenOfParser(made, t)
    ensures t in mk && t.id.Standard?
  {
    var s, r: Rule, i :| s in made && s.NonTerminal? && r in made[s] && 0 <= i < |r.symbols| && r.symbols[i].id == t;
    assert ReferenceFollowed(made, mk, t);
    TokenNamed(env, s, r, i);
  }

  /** The scanner rules derive what the inlined rules of the environment derive. */
  lemma {:induction false} TokenPartLanguage(env: Env, made: Grammar, mk: Makers, t: SymbolId, w: Word)
    requires WellFormed(env) && TokenKeys(env, mk) && IsTokenForm(Sources(env, mk), made, mk)
    requires RefersInside(Sources(env, mk)) && t in mk
    ensures t in made && (SymDerives(InlinedGrammar(env, true), t, w) <==> SymDerives(made, t, w))
  {
    TokenKeyMade(env, made, mk, t);
    SourcesArePart(env, made, mk);
    PartLanguage(Sources(env, mk), InlinedGrammar(env, true), t, w);
    SameLanguage(Sources(env, mk), made, mk, t, w);
  }

  lemma {:induction false} TokenKeyMade(env: Env, made: Grammar, mk: Makers, t: SymbolId)
    requires WellFormed(env) && TokenKeys(env, mk) && IsTokenForm(Sources(env, mk), made, mk) && t in mk
    ensures t in made && t in Sources(env, mk) && TokSym(t) == t
  {
    SourceKeys(env, mk, t);
    assert MadeFrom(Sources(env, mk), made, mk, t);
  }

  /** Before its literals are spelled, such a token derives what the author's definitions of it mean when the
      tokens in them are opened. */
  lemma {:induction false} PlainTokenLanguage(src: Source, env: Env, roots: seq<NonTermId>, made: Grammar, mk: Makers,
    t: SymbolId, w: Word)
    requires WellFormed(env) && EnvOf(src, env) && Finished(env, roots, made, mk) && TokenOfParser(made, t)
    ensures t in made && (Meant(src, true, t, w) <==> SymDerives(made, t, w))
  {
    TokenHasRules(env, roots, made, mk, t);
    TokenPartLanguage(env, made, mk, t, w);
    EnvLanguage(src, env, true, t, w);
  }

  /** Every token that a parser rule refers to derives, by the scanner rules that the finished tables hold and
      with left recursion removed, exactly the spellings of the words that the author's definitions of it mean
      when the tokens in them are opened. */
  lemma {:induction false} TokenLanguage(src: Source, env: Env, roots: seq<NonTermId>, made: Grammar, mk: Makers,
    t: SymbolId, v: Word)
    requires WellFormed(env) && EnvOf(src, env) && Finished(env, roots, made, mk) && TokenOfParser(made, t)
    ensures SymDerives(Spelled(made), t, v) <==> exists w :: Meant(src, true, t, w) && v == SpellWord(w)
  {
    PlainTokenLanguage(src, env, roots, made, mk, t, v);
    SpelledLanguage(made, t, v);
    forall w
      ensures Meant(src, true, t, w) <==> SymDerives(made, t, w)
    {
      PlainTokenLanguage(src, env, roots, made, mk, t, w);
    }
  }

  // ----- the compiler -----

  datatype Compiled = EmptyRuleAt(at: nat) | Refused | Tables(rules: seq<GrammarDatabase.ConvertedRule>)

  /** Processes every definition; the first one with a rule without symbols ends it. */
  method ProcessDefinitions(src: Source) returns (empty: bool, at: nat, nterms: seq<NonTerm>)
    ensures empty ==> at < |src| && ProcessNonTerm(src[at]).EmptyRule?
    ensures empty ==> forall k :: 0 <= k < at ==> ProcessNonTerm(src[k]).Ok?
    ensures !empty ==> AllProcessed(src, nterms)
  {
    nterms := [];
    for k := 0 to |src|
      invariant |nterms| == k && forall i :: 0 <= i < k ==> ProcessNonTerm(src[i]) == Processed.Ok(nterms[i])
    {
      var r := DesugarBuilder.ProcessNonTerminal(src[k]);
      if r.EmptyRule? {
        return true, k, nterms;
      }
      nterms := nterms + [r.nterm];
    }
    return false, 0, nterms;
  }

  /** The numbers of terminals are their own, and not those of defined non-terminals. */
  ghost predicate TerminalsNumberedApart(src: Source, ids: GrammarDatabase.TerminalIds) {
    && (forall s, r :: IsTerminal(s) && IsTerminal(r) && ids(s) == ids(r) ==> s == r)
    && (forall s, p :: IsTerminal(s) && HasDefinition(src, p) ==> ids(s) != p)
  }

  /** From the author's definitions to the tables. */
  method CompileGrammar(src: Source, customs: map<NonTermId, CustomState>, inlining: bool, roots: seq<NonTermId>,
                        ids: GrammarDatabase.TerminalIds, db: Tables.Database)
    returns (out: Compiled, ghost env: Env, ghost mk: Makers)
    requires FewSubs(src) && CustomsNamed(customs) && TerminalsNumberedApart(src, ids)
    requires db.Valid() && db.made == map[] && db.symbols == map[Default := 0]
    requires db.states == StatesOf(Env(map[], customs, inlining))
    modifies db
    ensures db.Valid()
    ensures out.EmptyRuleAt? <==> exists d :: d in src && ProcessNonTerm(d).EmptyRule?
    ensures out.EmptyRuleAt? ==> out.at < |src| && ProcessNonTerm(src[out.at]).EmptyRule?
    ensures !out.EmptyRuleAt? ==> WellFormed(env) && EnvOf(src, env) && env.customs == customs && env.inlining == inlining
    ensures out.Refused? ==> Defective(env, roots)
    ensures out.Tables? ==> Finished(env, roots, db.made, mk) && |out.rules| == |db.rules|
    ensures out.Tables? ==> GrammarDatabase.TerminalsScanned(ids, db.symbols.Keys, db.made)
    ensures out.Tables? ==> forall r :: 0 <= r < |out.rules| ==>
                              GrammarDatabase.StandsFor(out.rules[r], db.rules[r], db.order, db.symbolOrder)
  {
    var empty, at, nterms := ProcessDefinitions(src);
    mk := map[];
    env := Env(map[], customs, inlining);
    if empty {
      assert src[at] in src;
      return EmptyRuleAt(at), env, mk;
    }
    assert forall d :: d in src ==> ProcessNonTerm(d).Ok?;
    var nonterminals := Merge.MergeDefinitions(nterms);
    MergedIsWhole(src, nterms);
    var e := Env(nonterminals, customs, inlining);
    env := e;
    EnvWellFormed(src, env);
    var outcome;
    outcome, mk := BuildCompileDb(e, roots, ids, db);
    match outcome {
      case Rejected => out := Refused;
      case Built(rules) => out := Compiled.Tables(rules);
    }
  }
}
