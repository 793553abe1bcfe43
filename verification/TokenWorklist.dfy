/** The second worklist of the grammar database (crates/radlr-core/grammar/build_database.rs:204-308, 764-782):
    from the token references of the parser rules it builds the scanner rules of every token non-terminal. */
module TokenWorklist {
  import opened Sequences
  import opened Symbols
  import opened Cfg
  import opened Inline
  import opened LeftRecursion
  import opened Spelling
  import opened Tables
  import opened ParserWorklist
  import opened ParserClosure

  // ----- sources -----

  /** The queued id names a non-terminal, or one of the sub-non-terminals of a non-terminal. */
  ghost predicate Sourced(env: Env, q: NonTermId) {
    Owner(q) in env.nonterminals && (q.Sub? ==> q.index < |env.nonterminals[Owner(q)].subs|)
  }

  /** The rules that the scanner rules are made from: groups are always inlined. */
  ghost function TokenSource(env: Env, q: NonTermId): seq<Rule>
    requires WellFormed(env) && Sourced(env, q)
  {
    var n := env.nonterminals[Owner(q)];
    GoodFounded(Owner(q), n);
    InlineRules(CandidatesOf(n), if q.Standard? then n.rules else n.subs[q.index].rules, env.inlining, true)
  }

  /** A source mentions only what its non-terminal mentions. */
  lemma {:induction false} SourceMentions(env: Env, q: NonTermId, m: Rule)
    requires WellFormed(env) && Sourced(env, q) && m in TokenSource(env, q)
    ensures IdsWithin(m.symbols, Mentioned(env.nonterminals[Owner(q)]))
  {
    var n := env.nonterminals[Owner(q)];
    GoodFounded(Owner(q), n);
    CandidatesWithin(n);
    var rules := if q.Standard? then n.rules else n.subs[q.index].rules;
    if q.Sub? {
      SubMentions(n.subs, q.index);
    }
    BodiesWithin(rules, Mentioned(n));
    InlinedWithin(CandidatesOf(n), rules, env.inlining, true, Mentioned(n), m);
  }

  ghost predicate HasEmpty(rules: seq<Rule>) {
    exists r :: r in rules && r.symbols == []
  }

  /** The non-terminal, or one of its sub-non-terminals, has a rule without symbols. */
  ghost predicate HasEmptyRule(n: NonTerm) {
    HasEmpty(n.rules) || exists k :: 0 <= k < |n.subs| && HasEmpty(n.subs[k].rules)
  }

  /** Some rule that the scanner rules are made from has no first symbol. */
  ghost predicate EmptySource(env: Env, q: NonTermId)
    requires WellFormed(env)
  {
    Sourced(env, q) && !NoEmptyBody(TokenSource(env, q))
  }

  /** Inlining makes no empty body: where a source has one, the non-terminal itself had one. */
  lemma {:induction false} EmptyInEnv(env: Env, q: NonTermId)
    requires WellFormed(env) && EmptySource(env, q)
    ensures HasEmptyRule(env.nonterminals[Owner(q)])
  {
    var n := env.nonterminals[Owner(q)];
    GoodFounded(Owner(q), n);
    var c, rules := CandidatesOf(n), if q.Standard? then n.rules else n.subs[q.index].rules;
    if !HasEmptyRule(n) {
      forall id, r | id in c && r in c[id].rules
        ensures r.symbols != []
      {
        var k :| 0 <= k < |n.subs| && n.subs[k] == c[id];
        assert !HasEmpty(n.subs[k].rules);
      }
      assert !HasEmpty(rules);
      var m :| m in TokenSource(env, q) && m.symbols == [];
      InlinedNotEmpty(c, rules, env.inlining, true, m);
    }
  }

  // ----- queueing -----

  function BodyTokens(b: Body): seq<NonTermId> {
    if b == [] then [] else BodyTokens(Init(b)) + if IsReference(Last(b).id) then [Last(b).id.id] else []
  }

  function RuleTokens(rules: seq<Rule>): seq<NonTermId> {
    if rules == [] then [] else RuleTokens(Init(rules)) + BodyTokens(Last(rules).symbols)
  }

  lemma {:induction false} BodyTokensExactly(b: Body)
    ensures forall q :: q in BodyTokens(b) <==> exists i :: 0 <= i < |b| && IsReference(b[i].id) && b[i].id.id == q
  {
    if b != [] {
      var init := Init(b);
      BodyTokensExactly(init);
      forall q
        ensures q in BodyTokens(b) <==> exists i :: 0 <= i < |b| && IsReference(b[i].id) && b[i].id.id == q
      {
        if q in BodyTokens(init) {
          var i :| 0 <= i < |init| && IsReference(init[i].id) && init[i].id.id == q;
          assert b[i] == init[i];
        } else if i :| 0 <= i < |b| && IsReference(b[i].id) && b[i].id.id == q {
          if i < |init| {
            assert b[i] == init[i];
          }
        }
      }
    }
  }

  /** The rule holds a reference to `q`. */
  ghost predicate RefersTo(r: Rule, q: NonTermId) {
    exists i :: 0 <= i < |r.symbols| && IsReference(r.symbols[i].id) && r.symbols[i].id.id == q
  }

  lemma {:induction false} RuleTokensExactly(rules: seq<Rule>)
    ensures forall q :: q in RuleTokens(rules) <==> exists r :: r in rules && RefersTo(r, q)
  {
    if rules != [] {
      SplitLast(rules);
      RuleTokensExactly(Init(rules));
      BodyTokensExactly(Last(rules).symbols);
      forall q
        ensures q in RuleTokens(rules) <==> exists r :: r in rules && RefersTo(r, q)
      {
        if q in RuleTokens(Init(rules)) {
          var r :| r in Init(rules) && RefersTo(r, q);
          assert r in rules;
        } else if r :| r in rules && RefersTo(r, q) {
          assert r == Last(rules);
        }
        if q in BodyTokens(Last(rules).symbols) {
          assert RefersTo(Last(rules), q) && Last(rules) in rules;
        }
      }
    }
  }

  // ----- references and literals -----

  lemma {:induction false} TokBodyConcat(a: Body, b: Body)
    ensures TokBody(a + b) == TokBody(a) + TokBody(b)
  {
  }

  lemma {:induction false} BodyTokensConcat(a: Body, b: Body)
    ensures BodyTokens(a + b) == BodyTokens(a) + BodyTokens(b)
    decreases |b|
  {
    if b == [] {
      assert a + b == a;
    } else {
      assert Init(a + b) == a + Init(b) && Last(a + b) == Last(b);
      BodyTokensConcat(a, Init(b));
    }
  }

  /** A literal holds no reference. */
  lemma {:induction false} NoTokens(b: Body)
    requires forall i :: 0 <= i < |b| ==> !IsReference(b[i].id)
    ensures BodyTokens(b) == [] && TokBody(b) == b
  {
    if b != [] {
      NoTokens(Init(b));
    }
  }

  lemma {:induction false} SpelledTokenRef(s: SymbolRef)
    ensures TokBody(SpellRef(s)) == SpellRef(TokRef(s)) && BodyTokens(SpellRef(s)) == BodyTokens([s])
  {
    assert Init([s]) == [] && BodyTokens([]) == [];
    if s.id.Token? {
      NoTokens(SpellRef(s));
    } else {
      assert TokBody([s]) == [TokRef(s)];
    }
  }

  /** Spelling literals out and writing references in token form do not disturb each other. */
  lemma {:induction false} SpelledTokenBody(b: Body)
    ensures TokBody(SpellBody(b)) == SpellBody(TokBody(b))
  {
    if b != [] {
      SpelledTokenBody(Init(b));
      TokBodySnoc(b);
      TokBodyConcat(SpellBody(Init(b)), SpellRef(Last(b)));
      SpelledTokenRef(Last(b));
    }
  }

  lemma {:induction false} SpelledBodyTokens(b: Body)
    ensures BodyTokens(SpellBody(b)) == BodyTokens(b)
  {
    if b != [] {
      SpelledBodyTokens(Init(b));
      BodyTokensConcat(SpellBody(Init(b)), SpellRef(Last(b)));
      SpelledTokenRef(Last(b));
      SplitLast(b);
      BodyTokensConcat(Init(b), [Last(b)]);
    }
  }

  lemma {:induction false} SpelledTokens(rules: seq<Rule>)
    ensures TokRules(SpellRules(rules)) == SpellRules(TokRules(rules)) && RuleTokens(SpellRules(rules)) == RuleTokens(rules)
  {
    forall i | 0 <= i < |rules|
      ensures TokRules(SpellRules(rules))[i] == SpellRules(TokRules(rules))[i]
    {
      SpelledTokenBody(rules[i].symbols);
    }
    SpelledQueue(rules);
  }

  lemma {:induction false} SpelledQueue(rules: seq<Rule>)
    ensures RuleTokens(SpellRules(rules)) == RuleTokens(rules)
  {
    if rules != [] {
      assert Init(SpellRules(rules)) == SpellRules(Init(rules));
      SpelledQueue(Init(rules));
      SpelledBodyTokens(Last(rules).symbols);
    }
  }

  method ConvertBody(b: Body, queue: seq<NonTermId>) returns (t: Body, queue': seq<NonTermId>)
    ensures t == TokBody(b) && queue' == queue + BodyTokens(b)
  {
    t, queue' := [], queue;
    for k := 0 to |b|
      invariant t == TokBody(b[..k]) && queue' == queue + BodyTokens(b[..k])
    {
      var s := b[k];
      TakeOneMore(b, k);
      TokBodySnoc(b[..k + 1]);
      if IsReference(s.id) {
        queue' := queue' + [s.id.id];
        t := t + [s.(id := s.id.id.AsTokSym())];
      } else {
        t := t + [s];
      }
    }
    assert b[..|b|] == b;
  }

  /** Queues every non-terminal of the rules, and writes the references in token form. */
  method InsertTokenNonterminal(rules: seq<Rule>, queue: seq<NonTermId>) returns (t: seq<Rule>, queue': seq<NonTermId>)
    ensures t == TokRules(rules) && queue' == queue + RuleTokens(rules)
  {
    t, queue' := [], queue;
    for k := 0 to |rules|
      invariant t == TokRules(rules[..k]) && queue' == queue + RuleTokens(rules[..k])
    {
      TakeOneMore(rules, k);
      var body;
      body, queue' := ConvertBody(rules[k].symbols, queue');
      t := t + [rules[k].(symbols := body)];
    }
    assert rules[..|rules|] == rules;
  }

  // ----- what the tokens reach -----

  /** The source of `a` refers to `b`. */
  ghost predicate TokenEdge(env: Env, a: NonTermId, b: NonTermId)
    requires WellFormed(env)
  {
    Sourced(env, a) && exists m :: m in TokenSource(env, a) && RefersTo(m, b)
  }

  /** From a token reference of the parser's grammar on, each id is one that the source of the last refers to. */
  ghost predicate TokenPath(env: Env, roots: seq<NonTermId>, path: seq<NonTermId>)
    requires WellFormed(env)
  {
    path != [] &&
    if |path| == 1 then Referenced(env, roots, path[0])
    else TokenPath(env, roots, Init(path)) && TokenEdge(env, Last(Init(path)), Last(path))
  }

  ghost predicate TokenReached(env: Env, roots: seq<NonTermId>, q: NonTermId)
    requires WellFormed(env)
  {
    exists path :: TokenPath(env, roots, path) && Last(path) == q
  }

  /** No earlier id of the path, in either form, is the last one. */
  ghost predicate Arrives(path: seq<NonTermId>) {
    path != [] && forall j :: 0 <= j < |path| - 1 ==> path[j].AsTokSym() != Last(path).AsTokSym()
  }

  /** The id is reached, in this form, without passing it in any form. */
  ghost predicate FirstReached(env: Env, roots: seq<NonTermId>, q: NonTermId)
    requires WellFormed(env)
  {
    exists path :: TokenPath(env, roots, path) && Arrives(path) && Last(path) == q
  }

  ghost predicate Trodden(made: Grammar, path: seq<NonTermId>) {
    forall j :: 0 <= j < |path| - 1 ==> path[j].AsTokSym() in made
  }

  /** The id was reached by way of indexed ids, or is indexed itself. */
  ghost predicate QueuedBy(env: Env, roots: seq<NonTermId>, made: Grammar, q: NonTermId)
    requires WellFormed(env)
  {
    q.AsTokSym() in made || exists path :: TokenPath(env, roots, path) && Trodden(made, path) && Last(path) == q
  }

  ghost predicate Traced(env: Env, roots: seq<NonTermId>, made: Grammar, mk: Makers, queue: seq<NonTermId>)
    requires WellFormed(env)
  {
    && (forall t :: t in mk ==> FirstReached(env, roots, mk[t].0))
    && (forall i :: 0 <= i < |queue| ==> QueuedBy(env, roots, made, queue[i]))
  }

  lemma {:induction false} TracedStart(env: Env, roots: seq<NonTermId>, made: Grammar, tokens: seq<NonTermId>)
    requires WellFormed(env) && TokensNamed(env, roots, tokens)
    ensures Traced(env, roots, made, map[], tokens)
  {
    forall i | 0 <= i < |tokens|
      ensures QueuedBy(env, roots, made, tokens[i])
    {
      var path := [tokens[i]];
      assert tokens[i] in tokens && TokenPath(env, roots, path) && Trodden(made, path) && Last(path) == tokens[i];
    }
  }

  lemma {:induction false} TracedPop(env: Env, roots: seq<NonTermId>, made: Grammar, mk: Makers, queue: seq<NonTermId>)
    requires WellFormed(env) && queue != [] && Traced(env, roots, made, mk, queue)
    ensures Traced(env, roots, made, mk, queue[1..])
  {
    forall i | 0 <= i < |queue[1..]|
      ensures QueuedBy(env, roots, made, queue[1..][i])
    {
      assert queue[1..][i] == queue[i + 1];
    }
  }

  /** The head of the queue, when it is not indexed, is reached for the first time. */
  lemma {:induction false} HeadReached(env: Env, roots: seq<NonTermId>, made: Grammar, mk: Makers, queue: seq<NonTermId>)
    returns (path: seq<NonTermId>)
    requires WellFormed(env) && queue != [] && Traced(env, roots, made, mk, queue) && queue[0].AsTokSym() !in made
    ensures TokenPath(env, roots, path) && Trodden(made, path) && Last(path) == queue[0]
    ensures FirstReached(env, roots, queue[0]) && TokenReached(env, roots, queue[0])
  {
    assert QueuedBy(env, roots, made, queue[0]);
    path :| TokenPath(env, roots, path) && Trodden(made, path) && Last(path) == queue[0];
    assert Arrives(path);
  }

  lemma {:induction false} StillQueued(env: Env, roots: seq<NonTermId>, made: Grammar, made': Grammar, q: NonTermId)
    requires WellFormed(env) && QueuedBy(env, roots, made, q) && made.Keys <= made'.Keys
    ensures QueuedBy(env, roots, made', q)
  {
    if path :| TokenPath(env, roots, path) && Trodden(made, path) && Last(path) == q {
      assert Trodden(made', path);
    }
  }

  lemma {:induction false} LongerPath(env: Env, roots: seq<NonTermId>, path: seq<NonTermId>, p: NonTermId)
    requires WellFormed(env) && TokenPath(env, roots, path) && TokenEdge(env, Last(path), p)
    ensures TokenPath(env, roots, path + [p]) && Last(path + [p]) == p
  {
    assert Init(path + [p]) == path;
  }

  /** What the source of an indexed id refers to is reached one step later. */
  lemma {:induction false} EdgeQueued(env: Env, roots: seq<NonTermId>, made: Grammar, path: seq<NonTermId>, p: NonTermId)
    requires WellFormed(env) && TokenPath(env, roots, path) && Trodden(made, path) && Last(path).AsTokSym() in made
    requires TokenEdge(env, Last(path), p)
    ensures QueuedBy(env, roots, made, p)
  {
    var longer := path + [p];
    LongerPath(env, roots, path, p);
    forall j | 0 <= j < |longer| - 1
      ensures longer[j].AsTokSym() in made
    {
      assert longer[j] == path[j];
    }
    assert Trodden(made, longer);
  }

  // ----- what was made -----

  /** The scanner rules of `t` in the tables are those made from its source. */
  ghost predicate TokenMade(env: Env, made: Grammar, mk: Makers, t: SymbolId)
    requires WellFormed(env)
  {
    && t in mk && t in made
    && var (q, prime) := mk[t];
       && Sourced(env, q) && NoEmptyBody(TokenSource(env, q)) && t == q.AsTokSym()
       && prime.Sub? && prime.index >= MAX_SUBS
       && match ToTokenRules(q, TokenSource(env, q), prime)
          case Plain(rules) => made[t] == rules
          case Primed(rules, primeRules) =>
            made[t] == rules && prime.AsTokSym() in made && made[prime.AsTokSym()] == primeRules
          case NoBaseRule => false
  }

  /** The rules of `u` were left recursive, and `t` is its prime. */
  ghost predicate IsPrimeOf(env: Env, mk: Makers, u: SymbolId, t: SymbolId)
    requires WellFormed(env)
  {
    && u in mk && mk[u].1.AsTokSym() == t && Sourced(env, mk[u].0) && NoEmptyBody(TokenSource(env, mk[u].0))
    && ToTokenRules(mk[u].0, TokenSource(env, mk[u].0), mk[u].1).Primed?
  }

  /** A token non-terminal of the tables was made from a source, or is the prime of one that was. */
  ghost predicate Accounted(env: Env, mk: Makers, t: SymbolId)
    requires WellFormed(env) && t.NonTerminalToken?
  {
    t in mk || (t.id.Sub? && t.id.index >= MAX_SUBS && exists u :: IsPrimeOf(env, mk, u, t))
  }

  ghost predicate Waiting(made: Grammar, queue: seq<NonTermId>, errors: nat, t: SymbolId) {
    t in made || errors > 0 || exists i :: 0 <= i < |queue| && queue[i].AsTokSym() == t
  }

  /** Every reference of the source of `t` is indexed or queued. */
  ghost predicate SourceFollowed(env: Env, made: Grammar, mk: Makers, queue: seq<NonTermId>, errors: nat, t: SymbolId)
    requires WellFormed(env) && TokenMade(env, made, mk, t)
  {
    forall m, i :: m in TokenSource(env, mk[t].0) && 0 <= i < |m.symbols| && IsReference(m.symbols[i].id) ==>
      Waiting(made, queue, errors, TokSym(m.symbols[i].id))
  }

  /** A queued id is indexed, or its index is in range. */
  ghost predicate QueueFits(env: Env, made: Grammar, q: NonTermId) {
    q.AsTokSym() !in made && Owner(q) in env.nonterminals ==> Sourced(env, q)
  }

  /** The parser rules are as before, and every token non-terminal is accounted for. */
  ghost predicate TokenTables(env: Env, before: Grammar, made: Grammar, mk: Makers)
    requires WellFormed(env)
  {
    && (forall s :: s in before ==> s in made && made[s] == before[s])
    && (forall s :: s in made && s !in before ==> s.NonTerminalToken?)
    && (forall t :: t in mk ==> TokenMade(env, made, mk, t))
    && (forall t :: t in made && t.NonTerminalToken? ==> Accounted(env, mk, t))
    && (forall t :: t in made && t.NonTerminalToken? && t.id.Sub? ==> t.id.index < |made| + MAX_SUBS)
  }

  ghost predicate TokenPending(env: Env, tokens: seq<NonTermId>, made: Grammar, mk: Makers, queue: seq<NonTermId>,
                               errors: nat)
    requires WellFormed(env) && forall t :: t in mk ==> TokenMade(env, made, mk, t)
  {
    && (forall t :: t in mk ==> SourceFollowed(env, made, mk, queue, errors, t))
    && (forall i :: 0 <= i < |queue| ==> QueueFits(env, made, queue[i]))
    && (forall q :: q in tokens ==> Waiting(made, queue, errors, q.AsTokSym()))
  }

  ghost predicate TokenInv(env: Env, before: Grammar, tokens: seq<NonTermId>, made: Grammar, mk: Makers,
                           queue: seq<NonTermId>, errors: nat)
    requires WellFormed(env)
  {
    TokenTables(env, before, made, mk) && TokenPending(env, tokens, made, mk, queue, errors)
  }

  // ----- one step -----

  function PrimeId(q: NonTermId, n: nat): NonTermId { Sub(q.id, n + MAX_SUBS, Scanner) }

  /** The ids queued while the scanner rules of `q` are made. */
  function Pushed(q: NonTermId, source: seq<Rule>, prime: NonTermId): seq<NonTermId>
    requires NoEmptyBody(source)
  {
    var recursive, base := Group(q, source, true), Group(q, source, false);
    if recursive == [] then RuleTokens(source)
    else
      RuleTokens(base + AllWithTail(base, PrimeRef(prime))) + RuleTokens(PrimeRules(recursive, PrimeRef(prime)))
  }

  /** The reference is queued, unless it leads a left-recursive rule and so names the non-terminal itself. */
  lemma {:induction false} PushedCovers(q: NonTermId, source: seq<Rule>, prime: NonTermId, m: Rule, i: nat)
    requires NoEmptyBody(source) && m in source && i < |m.symbols| && IsReference(m.symbols[i].id)
    ensures m.symbols[i].id.id in Pushed(q, source, prime) || TokSym(m.symbols[i].id) == q.AsTokSym()
  {
    var recursive, base, tail := Group(q, source, true), Group(q, source, false), PrimeRef(prime);
    var id := m.symbols[i].id.id;
    assert RefersTo(m, id);
    if recursive == [] {
      RuleTokensExactly(source);
    } else {
      RuleTokensExactly(base + AllWithTail(base, tail));
      RuleTokensExactly(PrimeRules(recursive, tail));
      if Leads(q, m) {
        if i > 0 {
          assert WithoutHead(m).symbols[i - 1] == m.symbols[i];
          assert RefersTo(WithoutHead(m), id) && WithoutHead(m) in PrimeRules(recursive, tail);
        }
      } else {
        assert m in base + AllWithTail(base, tail);
      }
    }
  }

  /** What is queued is a reference of the source, or the prime. */
  lemma {:induction false} PushedFrom(q: NonTermId, source: seq<Rule>, prime: NonTermId, p: NonTermId)
    requires NoEmptyBody(source) && p in Pushed(q, source, prime)
    ensures p == prime.AsScan() || exists m :: m in source && RefersTo(m, p)
  {
    var recursive, base, tail := Group(q, source, true), Group(q, source, false), PrimeRef(prime);
    if recursive == [] {
      RuleTokensExactly(source);
    } else {
      RuleTokensExactly(base + AllWithTail(base, tail));
      RuleTokensExactly(PrimeRules(recursive, tail));
      var first := base + AllWithTail(base, tail);
      if r :| r in first && RefersTo(r, p) {
        if r !in base {
          var o := WithTailFrom(base, tail, r);
          TailRefers(o, tail, p);
          assert o in source;
        }
      } else {
        var r :| r in PrimeRules(recursive, tail) && RefersTo(r, p);
        var o :| o in recursive && (r == WithoutHead(o) || r == WithTail(WithoutHead(o), tail));
        if r == WithTail(WithoutHead(o), tail) {
          TailRefers(WithoutHead(o), tail, p);
        }
        HeadlessRefers(o, p);
        assert o in source;
      }
    }
  }

  lemma {:induction false} TailRefers(r: Rule, tail: SymbolRef, p: NonTermId)
    requires RefersTo(WithTail(r, tail), p)
    ensures RefersTo(r, p) || (IsReference(tail.id) && tail.id.id == p)
  {
    var s := WithTail(r, tail).symbols;
    var i :| 0 <= i < |s| && IsReference(s[i].id) && s[i].id.id == p;
    if i < |r.symbols| {
      assert r.symbols[i] == s[i];
    }
  }

  lemma {:induction false} HeadlessRefers(r: Rule, p: NonTermId)
    requires r.symbols != []
    ensures RefersTo(WithoutHead(r), p) ==> RefersTo(r, p)
  {
    if RefersTo(WithoutHead(r), p) {
      var s := WithoutHead(r).symbols;
      var i :| 0 <= i < |s| && IsReference(s[i].id) && s[i].id.id == p;
      assert r.symbols[i + 1] == s[i];
    }
  }

  /** A reference in a source can be queued: its own index is in range. */
  lemma {:induction false} ReferenceFits(env: Env, q: NonTermId, m: Rule, p: NonTermId)
    requires WellFormed(env) && Sourced(env, q) && m in TokenSource(env, q) && RefersTo(m, p)
    ensures Owner(p) in env.nonterminals ==> Sourced(env, p)
    ensures p.Sub? ==> p.index < MAX_SUBS
  {
    var n := env.nonterminals[Owner(q)];
    SourceMentions(env, q, m);
    var i :| 0 <= i < |m.symbols| && IsReference(m.symbols[i].id) && m.symbols[i].id.id == p;
    assert GoodNonterm(Owner(q), n);
    if p.Sub? {
      OwnSubs(Owner(q), n, m.symbols[i].id);
      var k: nat :| k < |n.subs| && m.symbols[i].id == SubSym(Owner(q), k);
      assert p == Sub(q.id, k, Parser);
    }
  }

  /** The grammar after the scanner rules of `q` were added. */
  function WithToken(made: Grammar, q: NonTermId, source: seq<Rule>, prime: NonTermId): Grammar
    requires NoEmptyBody(source)
  {
    match ToTokenRules(q, source, prime)
    case Plain(rules) => made[q.AsTokSym() := rules]
    case Primed(rules, primeRules) => made[q.AsTokSym() := rules][prime.AsTokSym() := primeRules]
    case NoBaseRule => made
  }

  /** The prime of a step is new. */
  lemma {:induction false} FreshPrime(env: Env, made: Grammar, q: NonTermId, n: nat)
    requires WellFormed(env) && Sourced(env, q) && |made| <= n
    requires forall t :: t in made && t.NonTerminalToken? && t.id.Sub? ==> t.id.index < |made| + MAX_SUBS
    ensures PrimeId(q, n).AsTokSym() !in made && PrimeId(q, n).AsTokSym() != q.AsTokSym()
  {
    assert GoodNonterm(Owner(q), env.nonterminals[Owner(q)]);
    var p := PrimeId(q, n).AsTokSym();
    assert p.NonTerminalToken? && p.id.Sub? && p.id.index == n + MAX_SUBS;
  }

  /** A table entry made before is still there. */
  lemma {:induction false} StillMade(env: Env, made: Grammar, mk: Makers, made': Grammar, mk': Makers, t: SymbolId)
    requires WellFormed(env) && TokenMade(env, made, mk, t) && t in mk' && mk'[t] == mk[t]
    requires forall s :: s in made ==> s in made' && made'[s] == made[s]
    ensures TokenMade(env, made', mk', t)
  {
  }

  lemma {:induction false} NowMade(env: Env, made: Grammar, mk: Makers, q: NonTermId, prime: NonTermId)
    requires WellFormed(env) && StepReady(env, made, q, prime) && q.AsTokSym() in mk && mk[q.AsTokSym()] == (q, prime)
    ensures TokenMade(env, WithToken(made, q, TokenSource(env, q), prime), mk, q.AsTokSym())
  {
  }

  lemma {:induction false} StepMade(env: Env, made: Grammar, mk: Makers, q: NonTermId, prime: NonTermId,
    made': Grammar, mk': Makers)
    requires WellFormed(env) && StepReady(env, made, q, prime)
    requires made' == WithToken(made, q, TokenSource(env, q), prime) && mk' == mk[q.AsTokSym() := (q, prime)]
    requires forall s :: s in made ==> s in made' && made'[s] == made[s]
    requires forall t :: t in mk ==> TokenMade(env, made, mk, t)
    ensures forall t :: t in mk' ==> TokenMade(env, made', mk', t)
  {
    forall t | t in mk'
      ensures TokenMade(env, made', mk', t)
    {
      if t == q.AsTokSym() {
        NowMade(env, made, mk', q, prime);
      } else {
        StillMade(env, made, mk, made', mk', t);
      }
    }
  }

  lemma {:induction false} StepFollowed(env: Env, made: Grammar, mk: Makers, queue: seq<NonTermId>, errors: nat,
    made': Grammar, mk': Makers, queue': seq<NonTermId>, errors': nat, t: SymbolId)
    requires WellFormed(env) && TokenMade(env, made, mk, t) && TokenMade(env, made', mk', t)
    requires mk'[t] == mk[t] && SourceFollowed(env, made, mk, queue, errors, t)
    requires forall s :: Waiting(made, queue, errors, s) ==> Waiting(made', queue', errors', s)
    ensures SourceFollowed(env, made', mk', queue', errors', t)
  {
    forall m, i | m in TokenSource(env, mk'[t].0) && 0 <= i < |m.symbols| && IsReference(m.symbols[i].id)
      ensures Waiting(made', queue', errors', TokSym(m.symbols[i].id))
    {
      assert Waiting(made, queue, errors, TokSym(m.symbols[i].id));
    }
  }

  /** Popping the head keeps every symbol waiting, if the head's own symbol is settled. */
  lemma {:induction false} StillWaiting(made: Grammar, queue: seq<NonTermId>, errors: nat,
    made': Grammar, more: seq<NonTermId>, errors': nat)
    requires queue != [] && made.Keys <= made'.Keys && errors <= errors'
    requires queue[0].AsTokSym() in made' || errors' > 0
    ensures forall s :: Waiting(made, queue, errors, s) ==> Waiting(made', queue[1..] + more, errors', s)
  {
    forall s | Waiting(made, queue, errors, s)
      ensures Waiting(made', queue[1..] + more, errors', s)
    {
      if i :| 0 <= i < |queue| && queue[i].AsTokSym() == s {
        if i > 0 {
          assert (queue[1..] + more)[i - 1] == queue[i];
        }
      }
    }
  }

  lemma {:induction false} InvTokenPop(env: Env, before: Grammar, tokens: seq<NonTermId>, made: Grammar, mk: Makers,
    queue: seq<NonTermId>, errors: nat, errors': nat)
    requires WellFormed(env) && queue != [] && TokenInv(env, before, tokens, made, mk, queue, errors)
    requires errors <= errors' && (queue[0].AsTokSym() in made || errors' > 0)
    ensures TokenInv(env, before, tokens, made, mk, queue[1..], errors')
  {
    StillWaiting(made, queue, errors, made, [], errors');
    assert queue[1..] + [] == queue[1..];
    forall t | t in mk
      ensures SourceFollowed(env, made, mk, queue[1..], errors', t)
    {
      StepFollowed(env, made, mk, queue, errors, made, mk, queue[1..], errors', t);
    }
    forall i | 0 <= i < |queue[1..]|
      ensures QueueFits(env, made, queue[1..][i])
    {
      assert queue[1..][i] == queue[i + 1];
    }
  }

  /** The symbols that a step adds. */
  lemma {:induction false} StepAdds(made: Grammar, q: NonTermId, source: seq<Rule>, prime: NonTermId)
    requires NoEmptyBody(source) && !ToTokenRules(q, source, prime).NoBaseRule?
    requires q.AsTokSym() !in made && prime.AsTokSym() !in made && prime.AsTokSym() != q.AsTokSym()
    ensures var made' := WithToken(made, q, source, prime);
            && (forall s :: s in made ==> s in made' && made'[s] == made[s])
            && q.AsTokSym() in made' && |made| < |made'| <= |made| + 2
            && (prime.AsTokSym() in made' ==> |made'| == |made| + 2 && ToTokenRules(q, source, prime).Primed?)
            && (forall s :: s in made' ==> s in made || s == q.AsTokSym() || s == prime.AsTokSym())
  {
    var made1 := made[q.AsTokSym() := ToTokenRules(q, source, prime).rules];
    assert |made1| == |made| + 1;
  }

  lemma {:induction false} StepTables(env: Env, before: Grammar, made: Grammar, mk: Makers, q: NonTermId, prime: NonTermId,
    made': Grammar, mk': Makers)
    requires WellFormed(env) && TokenTables(env, before, made, mk) && StepReady(env, made, q, prime)
    requires made' == WithToken(made, q, TokenSource(env, q), prime) && mk' == mk[q.AsTokSym() := (q, prime)]
    ensures TokenTables(env, before, made', mk') && q.AsTokSym() in made' && made.Keys <= made'.Keys
  {
    StepAdds(made, q, TokenSource(env, q), prime);
    StepMade(env, made, mk, q, prime, made', mk');
    assert GoodNonterm(Owner(q), env.nonterminals[Owner(q)]);
    StepAccounted(env, made, mk, q, prime, made');
  }

  lemma {:induction false} StepAccounted(env: Env, made: Grammar, mk: Makers, q: NonTermId, prime: NonTermId, made': Grammar)
    requires WellFormed(env) && StepReady(env, made, q, prime) && (q.Sub? ==> q.index < MAX_SUBS) && |made| < |made'|
    requires q.AsTokSym() !in mk
    requires forall s :: s in made' ==> s in made || s == q.AsTokSym() || s == prime.AsTokSym()
    requires prime.AsTokSym() in made' ==>
               |made'| == |made| + 2 && ToTokenRules(q, TokenSource(env, q), prime).Primed?
    requires forall t :: t in made && t.NonTerminalToken? ==>
               Accounted(env, mk, t) && (t.id.Sub? ==> t.id.index < |made| + MAX_SUBS)
    ensures forall t :: t in made' && t.NonTerminalToken? ==>
              Accounted(env, mk[q.AsTokSym() := (q, prime)], t) && (t.id.Sub? ==> t.id.index < |made'| + MAX_SUBS)
  {
    var mk' := mk[q.AsTokSym() := (q, prime)];
    forall t | t in made' && t.NonTerminalToken?
      ensures Accounted(env, mk', t) && (t.id.Sub? ==> t.id.index < |made'| + MAX_SUBS)
    {
      if t in made {
        assert Accounted(env, mk, t);
        if u :| IsPrimeOf(env, mk, u, t) {
          assert IsPrimeOf(env, mk', u, t);
        }
      } else if t == prime.AsTokSym() {
        assert IsPrimeOf(env, mk', q.AsTokSym(), t);
      }
    }
  }

  /** A step for `q` can be made: it has a source without empty bodies and with a base rule, and its prime
      is new. */
  ghost predicate StepReady(env: Env, made: Grammar, q: NonTermId, prime: NonTermId)
    requires WellFormed(env)
  {
    && Sourced(env, q) && q.AsTokSym() !in made && NoEmptyBody(TokenSource(env, q))
    && prime == PrimeId(q, |made|) && prime.AsTokSym() !in made && prime.AsTokSym() != q.AsTokSym()
    && !ToTokenRules(q, TokenSource(env, q), prime).NoBaseRule?
  }

  lemma {:induction false} StepQueue(env: Env, made: Grammar, made': Grammar, rest: seq<NonTermId>, q: NonTermId,
    prime: NonTermId)
    requires WellFormed(env) && StepReady(env, made, q, prime)
    requires made' == WithToken(made, q, TokenSource(env, q), prime)
    requires forall i :: 0 <= i < |rest| ==> QueueFits(env, made, rest[i])
    ensures forall i :: 0 <= i < |rest + Pushed(q, TokenSource(env, q), prime)| ==>
              QueueFits(env, made', (rest + Pushed(q, TokenSource(env, q), prime))[i])
  {
    var source := TokenSource(env, q);
    var pushed := Pushed(q, source, prime);
    forall i | 0 <= i < |rest + pushed|
      ensures QueueFits(env, made', (rest + pushed)[i])
    {
      if i < |rest| {
        assert (rest + pushed)[i] == rest[i];
      } else {
        var p := pushed[i - |rest|];
        assert p in pushed && p == (rest + pushed)[i];
        PushedFrom(q, source, prime, p);
        if m :| m in source && RefersTo(m, p) {
          ReferenceFits(env, q, m, p);
        } else {
          PrimeMade(env, made, q, prime, p);
        }
      }
    }
  }

  /** The prime is queued only when it was made. */
  lemma {:induction false} PrimeMade(env: Env, made: Grammar, q: NonTermId, prime: NonTermId, p: NonTermId)
    requires WellFormed(env) && StepReady(env, made, q, prime) && p in Pushed(q, TokenSource(env, q), prime)
    requires p == prime.AsScan() && !exists m :: m in TokenSource(env, q) && RefersTo(m, p)
    ensures p.AsTokSym() in WithToken(made, q, TokenSource(env, q), prime)
  {
    var source := TokenSource(env, q);
    if ToTokenRules(q, source, prime).Plain? {
      RuleTokensExactly(source);
      assert false;
    }
  }

  lemma {:induction false} StepPending(env: Env, tokens: seq<NonTermId>, made: Grammar, mk: Makers,
    queue: seq<NonTermId>, errors: nat, prime: NonTermId, made': Grammar, mk': Makers)
    requires WellFormed(env) && queue != [] && StepReady(env, made, queue[0], prime)
    requires made' == WithToken(made, queue[0], TokenSource(env, queue[0]), prime)
    requires mk' == mk[queue[0].AsTokSym() := (queue[0], prime)]
    requires forall t :: t in mk ==> TokenMade(env, made, mk, t)
    requires forall t :: t in mk' ==> TokenMade(env, made', mk', t)
    requires TokenPending(env, tokens, made, mk, queue, errors)
    requires queue[0].AsTokSym() in made' && made.Keys <= made'.Keys
    ensures TokenPending(env, tokens, made', mk', queue[1..] + Pushed(queue[0], TokenSource(env, queue[0]), prime), errors)
  {
    var q := queue[0];
    var pushed := Pushed(q, TokenSource(env, q), prime);
    StillWaiting(made, queue, errors, made', pushed, errors);
    forall i | 0 <= i < |queue[1..]|
      ensures QueueFits(env, made, queue[1..][i])
    {
      assert queue[1..][i] == queue[i + 1];
    }
    StepQueue(env, made, made', queue[1..], q, prime);
    AllFollowed(env, made, mk, queue, errors, made', mk', prime);
  }

  lemma {:induction false} InvTokenStep(env: Env, before: Grammar, tokens: seq<NonTermId>, made: Grammar, mk: Makers,
    queue: seq<NonTermId>, errors: nat, prime: NonTermId, made': Grammar, mk': Makers, queue': seq<NonTermId>)
    requires WellFormed(env) && queue != [] && TokenInv(env, before, tokens, made, mk, queue, errors)
    requires StepReady(env, made, queue[0], prime)
    requires made' == WithToken(made, queue[0], TokenSource(env, queue[0]), prime)
    requires mk' == mk[queue[0].AsTokSym() := (queue[0], prime)]
    requires queue' == queue[1..] + Pushed(queue[0], TokenSource(env, queue[0]), prime)
    ensures TokenInv(env, before, tokens, made', mk', queue', errors) && queue[0].AsTokSym() in made'
    ensures made.Keys <= made'.Keys
  {
    StepTables(env, before, made, mk, queue[0], prime, made', mk');
    StepPending(env, tokens, made, mk, queue, errors, prime, made', mk');
  }

  lemma {:induction false} AllFollowed(env: Env, made: Grammar, mk: Makers, queue: seq<NonTermId>, errors: nat,
    made': Grammar, mk': Makers, prime: NonTermId)
    requires WellFormed(env) && queue != [] && Sourced(env, queue[0]) && NoEmptyBody(TokenSource(env, queue[0]))
    requires mk' == mk[queue[0].AsTokSym() := (queue[0], prime)] && made.Keys <= made'.Keys
    requires forall t :: t in mk ==> TokenMade(env, made, mk, t) && SourceFollowed(env, made, mk, queue, errors, t)
    requires forall t :: t in mk' ==> TokenMade(env, made', mk', t)
    requires queue[0].AsTokSym() in made' && queue[0].AsTokSym() !in mk
    ensures var queue' := queue[1..] + Pushed(queue[0], TokenSource(env, queue[0]), prime);
            forall t :: t in mk' ==> SourceFollowed(env, made', mk', queue', errors, t)
  {
    var q := queue[0];
    var pushed := Pushed(q, TokenSource(env, q), prime);
    var queue' := queue[1..] + pushed;
    StillWaiting(made, queue, errors, made', pushed, errors);
    forall t | t in mk'
      ensures SourceFollowed(env, made', mk', queue', errors, t)
    {
      if t == q.AsTokSym() {
        NewFollowed(env, made', mk', q, prime, queue[1..], errors);
      } else {
        StepFollowed(env, made, mk, queue, errors, made', mk', queue', errors, t);
      }
    }
  }

  lemma {:induction false} NewFollowed(env: Env, made: Grammar, mk: Makers, q: NonTermId, prime: NonTermId,
    rest: seq<NonTermId>, errors: nat)
    requires WellFormed(env) && Sourced(env, q) && NoEmptyBody(TokenSource(env, q)) && q.AsTokSym() in made
    requires q.AsTokSym() in mk && mk[q.AsTokSym()] == (q, prime) && TokenMade(env, made, mk, q.AsTokSym())
    ensures SourceFollowed(env, made, mk, rest + Pushed(q, TokenSource(env, q), prime), errors, q.AsTokSym())
  {
    var source := TokenSource(env, q);
    var pushed := Pushed(q, source, prime);
    forall m, i | m in source && 0 <= i < |m.symbols| && IsReference(m.symbols[i].id)
      ensures Waiting(made, rest + pushed, errors, TokSym(m.symbols[i].id))
    {
      PushedCovers(q, source, prime, m, i);
      var id := m.symbols[i].id.id;
      if id in pushed {
        var j :| 0 <= j < |pushed| && pushed[j] == id;
        assert (rest + pushed)[|rest| + j] == id;
      }
    }
  }

  // ----- the loop -----

  /** The token symbols of all non-terminals and sub-non-terminals. */
  ghost function TokenUniverse(env: Env): set<SymbolId> {
    (set id | id in env.nonterminals :: id.AsTokSym())
    + (set id, k | id in env.nonterminals && 0 <= k < |env.nonterminals[id].subs| :: Sub(id.id, k, Scanner).AsTokSym())
  }

  lemma {:induction false} InUniverse(env: Env, q: NonTermId)
    requires WellFormed(env) && Sourced(env, q)
    ensures q.AsTokSym() in TokenUniverse(env)
  {
    var id := Owner(q);
    assert GoodNonterm(id, env.nonterminals[id]);
    if q.Standard? {
      assert q.AsTokSym() == id.AsTokSym();
    } else {
      assert q.AsTokSym() == Sub(id.id, q.index, Scanner).AsTokSym();
    }
  }

  lemma {:induction false} FewerLeft(env: Env, made: Grammar, made': Grammar, t: SymbolId)
    requires t in TokenUniverse(env) && t !in made && t in made' && made.Keys <= made'.Keys
    ensures |TokenUniverse(env) - made'.Keys| < |TokenUniverse(env) - made.Keys|
  {
    var rest := TokenUniverse(env) - made.Keys - {t};
    assert TokenUniverse(env) - made'.Keys <= rest;
    SubsetSize(TokenUniverse(env) - made'.Keys, rest);
  }

  lemma {:induction false} TracedStep(env: Env, roots: seq<NonTermId>, made: Grammar, mk: Makers, queue: seq<NonTermId>,
    prime: NonTermId, made': Grammar, mk': Makers, queue': seq<NonTermId>)
    requires WellFormed(env) && queue != [] && Traced(env, roots, made, mk, queue)
    requires StepReady(env, made, queue[0], prime) && queue[0].AsTokSym() in made' && made.Keys <= made'.Keys
    requires made' == WithToken(made, queue[0], TokenSource(env, queue[0]), prime)
    requires mk' == mk[queue[0].AsTokSym() := (queue[0], prime)]
    requires queue' == queue[1..] + Pushed(queue[0], TokenSource(env, queue[0]), prime)
    ensures Traced(env, roots, made', mk', queue')
  {
    var q := queue[0];
    var path := HeadReached(env, roots, made, mk, queue);
    assert Trodden(made', path);
    forall i | 0 <= i < |queue'|
      ensures QueuedBy(env, roots, made', queue'[i])
    {
      if i < |queue| - 1 {
        assert queue'[i] == queue[i + 1];
        StillQueued(env, roots, made, made', queue[i + 1]);
      } else {
        PushedQueued(env, roots, made, q, prime, path, queue'[i]);
      }
    }
  }

  lemma {:induction false} PushedQueued(env: Env, roots: seq<NonTermId>, made: Grammar, q: NonTermId, prime: NonTermId,
    path: seq<NonTermId>, p: NonTermId)
    requires WellFormed(env) && StepReady(env, made, q, prime) && p in Pushed(q, TokenSource(env, q), prime)
    requires var made' := WithToken(made, q, TokenSource(env, q), prime);
             TokenPath(env, roots, path) && Trodden(made', path) && Last(path) == q && q.AsTokSym() in made'
    ensures QueuedBy(env, roots, WithToken(made, q, TokenSource(env, q), prime), p)
  {
    var source := TokenSource(env, q);
    PushedFrom(q, source, prime, p);
    if m :| m in source && RefersTo(m, p) {
      assert TokenEdge(env, q, p);
      EdgeQueued(env, roots, WithToken(made, q, source, prime), path, p);
    } else {
      PrimeMade(env, made, q, prime, p);
    }
  }

  /** The non-terminal has rules, and every one of them begins with the id itself, in the form that the id is queued in. */
  ghost predicate OnlyRecursive(env: Env, q: NonTermId)
    requires WellFormed(env)
  {
    && Sourced(env, q) && NoEmptyBody(TokenSource(env, q)) && TokenSource(env, q) != []
    && forall r :: r in TokenSource(env, q) ==> Leads(q, r)
  }

  /** What a step that does not finish, or an error, tells about the grammar. */
  ghost predicate TokenTrouble(env: Env, roots: seq<NonTermId>, stop: Stop, errors: nat)
    requires WellFormed(env)
  {
    && (stop == EmptyBody ==> exists q ::
          TokenReached(env, roots, q) && EmptySource(env, q) && HasEmptyRule(env.nonterminals[Owner(q)]))
    && (stop == NoBase ==> exists q :: TokenReached(env, roots, q) && OnlyRecursive(env, q))
    && (errors > 0 ==> exists q :: TokenReached(env, roots, q) && Owner(q) !in env.nonterminals)
  }

  /** Why the second phase may stop early: every rule of a non-terminal is left recursive, or a rule is
      empty, so that its first symbol cannot be read. */
  datatype Stop = Done | NoBase | EmptyBody

  method FindEmpty(rules: seq<Rule>) returns (found: bool)
    ensures found <==> !NoEmptyBody(rules)
  {
    found := false;
    for k := 0 to |rules|
      invariant found <==> exists j :: 0 <= j < k && rules[j].symbols == []
    {
      if rules[k].symbols == [] {
        found := true;
      }
    }
    assert found ==> exists r :: r in rules && r.symbols == [];
  }

  /** Adds the scanner rules of one non-terminal. */
  method AddToken(env: Env, q: NonTermId, rest: seq<NonTermId>, db: Database)
    returns (stop: Stop, queue': seq<NonTermId>, prime: NonTermId)
    requires WellFormed(env) && db.Valid() && Sourced(env, q) && q.AsTokSym() !in db.made
    requires forall t :: t in db.made && t.NonTerminalToken? && t.id.Sub? ==> t.id.index < |db.made| + MAX_SUBS
    modifies db
    ensures db.Valid() && db.symbols == old(db.symbols)
    ensures prime == PrimeId(q, |old(db.made)|)
    ensures stop == EmptyBody <==> !NoEmptyBody(TokenSource(env, q))
    ensures stop == NoBase ==>
              NoEmptyBody(TokenSource(env, q)) && ToTokenRules(q, TokenSource(env, q), prime).NoBaseRule?
    ensures stop == Done ==>
              && StepReady(env, old(db.made), q, prime)
              && db.made == WithToken(old(db.made), q, TokenSource(env, q), prime)
              && queue' == rest + Pushed(q, TokenSource(env, q), prime)
  {
    var n := env.nonterminals[Owner(q)];
    GoodFounded(Owner(q), n);
    var source := InlineRules(CandidatesOf(n), if q.Standard? then n.rules else n.subs[q.index].rules, env.inlining, true);
    prime, queue' := PrimeId(q, |db.nonterms|), rest;
    FreshPrime(env, db.made, q, |db.made|);
    var empty := FindEmpty(source);
    if empty {
      return EmptyBody, rest, prime;
    }
    stop := Done;
    var recursive, base := Group(q, source, true), Group(q, source, false);
    if recursive != [] {
      if base == [] {
        return NoBase, rest, prime;
      }
      queue' := AddPrimed(q, source, prime, rest, db);
    } else {
      var spelled := ConvertSymRefs(source);
      var rules;
      rules, queue' := InsertTokenNonterminal(spelled, rest);
      SpelledTokens(source);
      db.AddNontermAndRules(q.AsTokSym(), rules, true, Tk(q), NoState, TokRules(source));
    }
  }

  /** Inserts the rules of a scanner non-terminal with their literals spelled. */
  method AddSpelled(t: SymbolId, rules: seq<Rule>, name: Name, db: Database)
    requires db.Valid() && t.NonTerminalToken? && t !in db.made && LabelFits(db.states, t, name, NoState)
    modifies db
    ensures db.Valid() && db.symbols == old(db.symbols) && db.made == old(db.made)[t := rules]
  {
    var spelled := ConvertSymRefs(rules);
    db.AddNontermAndRules(t, spelled, true, name, NoState, rules);
  }

  /** Adds the rules of a left-recursive non-terminal and of its prime. */
  method AddPrimed(q: NonTermId, source: seq<Rule>, prime: NonTermId, rest: seq<NonTermId>, db: Database)
    returns (queue': seq<NonTermId>)
    requires NoEmptyBody(source) && ToTokenRules(q, source, prime).Primed? && db.Valid()
    requires q.AsTokSym() !in db.made && prime.AsTokSym() !in db.made && prime.AsTokSym() != q.AsTokSym()
    modifies db
    ensures db.Valid() && db.symbols == old(db.symbols)
    ensures db.made == WithToken(old(db.made), q, source, prime)
    ensures queue' == rest + Pushed(q, source, prime)
  {
    var recursive, base, tail := Group(q, source, true), Group(q, source, false), PrimeRef(prime);
    var rules, primeRules;
    rules, queue' := InsertTokenNonterminal(base + AllWithTail(base, tail), rest);
    primeRules, queue' := InsertTokenNonterminal(PrimeRules(recursive, tail), queue');
    Assoc(rest, RuleTokens(base + AllWithTail(base, tail)), RuleTokens(PrimeRules(recursive, tail)));
    AddBoth(q, prime, rules, primeRules, db);
  }

  method AddBoth(q: NonTermId, prime: NonTermId, rules: seq<Rule>, primeRules: seq<Rule>, db: Database)
    requires db.Valid()
    requires q.AsTokSym() !in db.made && prime.AsTokSym() !in db.made && prime.AsTokSym() != q.AsTokSym()
    modifies db
    ensures db.Valid() && db.symbols == old(db.symbols)
    ensures db.made == old(db.made)[q.AsTokSym() := rules][prime.AsTokSym() := primeRules]
  {
    AddSpelled(q.AsTokSym(), rules, Tk(q), db);
    AddSpelled(prime.AsTokSym(), primeRules, TkPrime(prime), db);
  }

  lemma {:induction false} TokenStart(env: Env, roots: seq<NonTermId>, made: Grammar, tokens: seq<NonTermId>,
    symbols: map<SymbolId, nat>)
    requires WellFormed(env) && Inv(env, roots, made, [], tokens, symbols, 0)
    ensures TokenInv(env, made, tokens, made, map[], tokens, 0)
  {
    forall i | 0 <= i < |tokens|
      ensures QueueFits(env, made, tokens[i])
    {
      assert tokens[i] in env.nonterminals && GoodNonterm(tokens[i], env.nonterminals[tokens[i]]);
    }
    forall q | q in tokens
      ensures Waiting(made, tokens, 0, q.AsTokSym())
    {
      var i :| 0 <= i < |tokens| && tokens[i] == q;
    }
  }

  /** Makes the scanner rules of the head of the queue, which has none yet. */
  method StepToken(env: Env, queue: seq<NonTermId>, errors: nat, db: Database,
                   ghost roots: seq<NonTermId>, ghost before: Grammar, ghost tokens: seq<NonTermId>, ghost mk: Makers)
    returns (stop: Stop, queue': seq<NonTermId>, ghost mk': Makers)
    requires WellFormed(env) && db.Valid() && queue != []
    requires TokenInv(env, before, tokens, db.made, mk, queue, errors) && Traced(env, roots, db.made, mk, queue)
    requires queue[0].AsTokSym() !in db.made && Owner(queue[0]) in env.nonterminals
    modifies db
    ensures db.Valid() && db.symbols == old(db.symbols)
    ensures stop == Done ==> TokenInv(env, before, tokens, db.made, mk', queue', errors)
    ensures stop == Done ==> Traced(env, roots, db.made, mk', queue')
    ensures stop == Done ==> |TokenUniverse(env) - db.made.Keys| < |TokenUniverse(env) - old(db.made).Keys|
    ensures stop == EmptyBody ==> EmptySource(env, queue[0]) && HasEmptyRule(env.nonterminals[Owner(queue[0])])
    ensures stop == NoBase ==> OnlyRecursive(env, queue[0])
  {
    mk' := mk;
    var q := queue[0];
    ghost var made := db.made;
    assert QueueFits(env, made, q);
    var prime;
    stop, queue', prime := AddToken(env, q, queue[1..], db);
    if stop == Done {
      mk' := mk[q.AsTokSym() := (q, prime)];
      InvTokenStep(env, before, tokens, made, mk, queue, errors, prime, db.made, mk', queue');
      TracedStep(env, roots, made, mk, queue, prime, db.made, mk', queue');
      InUniverse(env, q);
      FewerLeft(env, made, db.made, q.AsTokSym());
    } else if stop == NoBase {
      GroupEmpty(q, TokenSource(env, q), false);
    } else {
      EmptyInEnv(env, q);
    }
  }

  /** Takes one id off the queue. */
  method PopToken(env: Env, queue: seq<NonTermId>, errors: nat, db: Database,
                  ghost roots: seq<NonTermId>, ghost before: Grammar, ghost tokens: seq<NonTermId>, ghost mk: Makers)
    returns (stop: Stop, queue': seq<NonTermId>, errors': nat, ghost mk': Makers)
    requires WellFormed(env) && db.Valid() && queue != []
    requires TokenInv(env, before, tokens, db.made, mk, queue, errors) && Traced(env, roots, db.made, mk, queue)
    requires TokenTrouble(env, roots, Done, errors)
    modifies db
    ensures db.Valid() && db.symbols == old(db.symbols)
    ensures stop == Done ==> TokenInv(env, before, tokens, db.made, mk', queue', errors')
    ensures stop == Done ==> Traced(env, roots, db.made, mk', queue')
    ensures stop == Done ==>
              || |TokenUniverse(env) - db.made.Keys| < |TokenUniverse(env) - old(db.made).Keys|
              || (db.made == old(db.made) && |queue'| < |queue|)
    ensures TokenTrouble(env, roots, stop, errors')
  {
    stop, errors', mk' := Done, errors, mk;
    var q := queue[0];
    if q.AsTokSym() in db.nonterms {
      InvTokenPop(env, before, tokens, db.made, mk, queue, errors, errors);
      TracedPop(env, roots, db.made, mk, queue);
      queue' := queue[1..];
    } else if Owner(q) !in env.nonterminals {
      PopMissing(env, roots, before, tokens, db.made, mk, queue, errors);
      errors' := errors + 1;
      queue' := queue[1..];
    } else {
      ghost var path := HeadReached(env, roots, db.made, mk, queue);
      stop, queue', mk' := StepToken(env, queue, errors, db, roots, before, tokens, mk);
    }
  }

  /** An id without a non-terminal is an error, and one that is reached. */
  lemma {:induction false} PopMissing(env: Env, roots: seq<NonTermId>, before: Grammar, tokens: seq<NonTermId>,
    made: Grammar, mk: Makers, queue: seq<NonTermId>, errors: nat)
    requires WellFormed(env) && queue != [] && TokenInv(env, before, tokens, made, mk, queue, errors)
    requires Traced(env, roots, made, mk, queue) && TokenTrouble(env, roots, Done, errors)
    requires queue[0].AsTokSym() !in made && Owner(queue[0]) !in env.nonterminals
    ensures TokenInv(env, before, tokens, made, mk, queue[1..], errors + 1)
    ensures Traced(env, roots, made, mk, queue[1..]) && TokenTrouble(env, roots, Done, errors + 1)
  {
    var path := HeadReached(env, roots, made, mk, queue);
    InvTokenPop(env, before, tokens, made, mk, queue, errors, errors + 1);
    TracedPop(env, roots, made, mk, queue);
  }

  /** The worklist over token non-terminals. */
  method IndexTokens(env: Env, ghost roots: seq<NonTermId>, tokens: seq<NonTermId>, db: Database)
    returns (stop: Stop, errors: nat, ghost mk: Makers)
    requires WellFormed(env) && db.Valid() && Inv(env, roots, db.made, [], tokens, db.symbols, 0)
    modifies db
    ensures db.Valid() && db.symbols == old(db.symbols)
    ensures stop == Done ==> TokenInv(env, old(db.made), tokens, db.made, mk, [], errors)
    ensures stop == Done ==> Traced(env, roots, db.made, mk, [])
    ensures TokenTrouble(env, roots, stop, errors)
  {
    ghost var before := db.made;
    stop, errors, mk := Done, 0, map[];
    var queue := tokens;
    TokenStart(env, roots, before, tokens, db.symbols);
    TracedStart(env, roots, before, tokens);
    while queue != []
      invariant db.Valid() && db.symbols == old(db.symbols) && stop == Done
      invariant TokenInv(env, before, tokens, db.made, mk, queue, errors) && Traced(env, roots, db.made, mk, queue)
      invariant TokenTrouble(env, roots, stop, errors)
      decreases |TokenUniverse(env) - db.made.Keys|, |queue|
    {
      stop, queue, errors, mk := PopToken(env, queue, errors, db, roots, before, tokens, mk);
      if stop != Done {
        return;
      }
    }
  }
}
