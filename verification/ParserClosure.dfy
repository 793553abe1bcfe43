/** The first worklist ends on every grammar, cyclic ones included, and without errors it has indexed exactly
    what the public non-terminals reach (crates/radlr-core/grammar/build_database.rs:86-202, 562-597). */
module ParserClosure {
  import opened Sequences
  import opened Symbols
  import opened Cfg
  import opened Inline
  import opened Numbering
  import opened Tables
  import opened ParserWorklist

  ghost predicate Named(env: Env, a: NonTermId) { a in env.nonterminals || a in env.customs }

  ghost predicate IndexedIn(env: Env, made: Grammar, a: NonTermId) { Named(env, a) && a.AsSym() in made }

  /** A reference is indexed, or will be, or an error was recorded. */
  ghost predicate Settled(made: Grammar, queue: seq<NonTermId>, errors: nat, b: NonTermId) {
    b.AsSym() in made || b in queue || errors > 0
  }

  ghost predicate MadeRight(env: Env, made: Grammar)
    requires WellFormed(env)
  {
    forall s :: s in made ==> IsParserSymbol(env, s) && made[s] == ParserRules(env, s)
  }

  /** A non-terminal is indexed together with its sub-non-terminals. */
  ghost predicate Whole(env: Env, made: Grammar) {
    && (forall s :: s in made && s.NonTerminal? && s.id.Sub? ==> Owner(s.id).AsSym() in made)
    && (forall id, k: nat :: id in env.nonterminals && id.AsSym() in made && k < |env.nonterminals[id].subs| ==>
          SubSym(id, k) in made)
  }

  ghost predicate Followed(env: Env, made: Grammar, queue: seq<NonTermId>, errors: nat) {
    forall a, b :: IndexedIn(env, made, a) && Edge(env, a, b) ==> Settled(made, queue, errors, b)
  }

  /** The token references and terminals of an indexed non-terminal are recorded. */
  ghost predicate RecordedFor(n: NonTerm, tokens: seq<NonTermId>, symbols: map<SymbolId, nat>) {
    && (forall s :: s in Mentioned(n) && s.NonTerminalToken? ==> s.id.AsParse() in tokens && s in symbols)
    && (forall s :: s in Mentioned(n) && IsTerminal(s) ==> s in symbols)
  }

  ghost predicate AllRecorded(env: Env, made: Grammar, tokens: seq<NonTermId>, symbols: map<SymbolId, nat>) {
    forall id :: id in env.nonterminals && id.AsSym() in made ==> RecordedFor(env.nonterminals[id], tokens, symbols)
  }

  ghost predicate OnlyReachable(env: Env, roots: seq<NonTermId>, made: Grammar, queue: seq<NonTermId>) {
    && (forall b :: b in queue ==> Reachable(env, roots, b))
    && (forall a :: IndexedIn(env, made, a) ==> Reachable(env, roots, a))
  }

  /** A non-terminal that can be reached mentions `q` as a token. */
  ghost predicate Referenced(env: Env, roots: seq<NonTermId>, q: NonTermId) {
    exists a :: Reachable(env, roots, a) && MentionsToken(env, a, q)
  }

  ghost predicate TokensNamed(env: Env, roots: seq<NonTermId>, tokens: seq<NonTermId>) {
    forall q :: q in tokens ==> q in env.nonterminals && Referenced(env, roots, q)
  }

  /** Every token reference among the symbols is queued. */
  ghost predicate SymbolsQueued(symbols: map<SymbolId, nat>, tokens: seq<NonTermId>) {
    forall s :: s in symbols && !IsTerminal(s) ==> s.NonTerminalToken? && s.id.AsParse() in tokens
  }

  ghost predicate Inv(env: Env, roots: seq<NonTermId>, made: Grammar, queue: seq<NonTermId>, tokens: seq<NonTermId>,
                      symbols: map<SymbolId, nat>, errors: nat)
    requires WellFormed(env)
  {
    && MadeRight(env, made) && Whole(env, made) && Followed(env, made, queue, errors)
    && AllRecorded(env, made, tokens, symbols) && OnlyReachable(env, roots, made, queue)
    && TokensNamed(env, roots, tokens)
    && SymbolsQueued(symbols, tokens)
    && (forall b :: b in roots ==> Settled(made, queue, errors, b))
  }

  lemma {:induction false} InvStart(env: Env, roots: seq<NonTermId>, symbols: map<SymbolId, nat>)
    requires WellFormed(env) && forall s :: s in symbols ==> IsTerminal(s)
    ensures Inv(env, roots, map[], roots, [], symbols, 0)
  {
    forall b | b in roots
      ensures Reachable(env, roots, b)
    {
      RootReachable(env, roots, b);
    }
  }

  /** The head of the queue was indexed before, or is an error. */
  lemma {:induction false} InvPop(env: Env, roots: seq<NonTermId>, made: Grammar, queue: seq<NonTermId>,
    tokens: seq<NonTermId>, symbols: map<SymbolId, nat>, errors: nat, errors': nat)
    requires WellFormed(env) && queue != [] && Inv(env, roots, made, queue, tokens, symbols, errors)
    requires errors <= errors' && (queue[0].AsSym() in made || errors' > 0)
    ensures Inv(env, roots, made, queue[1..], tokens, symbols, errors')
  {
    SplitFirst(queue);
    forall a, b | IndexedIn(env, made, a) && Edge(env, a, b)
      ensures Settled(made, queue[1..], errors', b)
    {
      assert Settled(made, queue, errors, b);
    }
    assert Followed(env, made, queue[1..], errors');
    assert OnlyReachable(env, roots, made, queue[1..]);
  }

  // ----- a non-terminal is added -----

  lemma {:induction false} AddedRight(env: Env, id: NonTermId, made: Grammar, made': Grammar)
    requires WellFormed(env) && id in env.nonterminals && Added(env, id, |env.nonterminals[id].subs|, made, made')
    requires MadeRight(env, made) && Whole(env, made)
    ensures MadeRight(env, made') && Whole(env, made')
  {
    var n := |env.nonterminals[id].subs|;
    assert GoodNonterm(id, env.nonterminals[id]);
    forall s | s in made' && s.NonTerminal? && s.id.Sub?
      ensures Owner(s.id).AsSym() in made'
    {
      if s !in made {
        assert BroughtBy(id, n, s) && BroughtBy(id, n, id.AsSym());
      }
    }
    forall a, k: nat | a in env.nonterminals && a.AsSym() in made' && k < |env.nonterminals[a].subs|
      ensures SubSym(a, k) in made'
    {
      assert GoodNonterm(a, env.nonterminals[a]);
      if a.AsSym() !in made {
        assert BroughtBy(id, n, a.AsSym()) && a == id;
        assert 0 <= k < n && SubSym(a, k) == SubSym(id, k);
        assert BroughtBy(id, n, SubSym(id, k));
      }
    }
  }

  /** What is indexed now was indexed before, or is the non-terminal just added. */
  lemma {:induction false} NewlyIndexed(env: Env, id: NonTermId, made: Grammar, made': Grammar, a: NonTermId)
    requires WellFormed(env) && id in env.nonterminals && Added(env, id, |env.nonterminals[id].subs|, made, made')
    requires IndexedIn(env, made', a)
    ensures IndexedIn(env, made, a) || a == id
  {
    if a.AsSym() !in made {
      assert BroughtBy(id, |env.nonterminals[id].subs|, a.AsSym());
      assert GoodNonterm(id, env.nonterminals[id]);
      if a in env.nonterminals {
        assert GoodNonterm(a, env.nonterminals[a]);
      }
    }
  }

  lemma {:induction false} InvNonterm(env: Env, roots: seq<NonTermId>, made: Grammar, queue: seq<NonTermId>,
    tokens: seq<NonTermId>, symbols: map<SymbolId, nat>, errors: nat,
    made': Grammar, queue': seq<NonTermId>, tokens': seq<NonTermId>, symbols': map<SymbolId, nat>)
    requires WellFormed(env) && queue != [] && Inv(env, roots, made, queue, tokens, symbols, errors)
    requires var id := queue[0];
             && id in env.nonterminals && id !in env.customs
             && Added(env, id, |env.nonterminals[id].subs|, made, made')
             && Extracted(Mentioned(env.nonterminals[id]), id, env, queue[1..], queue', tokens, tokens',
                          symbols.Keys + env.nonterminals[id].symbols, symbols')
             && symbols.Keys + env.nonterminals[id].symbols <= symbols'.Keys
    ensures Inv(env, roots, made', queue', tokens', symbols', errors)
  {
    var id := queue[0];
    var n := env.nonterminals[id];
    SplitFirst(queue);
    assert GoodNonterm(id, n) && id.AsSym() == NonTerminal(id);
    AddedRight(env, id, made, made');
    assert BroughtBy(id, |n.subs|, id.AsSym());
    assert forall b :: Settled(made, queue, errors, b) ==> Settled(made', queue', errors, b);
    InvNontermFollowed(env, made, queue, tokens, errors, made', queue', tokens', symbols.Keys + n.symbols, symbols');
    assert Reachable(env, roots, id);
    InvNontermRecorded(env, roots, made, id, queue[1..], tokens, symbols, made', queue', tokens', symbols');
    forall b | b in queue'
      ensures Reachable(env, roots, b)
    {
      if b !in queue[1..] {
        assert Reachable(env, roots, id) && Edge(env, id, b);
        EdgeReachable(env, roots, id, b);
      }
    }
    forall a | IndexedIn(env, made', a)
      ensures Reachable(env, roots, a)
    {
      NewlyIndexed(env, id, made, made', a);
    }
    assert OnlyReachable(env, roots, made', queue');
  }

  lemma {:induction false} InvNontermFollowed(env: Env, made: Grammar, queue: seq<NonTermId>, tokens: seq<NonTermId>,
    errors: nat, made': Grammar, queue': seq<NonTermId>, tokens': seq<NonTermId>, known: set<SymbolId>,
    symbols': map<SymbolId, nat>)
    requires WellFormed(env) && queue != [] && Followed(env, made, queue, errors)
    requires var id := queue[0];
             && id in env.nonterminals && id !in env.customs
             && Added(env, id, |env.nonterminals[id].subs|, made, made')
             && Extracted(Mentioned(env.nonterminals[id]), id, env, queue[1..], queue', tokens, tokens',
                          known, symbols')
    ensures Followed(env, made', queue', errors)
  {
    var id := queue[0];
    SplitFirst(queue);
    assert GoodNonterm(id, env.nonterminals[id]);
    assert BroughtBy(id, |env.nonterminals[id].subs|, id.AsSym());
    forall a, b | IndexedIn(env, made', a) && Edge(env, a, b)
      ensures Settled(made', queue', errors, b)
    {
      NewlyIndexed(env, id, made, made', a);
      if a == id {
        assert NonTerminal(b) in Mentioned(env.nonterminals[id]);
      } else {
        assert Settled(made, queue, errors, b);
      }
    }
  }

  lemma {:induction false} InvNontermRecorded(env: Env, roots: seq<NonTermId>, made: Grammar, id: NonTermId, rest: seq<NonTermId>,
    tokens: seq<NonTermId>, symbols: map<SymbolId, nat>,
    made': Grammar, queue': seq<NonTermId>, tokens': seq<NonTermId>, symbols': map<SymbolId, nat>)
    requires WellFormed(env) && AllRecorded(env, made, tokens, symbols) && TokensNamed(env, roots, tokens)
    requires Reachable(env, roots, id)
    requires SymbolsQueued(symbols, tokens)
    requires id in env.nonterminals && id !in env.customs
    requires Added(env, id, |env.nonterminals[id].subs|, made, made')
    requires Extracted(Mentioned(env.nonterminals[id]), id, env, rest, queue', tokens, tokens',
                       symbols.Keys + env.nonterminals[id].symbols, symbols')
    requires symbols.Keys + env.nonterminals[id].symbols <= symbols'.Keys
    ensures AllRecorded(env, made', tokens', symbols') && TokensNamed(env, roots, tokens')
    ensures SymbolsQueued(symbols', tokens')
  {
    assert GoodNonterm(id, env.nonterminals[id]);
    forall a | a in env.nonterminals && a.AsSym() in made'
      ensures RecordedFor(env.nonterminals[a], tokens', symbols')
    {
      NewlyIndexed(env, id, made, made', a);
      if a == id {
        assert GoodNonterm(id, env.nonterminals[id]);
      } else {
        assert RecordedFor(env.nonterminals[a], tokens, symbols);
      }
    }
  }

  // ----- a custom state is added -----

  lemma {:induction false} InvCustom(env: Env, roots: seq<NonTermId>, made: Grammar, queue: seq<NonTermId>,
    tokens: seq<NonTermId>, symbols: map<SymbolId, nat>, errors: nat)
    requires WellFormed(env) && queue != [] && Inv(env, roots, made, queue, tokens, symbols, errors)
    requires queue[0] in env.customs && queue[0] !in env.nonterminals && queue[0].AsSym() !in made
    ensures Inv(env, roots, made[queue[0].AsSym() := []], queue[1..] + env.customs[queue[0]].refs, tokens, symbols, errors)
  {
    var id := queue[0];
    var made', queue' := made[id.AsSym() := []], queue[1..] + env.customs[id].refs;
    SplitFirst(queue);
    assert id.AsSym() == NonTerminal(id);
    forall a | IndexedIn(env, made', a) && a != id
      ensures IndexedIn(env, made, a)
    {
      if a in env.nonterminals {
        assert GoodNonterm(a, env.nonterminals[a]);
      }
    }
    forall a, b | IndexedIn(env, made', a) && Edge(env, a, b)
      ensures Settled(made', queue', errors, b)
    {
      if a != id {
        assert Settled(made, queue, errors, b);
      }
    }
    assert Followed(env, made', queue', errors);
    assert Reachable(env, roots, id);
    forall b | b in queue'
      ensures Reachable(env, roots, b)
    {
      if b !in queue[1..] {
        assert Edge(env, id, b);
        EdgeReachable(env, roots, id, b);
      }
    }
    assert OnlyReachable(env, roots, made', queue');
    CustomWhole(env, made, id);
    assert forall b :: Settled(made, queue, errors, b) ==> Settled(made', queue', errors, b);
  }

  lemma {:induction false} CustomWhole(env: Env, made: Grammar, id: NonTermId)
    requires WellFormed(env) && MadeRight(env, made) && Whole(env, made)
    requires id in env.customs && id !in env.nonterminals
    ensures MadeRight(env, made[id.AsSym() := []]) && Whole(env, made[id.AsSym() := []])
  {
    assert IsParserSymbol(env, id.AsSym());
    forall a, k: nat | a in env.nonterminals && a.AsSym() in made[id.AsSym() := []] && k < |env.nonterminals[a].subs|
      ensures SubSym(a, k) in made[id.AsSym() := []]
    {
      assert GoodNonterm(a, env.nonterminals[a]);
    }
  }

  // ----- the loop -----

  /** The name is that of a non-terminal or of a custom state, and not of both. */
  ghost predicate Proper(env: Env, a: NonTermId) { (a in env.nonterminals) != (a in env.customs) }

  /** The names that have no index yet. */
  ghost function Unindexed(env: Env, made: Grammar): set<NonTermId> {
    set a | a in env.nonterminals.Keys + env.customs.Keys && a.AsSym() !in made
  }

  lemma {:induction false} OneLess(env: Env, made: Grammar, made': Grammar, id: NonTermId)
    requires Named(env, id) && id.AsSym() !in made && id.AsSym() in made' && made.Keys <= made'.Keys
    ensures |Unindexed(env, made')| < |Unindexed(env, made)|
  {
    var rest := Unindexed(env, made) - {id};
    assert Unindexed(env, made') <= rest;
    SubsetSize(Unindexed(env, made'), rest);
  }

  lemma {:induction false} SubsetSize<T>(a: set<T>, b: set<T>)
    requires a <= b
    ensures |a| <= |b|
  {
    if a != {} {
      var x :| x in a;
      SubsetSize(a - {x}, b - {x});
    }
  }

  /** A standard non-terminal without an index has no indexed sub-non-terminals either. */
  lemma {:induction false} NoSubsYet(env: Env, made: Grammar, id: NonTermId)
    requires WellFormed(env) && Whole(env, made) && id in env.nonterminals && id.AsSym() !in made
    ensures forall k: nat :: SubSym(id, k) !in made
  {
    assert GoodNonterm(id, env.nonterminals[id]);
    forall k: nat
      ensures SubSym(id, k) !in made
    {
      assert Owner(SubSym(id, k).id) == id;
    }
  }

  /** The worklist over parser non-terminals. */
  method IndexParser(env: Env, roots: seq<NonTermId>, db: Database)
    returns (failed: bool, errors: nat, tokens: seq<NonTermId>)
    requires db.states == StatesOf(env)
    requires WellFormed(env) && db.Valid() && db.made == map[] && forall s :: s in db.symbols ==> IsTerminal(s)
    modifies db
    ensures db.Valid()
    ensures !failed ==> Inv(env, roots, db.made, [], tokens, db.symbols, errors)
    ensures failed ==> exists a :: Reachable(env, roots, a) && Dangling(env, a)
    ensures errors > 0 ==> exists a :: Reachable(env, roots, a) && !Proper(env, a)
  {
    failed, errors, tokens := false, 0, [];
    var queue := roots;
    InvStart(env, roots, db.symbols);
    while queue != []
      invariant db.Valid() && Inv(env, roots, db.made, queue, tokens, db.symbols, errors) && !failed
      invariant errors > 0 ==> exists a :: Reachable(env, roots, a) && !Proper(env, a)
      decreases |Unindexed(env, db.made)|, |queue|
    {
      var id := queue[0];
      ghost var made, symbols, queue0, tokens0 := db.made, db.symbols, queue, tokens;
      assert Reachable(env, roots, id);
      if id.AsSym() in db.nonterms {
        InvPop(env, roots, made, queue, tokens, symbols, errors, errors);
        queue := queue[1..];
      } else if id in env.nonterminals && id !in env.customs {
        NoSubsYet(env, made, id);
        failed, queue, tokens := AddNonterminal(env, id, queue[1..], tokens, db);
        if failed {
          return;
        }
        InvNonterm(env, roots, made, queue0, tokens0, symbols, errors, db.made, queue, tokens, db.symbols);
        assert BroughtBy(id, |env.nonterminals[id].subs|, id.AsSym());
        OneLess(env, made, db.made, id);
      } else if id in env.customs && id !in env.nonterminals {
        InvCustom(env, roots, made, queue, tokens, symbols, errors);
        queue := queue[1..] + env.customs[id].refs;
        db.AddNontermAndRules(id.AsSym(), [], false, Own(id), HasState(env.customs[id].state), []);
        OneLess(env, made, db.made, id);
      } else {
        InvPop(env, roots, made, queue, tokens, symbols, errors, errors + 1);
        errors := errors + 1;
        queue := queue[1..];
      }
    }
  }

  // ----- the results -----

  lemma {:induction false} ReachedIsIndexed(env: Env, roots: seq<NonTermId>, made: Grammar, tokens: seq<NonTermId>,
    symbols: map<SymbolId, nat>, path: seq<NonTermId>)
    requires WellFormed(env) && Inv(env, roots, made, [], tokens, symbols, 0) && Path(env, roots, path)
    ensures Last(path).AsSym() in made
  {
    if |path| == 1 {
      assert Settled(made, [], 0, path[0]);
    } else {
      ReachedIsIndexed(env, roots, made, tokens, symbols, Init(path));
      var a, b := Last(Init(path)), Last(path);
      assert IndexedIn(env, made, a) && Edge(env, a, b);
      assert Settled(made, [], 0, b);
    }
  }

  /** Without errors, the indexed non-terminals and custom states are exactly those that the public
      non-terminals reach, and everything reached exists. */
  lemma {:induction false} IndexedIffReachable(env: Env, roots: seq<NonTermId>, made: Grammar, tokens: seq<NonTermId>,
    symbols: map<SymbolId, nat>, a: NonTermId)
    requires WellFormed(env) && Inv(env, roots, made, [], tokens, symbols, 0)
    ensures Named(env, a) ==> (a.AsSym() in made <==> Reachable(env, roots, a))
    ensures Reachable(env, roots, a) ==> a.AsSym() in made
  {
    if Reachable(env, roots, a) {
      var path :| Path(env, roots, path) && Last(path) == a;
      ReachedIsIndexed(env, roots, made, tokens, symbols, path);
    }
    if Named(env, a) && a.AsSym() in made {
      assert IndexedIn(env, made, a);
    }
  }

  /** Without errors nothing that is reached is missing, defined twice, or refers to a missing token. */
  lemma {:induction false} NothingMissing(env: Env, roots: seq<NonTermId>, made: Grammar, tokens: seq<NonTermId>,
    symbols: map<SymbolId, nat>, a: NonTermId)
    requires WellFormed(env) && Inv(env, roots, made, [], tokens, symbols, 0) && Reachable(env, roots, a)
    ensures IsParserSymbol(env, a.AsSym()) && !Dangling(env, a)
  {
    IndexedIffReachable(env, roots, made, tokens, symbols, a);
    if a in env.nonterminals {
      assert RecordedFor(env.nonterminals[a], tokens, symbols);
    }
  }

  // ----- the emitted rules are closed -----

  lemma {:induction false} FromSymbols(rules: seq<Rule>, s: SymbolId) returns (r: Rule)
    requires s in SymbolsIn(rules)
    ensures r in rules && (s in r.skipped || exists i :: 0 <= i < |r.symbols| && r.symbols[i].id == s)
  {
    SplitLast(rules);
    if s in SymbolsIn(Init(rules)) {
      r := FromSymbols(Init(rules), s);
    } else {
      r := Last(rules);
      if s !in r.skipped {
        var i :| 0 <= i < |IdsOfBody(r.symbols)| && IdsOfBody(r.symbols)[i] == s;
        assert r.symbols[i].id == s;
      }
    }
  }

  lemma {:induction false} FromSubs(subs: seq<SubNonTerminal>, s: SymbolId) returns (k: nat)
    requires s in SubsMention(subs)
    ensures k < |subs| && s in SymbolsIn(subs[k].rules)
  {
    if s in SubsMention(Init(subs)) {
      k := FromSubs(Init(subs), s);
    } else {
      k := |subs| - 1;
    }
  }

  lemma {:induction false} SubIn(id: NonTermId, rules: seq<Rule>, n: nat, s: SymbolId)
    requires RulesReferBelow(id.id, rules, n) && SkipsPlain(rules) && s in SymbolsIn(rules) && IsSubSymbol(s)
    ensures exists k: nat :: k < n && s == SubSym(id, k)
  {
    var r := FromSymbols(rules, s);
    assert s !in r.skipped && RefersBelow(id.id, r.symbols, n);
    var i :| 0 <= i < |r.symbols| && r.symbols[i].id == s;
    var k: nat :| k < n && r.symbols[i].id == NonTerminal(Sub(id.id, k, Parser));
    assert s == SubSym(id, k);
  }

  /** Every sub-non-terminal that a non-terminal mentions is one of its own. */
  lemma {:induction false} OwnSubs(id: NonTermId, n: NonTerm, s: SymbolId)
    requires GoodNonterm(id, n) && s in Mentioned(n) && IsSubSymbol(s)
    ensures exists k: nat :: k < |n.subs| && s == SubSym(id, k)
  {
    if s in SymbolSet(n.rules) {
      SubIn(id, n.rules, |n.subs|, s);
    } else {
      AllMentioned(n.subs);
      var j := FromSubs(n.subs, s);
      assert Numbered(id.id, n.subs[j], j);
      var bound := if n.subs[j].kind.ListKind? then j + 1 else j;
      SubIn(id, n.subs[j].rules, bound, s);
      var k: nat :| k < bound && s == SubSym(id, k);
      assert k < |n.subs|;
    }
  }

  lemma {:induction false} BodiesWithin(rules: seq<Rule>, ids: set<SymbolId>)
    requires SymbolSet(rules) <= ids
    ensures forall r :: r in rules ==> IdsWithin(r.symbols, ids) && forall s :: s in r.skipped ==> s in ids
  {
    forall r | r in rules
      ensures IdsWithin(r.symbols, ids) && forall s :: s in r.skipped ==> s in ids
    {
      InSymbols(rules, r);
    }
  }

  lemma {:induction false} CandidatesWithin(n: NonTerm)
    ensures GroupsWithin(CandidatesOf(n), Mentioned(n))
  {
    var c := CandidatesOf(n);
    forall id, r | id in c && r in c[id].rules
      ensures IdsWithin(r.symbols, Mentioned(n))
    {
      var k :| 0 <= k < |n.subs| && n.subs[k] == c[id];
      SubMentions(n.subs, k);
      BodiesWithin(n.subs[k].rules, Mentioned(n));
    }
  }

  /** An emitted rule holds only symbols that its non-terminal mentions. */
  lemma {:induction false} EmittedMentions(env: Env, s: SymbolId, m: Rule)
    requires WellFormed(env) && IsParserSymbol(env, s) && m in ParserRules(env, s)
    ensures Owner(s.id) in env.nonterminals
    ensures IdsWithin(m.symbols, Mentioned(env.nonterminals[Owner(s.id)]))
    ensures forall x :: x in m.skipped ==> x in Mentioned(env.nonterminals[Owner(s.id)])
  {
    var n := env.nonterminals[Owner(s.id)];
    GoodFounded(Owner(s.id), n);
    CandidatesWithin(n);
    var rules := if s.id.Standard? then n.rules else n.subs[s.id.index].rules;
    if s.id.Sub? {
      SubMentions(n.subs, s.id.index);
    }
    BodiesWithin(rules, Mentioned(n));
    InlinedWithin(CandidatesOf(n), rules, env.inlining, false, Mentioned(n), m);
  }

  /** The symbol has an index: a non-terminal its own, a token reference that of a symbol and an entry in
      the queue of the second phase, a terminal that of a symbol. */
  ghost predicate Resolved(made: Grammar, tokens: seq<NonTermId>, symbols: map<SymbolId, nat>, x: SymbolId) {
    && (x.NonTerminal? ==> x in made)
    && (x.NonTerminalToken? ==> x.id.sub == Scanner && x.id.AsParse() in tokens && x in symbols)
    && (IsTerminal(x) ==> x in symbols)
  }

  lemma {:induction false} MentionedResolved(env: Env, roots: seq<NonTermId>, made: Grammar, tokens: seq<NonTermId>,
    symbols: map<SymbolId, nat>, id: NonTermId, x: SymbolId)
    requires WellFormed(env) && Inv(env, roots, made, [], tokens, symbols, 0)
    requires id in env.nonterminals && id !in env.customs && id.AsSym() in made && x in Mentioned(env.nonterminals[id])
    ensures Resolved(made, tokens, symbols, x)
  {
    var n := env.nonterminals[id];
    assert GoodNonterm(id, n) && RecordedFor(n, tokens, symbols) && IndexedIn(env, made, id);
    if x.NonTerminal? {
      if x.id.Sub? {
        OwnSubs(id, n, x);
      } else {
        assert x == NonTerminal(x.id) && Edge(env, id, x.id);
        assert Settled(made, [], 0, x.id);
        assert x.id.AsSym() == x;
      }
    }
  }

  /** Without errors, every symbol of every emitted parser rule, skipped symbols included, has an index. */
  lemma {:induction false} ParserRulesClosed(env: Env, roots: seq<NonTermId>, made: Grammar, tokens: seq<NonTermId>,
    symbols: map<SymbolId, nat>, s: SymbolId, m: Rule)
    requires WellFormed(env) && Inv(env, roots, made, [], tokens, symbols, 0) && s in made && m in made[s]
    ensures forall i :: 0 <= i < |m.symbols| ==> Resolved(made, tokens, symbols, m.symbols[i].id)
    ensures forall x :: x in m.skipped ==> Resolved(made, tokens, symbols, x)
  {
    assert IsParserSymbol(env, s) && made[s] == ParserRules(env, s);
    EmittedMentions(env, s, m);
    var id := Owner(s.id);
    assert GoodNonterm(id, env.nonterminals[id]);
    OwnerIndexed(env, made, s);
    forall x | x in Mentioned(env.nonterminals[id])
      ensures Resolved(made, tokens, symbols, x)
    {
      MentionedResolved(env, roots, made, tokens, symbols, id, x);
    }
  }

  lemma {:induction false} OwnerIndexed(env: Env, made: Grammar, s: SymbolId)
    requires WellFormed(env) && MadeRight(env, made) && Whole(env, made) && s in made && made[s] != []
    ensures Owner(s.id).AsSym() in made && Owner(s.id) in env.nonterminals && Owner(s.id) !in env.customs
  {
    assert IsParserSymbol(env, s) && made[s] == ParserRules(env, s);
    if s.id.Sub? {
      assert IsParserSymbol(env, Owner(s.id).AsSym());
    } else {
      assert Owner(s.id) == s.id;
    }
  }
}
