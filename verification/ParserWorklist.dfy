/** The first worklist of the grammar database (crates/radlr-core/grammar/build_database.rs:86-198): from the
    public non-terminals it indexes every non-terminal that can be reached, inlining groups on the way. */
module ParserWorklist {
  import opened Sequences
  import opened Symbols
  import opened Cfg
  import opened Numbering
  import opened Inline
  import opened Tables
  import Merge

  datatype CustomState = CustomState(refs: seq<NonTermId>, state: nat)

  datatype Env = Env(nonterminals: map<NonTermId, NonTerm>, customs: map<NonTermId, CustomState>, inlining: bool)

  const MAX_SUBS := 9000

  ghost function StatesOf(env: Env): States { map id | id in env.customs :: env.customs[id].state }

  // ----- the symbols of rules -----

  function IdsOfBody(b: Body): (ids: seq<SymbolId>)
    ensures |ids| == |b| && forall i :: 0 <= i < |b| ==> ids[i] == b[i].id
  {
    seq(|b|, i requires 0 <= i < |b| => b[i].id)
  }

  /** The symbols of the bodies, and the skipped symbols, in order. */
  function SymbolsIn(rules: seq<Rule>): seq<SymbolId> {
    if rules == [] then []
    else SymbolsIn(Init(rules)) + IdsOfBody(Last(rules).symbols) + Last(rules).skipped
  }

  lemma {:induction false} InSymbols(rules: seq<Rule>, r: Rule)
    requires r in rules
    ensures forall i :: 0 <= i < |r.symbols| ==> r.symbols[i].id in SymbolsIn(rules)
    ensures forall s :: s in r.skipped ==> s in SymbolsIn(rules)
  {
    SplitLast(rules);
    if r in Init(rules) {
      InSymbols(Init(rules), r);
    } else {
      forall i | 0 <= i < |r.symbols|
        ensures r.symbols[i].id in SymbolsIn(rules)
      {
        assert IdsOfBody(r.symbols)[i] in IdsOfBody(r.symbols);
      }
    }
  }

  function SymbolSet(rules: seq<Rule>): set<SymbolId> {
    set s | s in SymbolsIn(rules)
  }

  function SubsMention(subs: seq<SubNonTerminal>): set<SymbolId> {
    if subs == [] then {} else SubsMention(Init(subs)) + SymbolSet(Last(subs).rules)
  }

  /** All symbols of a non-terminal and of its sub-non-terminals. */
  function Mentioned(n: NonTerm): set<SymbolId> { MentionedIn(n.subs) + SymbolSet(n.rules) }

  function MentionedBefore(subs: seq<SubNonTerminal>, k: nat): set<SymbolId>
    requires k <= |subs|
  {
    SubsMention(subs[..k])
  }

  function MentionedIn(subs: seq<SubNonTerminal>): set<SymbolId> { MentionedBefore(subs, |subs|) }

  lemma {:induction false} NoneMentioned(subs: seq<SubNonTerminal>)
    ensures MentionedBefore(subs, 0) == {}
  {
    assert subs[..0] == [];
  }

  lemma {:induction false} AllMentioned(subs: seq<SubNonTerminal>)
    ensures MentionedIn(subs) == SubsMention(subs)
  {
    assert subs[..|subs|] == subs;
  }

  lemma {:induction false} MentionedNext(subs: seq<SubNonTerminal>, k: nat)
    requires k < |subs|
    ensures MentionedBefore(subs, k + 1) == MentionedBefore(subs, k) + SymbolSet(subs[k].rules)
  {
    TakeOneMore(subs, k);
  }

  lemma {:induction false} SubMentions(subs: seq<SubNonTerminal>, k: nat)
    requires k < |subs|
    ensures SymbolSet(subs[k].rules) <= SubsMention(subs) == MentionedIn(subs)
  {
    AllMentioned(subs);
    if k < |subs| - 1 {
      SubMentions(Init(subs), k);
    }
  }

  /** References are written in parser form, and token references in scanner form. */
  ghost predicate InForm(n: NonTerm) {
    forall s :: s in Mentioned(n) ==> InItsForm(s)
  }

  /** The symbol set of a non-terminal holds its terminals, and besides them only token references. */
  ghost predicate Recorded(n: NonTerm) {
    && (forall s :: s in Mentioned(n) && IsTerminal(s) ==> s in n.symbols)
    && (forall s :: s in n.symbols && !IsTerminal(s) ==> s.NonTerminalToken? && s in Mentioned(n))
  }

  /** Skipped symbols are not sub-non-terminals. */
  ghost predicate SkipsPlain(rules: seq<Rule>) {
    forall r, s :: r in rules && s in r.skipped ==> !IsSubSymbol(s)
  }

  ghost predicate GoodNonterm(id: NonTermId, n: NonTerm) {
    && id.Standard? && n.id == id && Merge.Sound(id.id, n) && |n.subs| <= MAX_SUBS
    && InForm(n) && Recorded(n)
    && SkipsPlain(n.rules) && (forall k :: 0 <= k < |n.subs| ==> SkipsPlain(n.subs[k].rules))
  }

  /** What desugaring and merging deliver: numbered non-terminals with references in form. */
  ghost predicate WellFormed(env: Env) {
    && (forall id :: id in env.nonterminals ==> GoodNonterm(id, env.nonterminals[id]))
    && (forall id :: id in env.customs ==> id.Standard? && id.sub == Parser)
  }

  function CandidatesOf(n: NonTerm): Candidates { InlineCandidates(n.subs) }

  lemma {:induction false} GoodFounded(id: NonTermId, n: NonTerm)
    requires GoodNonterm(id, n)
    ensures Founded(CandidatesOf(n)) && id.sub == Parser
  {
    CandidatesFounded(id.id, n.subs);
  }

  // ----- the grammar to be indexed -----

  function Owner(id: NonTermId): NonTermId { Standard(id.id, Parser) }

  /** The symbol belongs to a non-terminal of the environment or is a custom state. */
  ghost predicate IsParserSymbol(env: Env, s: SymbolId) {
    && s.NonTerminal? && s.id.sub == Parser
    && if s.id.Standard? then (s.id in env.nonterminals) != (s.id in env.customs)
       else Owner(s.id) in env.nonterminals && s.id.index < |env.nonterminals[Owner(s.id)].subs|
  }

  /** The rules a symbol gets: those of its non-terminal or sub-non-terminal with groups inlined, none for
      a custom state. */
  ghost function ParserRules(env: Env, s: SymbolId): seq<Rule>
    requires WellFormed(env) && IsParserSymbol(env, s)
  {
    if s.id in env.customs then []
    else
      var n := env.nonterminals[Owner(s.id)];
      GoodFounded(Owner(s.id), n);
      InlineRules(CandidatesOf(n), if s.id.Standard? then n.rules else n.subs[s.id.index].rules, env.inlining, false)
  }

  // ----- reachability -----

  /** A non-terminal leads to the non-terminals its rules mention, a custom state to those it names. */
  ghost predicate Edge(env: Env, a: NonTermId, b: NonTermId) {
    if a in env.customs then a !in env.nonterminals && b in env.customs[a].refs
    else a in env.nonterminals && b.Standard? && NonTerminal(b) in Mentioned(env.nonterminals[a])
  }

  ghost predicate Path(env: Env, roots: seq<NonTermId>, path: seq<NonTermId>) {
    path != [] &&
    if |path| == 1 then path[0] in roots
    else Path(env, roots, Init(path)) && Edge(env, Last(Init(path)), Last(path))
  }

  ghost predicate Reachable(env: Env, roots: seq<NonTermId>, id: NonTermId) {
    exists path :: Path(env, roots, path) && Last(path) == id
  }

  lemma {:induction false} RootReachable(env: Env, roots: seq<NonTermId>, id: NonTermId)
    requires id in roots
    ensures Reachable(env, roots, id)
  {
    assert Path(env, roots, [id]) && Last([id]) == id;
  }

  lemma {:induction false} EdgeReachable(env: Env, roots: seq<NonTermId>, a: NonTermId, b: NonTermId)
    requires Reachable(env, roots, a) && Edge(env, a, b)
    ensures Reachable(env, roots, b)
  {
    var path :| Path(env, roots, path) && Last(path) == a;
    assert Init(path + [b]) == path && Last(path + [b]) == b;
    assert Path(env, roots, path + [b]);
  }

  // ----- extraction -----

  /** The standard non-terminals among the symbols go to the queue, the token non-terminals to the queue
      of the second phase. */
  function QueuedIn(ids: seq<SymbolId>): seq<NonTermId> {
    if ids == [] then []
    else QueuedIn(Init(ids)) + if Last(ids).NonTerminal? && Last(ids).id.Standard? then [Last(ids).id] else []
  }

  function TokensIn(ids: seq<SymbolId>): seq<NonTermId> {
    if ids == [] then []
    else TokensIn(Init(ids)) + if Last(ids).NonTerminalToken? then [Last(ids).id.AsParse()] else []
  }

  lemma {:induction false} QueuedExactly(ids: seq<SymbolId>)
    ensures forall id :: id in QueuedIn(ids) <==> id.Standard? && NonTerminal(id) in ids
  {
    if ids != [] {
      QueuedExactly(Init(ids));
      SplitLast(ids);
    }
  }

  lemma {:induction false} TokensExactly(ids: seq<SymbolId>)
    ensures forall s :: s in ids && s.NonTerminalToken? ==> s.id.AsParse() in TokensIn(ids)
    ensures forall q :: q in TokensIn(ids) ==> exists s :: s in ids && s.NonTerminalToken? && q == s.id.AsParse()
  {
    if ids != [] {
      TokensExactly(Init(ids));
      SplitLast(ids);
      forall q | q in TokensIn(ids)
        ensures exists s :: s in ids && s.NonTerminalToken? && q == s.id.AsParse()
      {
        if q in TokensIn(Init(ids)) {
          var s :| s in Init(ids) && s.NonTerminalToken? && q == s.id.AsParse();
          assert s in ids;
        } else {
          assert Last(ids) in ids;
        }
      }
    }
  }

  /** Extracts one symbol; fails when a token reference has no non-terminal. */
  method ExtractSym(env: Env, s: SymbolId, queue: seq<NonTermId>, tokens: seq<NonTermId>, db: Database)
    returns (failed: bool, queue': seq<NonTermId>, tokens': seq<NonTermId>)
    requires db.Valid()
    modifies db`symbols, db`symbolOrder
    ensures db.Valid() && old(db.symbols).Keys <= db.symbols.Keys
    ensures failed <==> s.NonTerminalToken? && s.id.AsParse() !in env.nonterminals
    ensures !failed ==> queue' == queue + if s.NonTerminal? && s.id.Standard? then [s.id] else []
    ensures !failed ==> tokens' == tokens + if s.NonTerminalToken? then [s.id.AsParse()] else []
    ensures !failed && s.NonTerminalToken? ==> s in db.symbols
    ensures forall x :: x in db.symbols && x !in old(db.symbols) ==> x == s && s.NonTerminalToken?
  {
    failed, queue', tokens' := false, queue, tokens;
    if s.NonTerminal? {
      if s.id.Standard? {
        queue' := queue' + [s.id];
      }
    } else if s.NonTerminalToken? {
      if s.id.AsParse() in env.nonterminals {
        db.InsertSymbol(s);
        tokens' := tokens' + [s.id.AsParse()];
      } else {
        failed := true;
      }
    }
  }

  /** Every token reference among the symbols names a non-terminal and is a symbol. */
  ghost predicate TokensKnown(env: Env, ids: seq<SymbolId>, symbols: map<SymbolId, nat>) {
    forall i :: 0 <= i < |ids| && ids[i].NonTerminalToken? ==>
      ids[i].id.AsParse() in env.nonterminals && ids[i] in symbols
  }

  method ExtractSyms(env: Env, ids: seq<SymbolId>, queue: seq<NonTermId>, tokens: seq<NonTermId>, db: Database)
    returns (failed: bool, queue': seq<NonTermId>, tokens': seq<NonTermId>)
    requires db.Valid()
    modifies db`symbols, db`symbolOrder
    ensures db.Valid() && old(db.symbols).Keys <= db.symbols.Keys
    ensures !failed ==> queue' == queue + QueuedIn(ids) && tokens' == tokens + TokensIn(ids)
    ensures !failed ==> TokensKnown(env, ids, db.symbols)
    ensures forall x :: x in db.symbols && x !in old(db.symbols) ==> x in ids && x.NonTerminalToken?
    ensures failed ==> exists s :: s in ids && s.NonTerminalToken? && s.id.AsParse() !in env.nonterminals
  {
    failed, queue', tokens' := false, queue, tokens;
    assert queue + [] == queue && tokens + [] == tokens;
    for k := 0 to |ids|
      invariant db.Valid() && old(db.symbols).Keys <= db.symbols.Keys && !failed
      invariant queue' == queue + QueuedIn(ids[..k]) && tokens' == tokens + TokensIn(ids[..k])
      invariant TokensKnown(env, ids[..k], db.symbols)
      invariant forall x :: x in db.symbols && x !in old(db.symbols) ==> x in ids && x.NonTerminalToken?
    {
      TakeOneMore(ids, k);
      ghost var queue1, tokens1 := queue', tokens';
      failed, queue', tokens' := ExtractSym(env, ids[k], queue', tokens', db);
      if failed {
        assert ids[k] in ids;
        return;
      }
      ExtendedBy(queue, queue1, queue', QueuedIn(ids[..k]), QueuedIn(ids[..k + 1]));
      ExtendedBy(tokens, tokens1, tokens', TokensIn(ids[..k]), TokensIn(ids[..k + 1]));
    }
    assert ids[..|ids|] == ids;
  }

  lemma {:induction false} ExtendedBy<T>(start: seq<T>, before: seq<T>, after: seq<T>, a: seq<T>, b: seq<T>)
    requires before == start + a && a <= b && after == before + b[|a|..]
    ensures after == start + b
  {
    assert a + b[|a|..] == b;
  }

  // ----- one non-terminal -----

  function SubSym(id: NonTermId, k: nat): SymbolId { NonTerminal(Sub(id.id, k, Parser)) }

  /** The symbols that a non-terminal brings with it: its own and those of its sub-non-terminals. */
  ghost predicate BroughtBy(id: NonTermId, k: nat, s: SymbolId) {
    s == id.AsSym() || exists j :: 0 <= j < k && s == SubSym(id, j)
  }

  lemma {:induction false} SubRules(env: Env, id: NonTermId, k: nat)
    requires WellFormed(env) && id in env.nonterminals && id !in env.customs && k < |env.nonterminals[id].subs|
    ensures var n := env.nonterminals[id];
            && Founded(CandidatesOf(n)) && n.subs[k].id.AsSym() == SubSym(id, k) && IsParserSymbol(env, SubSym(id, k))
            && ParserRules(env, SubSym(id, k)) == InlineRules(CandidatesOf(n), n.subs[k].rules, env.inlining, false)
  {
    var n := env.nonterminals[id];
    assert GoodNonterm(id, n);
    GoodFounded(id, n);
    assert Numbered(id.id, n.subs[k], k);
    assert Owner(Sub(id.id, k, Parser)) == id;
  }

  lemma {:induction false} RootRules(env: Env, id: NonTermId)
    requires WellFormed(env) && id in env.nonterminals && id !in env.customs
    ensures var n := env.nonterminals[id];
            && Founded(CandidatesOf(n)) && id.AsSym() == NonTerminal(id) && IsParserSymbol(env, id.AsSym())
            && ParserRules(env, id.AsSym()) == InlineRules(CandidatesOf(n), n.rules, env.inlining, false)
  {
    var n := env.nonterminals[id];
    assert GoodNonterm(id, n);
    GoodFounded(id, n);
  }

  /** The tables after the symbols of a non-terminal up to sub-non-terminal `k` were added. */
  ghost predicate Added(env: Env, id: NonTermId, k: nat, before: Grammar, after: Grammar)
    requires WellFormed(env)
  {
    && (forall s :: s in after <==> s in before || BroughtBy(id, k, s))
    && (forall s :: s in before ==> after[s] == before[s])
    && (forall s :: s in after && s !in before ==> IsParserSymbol(env, s) && after[s] == ParserRules(env, s))
  }

  lemma {:induction false} AddedNext(env: Env, id: NonTermId, k: nat, before: Grammar, after: Grammar)
    requires WellFormed(env) && Added(env, id, k, before, after)
    requires SubSym(id, k) !in before && IsParserSymbol(env, SubSym(id, k))
    ensures Added(env, id, k + 1, before, after[SubSym(id, k) := ParserRules(env, SubSym(id, k))])
  {
    forall s
      ensures BroughtBy(id, k + 1, s) <==> BroughtBy(id, k, s) || s == SubSym(id, k)
    {
      OneMoreBrought(id, k, s);
    }
  }

  lemma {:induction false} OneMoreBrought(id: NonTermId, k: nat, s: SymbolId)
    ensures BroughtBy(id, k + 1, s) <==> BroughtBy(id, k, s) || s == SubSym(id, k)
  {
    if s == SubSym(id, k) {
      assert 0 <= k < k + 1 && s == SubSym(id, k);
    }
  }

  /** The non-terminal mentions `q` as a token. */
  ghost predicate MentionsToken(env: Env, id: NonTermId, q: NonTermId) {
    && id in env.nonterminals
    && exists s :: s in Mentioned(env.nonterminals[id]) && s.NonTerminalToken? && s.id.AsParse() == q
  }

  /** What was queued holds every reference of the rules seen, and only references. */
  ghost predicate Extracted(ids: set<SymbolId>, id: NonTermId, env: Env, queue: seq<NonTermId>, queue': seq<NonTermId>,
                            tokens: seq<NonTermId>, tokens': seq<NonTermId>,
                            known: set<SymbolId>, symbols: map<SymbolId, nat>)
  {
    && (forall s :: s in symbols && !IsTerminal(s) ==> s in known || (s.NonTerminalToken? && s.id.AsParse() in tokens'))
    && (forall s :: s in ids && s.NonTerminal? && s.id.Standard? ==> s.id in queue')
    && (forall s :: s in ids && s.NonTerminalToken? ==> s.id.AsParse() in tokens' && s in symbols)
    && (forall b :: b in queue ==> b in queue') && (forall b :: b in queue' ==> b in queue || Edge(env, id, b))
    && (forall q :: q in tokens ==> q in tokens')
    && (forall q :: q in tokens' ==> q in tokens || (q in env.nonterminals && MentionsToken(env, id, q)))
  }

  lemma {:induction false} ExtractedMore(seen: set<SymbolId>, rules: seq<Rule>, id: NonTermId, env: Env,
    queue: seq<NonTermId>, queue1: seq<NonTermId>, tokens: seq<NonTermId>, tokens1: seq<NonTermId>,
    known: set<SymbolId>, symbols1: map<SymbolId, nat>, symbols2: map<SymbolId, nat>)
    requires Extracted(seen, id, env, queue, queue1, tokens, tokens1, known, symbols1) && symbols1.Keys <= symbols2.Keys
    requires forall s :: s in symbols2 && s !in symbols1 ==> s in SymbolsIn(rules) && s.NonTerminalToken?
    requires id in env.nonterminals && id !in env.customs && SymbolSet(rules) <= Mentioned(env.nonterminals[id])
    requires TokensKnown(env, SymbolsIn(rules), symbols2)
    ensures Extracted(seen + SymbolSet(rules), id, env, queue, queue1 + QueuedIn(SymbolsIn(rules)), tokens,
                      tokens1 + TokensIn(SymbolsIn(rules)), known, symbols2)
  {
    var queue2, tokens2 := queue1 + QueuedIn(SymbolsIn(rules)), tokens1 + TokensIn(SymbolsIn(rules));
    QueuedExactly(SymbolsIn(rules));
    TokensExactly(SymbolsIn(rules));
    forall s | s in SymbolsIn(rules) && s.NonTerminalToken?
      ensures s.id.AsParse() in tokens2 && s in symbols2 && s.id.AsParse() in env.nonterminals
    {
      var i :| 0 <= i < |SymbolsIn(rules)| && SymbolsIn(rules)[i] == s;
    }
    forall b | b in queue2
      ensures b in queue || Edge(env, id, b)
    {
      assert b in queue1 || NonTerminal(b) in SymbolSet(rules);
    }
    forall q | q in tokens2
      ensures q in tokens || (q in env.nonterminals && MentionsToken(env, id, q))
    {
      if q !in tokens1 {
        var s :| s in SymbolsIn(rules) && s.NonTerminalToken? && q == s.id.AsParse();
        assert s in SymbolSet(rules);
      }
    }
  }

  method InsertAllSymbols(symbols: set<SymbolId>, db: Database)
    requires db.Valid()
    modifies db`symbols, db`symbolOrder
    ensures db.Valid() && old(db.symbols).Keys + symbols <= db.symbols.Keys
    ensures forall s :: s in db.symbols ==> s in old(db.symbols) || s in symbols
  {
    var left := symbols;
    while left != {}
      invariant db.Valid() && old(db.symbols).Keys <= db.symbols.Keys
      invariant forall s :: s in symbols && s !in left ==> s in db.symbols
      invariant left <= symbols && forall s :: s in db.symbols ==> s in old(db.symbols) || s in symbols
      decreases |left|
    {
      var s :| s in left;
      db.InsertSymbol(s);
      left := left - {s};
    }
  }

  /** Some token reference of the non-terminal names nothing. */
  ghost predicate Dangling(env: Env, id: NonTermId) {
    id in env.nonterminals &&
    exists s :: s in Mentioned(env.nonterminals[id]) && s.NonTerminalToken? && s.id.AsParse() !in env.nonterminals
  }

  /** Extracts the symbols of rules of a non-terminal, behind those seen before. */
  method ExtractRules(env: Env, id: NonTermId, rules: seq<Rule>, queue: seq<NonTermId>, tokens: seq<NonTermId>,
                      db: Database, ghost seen: set<SymbolId>, ghost queue0: seq<NonTermId>,
                      ghost tokens0: seq<NonTermId>, ghost known: set<SymbolId>)
    returns (failed: bool, queue': seq<NonTermId>, tokens': seq<NonTermId>)
    requires id in env.nonterminals && id !in env.customs && SymbolSet(rules) <= Mentioned(env.nonterminals[id])
    requires db.Valid() && Extracted(seen, id, env, queue0, queue, tokens0, tokens, known, db.symbols)
    modifies db`symbols, db`symbolOrder
    ensures failed ==> Dangling(env, id)
    ensures db.Valid() && old(db.symbols).Keys <= db.symbols.Keys
    ensures !failed ==> Extracted(seen + SymbolSet(rules), id, env, queue0, queue', tokens0, tokens', known, db.symbols)
  {
    failed, queue', tokens' := ExtractSyms(env, SymbolsIn(rules), queue, tokens, db);
    if !failed {
      ExtractedMore(seen, rules, id, env, queue0, queue, tokens0, tokens, known, old(db.symbols), db.symbols);
    }
  }

  method AddSub(env: Env, id: NonTermId, k: nat, queue: seq<NonTermId>, tokens: seq<NonTermId>, db: Database,
                ghost before: Grammar, ghost seen: set<SymbolId>, ghost seen': set<SymbolId>,
                ghost queue0: seq<NonTermId>, ghost tokens0: seq<NonTermId>, ghost known: set<SymbolId>)
    returns (failed: bool, queue': seq<NonTermId>, tokens': seq<NonTermId>)
    requires db.states == StatesOf(env)
    requires WellFormed(env) && id in env.nonterminals && id !in env.customs && k < |env.nonterminals[id].subs|
    requires db.Valid() && Added(env, id, k, before, db.made) && SubSym(id, k) !in before
    requires seen' == seen + SymbolSet(env.nonterminals[id].subs[k].rules)
    requires Extracted(seen, id, env, queue0, queue, tokens0, tokens, known, db.symbols)
    modifies db
    ensures failed ==> Dangling(env, id)
    ensures db.Valid() && old(db.symbols).Keys <= db.symbols.Keys
    ensures !failed ==> Added(env, id, k + 1, before, db.made)
    ensures !failed ==> Extracted(seen', id, env, queue0, queue', tokens0, tokens', known, db.symbols)
  {
    failed, queue', tokens' := false, queue, tokens;
    SubRules(env, id, k);
    SubNotYet(env, id, k, before, db.made);
    if env.nonterminals[id].subs[k].id.AsSym() !in db.nonterms {
      AddSubRules(env, id, k, db, before);
      failed, queue', tokens' := ExtractSub(env, id, k, queue, tokens, db, seen, queue0, tokens0, known);
    }
  }

  method ExtractSub(env: Env, id: NonTermId, k: nat, queue: seq<NonTermId>, tokens: seq<NonTermId>, db: Database,
                    ghost seen: set<SymbolId>, ghost queue0: seq<NonTermId>, ghost tokens0: seq<NonTermId>,
                    ghost known: set<SymbolId>)
    returns (failed: bool, queue': seq<NonTermId>, tokens': seq<NonTermId>)
    requires id in env.nonterminals && id !in env.customs && k < |env.nonterminals[id].subs|
    requires db.Valid() && Extracted(seen, id, env, queue0, queue, tokens0, tokens, known, db.symbols)
    modifies db`symbols, db`symbolOrder
    ensures failed ==> Dangling(env, id)
    ensures db.Valid() && old(db.symbols).Keys <= db.symbols.Keys
    ensures !failed ==> Extracted(seen + SymbolSet(env.nonterminals[id].subs[k].rules), id, env, queue0, queue',
                                  tokens0, tokens', known, db.symbols)
  {
    SubMentions(env.nonterminals[id].subs, k);
    failed, queue', tokens' := ExtractRules(env, id, env.nonterminals[id].subs[k].rules, queue, tokens, db, seen,
                                            queue0, tokens0, known);
  }

  /** The sub-non-terminal has no index yet, because its non-terminal had none. */
  method AddSubRules(env: Env, id: NonTermId, k: nat, db: Database, ghost before: Grammar)
    requires db.states == StatesOf(env)
    requires WellFormed(env) && id in env.nonterminals && id !in env.customs && k < |env.nonterminals[id].subs|
    requires db.Valid() && Added(env, id, k, before, db.made) && SubSym(id, k) !in before
    requires SubSym(id, k) !in db.nonterms
    modifies db
    ensures db.Valid() && db.symbols == old(db.symbols)
    ensures Added(env, id, k + 1, before, db.made)
  {
    var n := env.nonterminals[id];
    var sub := n.subs[k];
    SubRules(env, id, k);
    AddedNext(env, id, k, before, db.made);
    var rules := InlineRules(CandidatesOf(n), sub.rules, env.inlining, false);
    db.AddNontermAndRules(sub.id.AsSym(), rules, false, Own(sub.id), NoState, rules);
  }

  lemma {:induction false} SubNotYet(env: Env, id: NonTermId, k: nat, before: Grammar, after: Grammar)
    requires WellFormed(env) && Added(env, id, k, before, after) && SubSym(id, k) !in before && id.Standard?
    ensures SubSym(id, k) !in after
  {
    assert !BroughtBy(id, k, SubSym(id, k));
  }

  method AddSubs(env: Env, id: NonTermId, queue: seq<NonTermId>, tokens: seq<NonTermId>, db: Database,
                 ghost before: Grammar, ghost known: set<SymbolId>)
    returns (failed: bool, queue': seq<NonTermId>, tokens': seq<NonTermId>)
    requires db.states == StatesOf(env)
    requires WellFormed(env) && id in env.nonterminals && id !in env.customs && db.Valid()
    requires Added(env, id, 0, before, db.made) && forall k: nat :: SubSym(id, k) !in before
    requires Extracted({}, id, env, queue, queue, tokens, tokens, known, db.symbols)
    modifies db
    ensures failed ==> Dangling(env, id)
    ensures db.Valid() && old(db.symbols).Keys <= db.symbols.Keys
    ensures !failed ==> Added(env, id, |env.nonterminals[id].subs|, before, db.made)
    ensures !failed ==> Extracted(MentionedIn(env.nonterminals[id].subs), id, env, queue, queue', tokens, tokens', known, db.symbols)
  {
    var n := env.nonterminals[id];
    failed, queue', tokens' := false, queue, tokens;
    NoneMentioned(n.subs);
    for k := 0 to |n.subs|
      invariant db.Valid() && Added(env, id, k, before, db.made) && old(db.symbols).Keys <= db.symbols.Keys
      invariant Extracted(MentionedBefore(n.subs, k), id, env, queue, queue', tokens, tokens', known, db.symbols)
    {
      MentionedNext(n.subs, k);
      failed, queue', tokens' := AddSub(env, id, k, queue', tokens', db, before, MentionedBefore(n.subs, k),
                                        MentionedBefore(n.subs, k + 1), queue, tokens, known);
      if failed {
        return;
      }
    }
  }

  method AddRootAndSubs(env: Env, id: NonTermId, queue: seq<NonTermId>, tokens: seq<NonTermId>, db: Database,
                        ghost known: set<SymbolId>)
    returns (failed: bool, queue': seq<NonTermId>, tokens': seq<NonTermId>)
    requires db.states == StatesOf(env)
    requires WellFormed(env) && id in env.nonterminals && id !in env.customs && db.Valid()
    requires id.AsSym() !in db.made && forall k: nat :: SubSym(id, k) !in db.made
    requires forall s :: s in db.symbols ==> s in known
    modifies db
    ensures failed ==> Dangling(env, id)
    ensures db.Valid() && old(db.symbols).Keys <= db.symbols.Keys
    ensures !failed ==> Added(env, id, |env.nonterminals[id].subs|, old(db.made), db.made)
    ensures !failed ==> Extracted(MentionedIn(env.nonterminals[id].subs), id, env, queue, queue', tokens, tokens', known, db.symbols)
  {
    var n := env.nonterminals[id];
    ghost var before := db.made;
    RootRules(env, id);
    var rules := InlineRules(CandidatesOf(n), n.rules, env.inlining, false);
    db.AddNontermAndRules(id.AsSym(), rules, false, Own(id), NoState, rules);
    failed, queue', tokens' := AddSubs(env, id, queue, tokens, db, before, known);
  }

  /** Indexes a non-terminal with its sub-non-terminals and queues what their rules mention. */
  method AddNonterminal(env: Env, id: NonTermId, queue: seq<NonTermId>, tokens: seq<NonTermId>, db: Database)
    returns (failed: bool, queue': seq<NonTermId>, tokens': seq<NonTermId>)
    requires db.states == StatesOf(env)
    requires WellFormed(env) && id in env.nonterminals && id !in env.customs && db.Valid()
    requires id.AsSym() !in db.made && forall k: nat :: SubSym(id, k) !in db.made
    modifies db
    ensures failed ==> Dangling(env, id)
    ensures db.Valid()
    ensures !failed ==> Added(env, id, |env.nonterminals[id].subs|, old(db.made), db.made)
    ensures !failed ==> old(db.symbols).Keys + env.nonterminals[id].symbols <= db.symbols.Keys
    ensures !failed ==> Extracted(Mentioned(env.nonterminals[id]), id, env, queue, queue', tokens, tokens',
                                  old(db.symbols).Keys + env.nonterminals[id].symbols, db.symbols)
  {
    ghost var known := db.symbols.Keys + env.nonterminals[id].symbols;
    failed, queue', tokens' := AddRootAndSubs(env, id, queue, tokens, db, known);
    if failed {
      return;
    }
    failed, queue', tokens' := ExtractRoot(env, id, queue', tokens', db, queue, tokens, known);
    assert !failed ==> Extracted(Mentioned(env.nonterminals[id]), id, env, queue, queue', tokens, tokens', known, db.symbols);
    assert Added(env, id, |env.nonterminals[id].subs|, old(db.made), db.made);
  }

  method ExtractRoot(env: Env, id: NonTermId, queue: seq<NonTermId>, tokens: seq<NonTermId>, db: Database,
                     ghost queue0: seq<NonTermId>, ghost tokens0: seq<NonTermId>, ghost known: set<SymbolId>)
    returns (failed: bool, queue': seq<NonTermId>, tokens': seq<NonTermId>)
    requires id in env.nonterminals && id !in env.customs && db.Valid()
    requires Extracted(MentionedIn(env.nonterminals[id].subs), id, env, queue0, queue, tokens0, tokens, known, db.symbols)
    requires env.nonterminals[id].symbols <= known
    modifies db`symbols, db`symbolOrder
    ensures failed ==> Dangling(env, id)
    ensures db.Valid()
    ensures !failed ==> old(db.symbols).Keys + env.nonterminals[id].symbols <= db.symbols.Keys
    ensures !failed ==> Extracted(Mentioned(env.nonterminals[id]), id, env, queue0, queue', tokens0, tokens', known, db.symbols)
  {
    var n := env.nonterminals[id];
    InsertAllSymbols(n.symbols, db);
    failed, queue', tokens' := ExtractRules(env, id, n.rules, queue, tokens, db, MentionedIn(n.subs), queue0, tokens0, known);
  }
}
