/** The end of the construction of the grammar database: scanner non-terminals for the terminals, and the
    conversion of symbols into indices (crates/radlr-core/grammar/build_database.rs:310-376, 505-560). */
module GrammarDatabase {
  import opened Sequences
  import opened Symbols
  import opened Cfg
  import opened LeftRecursion
  import opened Spelling
  import opened Tables
  import opened ParserWorklist
  import opened ParserClosure
  import opened TokenWorklist
  import opened TokenClosure

  // ----- scanner non-terminals of terminals -----

  /** The number that names the scanner non-terminal of a terminal. */
  type TerminalIds = SymbolId -> nat

  function ScannerOf(ids: TerminalIds, s: SymbolId): SymbolId {
    if IsReference(s) then s.id.AsTokSym() else Standard(ids(s), Scanner).AsTokSym()
  }

  function TerminalRules(s: SymbolId): seq<Rule> { [Rule([SymbolRef(s, "", 0)], [], NoAst)] }

  /** Terminals have numbers of their own: no two share one, and none is that of a non-terminal. */
  ghost predicate TerminalsApart(ids: TerminalIds, made: Grammar, symbols: set<SymbolId>) {
    && (forall s :: s in symbols && IsTerminal(s) ==> ScannerOf(ids, s) !in made)
    && (forall s, r :: s in symbols && r in symbols && IsTerminal(s) && IsTerminal(r) && ids(s) == ids(r) ==> s == r)
  }

  /** The rules of `made` are those of `before`, and the scanner rules of the given terminals. */
  ghost predicate WithTerminals(ids: TerminalIds, before: Grammar, done: set<SymbolId>, made: Grammar) {
    && (forall s :: s in before ==> s in made && made[s] == before[s])
    && (forall s :: s in done && IsTerminal(s) ==>
          ScannerOf(ids, s) in made && made[ScannerOf(ids, s)] == TerminalRules(s))
    && (forall t :: t in made && t !in before ==>
          exists s :: s in done && IsTerminal(s) && t == ScannerOf(ids, s))
  }

  function WithTerminal(ids: TerminalIds, made: Grammar, s: SymbolId): Grammar {
    if ScannerOf(ids, s) in made then made else made[ScannerOf(ids, s) := TerminalRules(s)]
  }

  /** Every symbol that was recorded as a token reference has its scanner non-terminal. */
  ghost predicate ReferencesIndexed(symbols: map<SymbolId, nat>, made: Grammar) {
    forall s :: s in symbols && IsReference(s) ==> s.id.AsTokSym() in made
  }

  /** Gives every terminal that is a symbol of the grammar a scanner non-terminal. */
  method IndexTerminals(ids: TerminalIds, db: Database)
    requires db.Valid() && TerminalsApart(ids, db.made, db.symbols.Keys - {Default})
    requires ReferencesIndexed(db.symbols, db.made)
    modifies db
    ensures db.Valid() && db.symbols == old(db.symbols)
    ensures WithTerminals(ids, old(db.made), db.symbols.Keys - {Default}, db.made)
  {
    ghost var before, all := db.made, db.symbols.Keys - {Default};
    var left := db.symbols.Keys - {Default};
    assert all - left == {};
    while left != {}
      invariant db.Valid() && db.symbols == old(db.symbols) && left <= all
      invariant WithTerminals(ids, before, all - left, db.made)
      decreases |left|
    {
      var s :| s in left;
      NextTerminal(ids, before, db.symbols, left, db.made, s);
      IndexTerminal(ids, s, db);
      left := left - {s};
    }
    assert all - left == all;
  }

  lemma {:induction false} NextTerminal(ids: TerminalIds, before: Grammar, symbols: map<SymbolId, nat>, left: set<SymbolId>,
    made: Grammar, s: SymbolId)
    requires ReferencesIndexed(symbols, before) && TerminalsApart(ids, before, symbols.Keys - {Default})
    requires WithTerminals(ids, before, symbols.Keys - {Default} - left, made) && s in left && left <= symbols.Keys - {Default}
    ensures IsReference(s) ==> ScannerOf(ids, s) in made
    ensures WithTerminals(ids, before, symbols.Keys - {Default} - (left - {s}), WithTerminal(ids, made, s))
  {
    var all := symbols.Keys - {Default};
    OneMoreTerminal(ids, before, all, all - left, made, s);
    assert all - (left - {s}) == all - left + {s};
  }

  method IndexTerminal(ids: TerminalIds, s: SymbolId, db: Database)
    requires db.Valid() && (IsReference(s) ==> ScannerOf(ids, s) in db.made)
    modifies db
    ensures db.Valid() && db.symbols == old(db.symbols)
    ensures db.made == WithTerminal(ids, old(db.made), s)
  {
    var t := ScannerOf(ids, s);
    if t !in db.nonterms {
      AddTerminal(t, s, db);
    }
  }

  method AddTerminal(t: SymbolId, s: SymbolId, db: Database)
    requires db.Valid() && t.NonTerminalToken? && t !in db.nonterms && IsTerminal(s)
    modifies db
    ensures db.Valid() && db.symbols == old(db.symbols) && db.made == old(db.made)[t := TerminalRules(s)]
  {
    var rules := TerminalRules(s);
    if s.Token? {
      rules := ConvertSymRefs(rules);
    }
    SpelledTerminal(s);
    db.AddNontermAndRules(t, rules, true, OfTerminal(s), NoState, TerminalRules(s));
  }

  /** A terminal that is no literal has nothing to spell. */
  lemma {:induction false} SpelledTerminal(s: SymbolId)
    ensures !s.Token? ==> SpellRules(TerminalRules(s)) == TerminalRules(s)
  {
    var b := [SymbolRef(s, "", 0)];
    assert Init(b) == [] && SpellBody([]) == [] && TerminalRules(s)[0].symbols == b;
    if !s.Token? {
      assert SpellBody(b) == b;
    }
  }

  lemma {:induction false} OneMoreTerminal(ids: TerminalIds, before: Grammar, all: set<SymbolId>, done: set<SymbolId>,
    made: Grammar, s: SymbolId)
    requires WithTerminals(ids, before, done, made) && TerminalsApart(ids, before, all) && done <= all
    requires s in all && s !in done && (IsReference(s) ==> s.id.AsTokSym() in before)
    ensures WithTerminals(ids, before, done + {s}, WithTerminal(ids, made, s))
  {
    if IsTerminal(s) {
      var made' := made[ScannerOf(ids, s) := TerminalRules(s)];
      forall t | t in made' && t !in before
        ensures exists r :: r in done + {s} && IsTerminal(r) && t == ScannerOf(ids, r)
      {
        if t in made {
          var r :| r in done && IsTerminal(r) && t == ScannerOf(ids, r);
          assert r in done + {s};
        } else {
          assert s in done + {s};
        }
      }
    } else {
      forall t | t in made && t !in before
        ensures exists r :: r in done + {s} && IsTerminal(r) && t == ScannerOf(ids, r)
      {
        var r :| r in done && IsTerminal(r) && t == ScannerOf(ids, r);
        assert r in done + {s};
      }
    }
  }

  /** Every terminal has its scanner non-terminal. */
  ghost predicate TerminalsScanned(ids: TerminalIds, symbols: set<SymbolId>, made: Grammar) {
    forall s :: s in symbols && IsTerminal(s) && s != Default ==>
      ScannerOf(ids, s) in made && made[ScannerOf(ids, s)] == TerminalRules(s)
  }

  lemma {:induction false} TerminalDerives(g: Grammar, s: SymbolId, t: SymbolId, w: Word)
    requires t in g && g[t] == TerminalRules(s) && s !in g
    ensures SymDerives(g, t, w) <==> w == [s]
  {
    var r := TerminalRules(s)[0];
    if h: nat :| SymDerivesIn(g, t, w, h) {
      var used := RuleUsed(g, t, w, h);
      assert used == r;
      SingleIn(g, r.symbols[0], w, h - 1);
    }
    if w == [s] {
      Terminal(g, s, w);
      Single(g, r.symbols[0], w);
      ByRule(g, t, r, w);
    }
  }

  /** The scanner non-terminal of a terminal derives the spelling of the terminal and nothing else. */
  lemma {:induction false} TerminalLanguage(ids: TerminalIds, symbols: set<SymbolId>, made: Grammar, s: SymbolId, v: Word)
    requires ScannerClosed(made) && TerminalsScanned(ids, symbols, made) && s in symbols && IsTerminal(s) && s != Default
    ensures SymDerives(Spelled(made), ScannerOf(ids, s), v) <==> v == SpellWord([s])
  {
    var t := ScannerOf(ids, s);
    SpelledLanguage(made, t, v);
    forall w
      ensures SymDerives(made, t, w) <==> w == [s]
    {
      TerminalDerives(made, s, t, w);
    }
  }

  // ----- conversion -----

  datatype Key = NoKey | SomeKey(index: nat)

  datatype DbSymbol =
    | DbNonTerminal(key: nat)
    | DbNonTerminalToken(nonterm: nat, sym: Key)
    | DbToken(key: nat)
    | Unconverted(id: SymbolId)

  datatype Converted = To(symbol: DbSymbol) | Missing

  /** A lookup that finds nothing ends the program. */
  function ConvertSymbol(s: SymbolId, nonterms: map<SymbolId, nat>, symbols: map<SymbolId, nat>, isScanner: bool): Converted {
    match s
    case NonTerminalToken(id) =>
      var t := if isScanner then id.AsParse().AsTokSym() else s;
      if t !in nonterms then Missing
      else if isScanner then To(DbNonTerminal(nonterms[t]))
      else To(DbNonTerminalToken(nonterms[t], if s in symbols then SomeKey(symbols[s]) else NoKey))
    case NonTerminal(_) => if s in nonterms then To(DbNonTerminal(nonterms[s])) else Missing
    case _ =>
      if isScanner then To(Unconverted(s)) else if s in symbols then To(DbToken(symbols[s])) else Missing
  }

  /** The converted symbol is the symbol's own in a rule of the parser or of a scanner, as the vectors of non-terminals
      and of symbols show: a scanner refers to the rules of a token, a parser to its rules and to its symbol, if it
      has one. */
  ghost predicate IsOwn(d: DbSymbol, s: SymbolId, isScanner: bool, nonterms: seq<SymbolId>, symbols: seq<SymbolId>) {
    match d
    case DbNonTerminal(k) => (s.NonTerminal? || (s.NonTerminalToken? && isScanner)) && k < |nonterms| && nonterms[k] == s
    case DbNonTerminalToken(k, key) =>
      && s.NonTerminalToken? && !isScanner && k < |nonterms| && nonterms[k] == s
      && if s in symbols then key.SomeKey? && key.index < |symbols| && symbols[key.index] == s else key.NoKey?
    case DbToken(k) => IsTerminal(s) && !isScanner && k < |symbols| && symbols[k] == s
    case Unconverted(x) => IsTerminal(s) && isScanner && x == s
  }

  ghost predicate NoneTwice(order: seq<SymbolId>) {
    forall i, j :: 0 <= i < j < |order| ==> order[i] != order[j]
  }

  /** A converted symbol tells its symbol, and a symbol has one converted form. */
  lemma {:induction false} OwnTellsApart(d: DbSymbol, s: SymbolId, d': DbSymbol, s': SymbolId, isScanner: bool,
    nonterms: seq<SymbolId>, symbols: seq<SymbolId>)
    requires NoneTwice(nonterms) && NoneTwice(symbols)
    requires IsOwn(d, s, isScanner, nonterms, symbols) && IsOwn(d', s', isScanner, nonterms, symbols)
    ensures d == d' <==> s == s'
  {
  }

  /** The symbol has everything its conversion looks up. */
  ghost predicate Convertible(s: SymbolId, nonterms: set<SymbolId>, symbols: set<SymbolId>, isScanner: bool) {
    && (s.NonTerminal? ==> s in nonterms)
    && (s.NonTerminalToken? ==> s.id.sub == Scanner && s in nonterms)
    && (IsTerminal(s) && !isScanner ==> s in symbols)
  }

  /** Whatever can be converted is converted into its own. */
  lemma {:induction false} ConversionRoundTrip(s: SymbolId, nonterms: map<SymbolId, nat>, order: seq<SymbolId>,
    symbols: map<SymbolId, nat>, symbolOrder: seq<SymbolId>, isScanner: bool)
    requires Indexes(nonterms, order) && Indexes(symbols, symbolOrder)
    requires Convertible(s, nonterms.Keys, symbols.Keys, isScanner)
    ensures ConvertSymbol(s, nonterms, symbols, isScanner).To?
    ensures IsOwn(ConvertSymbol(s, nonterms, symbols, isScanner).symbol, s, isScanner, order, symbolOrder)
  {
    assert s in symbolOrder ==> s in symbols;
    assert s in symbols ==> symbolOrder[symbols[s]] == s;
    if s.NonTerminalToken? && isScanner {
      assert s.id.AsParse().AsTokSym() == s;
    }
  }

  /** Every symbol of a rule can be converted; the skipped symbols of a scanner rule are left alone. */
  ghost predicate RuleConvertible(r: DbRule, nonterms: set<SymbolId>, symbols: set<SymbolId>) {
    && (forall i :: 0 <= i < |r.rule.symbols| ==> Convertible(r.rule.symbols[i].id, nonterms, symbols, r.isScanner))
    && (!r.isScanner ==> forall s :: s in r.rule.skipped ==> Convertible(s, nonterms, symbols, false))
  }

  ghost predicate AllConvertible(rules: seq<DbRule>, nonterms: set<SymbolId>, symbols: set<SymbolId>) {
    forall r :: 0 <= r < |rules| ==> RuleConvertible(rules[r], nonterms, symbols)
  }

  /** Converts the symbols of a body in order. */
  method ConvertBodySymbols(ids: seq<SymbolId>, isScanner: bool, db: Database) returns (out: seq<DbSymbol>)
    requires db.Valid()
    requires forall i :: 0 <= i < |ids| ==> Convertible(ids[i], db.made.Keys, db.symbols.Keys, isScanner)
    ensures |out| == |ids|
    ensures forall i :: 0 <= i < |ids| ==> IsOwn(out[i], ids[i], isScanner, db.order, db.symbolOrder)
  {
    out := [];
    for k := 0 to |ids|
      invariant |out| == k && forall i :: 0 <= i < k ==> IsOwn(out[i], ids[i], isScanner, db.order, db.symbolOrder)
    {
      ConversionRoundTrip(ids[k], db.nonterms, db.order, db.symbols, db.symbolOrder, isScanner);
      out := out + [ConvertSymbol(ids[k], db.nonterms, db.symbols, isScanner).symbol];
    }
  }

  datatype ConvertedRule = ConvertedRule(symbols: seq<DbSymbol>, skipped: seq<DbSymbol>, nonterm: nat)

  /** The converted rule stands for the rule. */
  ghost predicate StandsFor(c: ConvertedRule, r: DbRule, order: seq<SymbolId>, symbolOrder: seq<SymbolId>) {
    && c.nonterm == r.nonterm && |c.symbols| == |r.rule.symbols|
    && (forall i :: 0 <= i < |c.symbols| ==> IsOwn(c.symbols[i], r.rule.symbols[i].id, r.isScanner, order, symbolOrder))
    && (!r.isScanner ==>
          && |c.skipped| == |r.rule.skipped|
          && forall i :: 0 <= i < |c.skipped| ==> IsOwn(c.skipped[i], r.rule.skipped[i], false, order, symbolOrder))
  }

  method ConvertRule(r: DbRule, db: Database) returns (c: ConvertedRule)
    requires db.Valid() && RuleConvertible(r, db.made.Keys, db.symbols.Keys)
    ensures StandsFor(c, r, db.order, db.symbolOrder)
  {
    var symbols := ConvertBodySymbols(IdsOfBody(r.rule.symbols), r.isScanner, db);
    var skipped := [];
    if !r.isScanner {
      skipped := ConvertBodySymbols(r.rule.skipped, false, db);
    }
    c := ConvertedRule(symbols, skipped, r.nonterm);
  }

  method ConvertRuleSymbolIds(db: Database) returns (out: seq<ConvertedRule>)
    requires db.Valid() && AllConvertible(db.rules, db.made.Keys, db.symbols.Keys)
    ensures |out| == |db.rules|
    ensures forall r :: 0 <= r < |out| ==> StandsFor(out[r], db.rules[r], db.order, db.symbolOrder)
  {
    out := [];
    for k := 0 to |db.rules|
      invariant |out| == k && forall r :: 0 <= r < k ==> StandsFor(out[r], db.rules[r], db.order, db.symbolOrder)
    {
      assert RuleConvertible(db.rules[k], db.made.Keys, db.symbols.Keys);
      var c := ConvertRule(db.rules[k], db);
      out := out + [c];
    }
  }
}
