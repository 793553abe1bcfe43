/** A grammar whose scanner rules stay left recursive, built by a whole run of the worklists: `S > tk:B`,
    `B > tk:A "z"`, `A > A "x" | "y"`.  The reference in `B` queues `A` in scanner form, and in that form the
    test for left recursion does not see that the first rule of `A` begins with `A`
    (crates/radlr-core/grammar/build_database.rs:205-304, 764-794). */
module ScannerFormRuns {
  import opened Sequences
  import opened Symbols
  import opened Cfg
  import opened Inline
  import opened Numbering
  import opened LeftRecursion
  import opened Spelling
  import opened Tables
  import opened ParserWorklist
  import opened ParserClosure
  import opened TokenWorklist
  import opened TokenClosure
  import opened BuildDatabase

  // ----- non-terminals without groups and lists -----

  function BodyOf(ids: seq<SymbolId>): (b: Body)
    ensures |b| == |ids| && forall i :: 0 <= i < |b| ==> b[i] == SymbolRef(ids[i], "", i)
  {
    seq(|ids|, i requires 0 <= i < |ids| => SymbolRef(ids[i], "", i))
  }

  function RulesFor(bodies: seq<seq<SymbolId>>): (rules: seq<Rule>)
    ensures |rules| == |bodies| && forall i :: 0 <= i < |rules| ==> rules[i] == Rule(BodyOf(bodies[i]), [], NoAst)
  {
    seq(|bodies|, i requires 0 <= i < |bodies| => Rule(BodyOf(bodies[i]), [], NoAst))
  }

  ghost predicate Mentions(bodies: seq<seq<SymbolId>>, s: SymbolId) {
    exists b :: b in bodies && s in b
  }

  function FlatNonTerm(p: nat, bodies: seq<seq<SymbolId>>): NonTerm {
    NonTerm(Standard(p, Parser), RulesFor(bodies), [], set b, s | b in bodies && s in b && IsTerminal(s) :: s)
  }

  lemma {:induction false} FlatMentions(p: nat, bodies: seq<seq<SymbolId>>, s: SymbolId)
    ensures s in Mentioned(FlatNonTerm(p, bodies)) <==> Mentions(bodies, s)
  {
    var n := FlatNonTerm(p, bodies);
    NoneMentioned(n.subs);
    if s in Mentioned(n) {
      var r := FromSymbols(n.rules, s);
      var k :| 0 <= k < |bodies| && n.rules[k] == r;
      var i :| 0 <= i < |r.symbols| && r.symbols[i].id == s;
      assert s == bodies[k][i] && bodies[k] in bodies;
    }
    if b :| b in bodies && s in b {
      var k :| 0 <= k < |bodies| && bodies[k] == b;
      var i :| 0 <= i < |b| && b[i] == s;
      assert n.rules[k] in n.rules && n.rules[k].symbols[i].id == s;
      InSymbols(n.rules, n.rules[k]);
    }
  }

  lemma {:induction false} FlatGood(p: nat, bodies: seq<seq<SymbolId>>)
    requires forall s :: Mentions(bodies, s) ==> InItsForm(s) && !IsSubSymbol(s)
    ensures GoodNonterm(Standard(p, Parser), FlatNonTerm(p, bodies))
  {
    var n := FlatNonTerm(p, bodies);
    forall s
      ensures s in Mentioned(n) <==> Mentions(bodies, s)
    {
      FlatMentions(p, bodies, s);
    }
    forall r | r in n.rules
      ensures RefersBelow(p, r.symbols, 0) && r.skipped == []
    {
      var k :| 0 <= k < |bodies| && n.rules[k] == r;
      forall i | 0 <= i < |r.symbols|
        ensures !IsSubSymbol(r.symbols[i].id)
      {
        assert bodies[k] in bodies && r.symbols[i].id in bodies[k];
      }
    }
  }

  lemma {:induction false} NothingToExpand(b: Body)
    ensures Expand(map[], b, true) == [b]
  {
    if b != [] {
      NothingToExpand(Init(b));
      SplitLast(b);
      assert AppendToAll([Init(b)], Last(b)) == [Init(b) + [Last(b)]];
    }
  }

  /** The scanner rules of such a non-terminal are made from its own rules. */
  lemma {:induction false} FlatSource(env: Env, q: NonTermId, p: nat, bodies: seq<seq<SymbolId>>, m: Rule)
    requires WellFormed(env) && Sourced(env, q) && Owner(q) == Standard(p, Parser)
    requires env.nonterminals[Owner(q)] == FlatNonTerm(p, bodies)
    ensures q.Standard? && (m in TokenSource(env, q) <==> m in RulesFor(bodies))
  {
    var rules := RulesFor(bodies);
    assert InlineCandidates([]) == map[];
    if m in TokenSource(env, q) {
      var r := FromExpandAll(map[], rules, m);
      NothingToExpand(r.symbols);
    }
    if m in rules {
      NothingToExpand(m.symbols);
      InExpandAll(map[], rules, m, m.symbols);
      assert m.(symbols := m.symbols) == m;
    }
  }

  // ----- the grammar -----

  const S := Standard(0, Parser)
  const B := Standard(1, Parser)
  const A := Standard(2, Parser)
  const A_TOKEN := Standard(2, Scanner)

  const S_BODIES := [[B.AsTokSym()]]
  const B_BODIES := [[A.AsTokSym(), Token("z")]]
  const A_BODIES := [[A.AsSym(), Token("x")], [Token("y")]]

  function Grammar3(): Env {
    Env(map[S := FlatNonTerm(0, S_BODIES), B := FlatNonTerm(1, B_BODIES), A := FlatNonTerm(2, A_BODIES)], map[], true)
  }

  lemma {:induction false} Grammar3WellFormed()
    ensures WellFormed(Grammar3())
  {
    FlatGood(0, S_BODIES);
    FlatGood(1, B_BODIES);
    FlatGood(2, A_BODIES);
  }

  // ----- what is reached -----

  lemma {:induction false} OnlyS(path: seq<NonTermId>)
    requires Path(Grammar3(), [S], path)
    ensures Last(path) == S
  {
    var s := NonTerminal(Last(path));
    FlatMentions(0, S_BODIES, s);
    assert !Mentions(S_BODIES, s);
    if |path| > 1 {
      OnlyS(Init(path));
      assert false;
    }
  }

  lemma {:induction false} OnlyTokenB(q: NonTermId)
    requires Referenced(Grammar3(), [S], q)
    ensures q == B
  {
    var a :| Reachable(Grammar3(), [S], a) && MentionsToken(Grammar3(), a, q);
    var path :| Path(Grammar3(), [S], path) && Last(path) == a;
    OnlyS(path);
    var s :| s in Mentioned(Grammar3().nonterminals[S]) && s.NonTerminalToken? && s.id.AsParse() == q;
    FlatMentions(0, S_BODIES, s);
  }

  /** `B` refers to `A` in scanner form, and `A`, in either form, to `A` in parser form. */
  lemma {:induction false} TokenEdges(a: NonTermId, b: NonTermId)
    requires WellFormed(Grammar3()) && TokenEdge(Grammar3(), a, b) && a in {B, A, A_TOKEN}
    ensures b == if a == B then A_TOKEN else A
  {
    var m :| m in TokenSource(Grammar3(), a) && RefersTo(m, b);
    var bodies := if a == B then B_BODIES else A_BODIES;
    FlatSource(Grammar3(), a, a.id, bodies, m);
    var k :| 0 <= k < |bodies| && RulesFor(bodies)[k] == m;
    var i :| 0 <= i < |m.symbols| && IsReference(m.symbols[i].id) && m.symbols[i].id.id == b;
    assert bodies[k][i] == m.symbols[i].id;
  }

  /** The parser form of `A` is reached only behind its scanner form. */
  lemma {:induction false} ScannerFormFirst(path: seq<NonTermId>)
    requires WellFormed(Grammar3()) && TokenPath(Grammar3(), [S], path)
    ensures Last(path) in {B, A, A_TOKEN}
    ensures Last(path) == A ==> !Arrives(path)
  {
    if |path| == 1 {
      OnlyTokenB(path[0]);
    } else {
      var before := Init(path);
      ScannerFormFirst(before);
      TokenEdges(Last(before), Last(path));
      if Last(path) == A {
        assert path[|path| - 2] == Last(before) && Last(before).AsTokSym() == A.AsTokSym();
      }
    }
  }

  lemma {:induction false} TokenReachesB()
    ensures Referenced(Grammar3(), [S], B)
  {
    var e := Grammar3();
    RootReachable(e, [S], S);
    FlatMentions(0, S_BODIES, B.AsTokSym());
    assert S_BODIES[0] in S_BODIES && B.AsTokSym() in S_BODIES[0];
    assert MentionsToken(e, S, B);
  }

  lemma {:induction false} BRefersToA()
    requires WellFormed(Grammar3())
    ensures TokenEdge(Grammar3(), B, A_TOKEN)
  {
    var m := RulesFor(B_BODIES)[0];
    assert m in RulesFor(B_BODIES) && m.symbols[0].id == A.AsTokSym();
    FlatSource(Grammar3(), B, 1, B_BODIES, m);
    assert RefersTo(m, A_TOKEN);
  }

  lemma {:induction false} TokenReachesA()
    requires WellFormed(Grammar3())
    ensures TokenReached(Grammar3(), [S], A_TOKEN)
  {
    var e := Grammar3();
    TokenReachesB();
    BRefersToA();
    assert TokenPath(e, [S], [B]);
    var path := [B, A_TOKEN];
    assert Init(path) == [B] && TokenPath(e, [S], path) && Last(path) == A_TOKEN;
  }

  /** The grammar is one that the worklists accept. */
  lemma {:induction false} NotDefective()
    requires WellFormed(Grammar3())
    ensures !Defective(Grammar3(), [S])
  {
    var e := Grammar3();
    forall a | Reachable(e, [S], a)
      ensures !Dangling(e, a) && Proper(e, a)
    {
      var path :| Path(e, [S], path) && Last(path) == a;
      OnlyS(path);
      forall s | s in Mentioned(e.nonterminals[S])
        ensures s == B.AsTokSym()
      {
        FlatMentions(0, S_BODIES, s);
      }
    }
    forall q | TokenReached(e, [S], q)
      ensures Owner(q) in e.nonterminals && !EmptySource(e, q) && !OnlyRecursive(e, q)
    {
      var path :| TokenPath(e, [S], path) && Last(path) == q;
      ScannerFormFirst(path);
      SourceUsable(q);
    }
  }

  lemma {:induction false} SourceUsable(q: NonTermId)
    requires WellFormed(Grammar3()) && q in {B, A, A_TOKEN}
    ensures !EmptySource(Grammar3(), q) && !OnlyRecursive(Grammar3(), q)
  {
    var bodies := if q == B then B_BODIES else A_BODIES;
    forall m | m in TokenSource(Grammar3(), q)
      ensures m.symbols != []
    {
      FlatSource(Grammar3(), q, q.id, bodies, m);
      var k :| 0 <= k < |bodies| && RulesFor(bodies)[k] == m;
    }
    var last := RulesFor(bodies)[|bodies| - 1];
    FlatSource(Grammar3(), q, q.id, bodies, last);
    assert last in TokenSource(Grammar3(), q) && last.symbols[0].id != NonTerminal(q);
  }

  // ----- the run -----

  /** However the worklists run, the scanner rules of `A` begin with `A` in the end. */
  lemma {:induction false} StaysLeftRecursive(before: Grammar, tokens: seq<NonTermId>, symbols: map<SymbolId, nat>,
    made: Grammar, mk: Makers)
    requires WellFormed(Grammar3()) && BothDone(Grammar3(), [S], before, tokens, symbols, made, mk)
    ensures A.AsTokSym() in made && StartsWith(made[A.AsTokSym()], A.AsTokSym())
  {
    var e, t := Grammar3(), A.AsTokSym();
    TokenReachesA();
    DoneIsCleanToken(e, [S], before, tokens, symbols, made, mk, A_TOKEN);
    assert A_TOKEN.AsTokSym() == t;
    forall path | TokenPath(e, [S], path) && Arrives(path)
      ensures Last(path) != A
    {
      ScannerFormFirst(path);
    }
    MakerForm(e, [S], before, tokens, made, mk, A);
    TableLeftRecursive(e, before, tokens, made, mk, t);
    MakerIsA(before, tokens, made, mk);
    var q, m := mk[t].0, RulesFor(A_BODIES)[0];
    assert m in RulesFor(A_BODIES);
    FlatSource(e, q, 2, A_BODIES, m);
    assert m.symbols[0].id == A.AsSym() && Unrecognised(q, TokenSource(e, q));
  }

  lemma {:induction false} MakerIsA(before: Grammar, tokens: seq<NonTermId>, made: Grammar, mk: Makers)
    requires WellFormed(Grammar3()) && TokenInv(Grammar3(), before, tokens, made, mk, [], 0) && A.AsTokSym() in mk
    ensures mk[A.AsTokSym()].0.AsTokSym() == A.AsTokSym() && Owner(mk[A.AsTokSym()].0) == A
    ensures Sourced(Grammar3(), mk[A.AsTokSym()].0)
  {
    assert TokenMade(Grammar3(), made, mk, A.AsTokSym());
  }

  /** Spelling literals leaves a rule that begins with a reference to begin with it. */
  lemma {:induction false} StillStarts(made: Grammar, t: SymbolId)
    requires t in made && t.NonTerminalToken? && StartsWith(made[t], t)
    ensures StartsWith(Spelled(made)[t], t)
  {
    var r :| r in made[t] && r.symbols != [] && r.symbols[0].id == t;
    var i :| 0 <= i < |made[t]| && made[t][i] == r;
    SpelledHead(r.symbols);
    assert SpellRules(made[t])[i] in SpellRules(made[t]);
  }

  /** The run succeeds, and leaves the left recursion behind in the rules that the tables hold. */
  method ScannerFormRun() returns (db: Database)
    ensures db.Valid() && A.AsTokSym() in db.made && StartsWith(Spelled(db.made)[A.AsTokSym()], A.AsTokSym())
  {
    Grammar3WellFormed();
    NotDefective();
    db := new Database(map[]);
    var ok;
    ghost var before, tokens, symbols, mk;
    ok, before, tokens, symbols, mk := IndexBoth(Grammar3(), [S], db);
    StaysLeftRecursive(before, tokens, symbols, db.made, mk);
    StillStarts(db.made, A.AsTokSym());
  }
}
