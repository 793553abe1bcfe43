/** The language of a context-free grammar, and the ways derivations are put together and
    taken apart.  A grammar maps symbols to rules; every symbol without rules stands for
    itself.  All statements about grammar rewrites are statements about this language. */
module Cfg {
  import opened Sequences
  import opened Symbols

  type Word = seq<SymbolId>

  type Grammar = map<SymbolId, seq<Rule>>

  /** `w` derives from `body` with rule applications nested at most `h` deep. */
  ghost predicate DerivesIn(g: Grammar, body: Body, w: Word, h: nat)
    decreases h, |body|, 2
  {
    if body == [] then w == [] else exists k :: 0 <= k <= |w| && SplitsAt(g, body, w, k, h)
  }

  /** The last symbol derives `w` from position `k` on, and the symbols before it derive `w` up to there. */
  ghost predicate SplitsAt(g: Grammar, body: Body, w: Word, k: nat, h: nat)
    requires body != [] && k <= |w|
    decreases h, |body|, 1
  {
    DerivesIn(g, Init(body), w[..k], h) && SymDerivesIn(g, Last(body).id, w[k..], h)
  }

  ghost predicate SymDerivesIn(g: Grammar, s: SymbolId, w: Word, h: nat)
    decreases h, 0, 3
  {
    if s in g then h > 0 && exists r :: r in g[s] && DerivesIn(g, r.symbols, w, h - 1)
    else w == [s]
  }

  ghost predicate Derives(g: Grammar, body: Body, w: Word) {
    exists h: nat :: DerivesIn(g, body, w, h)
  }

  ghost predicate SymDerives(g: Grammar, s: SymbolId, w: Word) {
    exists h: nat :: SymDerivesIn(g, s, w, h)
  }

  /** Some rule of the list derives `w`. */
  ghost predicate RulesDerive(g: Grammar, rules: seq<Rule>, w: Word) {
    exists r :: r in rules && Derives(g, r.symbols, w)
  }

  // ----- height -----

  lemma {:induction false} Taller(g: Grammar, body: Body, w: Word, h: nat, h': nat)
    requires DerivesIn(g, body, w, h) && h <= h'
    ensures DerivesIn(g, body, w, h')
    decreases h, |body|
  {
    if body != [] {
      var k :| 0 <= k <= |w| && SplitsAt(g, body, w, k, h);
      Taller(g, Init(body), w[..k], h, h');
      SymTaller(g, Last(body).id, w[k..], h, h');
      assert SplitsAt(g, body, w, k, h');
    }
  }

  lemma {:induction false} SymTaller(g: Grammar, s: SymbolId, w: Word, h: nat, h': nat)
    requires SymDerivesIn(g, s, w, h) && h <= h'
    ensures SymDerivesIn(g, s, w, h')
    decreases h, 0
  {
    if s in g {
      var r :| r in g[s] && DerivesIn(g, r.symbols, w, h - 1);
      Taller(g, r.symbols, w, h - 1, h' - 1);
    }
  }

  // ----- bodies -----

  lemma {:induction false} Nothing(g: Grammar)
    ensures Derives(g, [], [])
  {
    assert DerivesIn(g, [], [], 0);
  }

  lemma {:induction false} SnocIn(g: Grammar, body: Body, s: SymbolRef, u: Word, v: Word, h: nat)
    requires DerivesIn(g, body, u, h) && SymDerivesIn(g, s.id, v, h)
    ensures DerivesIn(g, body + [s], u + v, h)
  {
    var w := u + v;
    assert Init(body + [s]) == body && w[..|u|] == u && w[|u|..] == v;
    assert SplitsAt(g, body + [s], w, |u|, h);
  }

  lemma {:induction false} UnsnocIn(g: Grammar, body: Body, s: SymbolRef, w: Word, h: nat) returns (u: Word, v: Word)
    requires DerivesIn(g, body + [s], w, h)
    ensures w == u + v && DerivesIn(g, body, u, h) && SymDerivesIn(g, s.id, v, h)
  {
    assert Init(body + [s]) == body;
    var k :| 0 <= k <= |w| && SplitsAt(g, body + [s], w, k, h);
    u, v := w[..k], w[k..];
  }

  lemma {:induction false} Snoc(g: Grammar, body: Body, s: SymbolRef, u: Word, v: Word)
    requires Derives(g, body, u) && SymDerives(g, s.id, v)
    ensures Derives(g, body + [s], u + v)
  {
    var h: nat :| DerivesIn(g, body, u, h);
    var k: nat :| SymDerivesIn(g, s.id, v, k);
    Taller(g, body, u, h, h + k);
    SymTaller(g, s.id, v, k, h + k);
    SnocIn(g, body, s, u, v, h + k);
  }

  lemma {:induction false} Unsnoc(g: Grammar, body: Body, s: SymbolRef, w: Word) returns (u: Word, v: Word)
    requires Derives(g, body + [s], w)
    ensures w == u + v && Derives(g, body, u) && SymDerives(g, s.id, v)
  {
    var h: nat :| DerivesIn(g, body + [s], w, h);
    u, v := UnsnocIn(g, body, s, w, h);
  }

  lemma {:induction false} ConcatIn(g: Grammar, a: Body, b: Body, u: Word, v: Word, h: nat)
    requires DerivesIn(g, a, u, h) && DerivesIn(g, b, v, h)
    ensures DerivesIn(g, a + b, u + v, h)
    decreases |b|
  {
    if b == [] {
      assert a + b == a && u + v == u;
    } else {
      SplitLast(b);
      var v1, v2 := UnsnocIn(g, Init(b), Last(b), v, h);
      ConcatIn(g, a, Init(b), u, v1, h);
      SnocIn(g, a + Init(b), Last(b), u + v1, v2, h);
      Assoc(a, Init(b), [Last(b)]);
      Assoc(u, v1, v2);
    }
  }

  lemma {:induction false} Concat(g: Grammar, a: Body, b: Body, u: Word, v: Word)
    requires Derives(g, a, u) && Derives(g, b, v)
    ensures Derives(g, a + b, u + v)
  {
    var h: nat :| DerivesIn(g, a, u, h);
    var k: nat :| DerivesIn(g, b, v, k);
    Taller(g, a, u, h, h + k);
    Taller(g, b, v, k, h + k);
    ConcatIn(g, a, b, u, v, h + k);
  }

  lemma {:induction false} SplitIn(g: Grammar, a: Body, b: Body, w: Word, h: nat) returns (u: Word, v: Word)
    requires DerivesIn(g, a + b, w, h)
    ensures w == u + v && DerivesIn(g, a, u, h) && DerivesIn(g, b, v, h)
    decreases |b|
  {
    if b == [] {
      assert a + b == a;
      u, v := w, [];
    } else {
      SplitLast(b);
      Assoc(a, Init(b), [Last(b)]);
      var w1, w2 := UnsnocIn(g, a + Init(b), Last(b), w, h);
      var v1;
      u, v1 := SplitIn(g, a, Init(b), w1, h);
      SnocIn(g, Init(b), Last(b), v1, w2, h);
      v := v1 + w2;
      Assoc(u, v1, w2);
    }
  }

  lemma {:induction false} Split(g: Grammar, a: Body, b: Body, w: Word) returns (u: Word, v: Word)
    requires Derives(g, a + b, w)
    ensures w == u + v && Derives(g, a, u) && Derives(g, b, v)
  {
    var h: nat :| DerivesIn(g, a + b, w, h);
    u, v := SplitIn(g, a, b, w, h);
  }

  /** A one-symbol body derives what its symbol derives. */
  lemma {:induction false} SingleIn(g: Grammar, s: SymbolRef, w: Word, h: nat)
    ensures DerivesIn(g, [s], w, h) <==> SymDerivesIn(g, s.id, w, h)
  {
    if DerivesIn(g, [s], w, h) {
      assert [] + [s] == [s];
      var u, v := UnsnocIn(g, [], s, w, h);
      assert u + v == v;
    }
    if SymDerivesIn(g, s.id, w, h) {
      SnocIn(g, [], s, [], w, h);
      assert [] + [s] == [s] && [] + w == w;
    }
  }

  lemma {:induction false} Single(g: Grammar, s: SymbolRef, w: Word)
    ensures Derives(g, [s], w) <==> SymDerives(g, s.id, w)
  {
    if h: nat :| DerivesIn(g, [s], w, h) {
      SingleIn(g, s, w, h);
    }
    if h: nat :| SymDerivesIn(g, s.id, w, h) {
      SingleIn(g, s, w, h);
    }
  }

  // ----- rules -----

  /** A symbol with rules derives exactly what its rules derive. */
  lemma {:induction false} ByRules(g: Grammar, s: SymbolId, w: Word)
    requires s in g
    ensures SymDerives(g, s, w) <==> RulesDerive(g, g[s], w)
  {
    if h: nat :| SymDerivesIn(g, s, w, h) {
      var r :| r in g[s] && DerivesIn(g, r.symbols, w, h - 1);
    }
    if r :| r in g[s] && Derives(g, r.symbols, w) {
      var h: nat :| DerivesIn(g, r.symbols, w, h);
      assert SymDerivesIn(g, s, w, h + 1);
    }
  }

  /** The rule at the root of a derivation. */
  lemma {:induction false} RuleUsed(g: Grammar, s: SymbolId, w: Word, h: nat) returns (r: Rule)
    requires s in g && SymDerivesIn(g, s, w, h)
    ensures h > 0 && r in g[s] && DerivesIn(g, r.symbols, w, h - 1)
  {
    r :| r in g[s] && DerivesIn(g, r.symbols, w, h - 1);
  }

  lemma {:induction false} HeadSplitIn(g: Grammar, b: Body, w: Word, h: nat) returns (u: Word, v: Word)
    requires b != [] && DerivesIn(g, b, w, h)
    ensures w == u + v && SymDerivesIn(g, b[0].id, u, h) && DerivesIn(g, b[1..], v, h)
  {
    SplitFirst(b);
    u, v := SplitIn(g, [b[0]], b[1..], w, h);
    SingleIn(g, b[0], u, h);
  }

  lemma {:induction false} ByRule(g: Grammar, s: SymbolId, r: Rule, w: Word)
    requires s in g && r in g[s] && Derives(g, r.symbols, w)
    ensures SymDerives(g, s, w)
  {
    ByRules(g, s, w);
  }

  /** A symbol without rules derives itself only. */
  lemma {:induction false} Terminal(g: Grammar, s: SymbolId, w: Word)
    requires s !in g
    ensures SymDerives(g, s, w) <==> w == [s]
  {
    if w == [s] {
      assert SymDerivesIn(g, s, w, 0);
    }
  }

  // ----- bodies that differ in annotations and positions only -----

  ghost predicate SameIds(a: Body, b: Body) {
    |a| == |b| && forall i :: 0 <= i < |a| ==> a[i].id == b[i].id
  }

  lemma {:induction false} SameIdsIn(g: Grammar, a: Body, b: Body, w: Word, h: nat)
    requires SameIds(a, b) && DerivesIn(g, a, w, h)
    ensures DerivesIn(g, b, w, h)
    decreases |a|
  {
    if a != [] {
      var k :| 0 <= k <= |w| && SplitsAt(g, a, w, k, h);
      SameIdsIn(g, Init(a), Init(b), w[..k], h);
      assert SplitsAt(g, b, w, k, h);
    }
  }

  lemma {:induction false} SameIdsDerive(g: Grammar, a: Body, b: Body, w: Word)
    requires SameIds(a, b)
    ensures Derives(g, a, w) <==> Derives(g, b, w)
  {
    if h: nat :| DerivesIn(g, a, w, h) {
      SameIdsIn(g, a, b, w, h);
    }
    if h: nat :| DerivesIn(g, b, w, h) {
      SameIdsIn(g, b, a, w, h);
    }
  }
}
