/** Renaming the non-terminals of a grammar does not change what they derive. */
module Renaming {
  import opened Sequences
  import opened Symbols
  import opened Cfg

  type Naming = SymbolId -> SymbolId

  function RenameRef(f: Naming, s: SymbolRef): SymbolRef { s.(id := f(s.id)) }

  function RenameBody(f: Naming, b: Body): (r: Body)
    ensures |r| == |b| && forall i :: 0 <= i < |b| ==> r[i] == RenameRef(f, b[i])
  {
    seq(|b|, i requires 0 <= i < |b| => RenameRef(f, b[i]))
  }

  function RenameRule(f: Naming, r: Rule): Rule { r.(symbols := RenameBody(f, r.symbols)) }

  function RenameRules(f: Naming, rules: seq<Rule>): (t: seq<Rule>)
    ensures |t| == |rules| && forall i :: 0 <= i < |t| ==> t[i] == RenameRule(f, rules[i])
  {
    seq(|rules|, i requires 0 <= i < |rules| => RenameRule(f, rules[i]))
  }

  /** A symbol with rules, or one that stands for itself before and after. */
  ghost predicate Stable(g: Grammar, rg: Grammar, f: Naming, s: SymbolId) {
    s in g || (f(s) == s && s !in rg)
  }

  ghost predicate StableBody(g: Grammar, rg: Grammar, f: Naming, b: Body) {
    forall i :: 0 <= i < |b| ==> Stable(g, rg, f, b[i].id)
  }

  ghost predicate IsRenaming(g: Grammar, rg: Grammar, f: Naming) {
    && (forall s :: s in g ==> f(s) in rg && rg[f(s)] == RenameRules(f, g[s]))
    && (forall s, r :: s in g && r in g[s] ==> StableBody(g, rg, f, r.symbols))
  }

  lemma {:induction false} RenameSnoc(f: Naming, b: Body)
    requires b != []
    ensures Init(RenameBody(f, b)) == RenameBody(f, Init(b)) && Last(RenameBody(f, b)) == RenameRef(f, Last(b))
  {
  }

  lemma {:induction false} RenamedBody(g: Grammar, rg: Grammar, f: Naming, b: Body, w: Word, h: nat)
    requires IsRenaming(g, rg, f) && StableBody(g, rg, f, b)
    ensures DerivesIn(g, b, w, h) <==> DerivesIn(rg, RenameBody(f, b), w, h)
    decreases h, 1, |b|
  {
    if b != [] {
      RenameSnoc(f, b);
      assert Last(b) == b[|b| - 1];
      forall k | 0 <= k <= |w|
        ensures SplitsAt(g, b, w, k, h) <==> SplitsAt(rg, RenameBody(f, b), w, k, h)
      {
        RenamedBody(g, rg, f, Init(b), w[..k], h);
        RenamedSymbol(g, rg, f, Last(b).id, w[k..], h);
      }
    }
  }

  lemma {:induction false} RenamedSymbol(g: Grammar, rg: Grammar, f: Naming, s: SymbolId, w: Word, h: nat)
    requires IsRenaming(g, rg, f) && Stable(g, rg, f, s)
    ensures SymDerivesIn(g, s, w, h) <==> SymDerivesIn(rg, f(s), w, h)
    decreases h, 0, 0
  {
    if s in g && h > 0 {
      var rules := RenameRules(f, g[s]);
      assert rg[f(s)] == rules;
      forall i | 0 <= i < |rules|
        ensures DerivesIn(g, g[s][i].symbols, w, h - 1) <==> DerivesIn(rg, rules[i].symbols, w, h - 1)
      {
        assert g[s][i] in g[s];
        RenamedBody(g, rg, f, g[s][i].symbols, w, h - 1);
      }
    }
  }

  lemma {:induction false} RenamingSameLanguage(g: Grammar, rg: Grammar, f: Naming, s: SymbolId, w: Word)
    requires IsRenaming(g, rg, f) && Stable(g, rg, f, s)
    ensures SymDerives(g, s, w) <==> SymDerives(rg, f(s), w)
  {
    if h: nat :| SymDerivesIn(g, s, w, h) {
      RenamedSymbol(g, rg, f, s, w, h);
    }
    if h: nat :| SymDerivesIn(rg, f(s), w, h) {
      RenamedSymbol(g, rg, f, s, w, h);
    }
  }
}
