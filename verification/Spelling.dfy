/** In scanner rules a literal is spelled out as one symbol for each of its characters
    (crates/radlr-core/grammar/build_database.rs:724-762). */
module Spelling {
  import opened Sequences
  import opened Symbols
  import opened Cfg

  const NO_POSITION := 99999

  function CharSymbol(c: char): SymbolId {
    if c as int < 128 then Char(c as int) else Codepoint(c as int)
  }

  /** The number of the character that a scanner symbol stands for. */
  function CharRead(s: SymbolId): int {
    match s
    case Char(c) => c
    case Codepoint(c) => c
    case _ => -1
  }

  /** What the symbols are read as. */
  function WordRead(w: Word): (r: seq<int>)
    ensures |r| == |w| && forall i :: 0 <= i < |w| ==> r[i] == CharRead(w[i])
  {
    seq(|w|, i requires 0 <= i < |w| => CharRead(w[i]))
  }

  /** The characters of a literal; the last one keeps the position of the literal. */
  function SpellRef(s: SymbolRef): (b: Body)
    ensures s.id.Token? ==> |b| == |s.id.val| && forall i :: 0 <= i < |b| ==>
              b[i] == s.(id := CharSymbol(s.id.val[i]), originalIndex := if i == |b| - 1 then s.originalIndex else NO_POSITION)
    ensures !s.id.Token? ==> b == [s]
  {
    if s.id.Token? then
      var val := s.id.val;
      seq(|val|, i requires 0 <= i < |val| =>
        s.(id := CharSymbol(val[i]), originalIndex := if i == |val| - 1 then s.originalIndex else NO_POSITION))
    else [s]
  }

  function SpellBody(b: Body): Body {
    if b == [] then [] else SpellBody(Init(b)) + SpellRef(Last(b))
  }

  function SpellRules(rules: seq<Rule>): (r: seq<Rule>)
    ensures |r| == |rules| && forall i :: 0 <= i < |r| ==> r[i] == rules[i].(symbols := SpellBody(rules[i].symbols))
  {
    seq(|rules|, i requires 0 <= i < |rules| => rules[i].(symbols := SpellBody(rules[i].symbols)))
  }

  /** What one symbol of a word looks like to the scanner. */
  function SpellSym(s: SymbolId): (w: Word)
    ensures s.Token? ==> |w| == |s.val| && forall i :: 0 <= i < |w| ==> w[i] == CharSymbol(s.val[i])
    ensures !s.Token? ==> w == [s]
  {
    if s.Token? then seq(|s.val|, i requires 0 <= i < |s.val| => CharSymbol(s.val[i])) else [s]
  }

  function SpellWord(w: Word): Word {
    if w == [] then [] else SpellWord(Init(w)) + SpellSym(Last(w))
  }

  /** A spelled literal is read as the literal, character by character, a character symbol standing for each of its
      ASCII characters and a code point symbol for each other. */
  lemma {:induction false} SpellingReads(val: string)
    ensures var w := SpellSym(Token(val));
            && |WordRead(w)| == |val| && (forall i :: 0 <= i < |val| ==> WordRead(w)[i] == val[i] as int)
            && forall i :: 0 <= i < |val| ==> if val[i] as int <= 0x7F then w[i].Char? else w[i].Codepoint?
  {
  }

  /** Different literals are spelled differently. */
  lemma {:induction false} SpellingTellsApart(a: string, b: string)
    requires SpellSym(Token(a)) == SpellSym(Token(b))
    ensures a == b
  {
    SpellingReads(a);
    SpellingReads(b);
    assert forall i :: 0 <= i < |a| ==> a[i] as int == b[i] as int;
  }

  // ----- the rules of a grammar, spelled where they are scanner rules -----

  function SpelledFor(s: SymbolId, rules: seq<Rule>): seq<Rule> {
    if s.NonTerminalToken? then SpellRules(rules) else rules
  }

  function Spelled(g: Grammar): Grammar {
    map s | s in g :: SpelledFor(s, g[s])
  }

  lemma {:induction false} SpelledNext(g: Grammar, s: SymbolId, rules: seq<Rule>)
    ensures Spelled(g[s := rules]) == Spelled(g)[s := SpelledFor(s, rules)]
  {
  }

  /** A spelled body holds the symbols of the body that are no literals, and characters. */
  lemma {:induction false} SpelledSymbols(b: Body, i: nat)
    requires i < |SpellBody(b)|
    ensures var x := SpellBody(b)[i].id; x.Char? || x.Codepoint? || exists j :: 0 <= j < |b| && b[j].id == x
    decreases |b|
  {
    var init := Init(b);
    if i < |SpellBody(init)| {
      SpelledSymbols(init, i);
      var x := SpellBody(init)[i].id;
      if j :| 0 <= j < |init| && init[j].id == x {
        assert b[j].id == x;
      }
    } else {
      assert SpellBody(b)[i] == SpellRef(Last(b))[i - |SpellBody(init)|];
    }
  }

  /** A body that begins with a reference still does. */
  lemma {:induction false} SpelledHead(b: Body)
    requires b != [] && !b[0].id.Token?
    ensures SpellBody(b) != [] && SpellBody(b)[0] == b[0]
  {
    if |b| > 1 {
      SpelledHead(Init(b));
    } else {
      assert Init(b) == [];
    }
  }

  // ----- the language -----

  /** The scanner rules refer to scanner rules only, and only references have rules. */
  ghost predicate ScannerClosed(g: Grammar) {
    && (forall s :: s in g ==> IsReference(s))
    && (forall s, r: Rule, i :: s in g && s.NonTerminalToken? && r in g[s] && 0 <= i < |r.symbols| ==>
          ScannerSymbol(g, r.symbols[i].id))
  }

  ghost predicate ScannerSymbol(g: Grammar, x: SymbolId) {
    IsReference(x) ==> x.NonTerminalToken? && x in g
  }

  ghost predicate ScannerBody(g: Grammar, b: Body) {
    forall i :: 0 <= i < |b| ==> ScannerSymbol(g, b[i].id)
  }

  lemma {:induction false} SpellConcat(a: Word, b: Word)
    ensures SpellWord(a + b) == SpellWord(a) + SpellWord(b)
    decreases |b|
  {
    if b == [] {
      assert a + b == a;
    } else {
      assert Init(a + b) == a + Init(b) && Last(a + b) == Last(b);
      SpellConcat(a, Init(b));
      Assoc(SpellWord(a), SpellWord(Init(b)), SpellSym(Last(b)));
    }
  }

  lemma {:induction false} SpellOne(s: SymbolId)
    ensures SpellWord([s]) == SpellSym(s)
  {
    assert Init([s]) == [] && SpellWord([]) == [];
  }

  /** Characters derive themselves, one after the other. */
  lemma {:induction false} CharsDerive(g: Grammar, s: SymbolRef, k: nat, w: Word)
    requires (forall x :: x in g ==> IsReference(x)) && s.id.Token? && k <= |s.id.val|
    ensures Derives(g, SpellRef(s)[..k], w) <==> w == SpellSym(s.id)[..k]
    decreases k
  {
    var b, v := SpellRef(s), SpellSym(s.id);
    if k == 0 {
      Nothing(g);
      if h: nat :| DerivesIn(g, b[..0], w, h) {
        assert w == [];
      }
    } else {
      var n := k - 1;
      TakeOneMore(b, n);
      TakeOneMore(v, n);
      Terminal(g, b[n].id, [v[n]]);
      CharsDerive(g, s, n, v[..n]);
      Snoc(g, b[..n], b[n], v[..n], [v[n]]);
      if Derives(g, b[..k], w) {
        var x, y := Unsnoc(g, b[..n], b[n], w);
        CharsDerive(g, s, n, x);
        Terminal(g, b[n].id, y);
      }
    }
  }

  lemma {:induction false} LiteralDerives(g: Grammar, s: SymbolRef, w: Word)
    requires (forall x :: x in g ==> IsReference(x)) && s.id.Token?
    ensures Derives(g, SpellRef(s), w) <==> w == SpellSym(s.id)
  {
    var n := |s.id.val|;
    assert SpellRef(s)[..n] == SpellRef(s) && SpellSym(s.id)[..n] == SpellSym(s.id);
    CharsDerive(g, s, n, w);
  }

  lemma {:induction false} BodySpelled(g: Grammar, b: Body, w: Word, h: nat)
    requires ScannerClosed(g) && ScannerBody(g, b) && DerivesIn(g, b, w, h)
    ensures Derives(Spelled(g), SpellBody(b), SpellWord(w))
    decreases h, 1, |b|
  {
    var sg := Spelled(g);
    if b == [] {
      Nothing(sg);
    } else {
      SplitLast(b);
      var u, v := UnsnocIn(g, Init(b), Last(b), w, h);
      BodySpelled(g, Init(b), u, h);
      SpellConcat(u, v);
      assert Last(b) == b[|b| - 1];
      RefSpelled(g, Last(b), v, h);
      Concat(sg, SpellBody(Init(b)), SpellRef(Last(b)), SpellWord(u), SpellWord(v));
    }
  }

  lemma {:induction false} RefSpelled(g: Grammar, s: SymbolRef, v: Word, h: nat)
    requires ScannerClosed(g) && ScannerSymbol(g, s.id) && SymDerivesIn(g, s.id, v, h)
    ensures Derives(Spelled(g), SpellRef(s), SpellWord(v))
    decreases h, 0, 1
  {
    var sg := Spelled(g);
    if IsReference(s.id) {
      SymSpelled(g, s.id, v, h);
      Single(sg, s, SpellWord(v));
    } else {
      SpellOne(s.id);
      if s.id.Token? {
        LiteralDerives(sg, s, SpellWord(v));
      } else {
        Terminal(sg, s.id, SpellWord(v));
        Single(sg, s, SpellWord(v));
      }
    }
  }

  lemma {:induction false} SymSpelled(g: Grammar, t: SymbolId, w: Word, h: nat)
    requires ScannerClosed(g) && t in g && t.NonTerminalToken? && SymDerivesIn(g, t, w, h)
    ensures SymDerives(Spelled(g), t, SpellWord(w))
    decreases h, 0, 0
  {
    var r := RuleUsed(g, t, w, h);
    BodySpelled(g, r.symbols, w, h - 1);
    var i :| 0 <= i < |g[t]| && g[t][i] == r;
    var m := SpellRules(g[t])[i];
    ByRule(Spelled(g), t, m, SpellWord(w));
  }

  lemma {:induction false} SpelledFrom(rules: seq<Rule>, m: Rule) returns (r: Rule)
    requires m in SpellRules(rules)
    ensures r in rules && m == r.(symbols := SpellBody(r.symbols))
  {
    var i :| 0 <= i < |rules| && SpellRules(rules)[i] == m;
    r := rules[i];
  }

  lemma {:induction false} BodyRead(g: Grammar, b: Body, v: Word, h: nat) returns (w: Word)
    requires ScannerClosed(g) && ScannerBody(g, b) && DerivesIn(Spelled(g), SpellBody(b), v, h)
    ensures v == SpellWord(w) && Derives(g, b, w)
    decreases h, 1, |b|
  {
    if b == [] {
      Nothing(g);
      w := [];
    } else {
      var x, y := SplitIn(Spelled(g), SpellBody(Init(b)), SpellRef(Last(b)), v, h);
      var p := BodyRead(g, Init(b), x, h);
      assert Last(b) == b[|b| - 1];
      var q := RefRead(g, Last(b), y, h);
      Snoc(g, Init(b), Last(b), p, q);
      SplitLast(b);
      SpellConcat(p, q);
      w := p + q;
    }
  }

  lemma {:induction false} RefRead(g: Grammar, s: SymbolRef, v: Word, h: nat) returns (w: Word)
    requires ScannerClosed(g) && ScannerSymbol(g, s.id) && DerivesIn(Spelled(g), SpellRef(s), v, h)
    ensures v == SpellWord(w) && SymDerives(g, s.id, w)
    decreases h, 0, 1
  {
    if IsReference(s.id) {
      SingleIn(Spelled(g), s, v, h);
      w := SymRead(g, s.id, v, h);
    } else {
      w := [s.id];
      SpellOne(s.id);
      Terminal(g, s.id, w);
      if s.id.Token? {
        LiteralDerives(Spelled(g), s, v);
      } else {
        SingleIn(Spelled(g), s, v, h);
      }
    }
  }

  lemma {:induction false} SymRead(g: Grammar, t: SymbolId, v: Word, h: nat) returns (w: Word)
    requires ScannerClosed(g) && t in g && t.NonTerminalToken? && SymDerivesIn(Spelled(g), t, v, h)
    ensures v == SpellWord(w) && SymDerives(g, t, w)
    decreases h, 0, 0
  {
    var r := SpelledRuleUsed(g, t, v, h);
    w := BodyRead(g, r.symbols, v, h - 1);
    ByRule(g, t, r, w);
  }

  lemma {:induction false} SpelledRuleUsed(g: Grammar, t: SymbolId, v: Word, h: nat) returns (r: Rule)
    requires ScannerClosed(g) && t in g && t.NonTerminalToken? && SymDerivesIn(Spelled(g), t, v, h)
    ensures h > 0 && r in g[t] && ScannerBody(g, r.symbols) && DerivesIn(Spelled(g), SpellBody(r.symbols), v, h - 1)
  {
    var m := RuleUsed(Spelled(g), t, v, h);
    r := SpelledFrom(g[t], m);
  }

  /** What the spelled rules of a token derive are the spellings of what its rules derive. */
  lemma {:induction false} SpelledLanguage(g: Grammar, t: SymbolId, v: Word)
    requires ScannerClosed(g) && t in g && t.NonTerminalToken?
    ensures SymDerives(Spelled(g), t, v) <==> exists w :: SymDerives(g, t, w) && v == SpellWord(w)
  {
    if h: nat :| SymDerivesIn(Spelled(g), t, v, h) {
      var w := SymRead(g, t, v, h);
    }
    if w :| SymDerives(g, t, w) && v == SpellWord(w) {
      var h: nat :| SymDerivesIn(g, t, w, h);
      SymSpelled(g, t, w, h);
    }
  }

  // ----- the conversion -----

  /** Spells the literals of the rules out, symbol by symbol. */
  method ConvertSymRefs(rules: seq<Rule>) returns (out: seq<Rule>)
    ensures out == SpellRules(rules)
  {
    out := [];
    for k := 0 to |rules|
      invariant out == SpellRules(rules)[..k]
    {
      var b, body := rules[k].symbols, [];
      for i := 0 to |b|
        invariant body == SpellBody(b[..i])
      {
        TakeOneMore(b, i);
        var chars := SpellOut(b[i]);
        body := body + chars;
      }
      assert b[..|b|] == b;
      out := out + [rules[k].(symbols := body)];
    }
  }

  method SpellOut(s: SymbolRef) returns (b: Body)
    ensures b == SpellRef(s)
  {
    if !s.id.Token? {
      return [s];
    }
    b := [];
    var last := |s.id.val| - 1;
    for i := 0 to |s.id.val|
      invariant b == SpellRef(s)[..i]
    {
      var c := s.id.val[i];
      b := b + [s.(id := if c as int < 128 then Char(c as int) else Codepoint(c as int),
                   originalIndex := if i == last then s.originalIndex else NO_POSITION)];
    }
  }
}
