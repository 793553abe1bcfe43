/** The index tables of the grammar database (crates/radlr-core/grammar/build_database.rs:346-373, 600-623,
    710-718): every non-terminal gets the next index, a range of rule keys, a name and a custom state. */
module Tables {
  import opened Sequences
  import opened Symbols
  import opened Cfg
  import opened Spelling

  datatype DbRule = DbRule(rule: Rule, nonterm: nat, isScanner: bool)

  /** What a name belongs to; the text of names is not part of the model. */
  datatype Name = Own(id: NonTermId) | Tk(q: NonTermId) | TkPrime(prime: NonTermId) | OfTerminal(sym: SymbolId)

  datatype Custom = NoState | HasState(state: nat)

  /** The states that the author wrote out, by the non-terminal that they are written for. */
  type States = map<NonTermId, nat>

  /** The name and the custom state belong to the symbol: a reference has its own name and, if one was written, its own
      state; a token has the name of a token, a prime or a terminal, and no state. */
  ghost predicate LabelFits(states: States, s: SymbolId, name: Name, custom: Custom) {
    match s
    case NonTerminal(id) => name == Own(id) && custom == if id in states then HasState(states[id]) else NoState
    case NonTerminalToken(_) =>
      && custom == NoState
      && (match name case Own(_) => false case Tk(q) => q.AsTokSym() == s case TkPrime(prime) => prime.AsTokSym() == s
          case OfTerminal(x) => IsTerminal(x))
    case _ => false
  }

  ghost predicate Labelled(states: States, order: seq<SymbolId>, names: seq<Name>, customs: seq<Custom>) {
    && |names| == |customs| == |order|
    && forall i :: 0 <= i < |order| ==> LabelFits(states, order[i], names[i], customs[i])
  }

  lemma {:induction false} LabelledNext(states: States, order: seq<SymbolId>, names: seq<Name>, customs: seq<Custom>,
    s: SymbolId, name: Name, custom: Custom)
    requires Labelled(states, order, names, customs) && LabelFits(states, s, name, custom)
    ensures Labelled(states, order + [s], names + [name], customs + [custom])
  {
  }

  // ----- index maps -----

  /** The map gives every symbol its position in `order`: a bijection onto `0..|order|`. */
  ghost predicate Indexes(m: map<SymbolId, nat>, order: seq<SymbolId>) {
    && |m| == |order|
    && (forall i :: 0 <= i < |order| ==> order[i] in m && m[order[i]] == i)
    && (forall s :: s in m ==> m[s] < |order| && order[m[s]] == s)
  }

  lemma {:induction false} IndexNext(m: map<SymbolId, nat>, order: seq<SymbolId>, s: SymbolId)
    requires Indexes(m, order) && s !in m
    ensures Indexes(m[s := |m|], order + [s])
  {
    var m', order' := m[s := |m|], order + [s];
    assert |m'| == |m| + 1;
    forall i | 0 <= i < |order'|
      ensures order'[i] in m' && m'[order'[i]] == i
    {
      if i < |order| {
        assert order'[i] == order[i];
      }
    }
  }

  /** Turning an index map around gives the vector of its keys in index order. */
  method ConvertIndexMapToVec(m: map<SymbolId, nat>, ghost order: seq<SymbolId>) returns (v: seq<SymbolId>)
    requires Indexes(m, order)
    ensures |v| == |m| && forall s :: s in m ==> m[s] < |v| && v[m[s]] == s
    ensures v == order
  {
    v := seq(|m|, _ => Default);
    var left := m.Keys;
    while left != {}
      invariant |v| == |m| && left <= m.Keys
      invariant forall s :: s in m && s !in left ==> v[m[s]] == s
      decreases |left|
    {
      var s :| s in left;
      v := v[m[s] := s];
      left := left - {s};
    }
    assert forall i :: 0 <= i < |order| ==> v[m[order[i]]] == order[i];
  }

  // ----- rule ranges -----

  function Range(lo: nat, hi: nat): (r: seq<nat>)
    requires lo <= hi
    ensures |r| == hi - lo && forall k :: 0 <= k < |r| ==> r[k] == lo + k
  {
    seq(hi - lo, k requires 0 <= k < hi - lo => lo + k)
  }

  /** The ranges tile the rule table in order, and every rule names the owner of its range. */
  ghost predicate Tiled(ranges: seq<seq<nat>>, rules: seq<DbRule>) {
    if ranges == [] then rules == []
    else
      var n: int := |rules| - |Last(ranges)|;
      && n >= 0 && Last(ranges) == Range(n, |rules|)
      && (forall r :: n <= r < |rules| ==> rules[r].nonterm == |ranges| - 1)
      && Tiled(Init(ranges), rules[..n])
  }

  lemma {:induction false} TileNext(ranges: seq<seq<nat>>, rules: seq<DbRule>, more: seq<DbRule>)
    requires Tiled(ranges, rules) && forall r :: 0 <= r < |more| ==> more[r].nonterm == |ranges|
    ensures Tiled(ranges + [Range(|rules|, |rules| + |more|)], rules + more)
  {
    var range, rules' := Range(|rules|, |rules| + |more|), rules + more;
    forall r | |rules| <= r < |rules'|
      ensures rules'[r].nonterm == |ranges|
    {
      assert rules'[r] == more[r - |rules|];
    }
    TileSnoc(ranges, range, rules, rules');
  }

  lemma {:induction false} TileSnoc(ranges: seq<seq<nat>>, range: seq<nat>, rules: seq<DbRule>, rules': seq<DbRule>)
    requires Tiled(ranges, rules) && rules <= rules' && range == Range(|rules|, |rules'|)
    requires forall r :: |rules| <= r < |rules'| ==> rules'[r].nonterm == |ranges|
    ensures Tiled(ranges + [range], rules')
  {
    var ranges' := ranges + [range];
    assert Init(ranges') == ranges && Last(ranges') == range;
    var n: nat := |rules'| - |Last(ranges')|;
    assert n == |rules|;
    assert rules'[..n] == rules;
  }

  /** No gaps and no overlaps: a rule key lies in the range of exactly the non-terminal that owns the rule. */
  lemma {:induction false} OwnerOfRule(ranges: seq<seq<nat>>, rules: seq<DbRule>, i: nat, r: nat)
    requires Tiled(ranges, rules) && i < |ranges| && r < |rules|
    ensures r in ranges[i] <==> rules[r].nonterm == i
    ensures rules[r].nonterm < |ranges|
  {
    var n := |rules| - |Last(ranges)|;
    assert Last(ranges) == ranges[|ranges| - 1];
    if r >= n {
      assert ranges[|ranges| - 1][r - n] == r;
      if i < |ranges| - 1 {
        RangeBelow(Init(ranges), rules[..n], i);
        assert Init(ranges)[i] == ranges[i];
      }
    } else if i < |ranges| - 1 {
      OwnerOfRule(Init(ranges), rules[..n], i, r);
      assert Init(ranges)[i] == ranges[i] && rules[..n][r] == rules[r];
    } else if |ranges| > 1 {
      OwnerOfRule(Init(ranges), rules[..n], 0, r);
      assert rules[..n][r] == rules[r];
    }
  }

  lemma {:induction false} RangeBelow(ranges: seq<seq<nat>>, rules: seq<DbRule>, i: nat)
    requires Tiled(ranges, rules) && i < |ranges|
    ensures forall r :: r in ranges[i] ==> r < |rules|
  {
    var n := |rules| - |Last(ranges)|;
    if i < |ranges| - 1 {
      RangeBelow(Init(ranges), rules[..n], i);
      assert Init(ranges)[i] == ranges[i];
    }
  }

  /** The rules at the given keys. */
  function RulesAt(rules: seq<DbRule>, keys: seq<nat>): (r: seq<Rule>)
    requires forall j :: 0 <= j < |keys| ==> keys[j] < |rules|
    ensures |r| == |keys| && forall j :: 0 <= j < |r| ==> r[j] == rules[keys[j]].rule
  {
    seq(|keys|, j requires 0 <= j < |keys| => rules[keys[j]].rule)
  }

  function Owned(rules: seq<Rule>, owner: nat, isScanner: bool): (r: seq<DbRule>)
    ensures |r| == |rules| && forall i :: 0 <= i < |r| ==> r[i] == DbRule(rules[i], owner, isScanner)
  {
    seq(|rules|, i requires 0 <= i < |rules| => DbRule(rules[i], owner, isScanner))
  }

  // ----- the tables -----

  /** Every key of the range is a rule key. */
  predicate KeysBelow(keys: seq<nat>, n: nat) {
    forall j :: 0 <= j < |keys| ==> keys[j] < n
  }

  /** Non-terminal `i` has, through its range, the rules that the grammar gives its symbol. */
  ghost predicate HeldAt(made: Grammar, order: seq<SymbolId>, ranges: seq<seq<nat>>, rules: seq<DbRule>, i: nat)
    requires i < |order| == |ranges|
  {
    order[i] in made && KeysBelow(ranges[i], |rules|) && made[order[i]] == RulesAt(rules, ranges[i])
  }

  ghost predicate OwnedRight(order: seq<SymbolId>, r: DbRule) {
    r.nonterm < |order| && r.isScanner == order[r.nonterm].NonTerminalToken?
  }

  /** `made` is the grammar that the tables hold. */
  ghost predicate Holds(made: Grammar, order: seq<SymbolId>, ranges: seq<seq<nat>>, rules: seq<DbRule>) {
    && Tiled(ranges, rules) && |order| == |ranges|
    && (forall i :: 0 <= i < |order| ==> HeldAt(made, order, ranges, rules, i))
    && (forall r :: 0 <= r < |rules| ==> OwnedRight(order, rules[r]))
  }

  lemma {:induction false} HeldStill(made: Grammar, order: seq<SymbolId>, ranges: seq<seq<nat>>, rules: seq<DbRule>, i: nat,
                  made': Grammar, order': seq<SymbolId>, ranges': seq<seq<nat>>, rules': seq<DbRule>)
    requires i < |order| == |ranges| && |order'| == |ranges'| && HeldAt(made, order, ranges, rules, i)
    requires order <= order' && ranges <= ranges' && rules <= rules'
    requires order[i] in made' && made'[order[i]] == made[order[i]]
    ensures HeldAt(made', order', ranges', rules', i)
  {
    assert order'[i] == order[i] && ranges'[i] == ranges[i];
    assert RulesAt(rules', ranges[i]) == RulesAt(rules, ranges[i]);
  }

  /** The new non-terminal has its rules in the range behind those before it. */
  lemma {:induction false} HeldLast(made: Grammar, order: seq<SymbolId>, ranges: seq<seq<nat>>, rules: seq<DbRule>,
                                    sym: SymbolId, range: seq<nat>, owned: seq<DbRule>)
    requires |order| == |ranges| && range == Range(|rules|, |rules| + |owned|) && sym in made && |made[sym]| == |owned|
    requires forall j :: 0 <= j < |owned| ==> made[sym][j] == owned[j].rule
    ensures HeldAt(made, order + [sym], ranges + [range], rules + owned, |order|)
  {
    assert KeysBelow(range, |rules + owned|);
    assert RulesAt(rules + owned, range) == made[sym];
  }

  lemma {:induction false} OwnedNext(order: seq<SymbolId>, rules: seq<DbRule>, sym: SymbolId, more: seq<Rule>, isScanner: bool)
    requires (forall r :: 0 <= r < |rules| ==> OwnedRight(order, rules[r])) && isScanner == sym.NonTerminalToken?
    ensures var rules' := rules + Owned(more, |order|, isScanner);
            forall r :: 0 <= r < |rules'| ==> OwnedRight(order + [sym], rules'[r])
  {
    var owned := Owned(more, |order|, isScanner);
    var rules' := rules + owned;
    forall r | 0 <= r < |rules'|
      ensures OwnedRight(order + [sym], rules'[r])
    {
      if r < |rules| {
        assert OwnedRight(order, rules[r]) && rules'[r] == rules[r];
      } else {
        assert rules'[r] == owned[r - |rules|];
      }
    }
  }

  lemma {:induction false} HoldsNext(made: Grammar, order: seq<SymbolId>, ranges: seq<seq<nat>>, rules: seq<DbRule>,
                  sym: SymbolId, more: seq<Rule>, isScanner: bool)
    requires Holds(made, order, ranges, rules) && sym !in order && isScanner == sym.NonTerminalToken?
    ensures Holds(made[sym := more], order + [sym], ranges + [Range(|rules|, |rules| + |more|)],
                  rules + Owned(more, |order|, isScanner))
  {
    var range := Range(|rules|, |rules| + |more|);
    var made', order', ranges', rules' := made[sym := more], order + [sym], ranges + [range],
                                          rules + Owned(more, |order|, isScanner);
    TileNext(ranges, rules, Owned(more, |order|, isScanner));
    forall i | 0 <= i < |order'|
      ensures HeldAt(made', order', ranges', rules', i)
    {
      if i < |order| {
        assert HeldAt(made, order, ranges, rules, i) && order[i] in order;
        HeldStill(made, order, ranges, rules, i, made', order', ranges', rules');
      } else {
        HeldLast(made', order, ranges, rules, sym, range, Owned(more, |order|, isScanner));
      }
    }
    OwnedNext(order, rules, sym, more, isScanner);
  }

  /** The tables of non-terminals agree with each other. */
  ghost predicate Consistent(nonterms: map<SymbolId, nat>, order: seq<SymbolId>, made: Grammar, ranges: seq<seq<nat>>,
                             rules: seq<DbRule>, names: seq<Name>, customs: seq<Custom>, states: States) {
    && Indexes(nonterms, order) && Holds(Spelled(made), order, ranges, rules)
    && made.Keys == nonterms.Keys && Labelled(states, order, names, customs)
  }

  lemma {:induction false} ConsistentNext(nonterms: map<SymbolId, nat>, order: seq<SymbolId>, made: Grammar,
    ranges: seq<seq<nat>>, rules: seq<DbRule>, names: seq<Name>, customs: seq<Custom>, states: States,
    sym: SymbolId, more: seq<Rule>, plain: seq<Rule>, name: Name, custom: Custom)
    requires Consistent(nonterms, order, made, ranges, rules, names, customs, states) && sym !in nonterms
    requires more == SpelledFor(sym, plain) && LabelFits(states, sym, name, custom)
    ensures Consistent(nonterms[sym := |nonterms|], order + [sym], made[sym := plain],
                       ranges + [Range(|rules|, |rules| + |more|)], rules + Owned(more, |nonterms|, sym.NonTerminalToken?),
                       names + [name], customs + [custom], states)
  {
    IndexNext(nonterms, order, sym);
    HoldsNext(Spelled(made), order, ranges, rules, sym, more, sym.NonTerminalToken?);
    SpelledNext(made, sym, plain);
    LabelledNext(states, order, names, customs, sym, name, custom);
  }

  class Database {
    var nonterms: map<SymbolId, nat>
    var rules: seq<DbRule>
    var ranges: seq<seq<nat>>
    var names: seq<Name>
    var customs: seq<Custom>
    var symbols: map<SymbolId, nat>
    ghost const states: States
    ghost var order: seq<SymbolId>
    ghost var symbolOrder: seq<SymbolId>
    /** The rules that were inserted, with their literals not yet spelled. */
    ghost var made: Grammar

    ghost predicate Valid()
      reads this
    {
      && Consistent(nonterms, order, made, ranges, rules, names, customs, states)
      && Indexes(symbols, symbolOrder)
    }

    constructor (ghost states: States)
      ensures Valid() && nonterms == map[] && made == map[] && symbols == map[Default := 0] && this.states == states
    {
      this.states := states;
      nonterms, rules, ranges, names, customs := map[], [], [], [], [];
      symbols, symbolOrder := map[Default := 0], [Default];
      order, made := [], map[];
    }

    /** Inserts a non-terminal: the next index, the next range of rule keys, a name and a state.  Scanner rules
        are inserted as they are spelled. */
    method AddNontermAndRules(sym: SymbolId, nontermRules: seq<Rule>, isScanner: bool, name: Name, custom: Custom,
                              ghost plain: seq<Rule>)
      requires Valid() && sym !in nonterms && isScanner == sym.NonTerminalToken?
      requires nontermRules == SpelledFor(sym, plain) && LabelFits(states, sym, name, custom)
      modifies this
      ensures Valid()
      ensures nonterms == old(nonterms)[sym := |old(nonterms)|] && made == old(made)[sym := plain]
      ensures names == old(names) + [name] && customs == old(customs) + [custom]
      ensures symbols == old(symbols)
    {
      ConsistentNext(nonterms, order, made, ranges, rules, names, customs, states, sym, nontermRules, plain, name, custom);
      var index, keys := |nonterms|, Range(|rules|, |rules| + |nontermRules|);
      nonterms, ranges, rules, names, customs, made, order :=
        nonterms[sym := index], ranges + [keys], rules + Owned(nontermRules, index, isScanner), names + [name], customs + [custom],
        made[sym := plain], order + [sym];
    }

    /** Inserts a symbol with the next symbol index, if it has none. */
    method InsertSymbol(sym: SymbolId)
      requires Valid()
      modifies this`symbols, this`symbolOrder
      ensures Valid() && symbols.Keys == old(symbols).Keys + {sym}
      ensures forall s :: s in old(symbols) ==> symbols[s] == old(symbols)[s]
    {
      if sym !in symbols {
        IndexNext(symbols, symbolOrder, sym);
        symbols := symbols[sym := |symbols|];
        symbolOrder := symbolOrder + [sym];
      }
    }
  }
}
