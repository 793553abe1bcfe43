/** The numbering of sub-non-terminals: entry `k` of a non-terminal's list has index `k`, and the rules
    of an entry refer only to entries before it, a list also to itself
    (crates/radlr-core/grammar/build_grammar.rs:573-586, 732-781). */
module Numbering {
  import opened Sequences
  import opened Symbols

  /** Every reference to a sub-non-terminal in the body is to one of the first `n` of parent `p`. */
  predicate RefersBelow(p: nat, b: Body, n: nat) {
    forall i :: 0 <= i < |b| && IsSubSymbol(b[i].id) ==>
      exists k: nat :: k < n && b[i].id == NonTerminal(Sub(p, k, Parser))
  }

  predicate RulesReferBelow(p: nat, rules: seq<Rule>, n: nat) {
    forall r :: r in rules ==> RefersBelow(p, r.symbols, n)
  }

  predicate Numbered(p: nat, sub: SubNonTerminal, k: nat) {
    && sub.id == Sub(p, k, Parser)
    && RulesReferBelow(p, sub.rules, if sub.kind.ListKind? then k + 1 else k)
  }

  predicate WellNumbered(p: nat, subs: seq<SubNonTerminal>) {
    forall k :: 0 <= k < |subs| ==> Numbered(p, subs[k], k)
  }

  lemma {:induction false} RefersHigher(p: nat, b: Body, n: nat, m: nat)
    requires RefersBelow(p, b, n) && n <= m
    ensures RefersBelow(p, b, m)
  {
    forall i | 0 <= i < |b| && IsSubSymbol(b[i].id)
      ensures exists k: nat :: k < m && b[i].id == NonTerminal(Sub(p, k, Parser))
    {
      var k: nat :| k < n && b[i].id == NonTerminal(Sub(p, k, Parser));
    }
  }

  lemma {:induction false} RulesReferHigher(p: nat, rules: seq<Rule>, n: nat, m: nat)
    requires RulesReferBelow(p, rules, n) && n <= m
    ensures RulesReferBelow(p, rules, m)
  {
    forall r | r in rules
      ensures RefersBelow(p, r.symbols, m)
    {
      RefersHigher(p, r.symbols, n, m);
    }
  }
}
