/** Rule bodies as the grammar author writes them, and what they mean.
    Sets are not annotated and list symbols are not optional by the grammar's own syntax
    (grammars/radlr/2.0.0/grammar.sg:95-142, grammars/radlr/2.0.0/symbol.sg:10-62). */
module Ebnf {
  import opened Sequences
  import opened Permutations
  import opened Symbols

  /** A symbol that the author names: never a sub-non-terminal
      (crates/radlr-core/grammar/build_grammar.rs:886-945). */
  type LeafSymbol = s: SymbolId | !IsSubSymbol(s) && InItsForm(s) witness EndOfFile

  datatype Separator = NoSeparator | Separator(s: LeafSymbol)

  datatype Atom =
    | Leaf(s: LeafSymbol)
    | Group(alts: seq<Alternative>)
    | ListOf(element: Atom, separator: Separator, optionalList: bool)

  datatype Alternative = Alternative(items: seq<Item>, ast: Ast)

  datatype Item =
    | One(atom: Atom, isOptional: bool, annotation: string)
    | SetOf(members: seq<Item>, unordered: bool, allowEmpty: bool)

  // ----- nesting -----

  function Max(a: nat, b: nat): nat { if a < b then b else a }

  function AtomDepth(a: Atom): nat {
    match a
    case Leaf(_) => 0
    case Group(alts) => 1 + AltsDepth(alts)
    case ListOf(e, _, _) => 1 + AtomDepth(e)
  }

  function AltsDepth(alts: seq<Alternative>): nat {
    if alts == [] then 0 else Max(AltsDepth(Init(alts)), ItemsDepth(Last(alts).items))
  }

  function ItemDepth(i: Item): nat {
    match i
    case One(a, _, _) => AtomDepth(a)
    case SetOf(ms, _, _) => 1 + ItemsDepth(ms)
  }

  function ItemsDepth(items: seq<Item>): nat {
    if items == [] then 0 else Max(ItemsDepth(Init(items)), ItemDepth(Last(items)))
  }

  lemma {:induction false} DepthOfItem(items: seq<Item>, i: nat)
    requires i < |items|
    ensures ItemDepth(items[i]) <= ItemsDepth(items)
  {
    if i < |items| - 1 {
      DepthOfItem(Init(items), i);
    }
  }

  lemma {:induction false} DepthAtMost(items: seq<Item>, d: nat)
    requires forall i :: 0 <= i < |items| ==> ItemDepth(items[i]) <= d
    ensures ItemsDepth(items) <= d
  {
    if items != [] {
      DepthAtMost(Init(items), d);
    }
  }

  lemma {:induction false} DepthOfAlt(alts: seq<Alternative>, i: nat)
    requires i < |alts|
    ensures ItemsDepth(alts[i].items) <= AltsDepth(alts)
  {
    if i < |alts| - 1 {
      DepthOfAlt(Init(alts), i);
    }
  }

  // ----- meaning -----

  type Word = seq<SymbolId>

  /** The words that each symbol stands for. */
  type Language = (SymbolId, Word) -> bool

  /** The ways to order the members of a set of size `n`. */
  ghost predicate IsOrder(order: seq<nat>, n: nat, unordered: bool) {
    if unordered then multiset(order) == multiset(Indices(n)) else order == Indices(n)
  }

  function Pick(members: seq<Item>, order: seq<nat>): (r: seq<Item>)
    requires forall i :: 0 <= i < |order| ==> order[i] < |members|
    ensures |r| == |order| && forall i :: 0 <= i < |order| ==> r[i] == members[order[i]]
  {
    seq(|order|, i requires 0 <= i < |order| => members[order[i]])
  }

  lemma {:induction false} PickDepth(members: seq<Item>, order: seq<nat>)
    requires forall i :: 0 <= i < |order| ==> order[i] < |members|
    ensures ItemsDepth(Pick(members, order)) <= ItemsDepth(members)
  {
    forall i | 0 <= i < |order|
      ensures ItemDepth(Pick(members, order)[i]) <= ItemsDepth(members)
    {
      DepthOfItem(members, order[i]);
    }
    DepthAtMost(Pick(members, order), ItemsDepth(members));
  }

  ghost predicate AtomMatches(L: Language, a: Atom, w: Word)
    decreases AtomDepth(a), 0, 0, 0
  {
    match a
    case Leaf(s) => L(s, w)
    case Group(alts) => exists i :: 0 <= i < |alts| && AltMatches(L, alts, i, w)
    case ListOf(e, sep, _) => exists n :: n >= 1 && ListMatches(L, e, sep, w, n)
  }

  ghost predicate AltMatches(L: Language, alts: seq<Alternative>, i: nat, w: Word)
    requires i < |alts|
    decreases AltsDepth(alts), 3, 0, 0
  {
    DepthOfAlt(alts, i);
    exists any :: ItemsMatch(L, alts[i].items, w, any)
  }

  /** `n` elements with a separator between any two: an element, or a shorter list, the separator and
      an element. */
  ghost predicate ListMatches(L: Language, e: Atom, sep: Separator, w: Word, n: nat)
    requires n >= 1
    decreases AtomDepth(e), 2, n, 0
  {
    if n == 1 then ElementMatches(L, e, w)
    else
      exists i, j :: 0 <= i <= j <= |w|
        && ListMatches(L, e, sep, w[..i], n - 1)
        && (match sep case NoSeparator => i == j case Separator(s) => L(s, w[i..j]))
        && ElementMatches(L, e, w[j..])
  }

  ghost predicate ElementMatches(L: Language, e: Atom, w: Word)
    decreases AtomDepth(e), 1, 1, 0
  {
    AtomMatches(L, e, w) || (e.ListOf? && e.optionalList && w == [])
  }

  /** `symbol?` and `symbol(*)` may be left out; `chosen` tells whether the match uses a symbol at all. */
  ghost predicate ItemMatches(L: Language, item: Item, w: Word, chosen: bool)
    decreases ItemDepth(item), 1, 0, 0
  {
    match item
    case One(a, isOptional, _) =>
      if chosen then AtomMatches(L, a, w) else (isOptional || (a.ListOf? && a.optionalList)) && w == []
    case SetOf(ms, unordered, allowEmpty) =>
      (chosen || allowEmpty) && exists order :: IsOrder(order, |ms|, unordered) && OrderMatches(L, ms, order, w, chosen)
  }

  ghost predicate OrderMatches(L: Language, members: seq<Item>, order: seq<nat>, w: Word, chosen: bool)
    decreases ItemsDepth(members), 3, 0, 0
  {
    && (forall i :: 0 <= i < |order| ==> order[i] < |members|)
    && (PickDepth(members, order); ItemsMatch(L, Pick(members, order), w, chosen))
  }

  /** The items in sequence. */
  ghost predicate ItemsMatch(L: Language, items: seq<Item>, w: Word, chosen: bool)
    decreases ItemsDepth(items), 2, |items|, 1
  {
    if items == [] then w == [] && !chosen
    else exists k, c, d :: 0 <= k <= |w| && chosen == (c || d) && MatchAt(L, items, w, k, c, d)
  }

  /** The last item matches from position `k` on, and the items before it match up to there. */
  ghost predicate MatchAt(L: Language, items: seq<Item>, w: Word, k: nat, c: bool, d: bool)
    requires items != [] && k <= |w|
    decreases ItemsDepth(items), 2, |items|, 0
  {
    ItemsMatch(L, Init(items), w[..k], c) && ItemMatches(L, Last(items), w[k..], d)
  }
}
