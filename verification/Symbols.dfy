/** Grammar entities (crates/radlr-core/types/grammar.rs, crates/radlr-core/types/symbol.rs).
    Source locations and precedences are not part of the model. */
module Symbols {

  datatype SubType = Parser | Scanner | ScannerToken | ScannerSym

  /** A non-terminal of the grammar, or one derived from the symbols of its rules. */
  datatype NonTermId = Standard(id: nat, sub: SubType) | Sub(id: nat, index: nat, sub: SubType) {

    function AsParse(): NonTermId { this.(sub := Parser) }

    function AsScan(): NonTermId { this.(sub := Scanner) }

    function AsSym(): SymbolId { NonTerminal(AsParse()) }

    function AsTokSym(): SymbolId { NonTerminalToken(AsScan()) }
  }

  datatype SymbolId =
    | Default
    | EndOfFile
    | Class(class_: nat)
    | Token(val: string)
    | NonTerminal(id: NonTermId)
    | NonTerminalToken(id: NonTermId)
    | Char(char_: nat)
    | Codepoint(code: nat)

  /** A symbol in a rule body: its id, reference name and position in the source rule. */
  datatype SymbolRef = SymbolRef(id: SymbolId, annotation: string, originalIndex: nat)

  type Body = seq<SymbolRef>

  /** The semantic action of a rule; the text of a defined action is opaque. */
  datatype Ast = NoAst | ListEntry | ListIterate | Defined(text: nat)

  datatype Rule = Rule(symbols: Body, skipped: seq<SymbolId>, ast: Ast)

  datatype SubKind = ListKind | GroupKind

  /** A non-terminal generated from a group or from a list. */
  datatype SubNonTerminal = SubNonTerminal(id: NonTermId, kind: SubKind, rules: seq<Rule>)

  datatype NonTerm = NonTerm(id: NonTermId, rules: seq<Rule>, subs: seq<SubNonTerminal>, symbols: set<SymbolId>)

  predicate IsReference(s: SymbolId) { s.NonTerminal? || s.NonTerminalToken? }

  predicate IsTerminal(s: SymbolId) { !IsReference(s) }

  /** A reference is written in parser form, a token reference in scanner form. */
  predicate InItsForm(s: SymbolId) {
    (s.NonTerminal? ==> s.id.sub == Parser) && (s.NonTerminalToken? ==> s.id.sub == Scanner)
  }

  predicate IsSubSymbol(s: SymbolId) {
    (s.NonTerminal? || s.NonTerminalToken?) && s.id.Sub?
  }
}
