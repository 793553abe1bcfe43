# RADLR: what the compiler keeps

RADLR compiles grammars into bytecode parsers. This project models the four parts of it whose results other parts
rely on without looking again, and proves what they promise.

**Grammar normalisation.** An author writes EBNF: optional symbols, groups, lists with or without a separator, ordered
and unordered sets. `Ebnf` gives that notation a meaning over words, `Cfg` gives plain rules theirs. `Desugar`
describes the rewriting, `DesugarBuilder` does it as the compiler does, by editing vectors in place, `DesugarLanguage`
proves that the meaning stays, and `RuleShapes` that every rule has the action, and every symbol the name and
position, that the author gave it. `Merge` covers appended definitions and their renumbering, `Appended` that they
amount to one definition, `Inline` the Cartesian expansion of anonymous groups, `InlineActions` what it leaves alone,
`LeftRecursion` the token form with its removal of immediate left recursion, `Spelling` the literals of scanner rules.
`Tables`, `ParserWorklist`, `ParserClosure`, `TokenWorklist`, `TokenClosure`, `GrammarDatabase` and `BuildDatabase`
follow the construction of the grammar database from the public non-terminals to the last converted symbol.
`AuthorGrammar` shows that desugaring and merging deliver what the worklists need, and `AuthorLanguage` puts all of it
together: the rules in the finished tables derive what the author's definitions mean. The numbering of
sub-non-terminals that desugaring sets up (`Numbering`) is what makes inlining end. `ScannerFormRuns` is a run that
leaves left recursion behind.

**Bytecode.** `Ir` gives nested statements a meaning as runs over the input. `Compile` says which instructions they
become, `Assembler` appends their bytes as the compiler does, `HashTable` covers the packed dispatch tables, `Link`
the sweep that replaces proxy numbers by addresses, `LinkForks` what the addresses of a fork tell about it, and
`Program` the whole; `ForkPrograms` holds two programs that are not linked as wanted. `Bytecode` reads and runs the
bytes as the runtime's instruction iterator and dispatch loop do, by the numbers of its opcodes. `CompileCorrect` and
`CompileBytes` prove that the bytes mean the statements; `FallThrough` shows exactly where a block leaves its own
bytes.

**Types of syntax tree nodes.** `TypeJoin` is the join of the types that a property or a non-terminal can have, with
its growing table of unions, `TypeJoiner` the methods over those tables. `Unions` flattens the table in place and
elects one union of each set; `Templates` marks the structs that need a template. `Scalars` holds the types and
their order.

**Interned strings.** `InternedStrings` covers the 64-bit token that is either a short string or a marked hash into
a shared store, one thread after another and with the threads interleaved.

`Sequences`, `Bits`, `Symbols`, `Permutations` and `Renaming` are what the others share.

## How to read the statements

Methods keep the form of the source: loops, arrays and objects that are changed in place, proved against functions.
The properties are lemmas about those functions. Seven properties that one would expect do not hold without a
condition. Each is stated with the condition under which it holds, and with an input for which it fails:

- A token non-terminal loses its immediate left recursion, unless a rule begins with it in a form that the test does
  not recognise for the id that its rules were made for, such as one queued in scanner form (condition: `LeftRecursion.StillLeftRecursive`,
  `TokenClosure.TableLeftRecursive`; input: `ScannerFormRuns.ScannerFormRun`).
- Linking replaces every proxy number and nothing else, unless the sweep does not get back on track behind a fork, over
  which it steps by another length than the one written (condition: `Link.LinkedExactly`, on addresses alone
  `LinkForks.BackIsLinked` and `LinkForks.ShortLinkedExactly`; inputs: `ForkPrograms.ThirdPathStops`,
  `ForkPrograms.FourthPathOverwrites`).
- A block stays inside its own bytes, unless its last byte looks like a closing opcode or it has no bytes at all
  (condition: `FallThrough.StaysInsideExactly`; inputs: `FallThrough.TokenIdTakenForPass`,
  `FallThrough.EmptyBlockRunsNext`).
- A packed dispatch table refines the map of its pairs, unless a key or an offset does not fit its field, to which it
  is cut (condition: `HashTable.BuiltExactly`; input: `HashTable.WideOffsetLost`).
- Two strings have one token only if they are equal, unless they end in NULs or their hashes clash (condition:
  `InternedStrings.SameTokenExactly`, `InternedStrings.ReadsBackExactly`; inputs: `InternedStrings.TrailingNulLost`,
  `InternedStrings.ClashOverwrites`).
- A join covers both types joined, unless a 64-bit number is too wide for the signed number or the float that results
  (condition: `TypeJoin.JoinCovers`, `TypeJoin.TypesCover`; inputs: `TypeJoin.UnsignedDoesNotFit`,
  `TypeJoin.SignedDoesNotFit`).
- A stored string is never replaced, unless two strings clash (condition: `InternedStrings.BindingsStayExactly`; input:
  `InternedStrings.ClashOverwrites`).

## Model

| member | source | states |
|---|---|---|
| `DesugarBuilder.GetIndexPermutations` | crates/radlr-core/grammar/build_grammar.rs:486-501 | the recursive method returns the orderings `Permute` of the positions |
| `Permutations.PermuteComplete` | crates/radlr-core/grammar/build_grammar.rs:486-501 | the orderings generated are exactly the rearrangements of the list (equal as multisets) |
| `Permutations.PermuteOnce` | crates/radlr-core/grammar/build_grammar.rs:486-501 | every ordering of distinct positions is generated once |
| `Desugar.KeepExactly` | crates/radlr-core/grammar/build_grammar.rs:525-544 | of the pending rules of a set exactly those with a symbol are kept, or all of them when empty is allowed |
| `Desugar.KeepOnce` | crates/radlr-core/grammar/build_grammar.rs:525-544 | no body of a set is kept twice |
| `DesugarBuilder.NonTermData.ProcessRuleSymbols` | crates/radlr-core/grammar/build_grammar.rs:452-818 | the loop over the symbols (doubling for optionals, crossing with sets, pushing sub-non-terminals) builds the bodies and sub-non-terminals of the specification and records exactly the terminals of the items and of the skip list |
| `DesugarBuilder.NonTermData.ProcessOrders` | crates/radlr-core/grammar/build_grammar.rs:503-523 | the pending rules of a set are those of its orderings, each processed in turn; whatever the ordering, the same terminals are recorded |
| `DesugarBuilder.NonTermData.ProcessAtom` | crates/radlr-core/grammar/build_grammar.rs:554-588 | a group or list becomes one more sub-non-terminal and is replaced by a reference to it; any other symbol stands for itself |
| `DesugarBuilder.NonTermData.ProcessAlternatives` | crates/radlr-core/grammar/build_grammar.rs:557-571 | the rules of all alternatives are appended in order, each with the skipped symbols, and their terminals recorded |
| `DesugarBuilder.ProcessNonTerminal` | crates/radlr-core/grammar/build_grammar.rs:383-415 | the rules, sub-non-terminals and recorded terminals of a definition, or the error of the empty rule |
| `DesugarLanguage.ListSound` | crates/radlr-core/grammar/build_grammar.rs:709-784 | what a list's left-recursive rules derive is one or more elements with the separator between any two |
| `DesugarLanguage.ListComplete` | crates/radlr-core/grammar/build_grammar.rs:709-784 | every such sequence of elements and separators is derived by the list's rules |
| `DesugarLanguage.BodiesSound` | crates/radlr-core/grammar/build_grammar.rs:452-818 | every word of an emitted body is a word of the EBNF items, and the body is empty only for a match that uses no symbol |
| `DesugarLanguage.BodiesComplete` | crates/radlr-core/grammar/build_grammar.rs:452-818 | every word of the EBNF items, for each choice of optionals and orderings, is derived by an emitted body |
| `DesugarLanguage.DesugaringSameLanguage` | crates/radlr-core/grammar/build_grammar.rs:383-818 | for every list of definitions, named symbol and word: the EBNF meaning holds exactly when the desugared rules derive the word, with token references as they stand or opened |
| `DesugarLanguage.EmptyRuleExactly` | crates/radlr-core/grammar/build_grammar.rs:408-412 | the empty-rule error is raised exactly when some alternative can be matched without any symbol |
| `DesugarLanguage.ProcessedNumbered` | crates/radlr-core/grammar/build_grammar.rs:573-586 | entry k of the sub-non-terminals has index k, groups refer to smaller indices and lists to smaller ones or themselves, and the rules only to existing entries |
| `Merge.MergeDefinitions` | crates/radlr-core/grammar/build_database.rs:33-79 | definitions of one non-terminal are collected into one entry, in order |
| `Merge.MergeInto` | crates/radlr-core/grammar/build_database.rs:54-74 | a later definition's rules and sub-non-terminals are renumbered past the existing ones and appended |
| `Merge.MergeTwoSound` | crates/radlr-core/grammar/build_database.rs:54-74 | merging keeps the numbering well founded |
| `Merge.MergeAllSound` | crates/radlr-core/grammar/build_database.rs:33-79 | after any number of merges every entry is well numbered, and each defined id has an entry |
| `Merge.MergingSameLanguage` | crates/radlr-core/grammar/build_database.rs:54-74 | merging one definition into another derives for every symbol what the two derive with their sub-non-terminals kept apart: no reference is captured or lost |
| `Appended.AltsAfter` | crates/radlr-core/grammar/build_grammar.rs:573-586 | alternatives processed behind any list of sub-non-terminals give the rules and sub-non-terminals that they give alone, renumbered past that list |
| `Appended.MergedIsWhole` | crates/radlr-core/grammar/build_database.rs:33-79 | for every list of definitions: merging the separately processed ones gives for each non-terminal exactly what processing all its definitions in one go gives |
| `AuthorGrammar.EnvWellFormed` | crates/radlr-core/grammar/build_grammar.rs:886-945 | whatever the author writes, desugaring and merging deliver non-terminals that are well numbered, with references in form and every mentioned or skipped terminal recorded, as the worklists need |
| `RuleShapes.RulesFitAuthor` | crates/radlr-core/grammar/build_grammar.rs:452-818 | what words do not show: after desugaring and merging every rule is made for one alternative of one definition and has its action and its file's skipped symbols, every symbol in it stands for an item, with the item's name and position, and every sub-non-terminal is a group or a list of the author whose rules are made likewise |
| `RuleShapes.ListActions` | crates/radlr-core/grammar/build_grammar.rs:715-765 | a rule of a list has the action that repeats the list exactly if it begins with the list itself, and otherwise the one that starts it; its symbols are numbered from 0 |
| `Renaming.RenamingSameLanguage` | crates/radlr-core/grammar/build_database.rs:41-52 | renaming symbols consistently, with rules carried along, preserves the language |
| `Inline.InlineGroups` | crates/radlr-core/grammar/build_database.rs:666-708 | the recursive rewriting of the outputs is the ordered Cartesian expansion, and it terminates on well-numbered candidates |
| `Inline.InlineGroupRules` | crates/radlr-core/grammar/build_database.rs:666-708 | the bodies put in for a group are the expansions of its rules in order |
| `Inline.AppendEach` | crates/radlr-core/grammar/build_database.rs:676-700 | each output so far is continued by each body of the group |
| `Inline.CandidatesFounded` | crates/radlr-core/grammar/build_database.rs:625-634 | the candidates of a well-numbered non-terminal refer to each other in a well-founded way, so inlining ends |
| `Inline.FullyExpanded` | crates/radlr-core/grammar/build_database.rs:636-708 | nothing that may be inlined is left in an expansion |
| `InlineActions.InlinableExactly` | crates/radlr-core/grammar/build_database.rs:625-634 | what may be inlined is exactly an unnamed reference to a group none of whose rules has an action |
| `InlineActions.InlinedFrom` | crates/radlr-core/grammar/build_database.rs:636-708 | every inlined rule keeps the action and the skipped symbols of a rule and stands for it symbol by symbol: exactly such references are replaced, by symbols without a position but for the last, which takes that of the reference; without inlining nothing changes |
| `Inline.ExpandForward` | crates/radlr-core/grammar/build_database.rs:666-708 | each derivation from a body is, no taller, one from an expansion of it |
| `Inline.ExpandBackward` | crates/radlr-core/grammar/build_database.rs:666-708 | whatever an expansion derives, the body derives |
| `Inline.InlinedRulesSameLanguage` | crates/radlr-core/grammar/build_database.rs:636-664 | inlined rules derive exactly what the rules derive, in any grammar that has the groups |
| `Inline.InliningSameLanguage` | crates/radlr-core/grammar/build_database.rs:636-708 | inlining in every rule of a grammar preserves the language of every symbol |
| `InlineActions.InliningKeepsActions` | crates/radlr-core/grammar/build_database.rs:625-708 | with a mark of any choice behind what each rule with an action derives, inlining keeps the marked words of every symbol: the same actions are applied in the same order to the same words |
| `AuthorLanguage.EnvLanguage` | crates/radlr-core/grammar/build_database.rs:15-180 | desugared, merged and inlined, every named symbol derives exactly the words that the author's definitions of it mean |
| `Inline.ExpandNotEmpty` | crates/radlr-core/grammar/build_database.rs:666-708 | inlining makes no empty body where there was none, as the reading of a rule's first symbol needs |
| `Inline.ExpandWithin` | crates/radlr-core/grammar/build_database.rs:666-708 | an expansion mentions no symbol that the body and the groups do not mention |
| `LeftRecursion.SameLanguage` | crates/radlr-core/grammar/build_database.rs:240-272 | turning rules into token form, with left recursion removed wherever it is found, derives the same words for every symbol, also when the recursive rest mentions the non-terminal again |
| `LeftRecursion.RulesKept` | crates/radlr-core/grammar/build_database.rs:243-300 | every scanner rule is made of a rule of the non-terminal, with or without the prime behind it, and keeps its action, its skipped symbols and the names and positions of its symbols |
| `LeftRecursion.GroupsSplit` | crates/radlr-core/grammar/build_database.rs:243-249 | the test for left-recursive rules splits the rules without losing or doubling one |
| `LeftRecursion.StillLeftRecursive` | crates/radlr-core/grammar/build_database.rs:240-301 | the emitted rules of a non-terminal are still immediately left recursive exactly when some rule begins with it in a form the test does not recognise |
| `LeftRecursion.NotLeftRecursive` | crates/radlr-core/grammar/build_database.rs:240-301 | with the queued id and the references in parser form, nothing stays left recursive |
| `LeftRecursion.PrimeLeftRecursive` | crates/radlr-core/grammar/build_database.rs:251-259 | the prime's rules are left recursive exactly when a left-recursive rule has nothing after its first symbol |
| `LeftRecursion.NoBaseRuleDerivesNothing` | crates/radlr-core/grammar/build_database.rs:248-249 | the error for a missing group is met only by a non-terminal that derives no word at all |
| `Spelling.SpelledLanguage` | crates/radlr-core/grammar/build_database.rs:724-762 | the scanner rules with their literals spelled derive exactly the spellings of the words that they derived before |
| `Spelling.SpellingTellsApart` | crates/radlr-core/grammar/build_database.rs:736-755 | different literals are spelled differently: their symbols are read back as the characters |
| `Spelling.ConvertSymRefs` | crates/radlr-core/grammar/build_database.rs:728-762 | each literal of the rules is replaced in place by one symbol for each of its characters |
| `Tables.Database.AddNontermAndRules` | crates/radlr-core/grammar/build_database.rs:604-623 | the next index, the next range of rule keys, one name and one state, those of the symbol; all tables stay aligned, scanner rules being held as they are spelled |
| `Tables.Database.InsertSymbol` | crates/radlr-core/grammar/build_database.rs:714-722 | a symbol gets the next index if it has none; no index changes |
| `Tables.ConvertIndexMapToVec` | crates/radlr-core/grammar/build_database.rs:710-712 | turning a dense index map around gives the vector of its keys in index order |
| `Tables.OwnerOfRule` | crates/radlr-core/grammar/build_database.rs:604-623 | the key ranges tile the rule table: key r lies in range i exactly when rule r is owned by i |
| `Tables.HoldsNext` | crates/radlr-core/grammar/build_database.rs:604-623 | inserting a non-terminal keeps the tables in agreement with the grammar they hold |
| `Tables.ConsistentNext` | crates/radlr-core/grammar/build_database.rs:604-623 | so do all tables at once: index map, order, ranges, rules, names and custom states |
| `ParserWorklist.ExtractSym` | crates/radlr-core/grammar/build_database.rs:562-597 | what a mentioned symbol puts on the queues and in the symbol map, and that it fails exactly for a token reference without non-terminal |
| `ParserWorklist.AddNonterminal` | crates/radlr-core/grammar/build_database.rs:117-180 | a non-terminal is indexed together with its sub-non-terminals, and everything its rules mention is queued or recorded |
| `ParserClosure.IndexParser` | crates/radlr-core/grammar/build_database.rs:114-202 | the worklist ends on every grammar, cyclic ones included, with its invariant, and fails only for a reachable defect |
| `ParserClosure.IndexedIffReachable` | crates/radlr-core/grammar/build_database.rs:114-202 | without errors the indexed non-terminals are exactly those reachable from the public ones, and all reached exist |
| `ParserClosure.NothingMissing` | crates/radlr-core/grammar/build_database.rs:114-202 | without errors every reached name is that of exactly one non-terminal or custom state, and none refers to a missing token |
| `ParserClosure.EmittedMentions` | crates/radlr-core/grammar/build_database.rs:114-180 | an emitted rule holds only symbols that its non-terminal mentions |
| `ParserClosure.ParserRulesClosed` | crates/radlr-core/grammar/build_database.rs:114-202 | every symbol of every emitted parser rule, skipped symbols included, has an index or is queued as a token |
| `TokenWorklist.InsertTokenNonterminal` | crates/radlr-core/grammar/build_database.rs:764-781 | every non-terminal of the rules is queued, and the rules are written in token form |
| `TokenWorklist.SpelledTokens` | crates/radlr-core/grammar/build_database.rs:289-296 | spelling literals first and writing references in token form then, or the other way round, gives the same rules and the same queue |
| `TokenWorklist.EmptyInEnv` | crates/radlr-core/grammar/build_database.rs:636-708 | a source has a rule without symbols only if the non-terminal itself, or one of its groups and lists, has one: inlining makes none |
| `TokenWorklist.FreshPrime` | crates/radlr-core/grammar/build_database.rs:241 | the prime's number never clashes with a symbol already in the tables |
| `TokenWorklist.AddPrimed` | crates/radlr-core/grammar/build_database.rs:243-288 | the rules of a left-recursive non-terminal and of its prime are added, spelled, and their references queued |
| `TokenWorklist.AddToken` | crates/radlr-core/grammar/build_database.rs:240-301 | one token non-terminal is added as specified, or the step stops exactly for an empty body or a missing base rule |
| `TokenWorklist.PopToken` | crates/radlr-core/grammar/build_database.rs:205-304 | a step keeps the invariant, makes progress, and errs or stops only for a token that is reached and has a defect |
| `TokenWorklist.IndexTokens` | crates/radlr-core/grammar/build_database.rs:205-308 | the worklist ends on every grammar with its invariant, each table entry being made for an id that reaches its symbol first; an error names a reached token that is missing, a stop one that has an empty rule or only recursive rules |
| `TokenClosure.PrimedIsParser` | crates/radlr-core/grammar/build_database.rs:764-791 | in a run of the worklists left recursion is found only for ids queued in parser form |
| `TokenClosure.TablesAreTokenForm` | crates/radlr-core/grammar/build_database.rs:205-308 | without errors the tables hold a token form of the inlined sources |
| `TokenClosure.ReachedIsMade` | crates/radlr-core/grammar/build_database.rs:205-308 | without errors every token reached from the parser's references is in the tables, with a source and without empty rules |
| `TokenClosure.TableLeftRecursive` | crates/radlr-core/grammar/build_database.rs:240-301 | an entry of the finished tables is immediately left recursive if and only if a rule of its source begins with it in a form not recognised for the id that it was made for |
| `TokenClosure.MakerForm` | crates/radlr-core/grammar/build_database.rs:764-782 | a symbol whose parser form is reached only by way of itself was made for another form |
| `ScannerFormRuns.StaysLeftRecursive` | crates/radlr-core/grammar/build_database.rs:240-301 | in every finished run on `S > tk:B`, `B > tk:A "z"`, `A > A "x" or "y"` the scanner rules of `A` begin with `A` |
| `ScannerFormRuns.ScannerFormRun` | crates/radlr-core/grammar/build_database.rs:205-304 | the run on that grammar succeeds, and the tables hold the left-recursive rules |
| `TokenClosure.TokenSameLanguage` | crates/radlr-core/grammar/build_database.rs:205-308 | a token non-terminal of the finished tables derives exactly what its source derives |
| `TokenClosure.ScannerRulesClosed` | crates/radlr-core/grammar/build_database.rs:205-308 | every reference in every scanner rule is indexed and in token form |
| `GrammarDatabase.IndexTerminals` | crates/radlr-core/grammar/build_database.rs:310-378 | every terminal symbol gets a scanner non-terminal with its rule, literals spelled, and nothing else changes |
| `GrammarDatabase.TerminalLanguage` | crates/radlr-core/grammar/build_database.rs:310-372 | the scanner non-terminal of a terminal derives exactly the spelling of the terminal |
| `GrammarDatabase.ConversionRoundTrip` | crates/radlr-core/grammar/build_database.rs:531-560 | a convertible symbol is converted into its own form: in a parser rule a token reference leads to the rules of the token and to its symbol, if it has one, in a scanner rule to its rules, and the indices lead back to the symbol |
| `GrammarDatabase.OwnTellsApart` | crates/radlr-core/grammar/build_database.rs:531-560 | a converted symbol tells which symbol it was made from, and each symbol has one converted form |
| `GrammarDatabase.ConvertBodySymbols` | crates/radlr-core/grammar/build_database.rs:512-529 | the symbols of a body are converted in order, each into its own form, which tells the symbol |
| `GrammarDatabase.ConvertRuleSymbolIds` | crates/radlr-core/grammar/build_database.rs:512-529 | every rule of the table is converted into one that stands for it |
| `BuildDatabase.RuleInMade` | crates/radlr-core/grammar/build_database.rs:604-623 | a rule of the table belongs to the symbol that its owner index names |
| `BuildDatabase.EverythingConvertible` | crates/radlr-core/grammar/build_database.rs:531-560 | after both worklists and the terminals no lookup of the symbol conversion is missing |
| `BuildDatabase.DatabaseFinished` | crates/radlr-core/grammar/build_database.rs:86-395 | the finished tables index what is reachable, hold the inlined parser rules, and hold a token form of the sources |
| `BuildDatabase.DoneIsClean` | crates/radlr-core/grammar/build_database.rs:114-308 | without errors everything reached in either phase is there, and no reached token has an empty rule or, unless another form of it came first, only recursive rules |
| `BuildDatabase.IndexBoth` | crates/radlr-core/grammar/build_database.rs:114-308 | both worklists, one after the other, leave the invariants of both, or something that is reached has a defect |
| `BuildDatabase.BuildCompileDb` | crates/radlr-core/grammar/build_database.rs:86-376 | the whole construction: refused only for a defect of something reached; if it succeeds, the database is finished, every converted rule stands for its rule, every terminal has its scanner, and every index has its own name and the state that was written for it |
| `AuthorLanguage.ParserLanguage` | crates/radlr-core/grammar/build_database.rs:15-376 | end to end: by the parser rules in the finished tables every reachable non-terminal derives exactly the words that the author's definitions of it mean |
| `AuthorLanguage.ParserActions` | crates/radlr-core/grammar/build_database.rs:15-202 | end to end from desugaring: the parser rules in the finished tables apply the same actions, in the same order and to the same words, as the rules made of the author's alternatives |
| `AuthorLanguage.TokenLanguage` | crates/radlr-core/grammar/build_database.rs:15-376 | end to end: by the scanner rules in the finished tables every token of the parser derives exactly the spellings of the words that the author's definitions of it mean with tokens opened |
| `AuthorLanguage.CompileGrammar` | crates/radlr-core/grammar/compile.rs:68-97 | from definitions to tables: the empty-rule error exactly if some definition has it, otherwise an environment made of all definitions and the outcome of the construction on it |
| `HashTable.WordFields` | crates/radlr-bytecode/build_bytecode.rs:524-555 | masking and shifting a packed word reads its key, offset and biased link |
| `HashTable.PackedWord` | crates/radlr-bytecode/build_bytecode.rs:524 | the word written for a new cell is an unlinked cell and never the free word |
| `HashTable.RelinkedWord` | crates/radlr-bytecode/build_bytecode.rs:552-553 | relinking a cell keeps its key and offset |
| `HashTable.DistributeWords` | crates/radlr-bytecode/build_bytecode.rs:506-528 | the first pass fills the home slots in place and collects the leftover pairs |
| `HashTable.FindTail` | crates/radlr-bytecode/build_bytecode.rs:535-546 | the walk over links ends at the tail of the chain |
| `HashTable.AppendWord` | crates/radlr-bytecode/build_bytecode.rs:534-559 | a leftover pair is put in the first free slot and linked to the tail of its chain |
| `HashTable.TableComplete` | crates/radlr-bytecode/build_bytecode.rs:496-559 | for 1 to 512 pairs every leftover finds a slot, every slot ends up full, and the chains are acyclic, apart and each within one hash class |
| `HashTable.TableCellsFit` | crates/radlr-bytecode/build_bytecode.rs:517-523 | all keys, offsets and links of the finished table fit their bit fields |
| `HashTable.BuildTable` | crates/radlr-bytecode/build_bytecode.rs:500-559 | for any pairs, 1 to 512 of them, the two passes over the array build the words of the specified table, keys and offsets cut to their fields |
| `HashTable.LookupCorrect` | crates/radlr-bytecode/build_bytecode.rs:496-559 | the chain walk of the parser, begun at the key modulo a power of two, ends with the map's offset for a present key and with a miss for an absent one |
| `HashTable.BuiltExactly` | crates/radlr-bytecode/build_bytecode.rs:496-559 | for any pairs with different keys, 1 to 512 of them: the table built refines their map if and only if all keys and offsets fit 11 bits, as debug builds assert for some of them |
| `HashTable.WideOffsetLost` | crates/radlr-bytecode/build_bytecode.rs:524 | an offset of 0x800 is lost: the table built for one such pair does not refine its map |
| `HashTable.FarLinkWraps` | crates/radlr-bytecode/build_bytecode.rs:552-553 | a link of 512 slots or more, as a longer table may need, is read back as one that points before the table |
| `Bytecode.DecodeEncode` | crates/radlr-rust-runtime/types/bytecode.rs:381-535 | reading at the address of an encoded instruction gives back the instruction |
| `CompileCorrect.OpActs` | crates/radlr-rust-runtime/kernel/parser_new.rs:43-97 | the opcode written for a move makes the parser do that move, the opcodes being read by their numbers |
| `CompileCorrect.KindIsRead` | crates/radlr-rust-runtime/types/bytecode.rs:628-645 | the kind number and the scanner written for a match make the parser read that kind of input, or scan for a token at that address |
| `CompileCorrect.KindsWritten` | crates/radlr-rust-runtime/types/bytecode.rs:628-645 | the kinds of input that the parser reads are exactly those that the builder writes |
| `Ir.ArmFor` | crates/radlr-bytecode/build_bytecode.rs:425-433 | the earliest source branch that lists an id is the one chosen |
| `Ir.RunStays` | crates/radlr-bytecode/build_bytecode.rs:254-396 | the meaning of a statement is defined on every input and never leaves the statement |
| `Compile.FindAllInserted` | crates/radlr-bytecode/build_bytecode.rs:485-488 | inserting ids overwrites: the branch compiled last, which is the earliest in the source, wins |
| `CompileCorrect.TableLookup` | crates/radlr-bytecode/build_bytecode.rs:496-559 | looking a value up in the emitted table gives what the map of the blocks gives |
| `CompileCorrect.TableRuns` | crates/radlr-bytecode/build_bytecode.rs:481-585 | running a table match runs the earliest branch listing the value, otherwise the first default, otherwise fails |
| `CompileCorrect.SequenceRuns` | crates/radlr-bytecode/build_bytecode.rs:448-479 | running a byte-sequence match runs its block if the bytes lie ahead, otherwise its default |
| `CompileCorrect.EmitRuns` | crates/radlr-bytecode/build_bytecode.rs:254-588 | decoded at any address and nesting depth, the code of a statement means the statement on every input: the statement's own moves, reductions, pops, pushes and reads are those that the parser does at the numbers of the opcodes |
| `CompileBytes.BytesLoaded` | crates/radlr-bytecode/build_bytecode.rs:254-588 | encoded code lying anywhere in the bytes is read back from there |
| `CompileBytes.CompiledMeans` | crates/radlr-bytecode/build_bytecode.rs:254-588 | the same for the raw bytes: running them is running the statement |
| `CompileBytes.NoFallThrough` | crates/radlr-bytecode/build_bytecode.rs:380-393 | the bytes of a statement that is sound where it is compiled never run out of themselves, and what they do depends neither on their address nor on the bytes around them |
| `FallThrough.FlatStaysInside` | crates/radlr-bytecode/build_bytecode.rs:380-393 | behind any last byte, a block without a match stays inside its bytes if and only if it is non-empty, or lies behind an open byte, and its last byte is no sentinel opcode |
| `FallThrough.SentinelExactly` | crates/radlr-bytecode/build_bytecode.rs:380-393 | the final PASS is left out behind exactly those opcodes after which the parser never goes on, except behind a fork |
| `FallThrough.StaysInsideExactly` | crates/radlr-bytecode/build_bytecode.rs:380-393 | behind any last byte, every block of a statement, those of nested matches and their defaults included, stays inside its bytes if and only if the statement is sound there |
| `FallThrough.TokenIdTakenForPass` | crates/radlr-bytecode/build_bytecode.rs:380-393 | a token id with high byte 1 is taken for the end of the block |
| `FallThrough.EmptyBlockRunsNext` | crates/radlr-bytecode/build_bytecode.rs:380-393 | an empty block gets no bytes, so its value runs the block behind it |
| `Assembler.ProxyTable.GetProxyAddress` | crates/radlr-bytecode/build_bytecode.rs:398-402 | a known name keeps its number, a new one gets the next |
| `Assembler.ProxyTable.Bijection` | crates/radlr-bytecode/build_bytecode.rs:398-402 | the numbers are exactly 0..n, each of one name |
| `Assembler.BuildHead` | crates/radlr-bytecode/build_bytecode.rs:263-333 | the code of the shift, the reductions and the pops is appended |
| `Assembler.BuildGotos` | crates/radlr-bytecode/build_bytecode.rs:344-373 | the code of pushes, goto and fork is appended, with the proxies entered in that order |
| `Assembler.CloseBlock` | crates/radlr-bytecode/build_bytecode.rs:380-393 | PASS is appended exactly when the last byte is no sentinel opcode |
| `Assembler.BuildStatement` | crates/radlr-bytecode/build_bytecode.rs:254-396 | the method appends exactly the specified code and enters exactly the specified names |
| `Assembler.FindDefault` | crates/radlr-bytecode/build_bytecode.rs:425-433 | the reversed scan leaves the first default of the source |
| `Assembler.BuildBlocks` | crates/radlr-bytecode/build_bytecode.rs:481-494 | the blocks are built from the last branch to the first, with the map into them |
| `Assembler.BuildTableInstr` | crates/radlr-bytecode/build_bytecode.rs:496-559 | the header and cells of the table instruction are those of the specification |
| `Assembler.BuildTableMatch` | crates/radlr-bytecode/build_bytecode.rs:481-585 | a table match appends its instruction, blocks and default |
| `Assembler.BuildSequence` | crates/radlr-bytecode/build_bytecode.rs:448-479 | a byte-sequence match appends its instruction, block and default |
| `Assembler.BuildMatch` | crates/radlr-bytecode/build_bytecode.rs:404-588 | a match of any kind appends exactly its specified code |
| `Link.SetU32` | crates/radlr-rust-runtime/types/bytecode.rs:527-535 | writing a number changes exactly its four bytes |
| `Link.SetGotoAddress` | crates/radlr-bytecode/build_bytecode.rs:235-239 | the proxy number at an offset is replaced by its entry of the table; fails exactly when the bytes or the table end before |
| `Link.LinkInstruction` | crates/radlr-bytecode/build_bytecode.rs:124-152 | on any bytes, one step of the sweep: what is written, how far it moves, and when it ends the program |
| `Link.RemapGotoAddresses` | crates/radlr-bytecode/build_bytecode.rs:120-154 | on any bytes and table the loop computes the specified sweep, or ends the program exactly where that does |
| `Link.StepLinks` | crates/radlr-bytecode/build_bytecode.rs:126-151 | at an instruction other than a fork the step writes the address into its slot, if it has one, changes no other byte and moves by its length |
| `Link.ForkLinks` | crates/radlr-bytecode/build_bytecode.rs:142-149 | at a fork of n paths the step writes all n addresses, but moves by 7 + n where the fork takes 3 + 4n bytes |
| `Link.LinkedExactly` | crates/radlr-bytecode/build_bytecode.rs:120-154 | for every program, forks included: the sweep writes each address into its slot, changes nothing else and gets to the end, if and only if behind each fork it gets back on track |
| `LinkForks.BackIsLinked` | crates/radlr-bytecode/build_bytecode.rs:142-149 | if the walk over the linked addresses of every fork, from where the step lands, gets back without meeting a write, the program is linked exactly, whatever its size |
| `LinkForks.LoudIsFatal` | crates/radlr-bytecode/build_bytecode.rs:142-149 | in a program of fewer than 2^16 bytes a write met by that walk leaves bytes that are not mended |
| `LinkForks.ShortLinkedExactly` | crates/radlr-bytecode/build_bytecode.rs:120-154 | in such a program, if no walk leads past its fork, linking is exact if and only if every walk gets back: the addresses of the paths decide |
| `Program.BuildStates` | crates/radlr-bytecode/build_bytecode.rs:82-94 | the states are compiled in order, forking ones included, and their addresses remembered |
| `Program.TableAgrees` | crates/radlr-bytecode/build_bytecode.rs:96-103 | every proxy number met leads to the address of the state that it stands for |
| `Program.LinkableExactly` | crates/radlr-bytecode/build_bytecode.rs:96-105 | a built program is linked exactly if and only if it is linkable |
| `Program.ForkFreeLinkable` | crates/radlr-bytecode/build_bytecode.rs:96-105 | a program without forks is linkable |
| `Program.LinkableByAddresses` | crates/radlr-bytecode/build_bytecode.rs:96-105 | a program of any size is linkable if the walks over the addresses of all its forks get back |
| `Program.LinkableByAddressesExactly` | crates/radlr-bytecode/build_bytecode.rs:96-105 | a program of fewer than 2^16 bytes whose walks stay at their forks is linkable if and only if all walks get back, which the addresses of its states tell |
| `Program.CompileBytecode` | crates/radlr-bytecode/build_bytecode.rs:35-117 | the method returns the swept bytes of the whole program and the addresses of its states, or nothing exactly where the sweep ends the program |
| `Program.ProgramMeans` | crates/radlr-bytecode/build_bytecode.rs:35-117 | end to end: in a linkable program, forks included, running the linked bytes at a state's address is running the state's statement, every name standing for its own address |
| `Program.StateStaysExactly` | crates/radlr-bytecode/build_bytecode.rs:82-94 | every block of a state stays inside its own bytes if and only if the state is sound behind a sentinel, behind which every state is compiled |
| `ForkPrograms.ThirdPathStops` | crates/radlr-bytecode/build_bytecode.rs:142-149 | three states, one forking to all three: its third path leads to the state at 17, whose low byte reads as GOTO, and the compiler ends without a result |
| `ForkPrograms.FourthPathOverwrites` | crates/radlr-bytecode/build_bytecode.rs:142-149 | with a fourth path to a name without a state the compiler succeeds, and the linked program forks to a wrong address |
| `Scalars.ScalarOrderTotal` | crates/radlr-ascript/types/ast_types.rs:412-598 | the order of scalar types is total and equates only equal scalars |
| `Scalars.KindsAscend` | crates/radlr-ascript/types/ast_types.rs:412-434 | the order of the kinds of scalars, from U8 to the undefined type; structs and unions are ordered by their number |
| `Scalars.AggregateOrderTotal` | crates/radlr-ascript/types/ast_types.rs:621-676 | the order of aggregate types is total |
| `Scalars.TypeOrderTotal` | crates/radlr-ascript/types/ast_types.rs:82-115 | the order of types is total |
| `Scalars.OrderMatchesEquality` | crates/radlr-ascript/types/ast_types.rs:82-144 | order and equality agree exactly on scalars and aggregates; an undefined type and a non-terminal's type equal nothing |
| `Unions.Search` | crates/radlr-ascript/build_db.rs:66-79 | the breadth-first search from a union collects exactly the scalars it reaches in the original table, though earlier entries are already overwritten |
| `Unions.SearchLeads` | crates/radlr-ascript/build_db.rs:66-83 | when the search ends, every union on a path from its start that does not go on from one flattened before is visited |
| `Unions.Flatten` | crates/radlr-ascript/build_db.rs:65-84 | every union is flattened in place to exactly the scalars reachable in the original, possibly cyclic, graph, and lists as convertible exactly the other unions that a path of member unions leads to, not going on from one flattened before |
| `Unions.MergeOne` | crates/radlr-ascript/build_db.rs:86-110 | a union with an equal one of smaller owner is pointed to it, with all that pointed to it |
| `Unions.RemoveOwn` | crates/radlr-ascript/build_db.rs:112-114 | no root keeps a union that points to it among its conversions |
| `Unions.MergeEqual` | crates/radlr-ascript/build_db.rs:86-115 | at the end every root is the least of its class; nothing listed is lost or new: what a union listed is listed with its root, unless it has the same root |
| `Unions.ResolveMultiTypes` | crates/radlr-ascript/build_db.rs:63-116 | the whole resolution: closures of the original graph, least roots, and each union outside a class that a path leads to from a union of the class is listed with its root, and no other |
| `Unions.RepresentativesAreClasses` | crates/radlr-ascript/build_db.rs:86-115 | two unions share a representative exactly when their sets are equal; it has the least owner and represents itself |
| `Unions.ConversionsSound` | crates/radlr-ascript/build_db.rs:66-114 | a union listed as convertible into a representative holds strictly fewer scalars, all of them the representative's |
| `Unions.ConversionsExactly` | crates/radlr-ascript/build_db.rs:63-116 | convertible into a representative are exactly the unions of other classes that such a path leads to from a union of its class |
| `Unions.MemberConverts` | crates/radlr-ascript/build_db.rs:63-116 | a union that the author's types name as a member of another is convertible into its representative, unless it is of the same class |
| `Unions.OneEnumPerClass` | crates/radlr-ascript/types/multi.rs:47-99 | exactly one enum is emitted per class, with the class's scalars, and conversions from exactly the unions of other classes that a path leads to, each with strictly fewer scalars |
| `TypeJoin.JoinAligned` | crates/radlr-ascript/build_db.rs:1537-1707 | every join keeps index and union table of one length, with one union per owner, and only lets unions grow |
| `TypeJoin.CoverageStays` | crates/radlr-ascript/build_db.rs:1537-1707 | later joins take no coverage away |
| `TypeJoin.JoinCovers` | crates/radlr-ascript/build_db.rs:1592-1676 | a successful join of scalars covers both operands exactly unless a 64-bit number is too wide for the result |
| `TypeJoin.JoinLeast` | crates/radlr-ascript/build_db.rs:1592-1676 | two plain scalars become a union of just the two exactly if no one scalar type stands for both, and otherwise the least that does, the tables staying as they are |
| `TypeJoin.JoinAddsOnly` | crates/radlr-ascript/build_db.rs:1592-1707 | a join changes no union but the target's, which takes nothing but the two scalars |
| `TypeJoin.TypesCover` | crates/radlr-ascript/build_db.rs:1537-1685 | the same for all types, vectors and maps included, and the result is again a type of the tables, so joins can follow each other |
| `TypeJoin.UnsignedDoesNotFit` | crates/radlr-ascript/build_db.rs:1592-1605 | U64 joined with I8 succeeds, and the result I64 does not cover U64 |
| `TypeJoin.SignedDoesNotFit` | crates/radlr-ascript/build_db.rs:1592-1605 | I64 joined with F32 succeeds, and the result F64 does not cover I64 |
| `TypeJoiner.TypeTables.CreateUnion` | crates/radlr-ascript/build_db.rs:1687-1707 | a target's union is extended, or a new one is pushed to both tables |
| `TypeJoiner.TypeTables.ResolveUnions` | crates/radlr-ascript/build_db.rs:1607-1640 | joining two unions, in place when one belongs to the target |
| `TypeJoiner.TypeTables.ResolveUnion` | crates/radlr-ascript/build_db.rs:1641-1651 | joining a union with a plain scalar |
| `TypeJoiner.TypeTables.GetResolvedType` | crates/radlr-ascript/build_db.rs:1537-1685 | the recursive method over the mutable tables computes the specified join |
| `Templates.Survey` | crates/radlr-ascript/build_db.rs:186-202 | the structs queued first are those that carry a token or have a property that asks for a template, and the lookup knows exactly the containers of each struct |
| `Templates.TypeStructsExactly` | crates/radlr-ascript/types/ast_types.rs:398-410 | the structs found in a type are those that it holds: itself, as the element of a vector or the value of a map, or as a member of the union there |
| `Templates.TypeNeedsExactly` | crates/radlr-ascript/types/ast_types.rs:388-396 | a type asks for a template exactly when it holds, or has as the key of a map, a token or a marked struct |
| `Templates.StructTable.ResolveStructDefinitions` | crates/radlr-ascript/build_db.rs:186-215 | the worklist ends on recursive structs and marks exactly the structs that carry a token or reach one through property types |
| `Templates.MarkedTypeNeeds` | crates/radlr-ascript/types/ast_types.rs:388-396 | once marked, a type asks for a template exactly when it holds, or has as the key of a map, a token or a struct that carries one |
| `Templates.MapKeysDoNotCount` | crates/radlr-ascript/types/ast_types.rs:651-662 | a struct that is only a map key does not mark the struct that has the map |
| `InternedStrings.FromBytes` | crates/radlr-core/types/istring.rs:170-198 | the bytes are copied in place, or the hash is marked, giving the specified token |
| `InternedStrings.SmallToStr` | crates/radlr-core/types/istring.rs:150-168 | the scan returns the bytes before the first NUL |
| `InternedStrings.EqualAsNumbers` | crates/radlr-core/types/istring.rs:82-119 | comparing tokens as 64-bit numbers is comparing their bytes |
| `InternedStrings.InlineNeverStored` | crates/radlr-core/types/istring.rs:121-126 | an inline token never is the token of a stored string |
| `InternedStrings.SameTokenExactly` | crates/radlr-core/types/istring.rs:170-198 | two strings get one token exactly when both are inline and differ in trailing NULs at most, or both are stored with equal marked hashes |
| `InternedStrings.TrailingNulLost` | crates/radlr-core/types/istring.rs:170-198 | "a" and "a" followed by a NUL get one token |
| `InternedStrings.TokensAgreeWithStrings` | crates/radlr-core/types/istring.rs:170-198 | for NUL-free strings tokens agree with string equality exactly when the hashes do not clash |
| `InternedStrings.ReadsBackExactly` | crates/radlr-core/types/istring.rs:142-168 | a token reads back as its string exactly when it is stored under it, or is inline and NUL-free |
| `InternedStrings.IStringStore.InternToken` | crates/radlr-core/types/istring.rs:23-41 | a bound token is left alone, any other is bound |
| `InternedStrings.IStringStore.Intern` | crates/radlr-core/types/istring.rs:209-218 | strings of more than seven bytes are stored, the first one under a token staying |
| `InternedStrings.IStringStore.ToStr` | crates/radlr-core/types/istring.rs:142-148 | a small token is read from itself, a large one from the store |
| `InternedStrings.BindingsStayExactly` | crates/radlr-core/types/istring.rs:23-41 | over every interleaving of any number of threads no stored binding ever changes, exactly when no two strings clash |
| `InternedStrings.ClashOverwrites` | crates/radlr-core/types/istring.rs:23-41 | with a clash, two checks before either write replace a binding |
| `InternedStrings.InternedReadsBack` | crates/radlr-core/types/istring.rs:23-41 | whatever any thread has interned reads back in every later state, unless it is inline and holds a NUL |
| `InternedStrings.AloneInternsAtOnce` | crates/radlr-core/types/istring.rs:23-41 | an undisturbed check and write amount to the sequential method |

## Left out

- DesugarBuilder.NonTermData.ProcessRuleSymbols: templates and token groups
  (`crates/radlr-core/grammar/build_grammar.rs:591-707`) are replaced by a reference to a further definition; here
  that reference is a symbol with a name of its own, and the definition one more of the author's.
- The refusal of unordered sets with more than five members (`crates/radlr-core/grammar/build_grammar.rs:505-507`):
  the model orders sets of any size, so the theorems include those that the source accepts.
- Precedences, locations, friendly names and the bodies of AST functions are carried as opaque data or dropped.
- Entry points, export lists and token display names of the database.
- Numbers made by hashing (non-terminal ids, terminal ids, the test for equal rules): taken to be injective, and the
  ids of terminals apart from those of non-terminals.
- Sub-non-terminal indices of 9000 and more: a prime is numbered from 9000 on, so the model asks for fewer. The empty
  literal, which debug builds refuse, is spelled as no symbol.
- A rule with an empty body makes the source read past the end of its symbols; the model stops with an outcome of its
  own instead, and so it does for a token non-terminal without base rule.
- LinkForks.ShortLinkedExactly: programs of fewer than 2^16 bytes, and walks that do not lead past their fork into the
  code behind it; for all others `Link.LinkedExactly` follows the sweep through that code too, and is exact.
- HashTable.LookupCorrect: at most 512 entries, as the links of longer tables may not fit (`HashTable.FarLinkWraps`),
  and keys and offsets of at most 0x7FF; beyond these `HashTable.BuiltExactly` says that the lookup fails. The compiled
  program as a whole is followed for tables that fit, and for fewer than 2^24 names, so that the high byte of a proxy
  number is never taken for an opcode.
- Input kinds of a dispatch other than those that the runtime knows, and a table length whose bytes exceed 32 bits.
- Debug symbols and the lookup from addresses to source positions.
- Vector branches and exception handlers: the runtime reads them, the compiler shown never writes them.
- How input is read, matched against a scanner and consumed: a run takes the sequence of values that the dispatches
  read; what else instructions do is an event. A code point that cannot be read is such an event.
- `f64::log2` is the exact floor of the binary logarithm.
- AST graph nodes and literal payloads of scalar types (`Option` values inside numbers and booleans): the order and
  equality of types do not look at them.
- Joins that end in `todo!` or in an error are the outcomes `Unhandled` and `Incompatible`, about which nothing is said.
- The hash of strings is an arbitrary function; a poisoned lock, which ends the program, is not modelled.
- UTF-8 validity of interned bytes.
- State graph construction, IR optimisation, the formatter and the command line are not part of this model.
