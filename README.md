# queryparser.js scan engine, in Dafny

This project models the context-switching scanner of `queryparser.js`. It proves what that scanner guarantees.

A `Query` holds a table of named lexer types. Each lexer type is an ordered list of rules, and each rule carries the flags `skiptoken`, `notext`, `sublexer`, `nextlexer` and `end`.

`buildLexers` compiles every lexer type once into a registry of lexers. `parse` then scans a query. At each iteration:
- The active lexer returns the first listed rule that matches at the start of the remaining input.
- A token is created and linked to the current token. It is pushed on the current token's children unless the rule is `skiptoken`.
- It captures and consumes the matched text unless the rule is `notext`.
- Its text is appended to every ancestor.
- The `nextlexer`, `sublexer` and `end` flags are applied, in that order.

When the input runs out, `parse` returns the root token.

Modules:
- `Base`: the `Option` and `Result` datatypes.
- `Grammar`: rules, lexer types and the registry a build produces. It also holds the `lexerTypes` table as data (names and flags only) and its well-formedness.
- `Moo`: the part of the moo tokenizer the scanner relies on. A rule's pattern is an abstract test that reports the length of the prefix it matches. `FirstMatch` picks the first listed rule that matches.
- `Engine`: the loop as functions over a snapshot of its variables (`State`):
  - the remaining input;
  - the active lexer type;
  - the current token;
  - the tree, a sequence of tokens in creation order, with the root at index 0 and parents as indices.

  `Emit` creates one token, `Transition` applies the flags and `Step` is one iteration. `Loop` is a `while (remainingString.length)` loop over any iteration function; `Run` is that loop with `Step`. `ParseWith` is `parse` once the lexers are built. It returns every token created, in creation order, with the root at index 0. That includes `skiptoken` tokens, which the code's root token cannot reach, since they are never pushed on a `children` list; the part the root reaches is what `ChildrenExact` describes.
- `ScanProperties`: lemmas about `Engine`:
  - consumption, visibility, the stored lexer type and text propagation for one token;
  - each transition and each failure of one iteration;
  - the loop invariant: text conservation, ancestor accumulation and exact children lists;
  - depth bookkeeping;
  - induction over the loop: what every iteration keeps holds at the end, and every failure of the loop is a failure of one iteration;
  - that a well-formed table never names an unknown lexer type.
- `QueryParser`: the `Query` class. Its fields are `lexerTypes`, `lexers`, `isBuilt` and `renamed`. `BuildLexers` is a method with the build loop. `Parse` builds when needed and calls `ScanQuery`, the method with the scan loop; `Iterate`, `NewToken` and `AddToAncestors` are the loop body. They are proved equal to the `Grammar` and `Engine` functions above, so every lemma of `ScanProperties` applies to them. `RebuildThenParse` follows a second build of a built query into the next parse.
- `ScanExamples`: two worked scans in which the input runs out while a context is still open, and the parse still returns the root. Each is stated for any registry that holds the lexer types it visits, and the `@` scan is also instantiated at the registry built from the `lexerTypes` table.

Foreign parts become parameters:
- `moo.compile` is a `Compiler` (a lexer type to an optional failure cause).
- moo's matching is a `PatternMatch`.
- The loop's iteration bound is `fuel`.

Facts about the code that the model keeps:
- The code has no unterminated-context failure: when the input runs out, `parse` returns the root even if the current token is still nested.
- A token's stored lexer type is its `sublexer` type if it has one. Otherwise it is the lexer type active when the token was created.
- Popping past the root and naming an unknown lexer type both fail. In the code, each is a dereference of `null` or `undefined`.
- `buildLexers` renames every lexer type it compiles in place (lines 107-114), so a later build of the same query fails at the first lexer type. `renamed` records how many types were renamed, and `Rebuilt` is that failure.
- With no match, the code's failure is moo's own error, thrown inside `next()` (line 148); the check at line 152 is never reached. The model reports this failure as `SyntaxError` carrying the remaining input and the current token's lexer type, the payload of the message at line 152.

## Model

| member | source | states |
|---|---|---|
| Grammar.RegistryOf | queryparser.js:92-112 | the registry has exactly the table's keys, and each key maps to the rules of a lexer type of that name |
| Grammar.RegistryLookup | queryparser.js:107-112 | with distinct keys, every lexer type's name maps to exactly that type's rules |
| Grammar.LexerTypesWellFormed | queryparser.js:11-84 | in the `lexerTypes` table: the keys are distinct; in every lexer type the rule names are distinct; no rule sets both `sublexer` and `nextlexer`; every `sublexer`/`nextlexer` names a key of the table; every `notext` rule also has `sublexer` or `end`; no rule is named `name`, `lexer`, `toString` or `inspect`, the keys the build overwrites |
| Moo.FirstMatch | queryparser.js:145-149 | a hit is a rule of the active lexer type whose pattern matches a prefix of the input of the reported length, and no earlier rule matches; there is no hit exactly when no rule matches |
| Moo.FirstListedWins | queryparser.js:99-101 | when rule `i` matches and no earlier rule does, rule `i` is chosen whatever later rules would match |
| Engine.Propagate | queryparser.js:175-179 | the walk up the parent chain keeps the number of tokens and changes nothing but their texts |
| Engine.Emit | queryparser.js:155-179 | creating a token adds exactly one token, keeps the tree shaped (root at 0, parents created first), and leaves the active lexer type and current token as they were |
| Engine.Transition | queryparser.js:181-199 | an accepted transition keeps the input and the tree, leaves a valid current token, and only switches to or descends into compiled lexer types |
| Engine.Step | queryparser.js:144-200 | one iteration keeps the loop variables valid; it fails only with a syntax error, an unknown lexer type or a pop past the root |
| Engine.Loop | queryparser.js:144-200 | a loop that ends normally has used up the whole input, and its final variables are among those its iteration keeps |
| Engine.StepOf | queryparser.js:144-200 | the iteration of the scan loop is defined on every valid set of loop variables and a successful one leaves them valid |
| Engine.Run | queryparser.js:144-200 | a loop that ends normally has used up the whole input and leaves valid loop variables |
| Engine.Captured | queryparser.js:168-172 | a token's own captured text is a prefix of what it matched; it is empty for a `notext` rule, and only a `notext` rule captures less than its whole match |
| Engine.StartName | queryparser.js:124 | the starting name is never empty: the given name when there is one, else `selectors` |
| Engine.Root | queryparser.js:130-142 | the root has no parent, no captured text and stores the starting lexer type; on its own it is a well-shaped tree with exact accumulation and children lists |
| Engine.ParseWith | queryparser.js:124-206 | an uncompiled starting type fails and is named; a success returns a well-shaped tree of every token created (root at 0, `skiptoken` tokens included); its properties are stated by `ParseSound`, `ParseDepth` and `ParseUnknownStart` |
| Engine.Start | queryparser.js:124-143 | the start fails exactly when the starting lexer type (default `selectors`) is not compiled; otherwise the loop invariant holds for the root alone |
| ScanProperties.PropagateEffect | queryparser.js:175-179 | the text is appended to the starting token and to exactly its ancestors |
| ScanProperties.RootIsAncestor | queryparser.js:155-163 | the root is an ancestor of every other token |
| ScanProperties.EmitEffect | queryparser.js:155-179 | the whole new tree after one token: the new token's rule, match, text, parent, empty children and stored lexer type; each older token's text extended exactly when it is the current token or an ancestor of it; the current token's children extended unless `skiptoken`; nothing else changed; the input consumed unless `notext` |
| ScanProperties.EmitConsumes | queryparser.js:168-174 | a `notext` token's text is empty and the input is unchanged; otherwise the token's text is the matched prefix and the input loses exactly that prefix |
| ScanProperties.EmitVisibility | queryparser.js:165-167 | the new token is appended to the end of the current token's children exactly when its rule is not `skiptoken`, and no other children list changes |
| ScanProperties.EmitStoresLexer | queryparser.js:155-163 | the new token stores its `sublexer` type if it has one, else the lexer type active when it was created; older tokens keep theirs |
| ScanProperties.EmitPropagates | queryparser.js:175-179 | the captured text is appended to the current token and all its ancestors and to no other token |
| ScanProperties.EmitConserves | queryparser.js:168-179 | text conservation (`rootToken.text + remainingString == query`) survives every new token |
| ScanProperties.EmitAccumulatesAt | queryparser.js:175-179 | after a new token, every older token's text is still its captured text followed by its descendants' captured texts |
| ScanProperties.EmitAccumulates | queryparser.js:165-179 | ancestor accumulation survives every new token: each token's text is its own captured text followed by that of every later token beneath it, `skiptoken` tokens included |
| ScanProperties.EmitKeepsChildrenAt | queryparser.js:165-167 | after a new token, every older token's children list is still exactly its non-`skiptoken` children |
| ScanProperties.EmitKeepsChildren | queryparser.js:165-167 | every children list stays exactly the non-`skiptoken` tokens whose parent it is, in creation order |
| ScanProperties.StepKeepsInvariant | queryparser.js:144-200 | one iteration keeps text conservation, ancestor accumulation and exact children lists |
| ScanProperties.RunKeepsInvariant | queryparser.js:144-200 | the whole loop keeps that invariant |
| ScanProperties.RunKeepsRoot | queryparser.js:129-143 | the loop never replaces the root token's rule |
| ScanProperties.ParseSound | queryparser.js:121-207 | a successful parse returns a tree rooted at the `root` token; the root's text is the whole query; every token's text accumulates its descendants'; every children list is exact |
| ScanProperties.StepFailures | queryparser.js:147-199 | an iteration fails with the remaining input and the current token's lexer type exactly when no rule matches; it fails with an unknown lexer type exactly when the matched rule names an uncompiled one; it fails as unbalanced exactly when an `end` rule without `sublexer` fires at the root; otherwise it succeeds |
| ScanProperties.StepTransition | queryparser.js:181-199 | `nextlexer` only switches the active lexer type; `sublexer` makes the new token current with its type; `end` makes the parent current with the lexer type stored in it (after a `sublexer` on the same rule, it pops straight back) |
| ScanProperties.StepDepth | queryparser.js:186-199 | the current token's depth rises by one on `sublexer` and falls by one on `end` |
| ScanProperties.StepExtends | queryparser.js:155-167 | a successful iteration appends exactly one token, of the matched rule, and keeps every older token's parent, rule and match |
| ScanProperties.RunExtends | queryparser.js:144-200 | the loop only appends tokens; the older tokens' parents, rules and matches are kept |
| ScanProperties.StepKeepsBalance | queryparser.js:186-199 | after each iteration, the current token's depth is still the number of `sublexer` tokens minus the number of `end` tokens |
| ScanProperties.RunKeepsBalance | queryparser.js:144-200 | the whole loop keeps that depth account |
| ScanProperties.ParseDepth | queryparser.js:186-206 | at the end of a successful parse, the current token's depth is the number of `sublexer` tokens minus the number of `end` tokens created |
| ScanProperties.RunStepFails | queryparser.js:144-200 | a failing iteration ends the parse with that iteration's failure |
| ScanProperties.LoopInduction | queryparser.js:144-200 | for any iteration function, a property of the loop variables that every successful iteration keeps holds when the loop ends normally |
| ScanProperties.LoopFailure | queryparser.js:144-200 | for any iteration function, a failed loop fails with the failure of one of its iterations, or with `OutOfFuel` |
| ScanProperties.RunInduction | queryparser.js:144-200 | a property that every successful scan iteration keeps holds when the scan loop ends normally |
| ScanProperties.RunFailure | queryparser.js:144-200 | a failed scan loop fails with the failure of one of its iterations, or with `OutOfFuel` |
| ScanProperties.RunErrors | queryparser.js:144-200 | the loop never reports an unknown starting type or a build failure |
| ScanProperties.ParseUnknownStart | queryparser.js:124-127 | a parse fails with an unknown starting type exactly when that type (default `selectors`) is not compiled, and then names it |
| ScanProperties.WellFormedRegistryClosed | queryparser.js:11-84 | the registry built from a well-formed table has a compiled lexer for every `sublexer` and `nextlexer` its rules name |
| ScanProperties.ClosedStepKnown | queryparser.js:181-191 | with such a registry, an iteration never fails on an unknown lexer type |
| ScanProperties.ClosedRunKnown | queryparser.js:181-191 | with such a registry, the loop never fails on an unknown lexer type |
| ScanProperties.TableParseKnown | queryparser.js:11-84 | parsing with the registry of the `lexerTypes` table never fails on an unknown lexer type |
| QueryParser.FirstFailure | queryparser.js:93-105 | the index of the first lexer type that does not compile, every earlier one compiling; none exactly when all compile |
| QueryParser.FirstFailureAt | queryparser.js:93-105 | a failing type preceded only by types that compile is the first failure |
| QueryParser.RegistryOfPrefix | queryparser.js:112 | registering one more lexer type adds its name and rules to the registry of the types before it |
| QueryParser.AddToAncestors | queryparser.js:175-179 | the `while (t)` walk up `parent` produces exactly `Propagate` |
| QueryParser.NewToken | queryparser.js:155-179 | the in-place token creation, push and text propagation produce exactly `Emit` |
| QueryParser.Iterate | queryparser.js:146-199 | one pass through the loop body produces exactly `Step`: the same new variables, or the same failure |
| QueryParser.ScanQuery | queryparser.js:124-206 | the start and the `while (remainingString.length)` loop produce exactly `ParseWith`: every token created, in creation order, with the root at index 0 |
| QueryParser.RebuildThenParse | queryparser.js:91-127 | building an already built query again fails at its first lexer type, empties the registry and leaves the query marked built, so the next parse fails on its starting type |
| QueryParser.Query.constructor | queryparser.js:88-90 | a new query holds the given table, an empty registry, is not built and has no lexer type renamed yet |
| QueryParser.Query.BuildLexers | queryparser.js:91-120 | on a table no earlier build has renamed: when every lexer type compiles, the registry is the whole table, every type is renamed and the query is marked built; otherwise the first type that fails is named with its cause, the registry holds the types before it (the ones renamed), and `isBuilt` is left as it was; on a renamed table: the build fails at the first type with an empty registry and `isBuilt` left as it was |
| QueryParser.Query.Parse | queryparser.js:121-207 | an already built query is not rebuilt and its registry is unchanged; otherwise the build outcome is that of `BuildLexers` (including the `Rebuilt` failure on a renamed table), and a failed build is the result; once built, the result is `ParseWith` on the registry |
| ScanExamples.DescendOnHit | queryparser.js:155-191 | when the first matching rule has only `sublexer` set, the iteration makes the new token current, one level deeper, with the rule's lexer type, and the root gains the captured text |
| ScanExamples.StayOnHit | queryparser.js:155-179 | when the first matching rule has no flag set, the iteration keeps the current token and lexer type, consumes the match and the root gains it |
| ScanExamples.UnclosedContextReturnsRoot | queryparser.js:201-206 | with a lexer type `outer` that opens `inner` on `(`, scanning `(x` opens an inner context that never closes, yet the parse returns the root, whose text is `(x`, one level above the current token |
| ScanExamples.TableEntry | queryparser.js:107-112 | the registry built from the `lexerTypes` table maps each key to that lexer type's rules |
| ScanExamples.TablePathEntries | queryparser.js:11-30 | the registry built from the `lexerTypes` table holds the `selectors`, `selector`, `selector_element` and `path` types with their rules |
| ScanExamples.TablePathQueryEndsNested | queryparser.js:12-30 | with the registry built from the `lexerTypes` table, scanning `@` creates four tokens, ends three levels deep and leaves the root with text `@` |
| ScanExamples.PathQueryEndsNested | queryparser.js:12-30 | with the table's `selectors`, `selector`, `selector_element` and `path` types, scanning `@` ends three levels deep and returns the root with text `@` |

## Left out

- The moo library and its regular expressions are not modelled; a pattern is an abstract prefix test per rule, and moo's ordered choice among a lexer type's rules is `FirstMatch`. `lineBreaks` only affects moo's line and column bookkeeping.
- moo's own no-match error (thrown inside `next()` at line 148) is not modelled. Line 152 is unreachable in the code, and even an undefined `rawdata` would fail first at line 149. `SyntaxError(remaining, current token's lexer type)` is the model's chosen payload, taken from the message at line 152; the condition under which it is reported is exact.
- The rule objects that `buildLexers` names in place (lines 107-110) are modelled with their names already set; the `lexer.type` back-link, `type.lexer` and the `toString`/`inspect` hooks (lines 102, 111, 113-114) are debugging aids with no effect on the scan; their effect on a later build is the next line.
- QueryParser.Query.BuildLexers: the keys `name`, `lexer`, `toString` and `inspect` written into the table's lexer types (lines 107-114) are recorded only as the count `renamed`, and every build over a renamed table fails with `Rebuilt` at the first type. The exact exception is not distinguished: moo's wrapped compile error (line 104) or the `TypeError` of renaming the string `name` (line 108). The table object is shared by reference (line 89), but the model gives each `Query` its own `renamed` count, so a build of a second `Query` over a table another `Query` already built is modelled as succeeding, while the code fails there too.
- The moo token's `value`, `type`, `offset`, `line` and `col` fields are opaque moo output; a token keeps only the matched text.
- All `console.log` diagnostics (lines 117, 150, 193, 202) are output and are not modelled; the final `while (current)` walk (lines 201-204) only logs, so the model returns at once.
- The `render` pretty-printer and the demo run (lines 210-226) are a driver, not part of the scanner.
- QueryParser.Query.Parse: takes at most `fuel` iterations and fails with `OutOfFuel` after that; the source loop has no bound, and since `notext` steps consume nothing it need not terminate, so termination is not claimed.
- JavaScript truthiness is modelled only for the starting name: the empty name stands for `selectors`, as `typename || 'selectors'` does; an empty `sublexer` or `nextlexer` name is treated as a name.
- Object prototype keys (`toString`, `constructor`, ...) used as lexer type names are not modelled; the registry is a plain map.
- Rules named `name`, `lexer`, `toString` or `inspect` are not modelled as the code runs them. After naming the rules (line 108), the build overwrites those four keys of the lexer type (lines 110-114), so `nextlexertype[rawdata.type]` (line 149) yields a string, a moo lexer or a function, and every flag read at lines 161-192 is undefined: such a rule scans as a visible, consuming token with no transition. The model applies the rule's own flags instead. `Grammar.KeepsOwnKey`, part of `WellFormed`, excludes these names, and the `lexerTypes` table meets it.
- Strings are sequences of characters; JavaScript's UTF-16 code units are not distinguished.
