# MetaUI rule-language parser, modelled in Dafny

This project models `MetaUIParser`, the recursive-descent parser of the
OSS / MetaUI rule language (`libs/compiler/src/lib/lang/metaui-parser.ts`).
The parser reads a token stream and builds a tree of rules. A rule is:

- a non-empty list of selectors: `key`, `key=value`, `key=(v1, v2)`,
  `@key=…` (a declaration) or `^key` (a null-marked key);
- an optional trait list `#trait, trait`;
- then either `;` or a `{ … }` body.

The parser keeps one piece of state, the current token. `eat` advances
it. Every other operation is built from `eat`, `isToken` and
`containsToken`.

Files and modules:

- `tokens.dfy` (module `Tokens`): token types, tokens, the three token
  groups, and the lexer's cursor. `Next` is `nextToken`: it stays put at
  EOF. `Peek` is `peekNextToken`.
- `ast.dfy` (module `Ast`): the syntax tree as datatypes. Each node keeps
  only the fields the parser sets, including the `starts`/`ends` offsets
  copied from tokens.
- `outcomes.dfy` (module `Outcomes`): `ParseError`, `Result`, `Outcome`
  and `Parsed`. `error()` throws and aborts the parse. Here it becomes a
  failure value that records what was expected and the index of the
  current token (the token whose value, line and column the message
  reports).
- `grammar.dfy` (module `Grammar`): the grammar as the parser implements
  it, written as pure functions of the token sequence and the index of
  the current token. Each function returns what the parser method builds
  and where the cursor ends up, or the failure the method raises. The
  functions' contracts state consumption, progress and the shape of
  what is built.
- `parser.dfy` (module `Parsing`): the class `MetaUIParser`. Its fields
  are `currentToken` and the lexer position `pos`. Its methods follow
  the source method by method, with `while` loops where the source has
  them. Each method is proved to agree with its `Grammar` function
  (`Agrees`): same result, same final cursor, same failure.
- `properties.dfy` (module `GrammarProperties`): the properties of
  selectors, value lists, traits, rules and files.
- `examples.dfy` (module `Scenarios`): small rule files and what the
  parser builds for them. Each scenario holds for every token stream
  with the token types of its text, whatever the tokens' values and
  offsets, in token groups where identifiers serve as keys and
  literals. In the table below, "the `module` token" is the token at
  that place in the text.

The lexer is not part of this model. Its output is a finite token
sequence with EOF as the last token and nowhere else (`ValidStream`).
The token groups `KeyIdentifier`, `KeyProperty` and `SimpleValue` are
given as lists (`TokenGroups`). Each list is non-empty and none contains
EOF (`ValidGroups`). `eat` names the first entry of a group when it
fails. A group that held EOF would let `selectorList` or `valueOrList`
loop forever on EOF.

Where the parser's code and the language's intended design differ, the
model follows the code:

- `rule` hands a `{` body to `ruleBody` without consuming the `{`.
- `@` followed by neither `^` nor a key is consumed, and `selector`
  still returns "no selector". The `@` is silently dropped.
- In a parenthesised value list, commas are optional: `(a b)` parses
  like `(a, b)`. A comma directly before `)` is an error.
- `ruleList` passes each rule the previously parsed rule as its parent
  rule. `parent` records that rule's index.
- The `end` of a selector, of a wildcard value and of a rule is the
  `ends` offset of the token AFTER the construct. That is the token
  current once the construct has been consumed.
- `#` followed by no identifier gives an empty trait list, not "absent".
- An EOF in the middle of a construct is reported as the token that
  `eat` did not expect. There is no separate "unterminated" error.
- The trailing-input check in `parse` (line 43) can never fail, because
  `ruleList` stops only on EOF. The method asserts this instead of
  keeping an unreachable branch.

## Model

| member | source | states |
|---|---|---|
| Tokens.Next | libs/compiler/src/lib/lang/metaui-parser.ts:285-288 | the lexer's `nextToken` moves the cursor one token forward and stays on EOF once there |
| Tokens.Peek | libs/compiler/src/lib/lang/metaui-parser.ts:81 | `peekNextToken` is the token after the current one, or EOF at EOF |
| Grammar.EatAt | libs/compiler/src/lib/lang/metaui-parser.ts:284-294 | `eat` succeeds exactly when the current type equals the given type or is in the given group; then it advances by exactly one token (unless on EOF). Otherwise it fails at the current token, naming the type or the group's first type |
| Grammar.SelectorKeyAt | libs/compiler/src/lib/lang/metaui-parser.ts:181-187 | a key is built from the current token exactly when that token is a KeyIdentifier, consuming it; otherwise it fails expecting KeyIdentifier |
| Grammar.SimpleValueAt | libs/compiler/src/lib/lang/metaui-parser.ts:204-211 | a literal is built from the current token exactly when that token is a SimpleValue, consuming it; otherwise it fails expecting SimpleValue |
| Grammar.ValuesFrom | libs/compiler/src/lib/lang/metaui-parser.ts:214-226 | the value-list loop returns at least one literal, the first being the current token, all of SimpleValue type, and stops on a `)` it does not consume |
| Grammar.ValueOrListAt | libs/compiler/src/lib/lang/metaui-parser.ts:213-228 | `valueOrList` yields a non-empty list value spanning from its first literal to the closing `)`, which stays current |
| Grammar.SelectorValueAt | libs/compiler/src/lib/lang/metaui-parser.ts:189-201 | `selectorValue` is a single literal (one token consumed) or, after `(`, a non-empty list whose `)` is consumed; any other token fails with "expected selectorValue" at that token |
| Grammar.AfterAt | libs/compiler/src/lib/lang/metaui-parser.ts:150-153 | a leading `@` is consumed and nothing else is |
| Grammar.SelectorAt | libs/compiler/src/lib/lang/metaui-parser.ts:147-179 | a selector consumes at least one token, starts at the first token, is a declaration exactly when it starts with `@`, and has no value exactly when null-marked; "no selector" consumes only a leading `@` and stops where neither `^` nor a key follows |
| Grammar.SelectorsFrom | libs/compiler/src/lib/lang/metaui-parser.ts:113-118 | the selector loop stops on a token that is neither `^` nor a key, and a non-empty result has consumed input |
| Grammar.SelectorListAt | libs/compiler/src/lib/lang/metaui-parser.ts:112-123 | `selectorList` returns at least one selector and has consumed at least one token; zero selectors is a failure |
| Grammar.TraitsFrom | libs/compiler/src/lib/lang/metaui-parser.ts:128-141 | the trait loop never fails, returns no more traits than tokens it consumes, and stops on the first token that is neither a comma nor an identifier |
| Grammar.TraitListAt | libs/compiler/src/lib/lang/metaui-parser.ts:125-145 | `traitList` is "absent" exactly when the current token is not `#`, and then consumes nothing |
| Grammar.RuleEndAt | libs/compiler/src/lib/lang/metaui-parser.ts:66-71 | at `{` the body is exactly what the body parser returns from the `{`, a body failure is the rule's failure, and `}` must follow where the body stopped (it is consumed) or the rule fails expecting `}` there; without `{`, the rule ends with `;`, consumed, or fails expecting `;` at that token; a body is present exactly when the rule has `{` |
| Grammar.RuleAfterSelectors | libs/compiler/src/lib/lang/metaui-parser.ts:63-73 | after the selectors the rule keeps them and the trait list parsed right after them, consumes input, starts at its first token's start, ends at the `ends` of the token after it, keeps the given parent, and has `}` or `;` as its last consumed token |
| Grammar.RuleAt | libs/compiler/src/lib/lang/metaui-parser.ts:62-74 | a rule consumes input, starts at its first token's start, ends at the `ends` of the token after it, has at least one selector, keeps the given parent, and ends with `}` when it has a body and with `;` otherwise |
| Grammar.ParentAt | libs/compiler/src/lib/lang/metaui-parser.ts:55 | the first rule of the list gets no parent, and every later rule gets the one parsed just before it |
| Grammar.RulesFrom | libs/compiler/src/lib/lang/metaui-parser.ts:50-59 | the rule loop ends on EOF, the last token |
| Grammar.RuleListAt | libs/compiler/src/lib/lang/metaui-parser.ts:50-59 | `ruleList` leaves the cursor on EOF, and its first rule starts at the first token |
| Grammar.ParseAt | libs/compiler/src/lib/lang/metaui-parser.ts:33-47 | a parsed file has at least one rule, ends with the cursor on EOF, and spans from the first rule's start to the last rule's end |
| Grammar.Classify | libs/compiler/src/lib/lang/metaui-parser.ts:84-98 | a body statement is a property exactly when a property key is followed by `:`, a precedence chain exactly when the next token is `=>`, and a nested rule otherwise |
| Grammar.StatementAt | libs/compiler/src/lib/lang/metaui-parser.ts:81-98 | off EOF, a statement is a property exactly when the current token is a property key and the next is `:`, and a precedence chain exactly when the next token is `=>`; on EOF it is neither |
| Parsing.MetaUIParser.constructor | libs/compiler/src/lib/lang/metaui-parser.ts:23-25 | the parser starts on the lexer's first token |
| Parsing.MetaUIParser.Eat | libs/compiler/src/lib/lang/metaui-parser.ts:284-294 | on a match the cursor moves to the next token; otherwise the call fails, naming the first expected type, and the cursor stays |
| Parsing.MetaUIParser.SelectorKey | libs/compiler/src/lib/lang/metaui-parser.ts:181-187 | builds and consumes as `Grammar.SelectorKeyAt` says |
| Parsing.MetaUIParser.SimpleValue | libs/compiler/src/lib/lang/metaui-parser.ts:204-211 | builds and consumes as `Grammar.SimpleValueAt` says |
| Parsing.MetaUIParser.ValueOrList | libs/compiler/src/lib/lang/metaui-parser.ts:213-228 | its loop builds the list `Grammar.ValueOrListAt` specifies and stops on the same `)` |
| Parsing.MetaUIParser.SelectorValue | libs/compiler/src/lib/lang/metaui-parser.ts:189-201 | agrees with `Grammar.SelectorValueAt` |
| Parsing.MetaUIParser.Selector | libs/compiler/src/lib/lang/metaui-parser.ts:147-179 | agrees with `Grammar.SelectorAt`, including "no selector" and the cursor after it |
| Parsing.MetaUIParser.SelectorList | libs/compiler/src/lib/lang/metaui-parser.ts:112-123 | its loop collects the selectors `Grammar.SelectorListAt` specifies, and fails when there are none |
| Parsing.MetaUIParser.TraitList | libs/compiler/src/lib/lang/metaui-parser.ts:125-145 | its loop collects the traits `Grammar.TraitListAt` specifies and leaves the cursor where it says |
| Parsing.MetaUIParser.RuleBody | libs/compiler/src/lib/lang/metaui-parser.ts:66-67 | runs the abstract body parser from the current token and moves the cursor where it says |
| Parsing.MetaUIParser.Rule | libs/compiler/src/lib/lang/metaui-parser.ts:62-74 | agrees with `Grammar.RuleAt` |
| Parsing.MetaUIParser.RuleList | libs/compiler/src/lib/lang/metaui-parser.ts:50-59 | its loop collects the rules `Grammar.RuleListAt` specifies, each with the previous rule as parent |
| Parsing.MetaUIParser.Parse | libs/compiler/src/lib/lang/metaui-parser.ts:33-47 | agrees with `Grammar.ParseAt`; the check for trailing input after the rule list always passes |
| GrammarProperties.SelectorAbsent | libs/compiler/src/lib/lang/metaui-parser.ts:147-179 | `selector` returns "no selector" exactly when, after an optional `@`, the token is neither `^` nor a key; without `@` it then consumes nothing |
| GrammarProperties.NullMarkerSelector | libs/compiler/src/lib/lang/metaui-parser.ts:155-161 | a `^` selector has the null marker and a key, never a value, and consumes exactly its `@`, `^` and key; with no key after `^` it fails there, expecting a key |
| GrammarProperties.WildcardSelector | libs/compiler/src/lib/lang/metaui-parser.ts:163-176 | a key not followed by `=` gets the wildcard `*` of type Star, and only the key is consumed |
| GrammarProperties.ExplicitValueSelector | libs/compiler/src/lib/lang/metaui-parser.ts:166-168 | a key followed by `=` takes exactly what `selectorValue` parses after the `=` and fails as it fails; a token that is neither a literal nor `(` fails with "expected selectorValue" |
| GrammarProperties.SelectorListNeedsOne | libs/compiler/src/lib/lang/metaui-parser.ts:116-121 | where no selector starts, `selectorList` fails with "no selectors" at that token |
| GrammarProperties.ValuesFromSound | libs/compiler/src/lib/lang/metaui-parser.ts:213-228 | an accepted value list is literals, first and last, with at most one comma between two; the result is its literals in source order |
| GrammarProperties.ValuesFromComplete | libs/compiler/src/lib/lang/metaui-parser.ts:213-228 | every such list followed by `)` is accepted, with its literals in source order and the cursor on the `)` |
| GrammarProperties.TraitsFromExact | libs/compiler/src/lib/lang/metaui-parser.ts:130-141 | the trait loop consumes commas and identifiers only, and its traits are exactly the identifiers among them, in source order |
| GrammarProperties.TraitListExact | libs/compiler/src/lib/lang/metaui-parser.ts:125-145 | "absent" exactly without `#`; otherwise the identifiers after `#` in order, and an empty list when `#` is directly followed by another token |
| GrammarProperties.RuleWithoutBody | libs/compiler/src/lib/lang/metaui-parser.ts:62-72 | without `{`, a rule succeeds exactly when its selectors and traits are followed by `;`, which it consumes; otherwise it fails there expecting Semi. Its start is its first token's start |
| GrammarProperties.RulesFromParents | libs/compiler/src/lib/lang/metaui-parser.ts:52-57 | every rule in the list gets the rule before it as parent, and the first gets none |
| GrammarProperties.ParseOutcome | libs/compiler/src/lib/lang/metaui-parser.ts:33-46 | `parse` fails with "no rules" on an input that is only EOF, and otherwise succeeds exactly when the rule list does; on success the cursor is on EOF, the file holds the rule list, and parents are linked |
| Scenarios.DeclarationSelector | libs/compiler/src/lib/lang/metaui-parser.ts:147-176 | in `@module=Foo;` the one selector is a declaration whose key is the `module` token and whose value is the `Foo` token, spanning up to the `;` |
| Scenarios.DeclarationRule | libs/compiler/src/lib/lang/metaui-parser.ts:33-74 | `@module=Foo;` is one declaration rule with that selector, no traits and no body; the rule and the file end at EOF |
| Scenarios.NullMarkedSelector | libs/compiler/src/lib/lang/metaui-parser.ts:147-162 | in `^layout #a, b;` the one selector is null-marked, with the `layout` token as key and no value, stopping at `#` |
| Scenarios.NullMarkedTraits | libs/compiler/src/lib/lang/metaui-parser.ts:125-141 | after `#`, the traits are a and b in order, the list stopping at `;` |
| Scenarios.NullMarkedRuleWithTraits | libs/compiler/src/lib/lang/metaui-parser.ts:125-161 | `^layout #a, b;` is one null-marked selector with no value and the traits a and b in order |
| Scenarios.ListedValues | libs/compiler/src/lib/lang/metaui-parser.ts:214-228 | inside `(a, b)` the literals are a then b, stopping on the `)` |
| Scenarios.ListedSelectorValue | libs/compiler/src/lib/lang/metaui-parser.ts:190-203 | after `=`, `(a, b)` is a list value spanning `a` to `)`, with the `)` consumed |
| Scenarios.WildcardSelectorThenEnd | libs/compiler/src/lib/lang/metaui-parser.ts:163-176 | `zone` without `=` gets the wildcard value, and the selector list ends at the `;` after it |
| Scenarios.ListValueSelector | libs/compiler/src/lib/lang/metaui-parser.ts:189-228 | `field=(a, b)` has the list value [a, b], spanning `a` to `)` |
| Scenarios.ListAndWildcardSelectors | libs/compiler/src/lib/lang/metaui-parser.ts:112-176 | `field=(a, b) zone` is two selectors, the second with the wildcard value |
| Scenarios.MissingSelector | libs/compiler/src/lib/lang/metaui-parser.ts:116-121 | `;` alone fails with "no selectors" at the `;` |

## Left out

- The lexer (`MetaUILexer`) and its token-group constants are not part of this model. They are a token sequence and a `TokenGroups` parameter.
- The tree classes of `./metaui-ast` are not part of this model. They are datatypes holding only the fields the parser sets. The parser builds a selector by assigning fields one after another; the model builds the finished value in one step.
- `ruleBody` (lines 77-104) is an unfinished stub. It peeks once before its loop, two of its three branches consume nothing, and it returns null. It is called with the `{` still current, and `{` is not a property key, so as written its loop takes a branch that consumes nothing and never ends. The model replaces it with an abstract body parser (`BodyParser`). All that is assumed is that it fails or moves the cursor forward within the tokens (`BodyProgress`). Only the statement dispatch at lines 84 and 93 is modelled (`Grammar.Classify`).
- Parsing.MetaUIParser.RuleBody: does not receive the enclosing rule, which the stub never uses.
- `value()` (lines 106-110) is an empty stub and is not modelled.
- `listValue`, `wrappedList` and `map` (lines 230-276) are not called by the modelled core and are not modelled. `listValue` closes a list by eating `[`. On an unexpected token it consumes nothing, so `wrappedList` can loop forever. `map` never builds a map.
- Error messages (lines 305-307) are not modelled. A failure records what was expected and the index of the offending token, not the message text.
- `isToken` and `containsToken` are the class predicates `IsToken` and `ContainsToken`. They read only the current token's type and have no contract of their own.
- Parent links are indices into the list of rules, not object references.
- GrammarProperties.ValuesFromSound: holds only when neither `,` nor `)` is in the SimpleValue group (`SeparatorsAreNotValues`). Otherwise a comma or `)` can also be read as a literal, and the list has no such simple shape.
- GrammarProperties.ValuesFromComplete: same condition as ValuesFromSound.
