/** The syntax tree the parser builds. Every node keeps the `starts` and
    `ends` offsets the parser copies from tokens, and the fields the
    parser sets; nothing else of the tree classes is modelled. */
module Ast {
  import opened Tokens
  import opened Wrappers

  datatype SelectorKeyAst = SelectorKeyAst(starts: int, ends: int, name: string, kind: TokenType)

  datatype SimpleValueAst = SimpleValueAst(starts: int, ends: int, text: string, kind: TokenType)

  /** A selector's value: one literal, or a parenthesised list of literals. */
  datatype ValueAst =
    | Simple(value: SimpleValueAst)
    | ListValue(starts: int, ends: int, values: seq<SimpleValueAst>)

  /** `value` is `None` exactly where the parser leaves the field unset
      (a selector written with the null marker `^`). */
  datatype SelectorAst = SelectorAst(
    starts: int, ends: int,
    isDeclaration: bool, hasNullMarker: bool,
    key: SelectorKeyAst, value: Option<ValueAst>)

  datatype TraitAst = TraitAst(starts: int, ends: int, name: string, kind: TokenType)

  /** The three shapes of statement a rule body can hold. */
  datatype StatementKind = Property | PrecedenceChain | NestedRule

  /** The body of a rule, as far as this model knows it: the kind of each statement. */
  datatype RuleBodyAst = RuleBodyAst(statements: seq<StatementKind>)

  /** `parent` is the index, in the same list of rules, of the rule the
      parser passed as parent rule. */
  datatype RuleAst = RuleAst(
    starts: int, ends: int,
    selectors: seq<SelectorAst>, traits: Option<seq<TraitAst>>,
    body: Option<RuleBodyAst>, parent: Option<nat>)

  datatype FileAst = FileAst(starts: int, ends: int, rules: seq<RuleAst>)

  function KeyOf(t: Token): SelectorKeyAst {
    SelectorKeyAst(t.starts, t.ends, t.value, t.kind)
  }

  function ValueOf(t: Token): SimpleValueAst {
    SimpleValueAst(t.starts, t.ends, t.value, t.kind)
  }

  function TraitOf(t: Token): TraitAst {
    TraitAst(t.starts, t.ends, t.value, t.kind)
  }

  /** The value a selector without `=` gets: the wildcard `*`, spanning the token after its key. */
  function Wildcard(t: Token): ValueAst {
    Simple(SimpleValueAst(t.starts, t.ends, "*", Star))
  }
}
