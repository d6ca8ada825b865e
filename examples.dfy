/** Small rule files and what the grammar builds for them, for
    any token stream whose token types are those the lexer produces for
    a given text. The texts appear in the comments; the tokens' values
    and offsets are left free, so each scenario covers every text that
    lexes to the same types. */
module Scenarios {
  import opened Tokens
  import opened Wrappers
  import opened Ast
  import opened Outcomes
  import opened Grammar
  import opened GrammarProperties

  /** Token groups in which identifiers serve as keys, property keys and literals. */
  const groups := TokenGroups([Identifier], [Identifier], [Identifier, Lexical("String")])

  /** A body parser that rejects every body; none of these inputs has one. */
  function NoBody(ts: seq<Token>, p: nat): Result<Parsed<RuleBodyAst>> {
    Err(ParseError(ExpectedToken(RBrace), p))
  }

  /** The token types of `ts` are, in order, `kinds`. */
  predicate HasKinds(ts: seq<Token>, kinds: seq<TokenType>) {
    |ts| == |kinds| && forall i :: 0 <= i < |ts| ==> ts[i].kind == kinds[i]
  }

  // ---------------------------------------------------------------------
  // Steps shared by the scenarios

  /** A selector followed by a token that starts none is the whole list. */
  lemma OnlySelector(ts: seq<Token>, g: TokenGroups, p: nat, s: SelectorAst, q: nat)
    requires Ready(ts, g, p) && SelectorAt(ts, g, p) == Ok(Parsed(Some(s), q))
    requires ts[q].kind != At && !KeyStart(g, ts[q].kind)
    ensures SelectorListAt(ts, g, p) == Ok(Parsed([s], q))
  {
    assert SelectorsFrom(ts, g, q) == Ok(Parsed([], q));
    assert [s] + [] == [s];
  }

  /** Two selectors, the second followed by a token that starts none, make the whole list. */
  lemma SelectorPair(ts: seq<Token>, g: TokenGroups, p: nat, s: SelectorAst, q: nat, t: SelectorAst, r: nat)
    requires Ready(ts, g, p) && SelectorAt(ts, g, p) == Ok(Parsed(Some(s), q))
    requires SelectorsFrom(ts, g, q) == Ok(Parsed([t], r))
    ensures SelectorListAt(ts, g, p) == Ok(Parsed([s, t], r))
  {
    assert [s] + [t] == [s, t];
  }

  /** A file of one rule spans that rule. */
  lemma OnlyRule(ts: seq<Token>, g: TokenGroups, body: BodyParser, rule: RuleAst, q: nat)
    requires Ready(ts, g, 0) && BodyProgress(ts, body)
    requires RuleAt(ts, g, body, 0, None) == Ok(Parsed(rule, q)) && ts[q].kind == EOF
    ensures ParseAt(ts, g, body, 0) == Ok(Parsed(FileAst(rule.starts, rule.ends, [rule]), q))
  {
    assert RulesFrom(ts, g, body, q, 1) == Ok(Parsed([], q));
    assert [rule] + [] == [rule];
    assert RulesFrom(ts, g, body, 0, 0) == Ok(Parsed([rule], q));
  }

  // ---------------------------------------------------------------------
  // `@module=Foo;`

  const declaration := [At, Identifier, OpEq, Identifier, Semi, EOF]

  /** The one selector: a declaration with key `module` and value `Foo`,
      spanning up to the `;` after it. */
  lemma DeclarationSelector(ts: seq<Token>, g: TokenGroups)
    requires ValidStream(ts) && HasKinds(ts, declaration) && g == groups
    ensures SelectorListAt(ts, g, 0) == Ok(Parsed(
      [SelectorAst(ts[0].starts, ts[4].ends, true, false, KeyOf(ts[1]), Some(Simple(ValueOf(ts[3]))))], 4))
  {
    assert ts[1].kind == Identifier && ts[2].kind == OpEq && ts[3].kind == Identifier && ts[4].kind == Semi;
    var selector := SelectorAst(ts[0].starts, ts[4].ends, true, false, KeyOf(ts[1]), Some(Simple(ValueOf(ts[3]))));
    assert SelectorValueAt(ts, g, 3) == Ok(Parsed(Simple(ValueOf(ts[3])), 4));
    assert SelectorAt(ts, g, 0) == Ok(Parsed(Some(selector), 4));
    OnlySelector(ts, g, 0, selector, 4);
  }

  /** One declaration rule with that selector, no traits and no body;
      the rule and the file both end with EOF. */
  lemma DeclarationRule(ts: seq<Token>, g: TokenGroups)
    requires ValidStream(ts) && HasKinds(ts, declaration) && g == groups
    ensures ParseAt(ts, g, NoBody, 0) == Ok(Parsed(
      FileAst(ts[0].starts, ts[5].ends, [RuleAst(ts[0].starts, ts[5].ends,
        [SelectorAst(ts[0].starts, ts[4].ends, true, false, KeyOf(ts[1]), Some(Simple(ValueOf(ts[3]))))],
        None, None, None)]),
      5))
  {
    assert ts[4].kind == Semi && ts[5].kind == EOF;
    assert BodyProgress(ts, NoBody);
    DeclarationSelector(ts, g);
    var selectors := SelectorListAt(ts, g, 0).value;
    assert TraitListAt(ts, 4) == Parsed(None, 4);
    RuleWithoutBody(ts, NoBody, 0, selectors, None);
    OnlyRule(ts, g, NoBody, RuleAt(ts, g, NoBody, 0, None).value.value, 5);
  }

  // ---------------------------------------------------------------------
  // `^layout #a, b;`

  const nullMarked := [NullMarker, Identifier, Hash, Identifier, Coma, Identifier, Semi, EOF]

  /** The one selector: null-marked, key `layout`, no value, ending at `#`. */
  lemma NullMarkedSelector(ts: seq<Token>, g: TokenGroups)
    requires ValidStream(ts) && HasKinds(ts, nullMarked) && g == groups
    ensures SelectorListAt(ts, g, 0) == Ok(Parsed(
      [SelectorAst(ts[0].starts, ts[2].ends, false, true, KeyOf(ts[1]), None)], 2))
  {
    assert ts[0].kind == NullMarker && ts[1].kind == Identifier && ts[2].kind == Hash;
    var selector := SelectorAst(ts[0].starts, ts[2].ends, false, true, KeyOf(ts[1]), None);
    assert SelectorAt(ts, g, 0) == Ok(Parsed(Some(selector), 2));
    OnlySelector(ts, g, 0, selector, 2);
  }

  /** The traits: `a` and `b` in order, the list stopping at `;`. */
  lemma NullMarkedTraits(ts: seq<Token>, g: TokenGroups)
    requires ValidStream(ts) && HasKinds(ts, nullMarked) && g == groups
    ensures TraitListAt(ts, 2) == Parsed(Some([TraitOf(ts[3]), TraitOf(ts[5])]), 6)
  {
    assert ts[2].kind == Hash && ts[3].kind == Identifier && ts[4].kind == Coma;
    assert ts[5].kind == Identifier && ts[6].kind == Semi;
    assert TraitsFrom(ts, 6) == Parsed([], 6);
    assert [TraitOf(ts[5])] + [] == [TraitOf(ts[5])];
    assert TraitsFrom(ts, 4) == Parsed([TraitOf(ts[5])], 6);
    assert [TraitOf(ts[3])] + [TraitOf(ts[5])] == [TraitOf(ts[3]), TraitOf(ts[5])];
  }

  /** One rule: the null-marked selector with no value, the traits `a`
      and `b` in order, and no body. */
  lemma NullMarkedRuleWithTraits(ts: seq<Token>, g: TokenGroups)
    requires ValidStream(ts) && HasKinds(ts, nullMarked) && g == groups
    ensures ParseAt(ts, g, NoBody, 0) == Ok(Parsed(
      FileAst(ts[0].starts, ts[7].ends, [RuleAst(ts[0].starts, ts[7].ends,
        [SelectorAst(ts[0].starts, ts[2].ends, false, true, KeyOf(ts[1]), None)],
        Some([TraitOf(ts[3]), TraitOf(ts[5])]),
        None, None)]),
      7))
  {
    assert ts[6].kind == Semi && ts[7].kind == EOF;
    assert BodyProgress(ts, NoBody);
    NullMarkedSelector(ts, g);
    NullMarkedTraits(ts, g);
    var selectors := SelectorListAt(ts, g, 0).value;
    RuleWithoutBody(ts, NoBody, 0, selectors, None);
    OnlyRule(ts, g, NoBody, RuleAt(ts, g, NoBody, 0, None).value.value, 7);
  }

  // ---------------------------------------------------------------------
  // `field=(a, b) zone;`

  const listed := [Identifier, OpEq, LParen, Identifier, Coma, Identifier, RParen, Identifier, Semi, EOF]

  /** The literals inside `(a, b)`, in order, up to the `)`. */
  lemma ListedValues(ts: seq<Token>, g: TokenGroups)
    requires ValidStream(ts) && HasKinds(ts, listed) && g == groups
    ensures ValuesFrom(ts, g, 3) == Ok(Parsed([ValueOf(ts[3]), ValueOf(ts[5])], 6))
  {
    assert ts[3].kind == Identifier && ts[4].kind == Coma && ts[5].kind == Identifier && ts[6].kind == RParen;
    assert ValuesFrom(ts, g, 5) == Ok(Parsed([ValueOf(ts[5])], 6));
    assert [ValueOf(ts[3])] + [ValueOf(ts[5])] == [ValueOf(ts[3]), ValueOf(ts[5])];
  }

  /** `(a, b)` after `=`: a list spanning `a` to `)`, the `)` consumed. */
  lemma ListedSelectorValue(ts: seq<Token>, g: TokenGroups)
    requires ValidStream(ts) && HasKinds(ts, listed) && g == groups
    ensures SelectorValueAt(ts, g, 2) == Ok(Parsed(
      ListValue(ts[3].starts, ts[6].ends, [ValueOf(ts[3]), ValueOf(ts[5])]), 7))
  {
    assert ts[2].kind == LParen;
    ListedValues(ts, g);
  }

  /** `field=(a, b)`: both literals, in order, the list spanning `a` to
      `)`, the selector spanning up to `zone`. */
  lemma ListValueSelector(ts: seq<Token>, g: TokenGroups)
    requires ValidStream(ts) && HasKinds(ts, listed) && g == groups
    ensures SelectorAt(ts, g, 0) == Ok(Parsed(Some(
      SelectorAst(ts[0].starts, ts[7].ends, false, false, KeyOf(ts[0]),
        Some(ListValue(ts[3].starts, ts[6].ends, [ValueOf(ts[3]), ValueOf(ts[5])])))),
      7))
  {
    assert ts[0].kind == Identifier && ts[1].kind == OpEq;
    ListedSelectorValue(ts, g);
    ExplicitValueSelector(ts, g, 0);
  }

  /** `zone` without `=`: the wildcard `*`, spanning the `;` after it;
      the list ends there. */
  lemma WildcardSelectorThenEnd(ts: seq<Token>, g: TokenGroups)
    requires ValidStream(ts) && HasKinds(ts, listed) && g == groups
    ensures SelectorsFrom(ts, g, 7) == Ok(Parsed([
      SelectorAst(ts[7].starts, ts[8].ends, false, false, KeyOf(ts[7]),
        Some(Simple(SimpleValueAst(ts[8].starts, ts[8].ends, "*", Star))))],
      8))
  {
    assert ts[7].kind == Identifier && ts[8].kind == Semi;
    var second := SelectorAst(ts[7].starts, ts[8].ends, false, false, KeyOf(ts[7]), Some(Wildcard(ts[8])));
    WildcardSelector(ts, g, 7);
    assert SelectorsFrom(ts, g, 8) == Ok(Parsed([], 8));
    assert [second] + [] == [second];
  }

  /** A list-valued selector followed by a wildcard selector. */
  lemma ListAndWildcardSelectors(ts: seq<Token>, g: TokenGroups)
    requires ValidStream(ts) && HasKinds(ts, listed) && g == groups
    ensures SelectorListAt(ts, g, 0) == Ok(Parsed([
      SelectorAst(ts[0].starts, ts[7].ends, false, false, KeyOf(ts[0]),
        Some(ListValue(ts[3].starts, ts[6].ends, [ValueOf(ts[3]), ValueOf(ts[5])]))),
      SelectorAst(ts[7].starts, ts[8].ends, false, false, KeyOf(ts[7]), Some(Wildcard(ts[8])))],
      8))
  {
    var first := SelectorAst(ts[0].starts, ts[7].ends, false, false, KeyOf(ts[0]),
      Some(ListValue(ts[3].starts, ts[6].ends, [ValueOf(ts[3]), ValueOf(ts[5])])));
    var second := SelectorAst(ts[7].starts, ts[8].ends, false, false, KeyOf(ts[7]), Some(Wildcard(ts[8])));
    ListValueSelector(ts, g);
    WildcardSelectorThenEnd(ts, g);
    SelectorPair(ts, g, 0, first, 7, second, 8);
  }

  // ---------------------------------------------------------------------
  // `;`

  /** `;` alone: no selector, so the rule fails there. */
  lemma MissingSelector(ts: seq<Token>, g: TokenGroups)
    requires ValidStream(ts) && HasKinds(ts, [Semi, EOF]) && g == groups
    ensures ParseAt(ts, g, NoBody, 0) == Err(ParseError(NoSelectors, 0))
  {
    assert ts[0].kind == Semi;
  }
}
