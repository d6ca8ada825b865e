/** The parser itself: an object whose only changing state is the
    current token, advanced by `Eat`. Each method is proved to build what
    the corresponding function of module Grammar builds and to leave the
    cursor where that function says, or to fail as it fails. */
module Parsing {
  import opened Tokens
  import opened Wrappers
  import opened Ast
  import opened Outcomes
  import opened Grammar

  /** A method's result and cursor match the function that specifies it.
      After a failure the cursor does not matter: the parse is over. */
  predicate Agrees<T(==)>(r: Result<T>, spec: Result<Parsed<T>>, pos: nat) {
    match spec
    case Ok(Parsed(value, next)) => r == Ok(value) && pos == next
    case Err(e) => r == Err(e)
  }

  class MetaUIParser {
    /** The lexer's output and its token groups. */
    const tokens: seq<Token>
    const groups: TokenGroups
    /** The parser for the inside of `{ ... }`, which this model leaves abstract. */
    const ruleBody: BodyParser
    /** The lexer's read position: the index of `currentToken`. */
    var pos: nat
    var currentToken: Token

    ghost predicate Valid()
      reads this
    {
      && Ready(tokens, groups, pos)
      && BodyProgress(tokens, ruleBody)
      && currentToken == tokens[pos]
    }

    /** The parser starts on the lexer's first token. */
    constructor (tokens: seq<Token>, groups: TokenGroups, ruleBody: BodyParser)
      requires ValidStream(tokens) && ValidGroups(groups) && BodyProgress(tokens, ruleBody)
      ensures Valid()
      ensures this.tokens == tokens && this.groups == groups && this.ruleBody == ruleBody
      ensures pos == 0
    {
      this.tokens := tokens;
      this.groups := groups;
      this.ruleBody := ruleBody;
      pos := 0;
      currentToken := tokens[0];
    }

    predicate IsToken(expected: TokenType)
      reads this
    {
      currentToken.kind == expected
    }

    predicate ContainsToken(listOfTokens: seq<TokenType>)
      reads this
    {
      currentToken.kind in listOfTokens
    }

    /** Takes the current token if it is of the given type or in the given
        group; otherwise fails, naming the (first) expected type, and
        leaves the cursor where it was. */
    method Eat(tokenType: Expect) returns (o: Outcome)
      requires Valid() && ValidExpect(tokenType)
      modifies this
      ensures Valid()
      ensures o.Pass? <==> Accepts(tokenType, old(currentToken.kind))
      ensures o.Pass? ==> pos == Next(tokens, old(pos))
      ensures o.Fail? ==> pos == old(pos) && o.error == ParseError(ExpectedToken(FirstExpected(tokenType)), pos)
    {
      if tokenType.AnyOf? && ContainsToken(tokenType.kinds) {
        pos := Next(tokens, pos);
        currentToken := tokens[pos];
      } else if tokenType.One? && IsToken(tokenType.kind) {
        pos := Next(tokens, pos);
        currentToken := tokens[pos];
      } else {
        return Fail(ParseError(ExpectedToken(FirstExpected(tokenType)), pos));
      }
      return Pass;
    }

    method SelectorKey() returns (r: Result<SelectorKeyAst>)
      requires Valid()
      modifies this
      ensures Valid()
      ensures Agrees(r, SelectorKeyAt(tokens, groups, old(pos)), pos)
    {
      var key := KeyOf(currentToken);
      :- Eat(AnyOf(groups.keyIdentifier));
      return Ok(key);
    }

    method SimpleValue() returns (r: Result<SimpleValueAst>)
      requires Valid()
      modifies this
      ensures Valid()
      ensures Agrees(r, SimpleValueAt(tokens, groups, old(pos)), pos)
    {
      var value := ValueOf(currentToken);
      :- Eat(AnyOf(groups.simpleValue));
      return Ok(value);
    }

    /** Literals up to the `)` that closes the list, which stays current. */
    method ValueOrList() returns (r: Result<ValueAst>)
      requires Valid()
      modifies this
      ensures Valid()
      ensures Agrees(r, ValueOrListAt(tokens, groups, old(pos)), pos)
    {
      var values: seq<SimpleValueAst> := [];
      var start := currentToken.starts;
      ghost var first := pos;
      PrependNothing(ValuesFrom(tokens, groups, pos));
      while true
        invariant Valid() && first <= pos
        invariant ValuesFrom(tokens, groups, first) == Prepend(values, ValuesFrom(tokens, groups, pos))
        decreases |tokens| - pos
      {
        ghost var here := pos;
        var value :- SimpleValue();
        if IsToken(Coma) {
          var eaten := Eat(One(Coma));
        } else if IsToken(RParen) {
          assert ValuesFrom(tokens, groups, here) == Ok(Parsed([value], pos));
          values := values + [value];
          break;
        }
        PrependTwice(values, [value], ValuesFrom(tokens, groups, pos));
        values := values + [value];
      }
      return Ok(ListValue(start, currentToken.ends, values));
    }

    method SelectorValue() returns (r: Result<ValueAst>)
      requires Valid()
      modifies this
      ensures Valid()
      ensures Agrees(r, SelectorValueAt(tokens, groups, old(pos)), pos)
    {
      if ContainsToken(groups.simpleValue) {
        var value := SimpleValue();
        return Ok(Simple(value.value));
      } else if IsToken(LParen) {
        var eaten := Eat(One(LParen));
        var valueOrList :- ValueOrList();
        eaten := Eat(One(RParen));
        return Ok(valueOrList);
      }
      return Err(ParseError(NoSelectorValue, pos));
    }

    /** A selector, or `None` where no selector starts. */
    method Selector() returns (r: Result<Option<SelectorAst>>)
      requires Valid()
      modifies this
      ensures Valid()
      ensures Agrees(r, SelectorAt(tokens, groups, old(pos)), pos)
    {
      var start := currentToken.starts;
      var isDeclaration := false;
      if IsToken(At) {
        isDeclaration := true;
        var eaten := Eat(One(At));
      }
      if IsToken(NullMarker) {
        var eaten := Eat(One(NullMarker));
        var selectorKey :- SelectorKey();
        return Ok(Some(SelectorAst(start, currentToken.ends, isDeclaration, true, selectorKey, None)));
      } else if ContainsToken(groups.keyIdentifier) {
        var selectorKey := SelectorKey();
        var selectorValue;
        if IsToken(OpEq) {
          var eaten := Eat(One(OpEq));
          selectorValue :- SelectorValue();
        } else {
          selectorValue := Wildcard(currentToken);
        }
        return Ok(Some(SelectorAst(start, currentToken.ends, isDeclaration, false, selectorKey.value, Some(selectorValue))));
      }
      return Ok(None);
    }

    /** Selectors until `Selector` finds none; at least one is required. */
    method SelectorList() returns (r: Result<seq<SelectorAst>>)
      requires Valid()
      modifies this
      ensures Valid()
      ensures Agrees(r, SelectorListAt(tokens, groups, old(pos)), pos)
    {
      var selectors: seq<SelectorAst> := [];
      ghost var first := pos;
      PrependNothing(SelectorsFrom(tokens, groups, pos));
      while true
        invariant Valid() && first <= pos
        invariant SelectorsFrom(tokens, groups, first) == Prepend(selectors, SelectorsFrom(tokens, groups, pos))
        decreases |tokens| - pos
      {
        ghost var here := pos;
        var selector :- Selector();
        match selector
        case None =>
          assert SelectorsFrom(tokens, groups, here) == Ok(Parsed([], pos));
          assert selectors + [] == selectors;
          break;
        case Some(s) =>
          PrependTwice(selectors, [s], SelectorsFrom(tokens, groups, pos));
          selectors := selectors + [s];
      }
      if |selectors| == 0 {
        return Err(ParseError(NoSelectors, pos));
      }
      return Ok(selectors);
    }

    /** `None` when there is no `#`; otherwise the identifiers after it,
        commas skipped, up to the first token that is neither. */
    method TraitList() returns (traits: Option<seq<TraitAst>>)
      requires Valid()
      modifies this
      ensures Valid()
      ensures TraitListAt(tokens, old(pos)) == Parsed(traits, pos)
    {
      if IsToken(Hash) {
        var eaten := Eat(One(Hash));
        var list: seq<TraitAst> := [];
        ghost var first := pos;
        assert [] + TraitsFrom(tokens, pos).value == TraitsFrom(tokens, pos).value;
        while true
          invariant Valid() && first <= pos
          invariant TraitsFrom(tokens, first).value == list + TraitsFrom(tokens, pos).value
          invariant TraitsFrom(tokens, first).next == TraitsFrom(tokens, pos).next
          decreases |tokens| - pos
        {
          if IsToken(Coma) {
            eaten := Eat(One(Coma));
          } else if IsToken(Identifier) {
            var t := TraitOf(currentToken);
            eaten := Eat(One(Identifier));
            assert list + ([t] + TraitsFrom(tokens, pos).value) == (list + [t]) + TraitsFrom(tokens, pos).value;
            list := list + [t];
          } else {
            assert list + [] == list;
            break;
          }
        }
        return Some(list);
      }
      return None;
    }

    /** The abstract body parser, run from the current token. */
    method RuleBody() returns (r: Result<RuleBodyAst>)
      requires Valid()
      modifies this
      ensures Valid()
      ensures Agrees(r, ruleBody(tokens, old(pos)), pos)
    {
      match ruleBody(tokens, pos)
      case Err(e) =>
        return Err(e);
      case Ok(Parsed(body, next)) =>
        pos := next;
        currentToken := tokens[pos];
        return Ok(body);
    }

    /** One rule: selectors, optional traits, then a body in braces or `;`. */
    method Rule(parentRule: Option<nat>) returns (r: Result<RuleAst>)
      requires Valid()
      modifies this
      ensures Valid()
      ensures Agrees(r, RuleAt(tokens, groups, ruleBody, old(pos), parentRule), pos)
    {
      var start := currentToken.starts;
      var selectors :- SelectorList();
      var traits := TraitList();
      var body: Option<RuleBodyAst> := None;
      if IsToken(LBrace) {
        var parsedBody :- RuleBody();
        body := Some(parsedBody);
        :- Eat(One(RBrace));
      } else {
        :- Eat(One(Semi));
      }
      return Ok(RuleAst(start, currentToken.ends, selectors, traits, body, parentRule));
    }

    /** Rules until EOF; each rule gets the one before it as parent rule. */
    method RuleList() returns (r: Result<seq<RuleAst>>)
      requires Valid()
      modifies this
      ensures Valid()
      ensures Agrees(r, RuleListAt(tokens, groups, ruleBody, old(pos)), pos)
    {
      var rules: seq<RuleAst> := [];
      ghost var first := pos;
      PrependNothing(RulesFrom(tokens, groups, ruleBody, pos, 0));
      while !IsToken(EOF)
        invariant Valid() && first <= pos
        invariant RulesFrom(tokens, groups, ruleBody, first, 0) == Prepend(rules, RulesFrom(tokens, groups, ruleBody, pos, |rules|))
        decreases |tokens| - pos
      {
        ghost var here := pos;
        var k := |rules|;
        var step := Rule(ParentAt(k));
        if step.Err? {
          RulesFromFails(tokens, groups, ruleBody, first, here, rules);
          return Err(step.error);
        }
        var rule := step.value;
        RulesFromGrows(tokens, groups, ruleBody, first, here, rules);
        rules := rules + [rule];
      }
      RulesFromEnds(tokens, groups, ruleBody, first, pos, rules);
      return Ok(rules);
    }

    /** The whole file: at least one rule, ending on EOF. */
    method Parse() returns (r: Result<FileAst>)
      requires Valid()
      modifies this
      ensures Valid()
      ensures Agrees(r, ParseAt(tokens, groups, ruleBody, old(pos)), pos)
    {
      var rules :- RuleList();
      if |rules| == 0 {
        return Err(ParseError(NoRules, pos));
      }
      var ossFile := FileAst(rules[0].starts, rules[|rules| - 1].ends, rules);
      // the rule list only stops on EOF, so the check for trailing input always passes
      assert IsToken(EOF);
      return Ok(ossFile);
    }
  }
}
