/** The MetaUI grammar as the parser implements it, written as pure
    functions of the token sequence `ts` and the index `p` of the current
    token. Each function returns what the corresponding parser method
    builds and the index of the token that is current afterwards, or the
    failure it raises. The imperative parser in module Parsing is proved
    to agree with these functions; the properties of the grammar are
    stated about them. */
module Grammar {
  import opened Tokens
  import opened Wrappers
  import opened Ast
  import opened Outcomes

  /** What a call of `eat` asks for: one token type, or a token group. */
  datatype Expect = One(kind: TokenType) | AnyOf(kinds: seq<TokenType>)

  predicate ValidExpect(e: Expect) {
    e.AnyOf? ==> |e.kinds| > 0
  }

  /** Whether `eat(e)` accepts a token of type `t`. */
  predicate Accepts(e: Expect, t: TokenType) {
    match e
    case One(k) => t == k
    case AnyOf(ks) => t in ks
  }

  /** The type a failing `eat(e)` names: the type itself, or the group's first. */
  function FirstExpected(e: Expect): TokenType
    requires ValidExpect(e)
  {
    match e
    case One(k) => k
    case AnyOf(ks) => ks[0]
  }

  /** The state every parsing step starts from. */
  predicate Ready(ts: seq<Token>, g: TokenGroups, p: nat) {
    ValidStream(ts) && ValidGroups(g) && p < |ts|
  }

  /** Source: `eat`. */
  function EatAt(ts: seq<Token>, p: nat, e: Expect): (r: Result<nat>)
    requires ValidStream(ts) && p < |ts| && ValidExpect(e)
    ensures r.Ok? <==> Accepts(e, ts[p].kind)
    ensures r.Ok? ==> r.value < |ts|
    ensures r.Ok? && ts[p].kind != EOF ==> r.value == p + 1
    ensures r.Err? ==> r.error == ParseError(ExpectedToken(FirstExpected(e)), p)
  {
    if Accepts(e, ts[p].kind) then Ok(Next(ts, p))
    else Err(ParseError(ExpectedToken(FirstExpected(e)), p))
  }

  /** Source: `selectorKey`. */
  function SelectorKeyAt(ts: seq<Token>, g: TokenGroups, p: nat): (r: Result<Parsed<SelectorKeyAst>>)
    requires Ready(ts, g, p)
    ensures r.Ok? <==> ts[p].kind in g.keyIdentifier
    ensures r.Ok? ==> r.value == Parsed(KeyOf(ts[p]), p + 1)
    ensures r.Err? ==> r.error == ParseError(ExpectedToken(g.keyIdentifier[0]), p)
  {
    var next :- EatAt(ts, p, AnyOf(g.keyIdentifier));
    Ok(Parsed(KeyOf(ts[p]), next))
  }

  /** Source: `simpleValue`. */
  function SimpleValueAt(ts: seq<Token>, g: TokenGroups, p: nat): (r: Result<Parsed<SimpleValueAst>>)
    requires Ready(ts, g, p)
    ensures r.Ok? <==> ts[p].kind in g.simpleValue
    ensures r.Ok? ==> r.value == Parsed(ValueOf(ts[p]), p + 1)
    ensures r.Err? ==> r.error == ParseError(ExpectedToken(g.simpleValue[0]), p)
  {
    var next :- EatAt(ts, p, AnyOf(g.simpleValue));
    Ok(Parsed(ValueOf(ts[p]), next))
  }

  /** Source: the loop of `valueOrList`. A value, then a comma (eaten) or
      `)` (which ends the list, left current) or anything else (the next
      value), and so on. */
  function ValuesFrom(ts: seq<Token>, g: TokenGroups, p: nat): (r: Result<Parsed<seq<SimpleValueAst>>>)
    requires Ready(ts, g, p)
    ensures r.Ok? ==> p < r.value.next < |ts| && ts[r.value.next].kind == RParen
    ensures r.Ok? ==> |r.value.value| >= 1 && r.value.value[0] == ValueOf(ts[p])
    ensures r.Ok? ==> forall v <- r.value.value :: v.kind in g.simpleValue
    decreases |ts| - p
  {
    var first :- SimpleValueAt(ts, g, p);
    var q := first.next;
    if ts[q].kind == Coma then
      Prepend([first.value], ValuesFrom(ts, g, Next(ts, q)))
    else if ts[q].kind == RParen then
      Ok(Parsed([first.value], q))
    else
      Prepend([first.value], ValuesFrom(ts, g, q))
  }

  /** Source: `valueOrList`; the list spans from its first value to the closing `)`. */
  function ValueOrListAt(ts: seq<Token>, g: TokenGroups, p: nat): (r: Result<Parsed<ValueAst>>)
    requires Ready(ts, g, p)
    ensures r.Ok? ==> p < r.value.next < |ts| && ts[r.value.next].kind == RParen
    ensures r.Ok? ==> r.value.value.ListValue? && |r.value.value.values| >= 1
    ensures r.Ok? ==> r.value.value.starts == ts[p].starts && r.value.value.ends == ts[r.value.next].ends
  {
    var values :- ValuesFrom(ts, g, p);
    Ok(Parsed(ListValue(ts[p].starts, ts[values.next].ends, values.value), values.next))
  }

  /** Source: `selectorValue`. */
  function SelectorValueAt(ts: seq<Token>, g: TokenGroups, p: nat): (r: Result<Parsed<ValueAst>>)
    requires Ready(ts, g, p)
    ensures r.Ok? ==> p < r.value.next < |ts|
    ensures ts[p].kind in g.simpleValue ==> r == Ok(Parsed(Simple(ValueOf(ts[p])), p + 1))
    ensures ts[p].kind !in g.simpleValue && ts[p].kind != LParen ==> r == Err(ParseError(NoSelectorValue, p))
    ensures r.Ok? && ts[p].kind !in g.simpleValue ==>
      && ts[p].kind == LParen
      && p + 2 < r.value.next < |ts|
      && ts[r.value.next - 1].kind == RParen
      && r.value.value.ListValue? && |r.value.value.values| >= 1
  {
    if ts[p].kind in g.simpleValue then
      var value := SimpleValueAt(ts, g, p).value;
      Ok(Parsed(Simple(value.value), value.next))
    else if ts[p].kind == LParen then
      // eat(LParen) accepts the current token
      var list :- ValueOrListAt(ts, g, Next(ts, p));
      // eat(RParen) accepts the token valueOrList stopped on
      Ok(Parsed(list.value, Next(ts, list.next)))
    else
      Err(ParseError(NoSelectorValue, p))
  }

  /** Whether a token of type `t` can start a selector's key part (after an optional `@`). */
  predicate KeyStart(g: TokenGroups, t: TokenType) {
    t == NullMarker || t in g.keyIdentifier
  }

  /** Where a selector's key part starts: after its `@`, if it has one. */
  function AfterAt(ts: seq<Token>, p: nat): (q: nat)
    requires ValidStream(ts) && p < |ts|
    ensures q < |ts|
    ensures q == (if ts[p].kind == At then p + 1 else p)
  {
    // eat(At) accepts the current token when it is `@`
    if ts[p].kind == At then Next(ts, p) else p
  }

  /** Source: `selector`. `None` is the parser's `null`: no selector here. */
  function SelectorAt(ts: seq<Token>, g: TokenGroups, p: nat): (r: Result<Parsed<Option<SelectorAst>>>)
    requires Ready(ts, g, p)
    ensures r.Ok? ==> r.value.next < |ts|
    ensures r.Ok? && r.value.value.Some? ==>
      var s := r.value.value.value;
      && p < r.value.next
      && s.starts == ts[p].starts
      && s.ends == ts[r.value.next].ends
      && (s.isDeclaration <==> ts[p].kind == At)
      && (s.hasNullMarker <==> s.value.None?)
    ensures r.Ok? && r.value.value.None? ==>
      && r.value.next == AfterAt(ts, p)
      && !KeyStart(g, ts[r.value.next].kind)
  {
    var isDeclaration := ts[p].kind == At;
    var q := AfterAt(ts, p);
    if ts[q].kind == NullMarker then
      var key :- SelectorKeyAt(ts, g, Next(ts, q));
      Ok(Parsed(Some(SelectorAst(ts[p].starts, ts[key.next].ends, isDeclaration, true, key.value, None)), key.next))
    else if ts[q].kind in g.keyIdentifier then
      var key := SelectorKeyAt(ts, g, q).value;
      if ts[key.next].kind == OpEq then
        var value :- SelectorValueAt(ts, g, Next(ts, key.next));
        Ok(Parsed(Some(SelectorAst(ts[p].starts, ts[value.next].ends, isDeclaration, false, key.value, Some(value.value))), value.next))
      else
        Ok(Parsed(Some(SelectorAst(ts[p].starts, ts[key.next].ends, isDeclaration, false, key.value, Some(Wildcard(ts[key.next])))), key.next))
    else
      Ok(Parsed(None, q))
  }

  /** Source: the loop of `selectorList`: selectors until `selector` finds none. */
  function SelectorsFrom(ts: seq<Token>, g: TokenGroups, p: nat): (r: Result<Parsed<seq<SelectorAst>>>)
    requires Ready(ts, g, p)
    ensures r.Ok? ==> p <= r.value.next < |ts| && !KeyStart(g, ts[r.value.next].kind)
    ensures r.Ok? && r.value.value != [] ==> p < r.value.next && r.value.value[0].starts == ts[p].starts
    decreases |ts| - p
  {
    var selector :- SelectorAt(ts, g, p);
    match selector.value
    case None => Ok(Parsed([], selector.next))
    case Some(s) => Prepend([s], SelectorsFrom(ts, g, selector.next))
  }

  /** Source: `selectorList`. */
  function SelectorListAt(ts: seq<Token>, g: TokenGroups, p: nat): (r: Result<Parsed<seq<SelectorAst>>>)
    requires Ready(ts, g, p)
    ensures r.Ok? ==> |r.value.value| >= 1 && p < r.value.next < |ts|
    ensures r.Ok? ==> r.value.value[0].starts == ts[p].starts
    ensures r.Ok? ==> !KeyStart(g, ts[r.value.next].kind)
  {
    var selectors :- SelectorsFrom(ts, g, p);
    if |selectors.value| == 0 then Err(ParseError(NoSelectors, selectors.next))
    else Ok(selectors)
  }

  /** Source: the loop of `traitList`: commas are skipped, identifiers
      become traits, any other token ends the list. */
  function TraitsFrom(ts: seq<Token>, p: nat): (r: Parsed<seq<TraitAst>>)
    requires ValidStream(ts) && p < |ts|
    ensures p <= r.next < |ts|
    ensures ts[r.next].kind != Coma && ts[r.next].kind != Identifier
    ensures |r.value| <= r.next - p
    decreases |ts| - p
  {
    if ts[p].kind == Coma then
      TraitsFrom(ts, Next(ts, p))
    else if ts[p].kind == Identifier then
      var rest := TraitsFrom(ts, Next(ts, p));
      Parsed([TraitOf(ts[p])] + rest.value, rest.next)
    else
      Parsed([], p)
  }

  /** Source: `traitList`. `None` is the parser's `null`: no `#` here. */
  function TraitListAt(ts: seq<Token>, p: nat): (r: Parsed<Option<seq<TraitAst>>>)
    requires ValidStream(ts) && p < |ts|
    ensures p <= r.next < |ts|
    ensures r.value.None? <==> ts[p].kind != Hash
    ensures r.value.None? ==> r.next == p
    ensures r.value.Some? ==> p < r.next < |ts| && ts[r.next].kind != Coma && ts[r.next].kind != Identifier
  {
    if ts[p].kind == Hash then
      // eat(Hash) accepts the current token
      var traits := TraitsFrom(ts, Next(ts, p));
      Parsed(Some(traits.value), traits.next)
    else
      Parsed(None, p)
  }

  /** The body parser a rule with `{` hands over to. It is not modelled;
      all that is assumed of it is that it fails or moves the cursor
      forward, staying inside the token sequence. */
  type BodyParser = (seq<Token>, nat) -> Result<Parsed<RuleBodyAst>>

  ghost predicate BodyProgress(ts: seq<Token>, body: BodyParser) {
    forall p: nat :: p < |ts| && body(ts, p).Ok? ==> p < body(ts, p).value.next < |ts|
  }

  /** Source: the end of `rule`: a `{` body closed by `}`, or a `;`. The
      `{` is handed to the body parser as it is. */
  function RuleEndAt(ts: seq<Token>, body: BodyParser, q: nat): (r: Result<Parsed<Option<RuleBodyAst>>>)
    requires ValidStream(ts) && q < |ts| && BodyProgress(ts, body)
    ensures r.Ok? ==> q < r.value.next < |ts|
    ensures r.Ok? ==> (r.value.value.Some? <==> ts[q].kind == LBrace)
    ensures r.Ok? ==> ts[r.value.next - 1].kind == (if ts[q].kind == LBrace then RBrace else Semi)
    ensures ts[q].kind != LBrace ==> r == if ts[q].kind == Semi then Ok(Parsed(None, q + 1)) else Err(ParseError(ExpectedToken(Semi), q))
    ensures ts[q].kind == LBrace ==>
      r == match body(ts, q)
           case Err(e) => Err(e)
           case Ok(b) =>
             if ts[b.next].kind == RBrace then Ok(Parsed(Some(b.value), b.next + 1))
             else Err(ParseError(ExpectedToken(RBrace), b.next))
  {
    if ts[q].kind == LBrace then
      var ruleBody :- body(ts, q);
      var close :- EatAt(ts, ruleBody.next, One(RBrace));
      Ok(Parsed(Some(ruleBody.value), close))
    else
      var close :- EatAt(ts, q, One(Semi));
      Ok(Parsed(None, close))
  }

  /** Source: `rule`. */
  function RuleAt(ts: seq<Token>, g: TokenGroups, body: BodyParser, p: nat, parent: Option<nat>): (r: Result<Parsed<RuleAst>>)
    requires Ready(ts, g, p) && BodyProgress(ts, body)
    ensures r.Ok? ==> p < r.value.next < |ts|
    ensures r.Ok? ==>
      var rule := r.value.value;
      && rule.starts == ts[p].starts
      && rule.ends == ts[r.value.next].ends
      && |rule.selectors| >= 1
      && rule.parent == parent
      && ts[r.value.next - 1].kind == (if rule.body.Some? then RBrace else Semi)
  {
    match SelectorListAt(ts, g, p)
    case Err(e) => Err(e)
    case Ok(selectors) => RuleAfterSelectors(ts, body, p, selectors, parent)
  }

  /** The rest of `rule` once its selectors, which run from `p` up to
      `selectors.next`, are parsed: the traits and the end. */
  function RuleAfterSelectors(ts: seq<Token>, body: BodyParser, p: nat, selectors: Parsed<seq<SelectorAst>>, parent: Option<nat>): (r: Result<Parsed<RuleAst>>)
    requires ValidStream(ts) && p < selectors.next < |ts| && BodyProgress(ts, body)
    ensures r.Ok? ==> selectors.next < r.value.next < |ts|
    ensures r.Ok? ==>
      var rule := r.value.value;
      && rule.starts == ts[p].starts
      && rule.ends == ts[r.value.next].ends
      && rule.selectors == selectors.value
      && rule.traits == TraitListAt(ts, selectors.next).value
      && rule.parent == parent
      && ts[r.value.next - 1].kind == (if rule.body.Some? then RBrace else Semi)
  {
    var traits := TraitListAt(ts, selectors.next);
    match RuleEndAt(ts, body, traits.next)
    case Err(e) => Err(e)
    case Ok(end) =>
      Ok(Parsed(RuleAst(ts[p].starts, ts[end.next].ends, selectors.value, traits.value, end.value, parent), end.next))
  }

  /** The parent `ruleList` passes to the rule at index `k`: the rule before it. */
  function ParentAt(k: nat): (r: Option<nat>)
    ensures r.None? <==> k == 0
    ensures r.Some? ==> r.value + 1 == k
  {
    if k == 0 then None else Some(k - 1)
  }

  /** Source: the loop of `ruleList`, from the `k`-th rule on. */
  function RulesFrom(ts: seq<Token>, g: TokenGroups, body: BodyParser, p: nat, k: nat): (r: Result<Parsed<seq<RuleAst>>>)
    requires Ready(ts, g, p) && BodyProgress(ts, body)
    ensures r.Ok? ==> p <= r.value.next && r.value.next == |ts| - 1
    ensures r.Ok? && r.value.value != [] ==> r.value.value[0].starts == ts[p].starts
    decreases |ts| - p
  {
    if ts[p].kind == EOF then
      EofIsLast(ts, p);
      Ok(Parsed([], p))
    else
      var rule :- RuleAt(ts, g, body, p, ParentAt(k));
      Prepend([rule.value], RulesFrom(ts, g, body, rule.next, k + 1))
  }

  /** The rule loop, having built `rules` from `first` up to `p`, fails
      where the rule at `p` fails. */
  lemma RulesFromFails(ts: seq<Token>, g: TokenGroups, body: BodyParser, first: nat, p: nat, rules: seq<RuleAst>)
    requires first <= p && Ready(ts, g, p) && BodyProgress(ts, body) && ts[p].kind != EOF
    requires RuleAt(ts, g, body, p, ParentAt(|rules|)).Err?
    requires RulesFrom(ts, g, body, first, 0) == Prepend(rules, RulesFrom(ts, g, body, p, |rules|))
    ensures RulesFrom(ts, g, body, first, 0) == Err(RuleAt(ts, g, body, p, ParentAt(|rules|)).error)
  {
  }

  /** The rule loop, having built `rules` from `first` up to `p`, adds the
      rule parsed at `p` and goes on after it. */
  lemma RulesFromGrows(ts: seq<Token>, g: TokenGroups, body: BodyParser, first: nat, p: nat, rules: seq<RuleAst>)
    requires first <= p && Ready(ts, g, p) && BodyProgress(ts, body) && ts[p].kind != EOF
    requires RuleAt(ts, g, body, p, ParentAt(|rules|)).Ok?
    requires RulesFrom(ts, g, body, first, 0) == Prepend(rules, RulesFrom(ts, g, body, p, |rules|))
    ensures var rule := RuleAt(ts, g, body, p, ParentAt(|rules|)).value;
      RulesFrom(ts, g, body, first, 0) == Prepend(rules + [rule.value], RulesFrom(ts, g, body, rule.next, |rules| + 1))
  {
    var rule := RuleAt(ts, g, body, p, ParentAt(|rules|)).value;
    PrependTwice(rules, [rule.value], RulesFrom(ts, g, body, rule.next, |rules| + 1));
  }

  /** The rule loop, having built `rules` from `first` up to EOF, returns them. */
  lemma RulesFromEnds(ts: seq<Token>, g: TokenGroups, body: BodyParser, first: nat, p: nat, rules: seq<RuleAst>)
    requires first <= p && Ready(ts, g, p) && BodyProgress(ts, body) && ts[p].kind == EOF
    requires RulesFrom(ts, g, body, first, 0) == Prepend(rules, RulesFrom(ts, g, body, p, |rules|))
    ensures RulesFrom(ts, g, body, first, 0) == Ok(Parsed(rules, p))
  {
    assert rules + [] == rules;
  }

  /** Source: `ruleList`. */
  function RuleListAt(ts: seq<Token>, g: TokenGroups, body: BodyParser, p: nat): (r: Result<Parsed<seq<RuleAst>>>)
    requires Ready(ts, g, p) && BodyProgress(ts, body)
    ensures r.Ok? ==> r.value.next == |ts| - 1 && ts[r.value.next].kind == EOF
    ensures r.Ok? && r.value.value != [] ==> r.value.value[0].starts == ts[p].starts
  {
    RulesFrom(ts, g, body, p, 0)
  }

  /** Source: `parse`. */
  function ParseAt(ts: seq<Token>, g: TokenGroups, body: BodyParser, p: nat): (r: Result<Parsed<FileAst>>)
    requires Ready(ts, g, p) && BodyProgress(ts, body)
    ensures r.Ok? ==> r.value.next == |ts| - 1
    ensures r.Ok? ==>
      var file := r.value.value;
      && |file.rules| >= 1
      && file.starts == file.rules[0].starts == ts[p].starts
      && file.ends == file.rules[|file.rules| - 1].ends
  {
    var rules :- RuleListAt(ts, g, body, p);
    if |rules.value| == 0 then Err(ParseError(NoRules, rules.next))
    else Ok(Parsed(FileAst(rules.value[0].starts, rules.value[|rules.value| - 1].ends, rules.value), rules.next))
  }

  /** Source: the dispatch inside `ruleBody`: a property is a property key
      followed by `:`, a precedence chain is any token followed by `=>`,
      and everything else is parsed as a nested rule. */
  function Classify(current: TokenType, peek: TokenType, keyProperty: seq<TokenType>): (k: StatementKind)
    ensures k == Property <==> current in keyProperty && peek == Colon
    ensures k == PrecedenceChain <==> peek == NextPrecedenceChain
    ensures k == NestedRule <==> peek != NextPrecedenceChain && (peek != Colon || current !in keyProperty)
  {
    if current in keyProperty && peek == Colon then Property
    else if peek == NextPrecedenceChain then PrecedenceChain
    else NestedRule
  }

  /** The dispatch applied to the current token and the one after it. */
  function StatementAt(ts: seq<Token>, g: TokenGroups, p: nat): (k: StatementKind)
    requires Ready(ts, g, p)
    ensures ts[p].kind == EOF ==> k == NestedRule
    ensures ts[p].kind != EOF ==>
      && p + 1 < |ts|
      && (k == Property <==> ts[p].kind in g.keyProperty && ts[p + 1].kind == Colon)
      && (k == PrecedenceChain <==> ts[p + 1].kind == NextPrecedenceChain)
  {
    Classify(ts[p].kind, Peek(ts, p).kind, g.keyProperty)
  }
}
