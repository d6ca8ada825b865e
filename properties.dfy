/** Properties of the MetaUI grammar as the parser implements it, stated
    about the functions of module Grammar (which the parser's methods are
    proved to agree with). */
module GrammarProperties {
  import opened Tokens
  import opened Wrappers
  import opened Ast
  import opened Outcomes
  import opened Grammar

  // ---------------------------------------------------------------------
  // Selectors

  /** `selector` finds no selector exactly when, after an optional `@`,
      the token is neither `^` nor a key; it then consumes only that `@`. */
  lemma SelectorAbsent(ts: seq<Token>, g: TokenGroups, p: nat)
    requires Ready(ts, g, p)
    ensures SelectorAt(ts, g, p) == Ok(Parsed(None, AfterAt(ts, p))) <==> !KeyStart(g, ts[AfterAt(ts, p)].kind)
    ensures ts[p].kind != At && !KeyStart(g, ts[p].kind) ==> SelectorAt(ts, g, p) == Ok(Parsed(None, p))
  {
  }

  /** A selector written `^key` (or `@^key`): it is marked, has no value,
      and consumes exactly its `@`, its `^` and its key. Without a key
      after `^` it fails there, expecting a key. */
  lemma NullMarkerSelector(ts: seq<Token>, g: TokenGroups, p: nat)
    requires Ready(ts, g, p)
    requires ts[AfterAt(ts, p)].kind == NullMarker
    ensures var q := AfterAt(ts, p);
      var r := SelectorAt(ts, g, p);
      && q + 1 < |ts|
      && (r.Ok? <==> ts[q + 1].kind in g.keyIdentifier)
      && (r.Ok? ==> r.value == Parsed(Some(SelectorAst(ts[p].starts, ts[q + 2].ends, ts[p].kind == At, true, KeyOf(ts[q + 1]), None)), q + 2))
      && (r.Err? ==> r.error == ParseError(ExpectedToken(g.keyIdentifier[0]), q + 1))
  {
  }

  /** A key not followed by `=` gets the wildcard `*` of type Star. */
  lemma WildcardSelector(ts: seq<Token>, g: TokenGroups, p: nat)
    requires Ready(ts, g, p)
    requires var q := AfterAt(ts, p);
      ts[q].kind != NullMarker && ts[q].kind in g.keyIdentifier && ts[q + 1].kind != OpEq
    ensures var q := AfterAt(ts, p);
      SelectorAt(ts, g, p) == Ok(Parsed(Some(SelectorAst(ts[p].starts, ts[q + 1].ends, ts[p].kind == At, false, KeyOf(ts[q]), Some(Wildcard(ts[q + 1])))), q + 1))
  {
  }

  /** A key followed by `=` takes whatever `selectorValue` parses after
      the `=`, and fails as it fails: a single literal, a parenthesised
      list, and nothing else. */
  lemma ExplicitValueSelector(ts: seq<Token>, g: TokenGroups, p: nat)
    requires Ready(ts, g, p)
    requires var q := AfterAt(ts, p);
      ts[q].kind != NullMarker && ts[q].kind in g.keyIdentifier && ts[q + 1].kind == OpEq
    ensures var q := AfterAt(ts, p);
      && q + 2 < |ts|
      && var v := SelectorValueAt(ts, g, q + 2);
      && var r := SelectorAt(ts, g, p);
      && (r.Ok? <==> v.Ok?)
      && (r.Ok? ==> r.value == Parsed(Some(SelectorAst(ts[p].starts, ts[v.value.next].ends, ts[p].kind == At, false, KeyOf(ts[q]), Some(v.value.value))), v.value.next))
      && (r.Err? ==> r.error == v.error)
      && (ts[q + 2].kind !in g.simpleValue && ts[q + 2].kind != LParen ==> r == Err(ParseError(NoSelectorValue, q + 2)))
  {
  }

  /** A rule needs a selector: where none starts, `selectorList` fails
      there (after swallowing a lone `@`). */
  lemma SelectorListNeedsOne(ts: seq<Token>, g: TokenGroups, p: nat)
    requires Ready(ts, g, p)
    requires !KeyStart(g, ts[AfterAt(ts, p)].kind)
    ensures SelectorListAt(ts, g, p) == Err(ParseError(NoSelectors, AfterAt(ts, p)))
  {
  }

  // ---------------------------------------------------------------------
  // Value lists

  /** The tokens between `(` and `)` that `valueOrList` accepts, when the
      comma and `)` are not literals themselves: a literal, then any
      number of literals each with an optional comma before it. */
  predicate ListShape(g: TokenGroups, s: seq<Token>)
    decreases |s|
  {
    && |s| >= 1
    && s[0].kind in g.simpleValue
    && (|s| == 1
        || (s[1].kind == Coma && |s| >= 3 && ListShape(g, s[2..]))
        || (s[1].kind != Coma && ListShape(g, s[1..])))
  }

  /** The literals among `s`, in order: every token but the commas. */
  function ValuesOf(s: seq<Token>): seq<SimpleValueAst> {
    if s == [] then []
    else (if s[0].kind == Coma then [] else [ValueOf(s[0])]) + ValuesOf(s[1..])
  }

  predicate SeparatorsAreNotValues(g: TokenGroups) {
    Coma !in g.simpleValue && RParen !in g.simpleValue
  }

  /** The literals of a list with one more token in front. */
  lemma ValuesOfCons(t: Token, s: seq<Token>)
    ensures ValuesOf([t] + s) == (if t.kind == Coma then [] else [ValueOf(t)]) + ValuesOf(s)
  {
    assert ([t] + s)[1..] == s;
  }

  /** A literal, a comma and a well-shaped list form a well-shaped list. */
  lemma ShapeAfterComma(ts: seq<Token>, g: TokenGroups, p: nat, q: nat)
    requires SeparatorsAreNotValues(g)
    requires p + 2 < q <= |ts| && ts[p].kind in g.simpleValue && ts[p + 1].kind == Coma
    requires ListShape(g, ts[p + 2..q])
    ensures ListShape(g, ts[p..q])
    ensures ValuesOf(ts[p..q]) == [ValueOf(ts[p])] + ValuesOf(ts[p + 2..q])
  {
    var rest := ts[p + 2..q];
    assert ts[p..q][0] == ts[p] && ts[p..q][1] == ts[p + 1];
    assert ts[p..q][2..] == rest;
    assert ts[p..q] == [ts[p]] + ([ts[p + 1]] + rest);
    ValuesOfCons(ts[p + 1], rest);
    ValuesOfCons(ts[p], [ts[p + 1]] + rest);
    assert [] + ValuesOf(rest) == ValuesOf(rest);
  }

  /** A literal before a well-shaped list that does not start with a comma
      forms a well-shaped list. */
  lemma ShapeBefore(ts: seq<Token>, g: TokenGroups, p: nat, q: nat)
    requires SeparatorsAreNotValues(g)
    requires p + 1 < q <= |ts| && ts[p].kind in g.simpleValue && ts[p + 1].kind != Coma
    requires ListShape(g, ts[p + 1..q])
    ensures ListShape(g, ts[p..q])
    ensures ValuesOf(ts[p..q]) == [ValueOf(ts[p])] + ValuesOf(ts[p + 1..q])
  {
    var rest := ts[p + 1..q];
    assert ts[p..q][0] == ts[p] && ts[p..q][1] == ts[p + 1];
    assert ts[p..q][1..] == rest;
    assert ts[p..q] == [ts[p]] + rest;
    ValuesOfCons(ts[p], rest);
  }

  /** What `valueOrList` returns is the literals of a well-shaped list,
      in source order, and it stops on the `)` after them. */
  lemma {:induction false} ValuesFromSound(ts: seq<Token>, g: TokenGroups, p: nat)
    requires Ready(ts, g, p) && SeparatorsAreNotValues(g)
    requires ValuesFrom(ts, g, p).Ok?
    ensures var r := ValuesFrom(ts, g, p).value;
      && ts[r.next].kind == RParen
      && ListShape(g, ts[p..r.next])
      && r.value == ValuesOf(ts[p..r.next])
    decreases |ts| - p
  {
    var r := ValuesFrom(ts, g, p).value;
    var q := p + 1;
    if ts[q].kind == Coma {
      assert ValuesFrom(ts, g, p) == Prepend([ValueOf(ts[p])], ValuesFrom(ts, g, q + 1));
      ValuesFromSound(ts, g, q + 1);
      ShapeAfterComma(ts, g, p, r.next);
    } else if ts[q].kind == RParen {
      assert ts[p..r.next] == [ts[p]] + [];
      ValuesOfCons(ts[p], []);
    } else {
      assert ValuesFrom(ts, g, p) == Prepend([ValueOf(ts[p])], ValuesFrom(ts, g, q));
      ValuesFromSound(ts, g, q);
      ShapeBefore(ts, g, p, r.next);
    }
  }

  /** Conversely, every well-shaped list followed by `)` is accepted,
      with its literals in source order. */
  lemma {:induction false} ValuesFromComplete(ts: seq<Token>, g: TokenGroups, p: nat, q: nat)
    requires Ready(ts, g, p) && SeparatorsAreNotValues(g)
    requires p < q < |ts| && ts[q].kind == RParen && ListShape(g, ts[p..q])
    ensures ValuesFrom(ts, g, p) == Ok(Parsed(ValuesOf(ts[p..q]), q))
    decreases q - p
  {
    var s := ts[p..q];
    assert s[0] == ts[p];
    if p + 1 == q {
      assert s == [ts[p]] + [];
      ValuesOfCons(ts[p], []);
      assert ValuesOf(s) == [ValueOf(ts[p])] + [] == [ValueOf(ts[p])];
      assert SimpleValueAt(ts, g, p) == Ok(Parsed(ValueOf(ts[p]), q));
    } else if ts[p + 1].kind == Coma {
      assert s[1] == ts[p + 1];
      assert s[2] == ts[p + 2];
      var rest := ts[p + 2..q];
      assert s == [ts[p]] + ([ts[p + 1]] + rest);
      ValuesOfCons(ts[p], [ts[p + 1]] + rest);
      ValuesOfCons(ts[p + 1], rest);
      assert [] + ValuesOf(rest) == ValuesOf(rest);
      assert s[2..] == rest;
      ValuesFromComplete(ts, g, p + 2, q);
      assert ValuesFrom(ts, g, p) == Prepend([ValueOf(ts[p])], ValuesFrom(ts, g, p + 2));
    } else {
      var rest := ts[p + 1..q];
      assert s[1] == ts[p + 1];
      assert s == [ts[p]] + rest;
      ValuesOfCons(ts[p], rest);
      assert s[1..] == rest;
      ValuesFromComplete(ts, g, p + 1, q);
      assert ValuesFrom(ts, g, p) == Prepend([ValueOf(ts[p])], ValuesFrom(ts, g, p + 1));
    }
  }

  // ---------------------------------------------------------------------
  // Traits

  /** The traits among `s`, in order: its identifiers. */
  function TraitsOf(s: seq<Token>): seq<TraitAst> {
    if s == [] then []
    else (if s[0].kind == Identifier then [TraitOf(s[0])] else []) + TraitsOf(s[1..])
  }

  /** The trait loop runs over commas and identifiers only, and returns
      exactly the identifiers among them, in source order. */
  lemma {:induction false} TraitsFromExact(ts: seq<Token>, p: nat)
    requires ValidStream(ts) && p < |ts|
    ensures forall k :: p <= k < TraitsFrom(ts, p).next ==> ts[k].kind == Coma || ts[k].kind == Identifier
    ensures TraitsFrom(ts, p).value == TraitsOf(ts[p..TraitsFrom(ts, p).next])
    decreases |ts| - p
  {
    var r := TraitsFrom(ts, p);
    if ts[p].kind == Coma || ts[p].kind == Identifier {
      TraitsFromExact(ts, p + 1);
      assert ts[p..r.next][1..] == ts[p + 1..r.next];
    } else {
      assert ts[p..r.next] == [];
    }
  }

  /** `traitList` gives "no traits" exactly without `#`; after `#` it gives
      the identifiers up to the first token that is neither an identifier
      nor a comma, which may be none at all. */
  lemma TraitListExact(ts: seq<Token>, p: nat)
    requires ValidStream(ts) && p < |ts|
    ensures var r := TraitListAt(ts, p);
      && (r.value.None? <==> ts[p].kind != Hash)
      && (r.value.Some? ==> r.value.value == TraitsOf(ts[p + 1..r.next]))
      && (ts[p].kind == Hash && ts[p + 1].kind != Coma && ts[p + 1].kind != Identifier ==> r == Parsed(Some([]), p + 1))
  {
    if ts[p].kind == Hash {
      TraitsFromExact(ts, p + 1);
    }
  }

  // ---------------------------------------------------------------------
  // Rules and files

  /** A rule without `{` after its selectors and traits must end with
      `;`, which it consumes; otherwise it fails there, expecting `;`. */
  lemma RuleWithoutBody(ts: seq<Token>, body: BodyParser, p: nat, selectors: Parsed<seq<SelectorAst>>, parent: Option<nat>)
    requires ValidStream(ts) && p < selectors.next < |ts| && BodyProgress(ts, body)
    requires ts[TraitListAt(ts, selectors.next).next].kind != LBrace
    ensures var traits := TraitListAt(ts, selectors.next);
      var q := traits.next;
      var r := RuleAfterSelectors(ts, body, p, selectors, parent);
      && (r.Ok? <==> ts[q].kind == Semi)
      && (r.Ok? ==> r.value == Parsed(RuleAst(ts[p].starts, ts[q + 1].ends, selectors.value, traits.value, None, parent), q + 1))
      && (r.Err? ==> r.error == ParseError(ExpectedToken(Semi), q))
  {
  }

  /** Rule `i` of `rules`, the `k + i`-th of the file, has the rule before it as parent. */
  predicate ParentsLinked(rules: seq<RuleAst>, k: nat) {
    forall i :: 0 <= i < |rules| ==> rules[i].parent == ParentAt(k + i)
  }

  /** A rule with the right parent, put before a linked list, keeps it linked. */
  lemma LinkedCons(rule: RuleAst, rest: seq<RuleAst>, k: nat)
    requires rule.parent == ParentAt(k) && ParentsLinked(rest, k + 1)
    ensures ParentsLinked([rule] + rest, k)
  {
    var rules := [rule] + rest;
    forall i | 0 <= i < |rules| ensures rules[i].parent == ParentAt(k + i) {
      if i > 0 {
        assert rules[i] == rest[i - 1];
      }
    }
  }

  /** Each rule of the list gets the rule before it as parent. */
  lemma {:induction false} RulesFromParents(ts: seq<Token>, g: TokenGroups, body: BodyParser, p: nat, k: nat)
    requires Ready(ts, g, p) && BodyProgress(ts, body)
    requires RulesFrom(ts, g, body, p, k).Ok?
    ensures ParentsLinked(RulesFrom(ts, g, body, p, k).value.value, k)
    decreases |ts| - p
  {
    if ts[p].kind != EOF {
      var rule := RuleAt(ts, g, body, p, ParentAt(k)).value;
      var tail := RulesFrom(ts, g, body, rule.next, k + 1);
      assert RulesFrom(ts, g, body, p, k) == Prepend([rule.value], tail);
      RulesFromParents(ts, g, body, rule.next, k + 1);
      LinkedCons(rule.value, tail.value.value, k);
    }
  }

  /** `parse` fails on an input with no rules, with the cursor on EOF;
      otherwise it fails only where a rule fails. On success the file
      spans its rules, the cursor is on EOF, and every rule but the first
      has the rule before it as parent. */
  lemma ParseOutcome(ts: seq<Token>, g: TokenGroups, body: BodyParser, p: nat)
    requires Ready(ts, g, p) && BodyProgress(ts, body)
    ensures ts[p].kind == EOF ==> ParseAt(ts, g, body, p) == Err(ParseError(NoRules, p))
    ensures ts[p].kind != EOF ==> ParseAt(ts, g, body, p).Ok? == RuleListAt(ts, g, body, p).Ok?
    ensures ParseAt(ts, g, body, p).Ok? ==>
      var file := ParseAt(ts, g, body, p).value.value;
      && ts[ParseAt(ts, g, body, p).value.next].kind == EOF
      && file.rules == RuleListAt(ts, g, body, p).value.value
      && ParentsLinked(file.rules, 0)
  {
    if RuleListAt(ts, g, body, p).Ok? {
      RulesFromParents(ts, g, body, p, 0);
    }
  }
}
