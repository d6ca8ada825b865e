/** How a parsing step ends. The parser's `error()` throws and aborts the
    whole parse; here it is a failure value that every caller passes up
    unchanged. */
module Outcomes {
  import opened Tokens

  /** Which construct the parser expected when it gave up. */
  datatype Reason =
    | ExpectedToken(kind: TokenType)  // `eat` found another token type
    | NoSelectors                     // a rule with zero selectors
    | NoSelectorValue                 // `=` followed by neither a value nor `(`
    | NoRules                         // a file with zero rules

  /** A failure, with the index of the token that was current when it was
      raised (the token whose text, line and column the message reports). */
  datatype ParseError = ParseError(reason: Reason, at: nat)

  /** The value a parsing step built and the index of the token that is
      current after it. */
  datatype Parsed<+T> = Parsed(value: T, next: nat)

  datatype Result<+T> = Ok(value: T) | Err(error: ParseError) {

    predicate IsFailure() {
      Err?
    }

    function PropagateFailure<U>(): Result<U>
      requires Err?
    {
      Err(error)
    }

    function Extract(): T
      requires Ok?
    {
      value
    }
  }

  /** The result of a step that builds nothing (`eat`). */
  datatype Outcome = Pass | Fail(error: ParseError) {

    predicate IsFailure() {
      Fail?
    }

    function PropagateFailure<U>(): Result<U>
      requires Fail?
    {
      Err(error)
    }
  }

  /** Puts `front` before the list a successful step built; a failure passes through. */
  function Prepend<T>(front: seq<T>, r: Result<Parsed<seq<T>>>): Result<Parsed<seq<T>>> {
    match r
    case Ok(Parsed(items, next)) => Ok(Parsed(front + items, next))
    case Err(e) => Err(e)
  }

  lemma PrependNothing<T>(r: Result<Parsed<seq<T>>>)
    ensures Prepend([], r) == r
  {
    match r
    case Ok(Parsed(items, next)) => assert [] + items == items;
    case Err(_) =>
  }

  lemma PrependTwice<T>(front: seq<T>, middle: seq<T>, r: Result<Parsed<seq<T>>>)
    ensures Prepend(front, Prepend(middle, r)) == Prepend(front + middle, r)
  {
    match r
    case Ok(Parsed(items, next)) => assert front + (middle + items) == (front + middle) + items;
    case Err(_) =>
  }
}
