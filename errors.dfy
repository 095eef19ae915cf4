/**
 * Go `error` values as far as the annotation observes them: the text that
 * Error() returns and the error that errors.Unwrap returns (None for nil).
 */
module Errors {
  import opened Wrappers
  import opened Strings

  datatype Err = Err(msg: string, cause: Option<Err>) {

    function Error(): string { msg }

    function Unwrap(): Option<Err> { cause }
  }

  /** errors.New: an error with the given text and nothing to unwrap. */
  function New(text: string): (e: Err)
    ensures e.Error() == text && e.Unwrap() == None
  {
    Err(text, None)
  }

  /**
   * The errors that repeated errors.Unwrap visits from `e`: `e` itself,
   * then each cause in turn, ending with the first error that wraps nothing.
   */
  function Chain(e: Err): (c: seq<Err>)
    ensures |c| >= 1 && c[0] == e
    ensures c[|c| - 1].Unwrap() == None
    ensures forall i :: 0 <= i < |c| - 1 ==> c[i].Unwrap() == Some(c[i + 1])
  {
    match e.cause
    case None => [e]
    case Some(inner) => [e] + Chain(inner)
  }

  /** The innermost error of the chain: the original failure. */
  function Root(e: Err): (r: Err)
    ensures r.Unwrap() == None
  {
    match e.cause
    case None => e
    case Some(inner) => Root(inner)
  }

  lemma {:induction false} RootEndsChain(e: Err)
    ensures Root(e) == Chain(e)[|Chain(e)| - 1]
  {
    match e.cause
    case None =>
    case Some(inner) => RootEndsChain(inner);
  }

  /**
   * Every error of the chain repeats its cause's text at the end of its
   * own: the shape that annotating an error keeps.
   */
  predicate SuffixLinked(e: Err)
  {
    match e.cause
    case None => true
    case Some(inner) => EndsWith(e.msg, inner.msg) && SuffixLinked(inner)
  }

  /** In such a chain the original failure's text ends the outermost text. */
  lemma {:induction false} RootTextIsSuffix(e: Err)
    requires SuffixLinked(e)
    ensures EndsWith(e.Error(), Root(e).Error())
  {
    match e.cause
    case None =>
    case Some(inner) =>
      RootTextIsSuffix(inner);
      EndsWithTransitive(e.msg, inner.msg, Root(inner).msg);
  }
}
