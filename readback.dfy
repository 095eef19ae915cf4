/**
 * Reading an argument list back out of its rendering. Handle quotes each
 * argument without escaping quote marks inside it, so the rendering can be
 * read back exactly when no argument contains a quote mark, and two
 * different argument lists can render alike otherwise.
 */
module ArgReadBack {
  import opened Wrappers
  import opened Strings
  import opened StackErr

  /** No argument contains the quote mark. */
  predicate QuoteFree(args: seq<string>)
  {
    forall i :: 0 <= i < |args| ==> '"' !in args[i]
  }

  /**
   * Reads one argument between quote marks from the front of `body`: the
   * argument and what follows its closing quote mark.
   */
  function ReadQuoted(body: string): (r: Option<(string, string)>)
    ensures r.Some? ==> |r.value.1| < |body|
  {
    if |body| == 0 || body[0] != '"' then None
    else match IndexOf(body[1..], '"')
      case None => None
      case Some(k) => Some((body[1..k + 1], body[k + 2..]))
  }

  /** Reads `"a1", "a2", ..., "an"` (n >= 1) back into its arguments. */
  function ParseQuoted(body: string): Option<seq<string>>
    decreases |body|
  {
    match ReadQuoted(body)
    case None => None
    case Some((arg, rest)) =>
      if rest == [] then Some([arg])
      else if |rest| >= 2 && rest[0] == ',' && rest[1] == ' ' then
        match ParseQuoted(rest[2..])
        case None => None
        case Some(more) => Some([arg] + more)
      else None
  }

  /** Reads a rendered argument list back: "" is no arguments, otherwise a parenthesised quoted list. */
  function ParseArgs(s: string): Option<seq<string>>
  {
    if s == [] then Some([])
    else if |s| >= 2 && s[0] == '(' && s[|s| - 1] == ')' then ParseQuoted(s[1..|s| - 1])
    else None
  }

  /** A quote-free argument between quote marks is read whole, up to the closing quote mark. */
  lemma ReadQuotedArg(a: string, after: string)
    requires '"' !in a
    ensures ReadQuoted(['"'] + a + ['"'] + after) == Some((a, after))
  {
    var body := ['"'] + a + ['"'] + after;
    assert body[1..] == a + ['"'] + after;
    IndexOfAfter(a, '"', after);
    assert body[1..|a| + 1] == a;
    assert body[|a| + 2..] == after;
  }

  /** The last argument of a list is read whole. */
  lemma ParseQuotedLast(body: string, a: string)
    requires body == ['"'] + a + ['"'] && '"' !in a
    ensures ParseQuoted(body) == Some([a])
  {
    ReadQuotedArg(a, []);
    assert body == ['"'] + a + ['"'] + [];
  }

  /** An argument followed by ", " is read whole, and reading goes on after the ", ". */
  lemma ParseQuotedNext(body: string, a: string, rest: string, more: seq<string>)
    requires body == ['"'] + a + ['"'] + (", " + rest) && '"' !in a
    requires ParseQuoted(rest) == Some(more)
    ensures ParseQuoted(body) == Some([a] + more)
  {
    var after := ", " + rest;
    ReadQuotedArg(a, after);
    assert after[0] == ',' && after[1] == ' ' && after[2..] == rest;
  }

  lemma QuoteFreeTail(args: seq<string>)
    requires args != [] && QuoteFree(args)
    ensures QuoteFree(args[1..])
  {
  }

  /** A one-element list is its argument between quote marks. */
  lemma QuotedListOne(args: seq<string>)
    requires |args| == 1
    ensures QuotedList(args) == ['"'] + args[0] + ['"']
  {
  }

  /** A longer list is its first argument between quote marks, ", " and the rest. */
  lemma QuotedListCons(args: seq<string>)
    requires |args| > 1
    ensures QuotedList(args) == ['"'] + args[0] + ['"'] + (", " + QuotedList(args[1..]))
  {
  }

  lemma {:induction false} ParseQuotedList(args: seq<string>)
    requires args != [] && QuoteFree(args)
    ensures ParseQuoted(QuotedList(args)) == Some(args)
    decreases |args|
  {
    var a := args[0];
    assert '"' !in a;
    if |args| == 1 {
      QuotedListOne(args);
      ParseQuotedLast(QuotedList(args), a);
      assert args == [a];
    } else {
      var tail := args[1..];
      QuoteFreeTail(args);
      ParseQuotedList(tail);
      QuotedListCons(args);
      ParseQuotedNext(QuotedList(args), a, QuotedList(tail), tail);
      assert [a] + tail == args;
    }
  }

  /** When no argument contains a quote mark, the rendering reads back to the arguments. */
  lemma ArgStringRoundTrip(args: seq<string>)
    requires QuoteFree(args)
    ensures ParseArgs(ArgString(args)) == Some(args)
  {
    ArgStringIsRendered(args);
    if args != [] {
      var s := Rendered(args);
      assert s[1..|s| - 1] == QuotedList(args);
      ParseQuotedList(args);
    }
  }

  /** So quote-free argument lists never render alike. */
  lemma ArgStringInjective(args: seq<string>, other: seq<string>)
    requires QuoteFree(args) && QuoteFree(other)
    requires ArgString(args) == ArgString(other)
    ensures args == other
  {
    ArgStringRoundTrip(args);
    ArgStringRoundTrip(other);
  }

  /**
   * Quote marks inside an argument are not escaped: the one argument
   * `a", "b` renders exactly like the two arguments `a` and `b`.
   */
  lemma UnescapedQuoteCollides(a: string, b: string)
    ensures ArgString([a + "\", \"" + b]) == ArgString([a, b])
  {
    TwoArgs(a, b);
    assert Join([a + "\", \"" + b], ArgSeparator()) == a + "\", \"" + b;
  }
}
