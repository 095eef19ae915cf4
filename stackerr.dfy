/**
 * The free function `Handle` of package stackerr: it annotates an error with
 * the name of the function that called it, a locator and optional arguments,
 * and wraps the original error as the cause of the result.
 */
module StackErr {
  import opened Wrappers
  import opened Strings
  import opened Errors

  /** Placed between the annotation and the wrapped error's text. */
  const Separator: string := ": "

  /** Quotes each rendered argument, on both sides. */
  const Punctuation: string := "\""

  /** The function name used when the call stack cannot be queried. */
  const Unknown: string := "unknown"

  /** What fmt writes for a `%w` verb whose operand is a nil error. */
  const NilOperand: string := "%!w(<nil>)"

  /**
   * The answer of the runtime's stack query for the caller of Handle:
   * runtime.Caller(1) failed, or it gave a program counter for which
   * runtime.FuncForPC found the named function record or none (nil).
   */
  datatype CallerInfo = CallerUnavailable | CallerAt(funcRecord: Option<string>)

  /** The caller's name; the name of a nil function record is "". */
  function FunctionName(caller: CallerInfo): string
  {
    match caller
    case CallerUnavailable => Unknown
    case CallerAt(None) => ""
    case CallerAt(Some(name)) => name
  }

  /** The separator given to strings.Join between two arguments. */
  function ArgSeparator(): string
  {
    Punctuation + ", " + Punctuation
  }

  /** The rendered argument list: "" when there are none, else a parenthesised, quoted list. */
  function ArgString(args: seq<string>): (r: string)
    ensures r == "" <==> args == []
    ensures args != [] ==> r[0] == '(' && r[|r| - 1] == ')'
  {
    if |args| > 0 then "(" + Punctuation + Join(args, ArgSeparator()) + Punctuation + ")"
    else ""
  }

  /** The text fmt substitutes for `%w`: the error's own text, or the nil marker. */
  function WrappedText(err: Option<Err>): string
  {
    match err
    case None => NilOperand
    case Some(e) => e.Error()
  }

  /**
   * Handle: the message is the caller's name, ".", the locator, the
   * rendered arguments, the separator and the wrapped error's text; the
   * cause is `err` itself (fmt.Errorf with `%w`).
   */
  function Handle(caller: CallerInfo, err: Option<Err>, locator: string, args: seq<string>): (r: Err)
    ensures r.Unwrap() == err
    ensures FunctionName(caller) + "." + locator <= r.Error()
    ensures EndsWith(r.Error(), Separator + WrappedText(err))
  {
    var functionName := FunctionName(caller);
    var argString := ArgString(args);
    Err(functionName + "." + locator + argString + Separator + WrappedText(err), err)
  }

  // ---------------------------------------------------------------------------
  // The argument list, rendered element by element

  /** One argument between two quote marks, nothing inside it escaped. */
  function Quote(arg: string): string
  {
    Punctuation + arg + Punctuation
  }

  /** Each argument quoted, adjacent ones separated by ", ". */
  function QuotedList(args: seq<string>): string
    requires args != []
  {
    if |args| == 1 then Quote(args[0]) else Quote(args[0]) + ", " + QuotedList(args[1..])
  }

  /** The rendering stated element by element, independently of strings.Join. */
  function Rendered(args: seq<string>): string
  {
    if args == [] then "" else "(" + QuotedList(args) + ")"
  }

  /** Joining with the quote-comma-quote separator and quoting both ends quotes every element. */
  lemma {:induction false} QuotedJoin(args: seq<string>)
    requires args != []
    ensures Punctuation + Join(args, ArgSeparator()) + Punctuation == QuotedList(args)
  {
    if |args| > 1 {
      QuotedJoin(args[1..]);
      assert Join(args, ArgSeparator())
          == args[0] + ArgSeparator() + Join(args[1..], ArgSeparator());
    }
  }

  /** The rendered arguments are the element-by-element rendering. */
  lemma ArgStringIsRendered(args: seq<string>)
    ensures ArgString(args) == Rendered(args)
  {
    if args != [] {
      QuotedJoin(args);
    }
  }

  /** Where argument `i` starts inside ArgString(args): after "(" and the first quote mark. */
  function ArgOffset(args: seq<string>, i: nat): nat
    requires i < |args|
  {
    2 + JoinOffset(args, ArgSeparator(), i)
  }

  /** Each argument appears verbatim, between quote marks, in the rendered list. */
  lemma ArgVerbatim(args: seq<string>, i: nat)
    requires i < |args|
    ensures ArgOffset(args, i) + |args[i]| < |ArgString(args)|
    ensures ArgString(args)[ArgOffset(args, i)..ArgOffset(args, i) + |args[i]|] == args[i]
    ensures ArgString(args)[ArgOffset(args, i) - 1] == '"'
    ensures ArgString(args)[ArgOffset(args, i) + |args[i]|] == '"'
  {
    var sep := ArgSeparator();
    var joined := Join(args, sep);
    var off := JoinOffset(args, sep, i);
    var n := |args[i]|;
    var pre, post := "(" + Punctuation, Punctuation + ")";
    var s := ArgString(args);
    assert s == pre + joined + post;
    JoinContainsPart(args, sep, i);
    SliceOfConcat(pre, joined, post, off, off + n);
    JoinQuoteBefore(args, i);
    if i > 0 {
      IndexOfConcat(pre, joined, post, off - 1);
    }
    JoinQuoteAfter(args, i);
    if i < |args| - 1 {
      IndexOfConcat(pre, joined, post, off + n);
    }
  }

  /** The character just before argument `i` in the joined string is a quote mark (or it is the first). */
  lemma {:induction false} JoinQuoteBefore(args: seq<string>, i: nat)
    requires i < |args|
    ensures 0 < i ==> 0 < JoinOffset(args, ArgSeparator(), i) <= |Join(args, ArgSeparator())|
    ensures 0 < i ==> Join(args, ArgSeparator())[JoinOffset(args, ArgSeparator(), i) - 1] == '"'
    decreases i
  {
    var sep := ArgSeparator();
    if i > 0 {
      var tail := args[1..];
      var head := args[0] + sep;
      assert Join(args, sep) == head + Join(tail, sep);
      JoinContainsPart(tail, sep, i - 1);
      if i > 1 {
        JoinQuoteBefore(tail, i - 1);
      }
    }
  }

  /** Argument `i` is followed in the joined string by a quote mark, or ends it if it is the last. */
  lemma {:induction false} JoinQuoteAfter(args: seq<string>, i: nat)
    requires i < |args|
    ensures i == |args| - 1 ==>
      JoinOffset(args, ArgSeparator(), i) + |args[i]| == |Join(args, ArgSeparator())|
    ensures i < |args| - 1 ==>
      && JoinOffset(args, ArgSeparator(), i) + |args[i]| < |Join(args, ArgSeparator())|
      && Join(args, ArgSeparator())[JoinOffset(args, ArgSeparator(), i) + |args[i]|] == '"'
    decreases i
  {
    var sep := ArgSeparator();
    if |args| > 1 {
      var tail := args[1..];
      var head := args[0] + sep;
      assert Join(args, sep) == head + Join(tail, sep);
      if i > 0 {
        JoinQuoteAfter(tail, i - 1);
      }
    }
  }

  // ---------------------------------------------------------------------------
  // What Handle promises

  /** The message, in order: caller, ".", locator, quoted arguments, separator, wrapped text. */
  lemma HandleMessage(caller: CallerInfo, err: Option<Err>, locator: string, args: seq<string>)
    ensures Handle(caller, err, locator, args).Error()
         == FunctionName(caller) + "." + locator + Rendered(args) + Separator + WrappedText(err)
  {
    ArgStringIsRendered(args);
  }

  /**
   * The caller part of the message: "unknown" when the stack query fails,
   * the looked-up name when it succeeds, nothing when no function record is found.
   */
  lemma HandleCallerPrefix(caller: CallerInfo, err: Option<Err>, locator: string, args: seq<string>)
    ensures caller.CallerUnavailable? ==> Unknown + "." <= Handle(caller, err, locator, args).Error()
    ensures caller.CallerAt? && caller.funcRecord.Some? ==>
      caller.funcRecord.value + "." <= Handle(caller, err, locator, args).Error()
    ensures caller == CallerAt(None) ==> "." <= Handle(caller, err, locator, args).Error()
  {
  }

  /** No parentheses appear exactly when there are no arguments. */
  lemma HandleWithoutArgs(caller: CallerInfo, err: Option<Err>, locator: string, args: seq<string>)
    ensures Handle(caller, err, locator, args).Error()
         == FunctionName(caller) + "." + locator + Separator + WrappedText(err)
        <==> args == []
  {
  }

  /** Annotating keeps the chain: the new error leads it, the original failure still ends it. */
  lemma HandleExtendsChain(caller: CallerInfo, e: Err, locator: string, args: seq<string>)
    ensures Chain(Handle(caller, Some(e), locator, args)) == [Handle(caller, Some(e), locator, args)] + Chain(e)
    ensures Root(Handle(caller, Some(e), locator, args)) == Root(e)
  {
  }

  /**
   * Annotating keeps every link's text ending with its cause's text, so
   * after any number of annotations the original failure's text still ends
   * the message.
   */
  lemma HandleKeepsSuffixLinked(caller: CallerInfo, e: Err, locator: string, args: seq<string>)
    requires SuffixLinked(e)
    ensures SuffixLinked(Handle(caller, Some(e), locator, args))
    ensures EndsWith(Handle(caller, Some(e), locator, args).Error(), Root(e).Error())
  {
    var h := Handle(caller, Some(e), locator, args);
    assert EndsWith(h.msg, Separator + e.msg);
    EndsWithTransitive(h.msg, Separator + e.msg, e.msg);
    RootTextIsSuffix(h);
  }

  /** Annotating the nil error still yields an error, whose message ends with fmt's nil marker. */
  lemma HandleNil(caller: CallerInfo, locator: string, args: seq<string>)
    ensures Handle(caller, None, locator, args).Unwrap() == None
    ensures EndsWith(Handle(caller, None, locator, args).Error(), Separator + NilOperand)
  {
  }

  // ---------------------------------------------------------------------------
  // Worked examples

  /** Two arguments render as `("a", "b")`. */
  lemma TwoArgs(a: string, b: string)
    ensures ArgString([a, b]) == "(\"" + a + "\", \"" + b + "\")"
  {
    assert [a, b][1..] == [b];
    assert Join([a, b], ArgSeparator()) == a + "\", \"" + b;
  }

  /** The two arguments of TestHandle, rendered. */
  lemma TestHandleArgs()
    ensures ArgString(["some", "arguments"]) == "(\"some\", \"arguments\")"
  {
    TwoArgs("some", "arguments");
  }

  /**
   * The message expected by TestHandle, for the test function's qualified
   * name (github.com/ovotech/stackerr_test.TestHandle there).
   */
  lemma TestHandleMessage(testName: string)
    ensures Handle(CallerAt(Some(testName)), Some(New("test")), "test", ["some", "arguments"]).Error()
         == testName + ".test(\"some\", \"arguments\"): test"
  {
    TestHandleArgs();
    assert testName + "." + "test" + "(\"some\", \"arguments\")" + ": " + "test"
        == testName + ".test(\"some\", \"arguments\"): test";
  }

  /** One argument renders as `("a")`. */
  lemma OneArg(a: string)
    ensures ArgString([a]) == "(\"" + a + "\")"
  {
  }

  /**
   * myFunction(input) annotates strconv.Atoi's failure with the locator
   * "atoi" and its input as the one argument.
   */
  lemma MyFunctionMessage(callerName: string, input: string, atoiErr: Err)
    ensures Handle(CallerAt(Some(callerName)), Some(atoiErr), "atoi", [input]).Error()
         == callerName + ".atoi(\"" + input + "\"): " + atoiErr.Error()
  {
    OneArg(input);
  }

  /** A call without arguments renders no parentheses. */
  lemma NoArgumentMessage(callerName: string)
    ensures Handle(CallerAt(Some(callerName)), Some(New("e")), "loc", []).Error() == callerName + ".loc: e"
  {
  }

  /** A failed stack query names the caller "unknown". */
  lemma UnknownCallerMessage()
    ensures Handle(CallerUnavailable, Some(New("boom")), "step", ["42"]).Error() == "unknown.step(\"42\"): boom"
  {
  }
}
