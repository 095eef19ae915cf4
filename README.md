# stackerr: a verified model of `Handle`

`stackerr` is a Go package that annotates an error before returning it. Its
free function `Handle(err, locator, args...)` takes four inputs:

- the name of the function that called it, found by a query of the call stack;
- a locator that the caller chooses;
- optional string arguments;
- the error.

From them it builds the message
`<function name>.<locator>(<"arg1", "arg2", ...>): <err.Error()>` and wraps
`err` as the cause of the new error through fmt's `%w` verb. This project
models that function in Dafny and proves what its message and its cause are.

Files:

- `wrappers.dfy`: module `Wrappers`, an `Option` type. It stands for Go's nil.
- `strings.dfy`: module `Strings`, which holds `strings.Join` as a recursive
  function. It also holds a first-occurrence search used to read a rendered
  argument list back.
- `errors.dfy`: module `Errors`. It models a Go `error` value as
  `Err(msg, cause)`, with `Error()` and `Unwrap()`. It also holds `errors.New`,
  the chain that repeated unwrapping visits, and the root (original) failure.
- `stackerr.dfy`: module `StackErr`. It holds the package constants
  (`Separator` is `": "`, `Punctuation` is `"\""`), the fallback name
  `"unknown"`, argument rendering, `Handle` and the lemmas about it. The test
  messages appear as worked examples.
- `readback.dfy`: module `ArgReadBack`, a parser that reads a rendered
  argument list back. It gives two results:
  - when no argument contains a quote mark, the rendering reads back to the
    arguments, so it is injective;
  - for any strings `a` and `b`, the one argument `a", "b` renders exactly
    like the two arguments `a` and `b`, because quote marks are not escaped.

Modelling choices:

- **Stack query.** The stack query is an input of type `CallerInfo`.
  - `CallerUnavailable`: `runtime.Caller(1)` reported failure. The name is
    `"unknown"`.
  - `CallerAt(Some(name))`: `runtime.FuncForPC` found the function. The name
    is the one it found.
  - `CallerAt(None)`: `runtime.FuncForPC` found no function record. The name
    is `""`, because the `Name` method of a nil `*runtime.Func` returns the
    empty string.
- **Nil error.** The error is an `Option<Err>`, so a nil error can be passed.
  `Handle` does not reject it. fmt writes `%!w(<nil>)` in place of the error's
  text, and the result unwraps to nil. The model keeps that behaviour
  (`StackErr.HandleNil`).
- **Determinism.** Every operation is a Dafny function. Equal inputs therefore
  give equal messages, with no separate proof needed.
- **Order of the message.** The locator comes before the arguments: the
  format string at stackerr.go:36 is `%s.%s%s%s%w`.

## Model

| member | source | states |
|---|---|---|
| `Strings.Join` | stackerr.go:30 | `strings.Join` as a recursive function. Its promises are stated by `Strings.JoinEnds`, `Strings.JoinContainsPart` and `StackErr.QuotedJoin`. |
| `Errors.Err.Error` | stackerr.go:35-42 | The text of a Go error value. `StackErr.HandleMessage` states what it is for an annotated error. |
| `Errors.Err.Unwrap` | stackerr.go:35-42 | The error that `errors.Unwrap` returns, nil included. `StackErr.Handle` states that it is equal to the wrapped `err`. |
| `StackErr.Separator` | stackerr.go:10 | The constant `": "` placed between the annotation and the wrapped error's text. |
| `StackErr.Punctuation` | stackerr.go:11 | The constant `"\""` that quotes each argument. |
| `StackErr.Unknown` | stackerr.go:17 | The fallback name `"unknown"`. |
| `StackErr.FunctionName` | stackerr.go:17-23 | The caller's name: `"unknown"` when `runtime.Caller` fails, the name `runtime.FuncForPC` finds, or `""` for a nil function record. `StackErr.HandleCallerPrefix` and `StackErr.HandleMessage` state it. |
| `StackErr.ArgSeparator` | stackerr.go:30 | The join separator: a quote mark, `, `, a quote mark. `StackErr.QuotedJoin` states what joining with it yields. |
| `StackErr.WrappedText` | stackerr.go:41 | The text fmt writes for the `%w` operand: the error's `Error()`, or `%!w(<nil>)` for nil. `StackErr.Handle`, `StackErr.HandleMessage` and `StackErr.HandleNil` state it. |
| `Strings.JoinEnds` | stackerr.go:30 | The result of `strings.Join` on a non-empty list starts with the first element and ends with the last. |
| `Strings.JoinContainsPart` | stackerr.go:30 | Every element of the joined list appears unchanged at its computed offset in the joined string. |
| `Errors.New` | stackerr_test.go:14 | `errors.New(text)` has `text` as its message and nothing to unwrap. |
| `Errors.Chain` | stackerr.go:35-42 | The errors reached by repeated unwrapping: the error itself first, each element's `Unwrap` is the next one, and the last unwraps to nil. |
| `Errors.Root` | stackerr.go:35-42 | The original failure at the end of the chain unwraps to nil. |
| `Errors.RootEndsChain` | stackerr.go:35-42 | The root is the last error of the unwrap chain. |
| `Errors.RootTextIsSuffix` | stackerr.go:35-42 | If every link's message ends with its cause's message, the original failure's message ends the outermost message. |
| `StackErr.ArgString` | stackerr.go:25-33 | The argument string is empty exactly when there are no arguments. Otherwise it opens with `(` and closes with `)`. |
| `StackErr.QuotedJoin` | stackerr.go:27-32 | Joining with the separator `", "` (with its quote marks) and adding a quote mark at each end quotes every argument and puts `, ` between adjacent ones. |
| `StackErr.ArgStringIsRendered` | stackerr.go:25-33 | The argument string equals the element-by-element rendering. That is `""` for no arguments, else `(` followed by each argument in quote marks, separated by `, `, then `)`. |
| `StackErr.ArgVerbatim` | stackerr.go:27-32 | Each argument appears unchanged, with nothing escaped, at its offset in the argument string, with a quote mark directly before and after it. |
| `StackErr.JoinQuoteBefore` | stackerr.go:30 | In the joined arguments, every argument after the first is directly preceded by a quote mark. |
| `StackErr.JoinQuoteAfter` | stackerr.go:30 | In the joined arguments, every argument but the last is directly followed by a quote mark, and the last one ends the string. |
| `StackErr.Handle` | stackerr.go:16-43 | The result unwraps to a value equal to `err`. Its message starts with the caller's name, `.` and the locator, and ends with `": "` followed by the wrapped error's text. |
| `StackErr.HandleMessage` | stackerr.go:35-42 | The message is, in this order: the function name, `.`, the locator, the rendered arguments, `": "`, the wrapped error's text. |
| `StackErr.HandleCallerPrefix` | stackerr.go:17-23 | If the stack query fails, the message starts with `unknown.`. If it finds a function, the message starts with that name and `.`. If it finds no function record, the message starts with `.`. |
| `StackErr.HandleWithoutArgs` | stackerr.go:25-42 | The message has no argument part (it is name, `.`, locator, `": "`, error text) exactly when no arguments are given. |
| `StackErr.HandleExtendsChain` | stackerr.go:35-41 | Annotating puts the new error at the head of the unwrap chain, in front of the original chain, and keeps the same root. |
| `StackErr.HandleKeepsSuffixLinked` | stackerr.go:35-42 | Annotating keeps every link's message ending with its cause's message. After it, the original failure's message still ends the message. |
| `StackErr.HandleNil` | stackerr.go:35-42 | Annotating a nil error gives an error that unwraps to nil and whose message ends with `: %!w(<nil>)`. |
| `StackErr.OneArg` | stackerr.go:25-33 | A single argument `a` renders as `("a")`. |
| `StackErr.TwoArgs` | stackerr.go:25-33 | Two arguments `a` and `b` render as `("a", "b")`. |
| `StackErr.TestHandleArgs` | stackerr_test.go:19-21 | The arguments `some` and `arguments` render as `("some", "arguments")`. |
| `StackErr.TestHandleMessage` | stackerr_test.go:16-22 | The message that TestHandle expects: the test function's qualified name (`github.com/ovotech/stackerr_test.TestHandle`) followed by `.test("some", "arguments"): test`. |
| `StackErr.MyFunctionMessage` | stackerr_test.go:24-29 | `myFunction(input)` annotates the conversion error as its caller name, then `.atoi("<input>"): `, then that error's text. |
| `StackErr.NoArgumentMessage` | stackerr.go:25-26 | A call without arguments renders no parentheses: the caller name followed by `.loc: e`. |
| `StackErr.UnknownCallerMessage` | stackerr.go:17 | If the stack query fails, the message is `unknown.step("42"): boom`. |
| `ArgReadBack.ReadQuotedArg` | stackerr.go:27-32 | A quote-free argument between quote marks is read back whole, up to its closing quote mark. |
| `ArgReadBack.ParseQuotedList` | stackerr.go:27-32 | The quoted, comma-separated list of quote-free arguments reads back to those arguments. |
| `ArgReadBack.ArgStringRoundTrip` | stackerr.go:25-33 | When no argument contains a quote mark, the argument string reads back to exactly the arguments. This includes the empty list from `""`. |
| `ArgReadBack.ArgStringInjective` | stackerr.go:25-33 | Two quote-free argument lists with the same argument string are equal. |
| `ArgReadBack.UnescapedQuoteCollides` | stackerr.go:30 | Quote marks inside an argument are not escaped. So for all strings `a` and `b`, the single argument `a", "b` renders exactly like the two arguments `a` and `b`. |

## Left out

- The `StackErr` type, `NewStackErr`, the method `StackErr.Handle`, `StackErr.Copy` and the `Punctuation`/`Separator` fields: the tests use them, but their definitions are not part of this model. The tests expect defaults of `"\""` for punctuation and `": "` for the separator, the same values as the package constants modelled here.
- `runtime.Caller` and `runtime.FuncForPC`: stack introspection and frame depth are not modelled. Their answer is the `CallerInfo` input.
- fmt internals: `Sprintf` and `Errorf` are modelled as plain concatenation. An error that implements `fmt.Formatter` prints through its own `Format` method under `%w`. The model assumes the error's `Error()` text instead.
- Error identity and type: Go compares errors by pointer, and each `errors.New` call returns a distinct error. `Errors.Err` is a value, so two errors with the same text and cause are equal. The dynamic type of an error is not represented, and `errors.Is` and `errors.As` are not modelled.
- Bytes: Go strings are byte sequences. The model uses sequences of characters, so multi-byte encodings are not represented.
- `strings.Join`'s length pre-computation and buffer growth: only the resulting string is modelled.
- Test scaffolding: `t.Parallel()` and the testify assertions are not modelled.
- `ExampleHandle`: its `log.Panic` is I/O and panic behaviour. Its comment quotes an input (`"foo"`) different from the one it passes (`"test"`). `StackErr.MyFunctionMessage` states what the code produces for any input, `"test"` included.
- The text of strconv's error and the caller's qualified name are not modelled. `StackErr.MyFunctionMessage` and `StackErr.TestHandleMessage` take them as parameters.
