# simple_cmd_interpreter in Dafny

A model of `Interpreter`, a recursive command-tree dispatcher. An interpreter holds a
dictionary whose values are handlers (callables), nested dictionaries, or strings (a
`"summary"` entry). It also holds a help prefix.

`eval(command)` works in three steps:

- It tokenizes the command with `strip().split()`.
- It walks the dictionary one token per level. At a handler, it calls the handler with
  the tokens left over.
- If the command ends in `help`, it renders an indented listing of the commands instead.

The model has five modules:

- `Strings`: `str.join`, `" " * n` and the `repr` of a list of strings, which the
  messages are built from.
- `Tokenizer`: `strip()` and `split()` over the ASCII whitespace set.
- `CommandTree`: the dictionary as a `Node`, plus handler results, values and exceptions.
  A handler is a function field `seq<string> -> Call`. A dict is a sequence of entries,
  because dict order decides listing order and the order of keys in messages.
- `Help`: `_render_help`. The tier loop is both a fold (`Tier`) and a method with a
  `while` loop (`ListTier`) proved equal to it.
- `Dispatcher`: `_eval` (`EvalNode`) and `eval` (`Run` on tokens, `Eval` on text).

Where the code raises, the model returns the exception as a value. This covers the
interpreter's own `InterpreterException`, and also the Python errors the code runs into:

- `KeyError`: a group without `"default"`.
- `TypeError`: indexing a string; `None[-1]` after a walk falls out of `_eval`; a
  truthy summary that is not a string.
- `AttributeError`: `.get` on a handler; `.items()` on a string.
- `IndexError`: `[-1]` on an empty help string.

`eval` catches none of these.

A few behaviours of the code are easy to miss. The model follows the code:

- The not-found message of a walk lists every key of the tier, `"default"` and
  `"summary"` included (line 66). Only the help renderer drops `"summary"` (line 112).
- Help listings drop only `"summary"`, so `"default"` is listed (lines 10, 117).
- Failures are raised, not returned. The failed command path is never put in front of
  the message.
- The failure text is not followed by the full help listing. Lines 22-23 only run when
  an exception is returned, and none is.

## Model

| member | source | states |
|---|---|---|
| `Tokenizer.Split` | simple_cmd_interpreter/interpreter.py:17 | every token is non-empty and free of whitespace |
| `Tokenizer.Tokenize` | simple_cmd_interpreter/interpreter.py:17 | `strip().split()` yields only non-empty, whitespace-free tokens |
| `Tokenizer.StripIsRedundant` | simple_cmd_interpreter/interpreter.py:17 | the `strip()` before `split()` never changes the tokens |
| `Tokenizer.TokensKeepOrder` | simple_cmd_interpreter/interpreter.py:17 | the tokens, concatenated, are exactly the command's non-whitespace characters in input order |
| `Tokenizer.NoTokensIffBlank` | simple_cmd_interpreter/interpreter.py:17 | a command yields no tokens if and only if it is all whitespace |
| `Tokenizer.Strip` | simple_cmd_interpreter/interpreter.py:17 | the result neither starts nor ends with whitespace; it occurs in the command with only whitespace before and after it; it is empty exactly when the command is all whitespace |
| `Tokenizer.SplitJoin` | simple_cmd_interpreter/interpreter.py:17 | `split()` of tokens joined by single spaces gives those tokens back, so a join loses no token and no boundary |
| `Tokenizer.TokenizeJoin` | simple_cmd_interpreter/interpreter.py:17 | tokens joined by single spaces tokenize back to the same tokens |
| `CommandTree.Keys` | simple_cmd_interpreter/interpreter.py:66 | the keys of a dict, position by position, in insertion order |
| `CommandTree.IndexOf` | simple_cmd_interpreter/interpreter.py:65 | `key in d` is false exactly when -1 comes back; otherwise the index is the entry holding `key`, and no earlier entry holds it |
| `CommandTree.ListedKeys` | simple_cmd_interpreter/interpreter.py:112 | a key is listed if and only if it is a key of the dict and not in `IGNORE` |
| `Strings.Spaces` | simple_cmd_interpreter/interpreter.py:118 | `" " * n` is exactly `n` characters, all spaces |
| `Strings.ReprList` | simple_cmd_interpreter/interpreter.py:66 | a list prints between `[` and `]`, and prints as `[]` exactly when it is empty |
| `Strings.JoinMentions` | simple_cmd_interpreter/interpreter.py:48 | every argument of `','.join(cmd_list)` appears in the joined text |
| `Strings.ReprListMentions` | simple_cmd_interpreter/interpreter.py:66 | every item of a list appears, quoted, in the list's printed form |
| `Help.SummaryOf` | simple_cmd_interpreter/interpreter.py:104-108 | a summary is found only below a dict whose `"summary"` is missing, a string or an empty dict; below a handler or string it raises `AttributeError`, otherwise `TypeError`; below a dict whose `"summary"` is missing or a string, the text is that string, or `""` when it is missing |
| `Help.RenderHelp` | simple_cmd_interpreter/interpreter.py:82-120 | no help rendering raises `KeyError`, so the `except KeyError` only turns the missing-key lookup into `InterpreterException` |
| `Help.Tier` | simple_cmd_interpreter/interpreter.py:115-120 | the tier listing loop never raises `KeyError` |
| `Help.TierRaisedStays` | simple_cmd_interpreter/interpreter.py:116-118 | after one entry's listing raises, the listing of every longer prefix raises the same exception |
| `Help.ListTier` | simple_cmd_interpreter/interpreter.py:115-120 | the accumulator loop returns what the `Tier` fold gives, including the first exception raised |
| `Help.TierOfQuietEntries` | simple_cmd_interpreter/interpreter.py:115-120 | for undocumented handlers, the tier lists exactly the keys not in `IGNORE` (`"default"` yes, `"summary"` no), in dict order, one line each, indented by `indent` spaces |
| `Help.LeafListing` | simple_cmd_interpreter/interpreter.py:86-95 | a handler's own listing is `": " + doc + "\n"` when it has a docstring, and empty otherwise |
| `Help.TierOfHandlers` | simple_cmd_interpreter/interpreter.py:115-120 | for a tier of handlers, each key not in `IGNORE` gives the line `key`, indented by `indent` spaces, followed by `": " + doc + "\n"` when the handler has a docstring, in dict order |
| `Help.TierListedNonEmpty` | simple_cmd_interpreter/interpreter.py:116-118 | a tier with a key not in `IGNORE` never renders as `""` |
| `Help.NothingToListIffSilent` | simple_cmd_interpreter/interpreter.py:86-120 | a node's own listing is empty exactly when it is an undocumented handler or a dict whose only keys are in `IGNORE` |
| `Help.HelpNotFoundAtDepth` | simple_cmd_interpreter/interpreter.py:100-112 | a key missing at any depth of a help path raises there, naming the key and that tier's keys other than `"summary"`; upper levels pass the exception through unchanged |
| `Help.RaisedPassesUp` | simple_cmd_interpreter/interpreter.py:101-102 | an exception raised while rendering below a key of the path is raised unchanged at that key |
| `Help.HelpNotFoundMessage` | simple_cmd_interpreter/interpreter.py:112 | the message is the missing key, then `" not found in "`, then the printed list of the tier's keys not in `IGNORE`, then `"."` |
| `Help.HeadingStep` | simple_cmd_interpreter/interpreter.py:100-108 | one more key in front of a help path puts the line `key: summary` in front of the help below it |
| `Help.HelpDescent` | simple_cmd_interpreter/interpreter.py:100-120 | help for a path of dicts whose summaries are missing or strings is one `key: summary` line per key of the path (`""` for a missing summary), followed by the non-empty listing of the dict the path ends at, indented 2 spaces more per key |
| `Help.HelpNotFoundNamesListedKeys` | simple_cmd_interpreter/interpreter.py:112 | the help not-found message quotes every key of the tier that is not in `IGNORE` |
| `Help.DocumentedLeafHelpRaises` | simple_cmd_interpreter/interpreter.py:93-108 | `help` after a documented handler raises `AttributeError`, because line 106 calls `.get` on the function |
| `Help.UndocumentedLeafHelp` | simple_cmd_interpreter/interpreter.py:86-110 | `help` after an undocumented handler renders as the key alone |
| `Help.EmptyBelowGivesKey` | simple_cmd_interpreter/interpreter.py:100-110 | when the help below a key is empty, the help at that key is the key alone, without summary or newline |
| `Help.EmptyAtOnlyKey` | simple_cmd_interpreter/interpreter.py:100-110 | a one-key help path ending at a node with nothing to list renders as that key alone |
| `Help.EmptyHeadingStep` | simple_cmd_interpreter/interpreter.py:100-108 | one more key in front of a path that ends at a node with nothing to list puts the line `key: summary` in front |
| `Help.HelpDescentToEmpty` | simple_cmd_interpreter/interpreter.py:100-120 | help for a path of dicts whose last key holds nothing to list is one `key: summary` line per earlier key, then the last key alone, with no newline after it |
| `Dispatcher.Normalize` | simple_cmd_interpreter/interpreter.py:41-43 | `None` becomes `True`; any other value is kept as it is |
| `Dispatcher.CallFailedMessage` | simple_cmd_interpreter/interpreter.py:48 | the message holds the comma-joined arguments after `"Command failed with params `"`, then the exception text after `"` and with exception `"`, and ends in a blank line |
| `Dispatcher.NotFoundMessage` | simple_cmd_interpreter/interpreter.py:66 | the message holds the quoted missing key after `"Command "`, then, after `" not found in "`, the printed list of every key of the tier, and ends in `"."` |
| `Dispatcher.CallLeaf` | simple_cmd_interpreter/interpreter.py:32-49 | a handler that returns gives `[value]`, with `None` normalised; only a handler `TypeError` becomes an `InterpreterException`; a call never gives help text or `None` |
| `Dispatcher.HelpOutcome` | simple_cmd_interpreter/interpreter.py:52-54 | a rendering that succeeds gives the help prefix followed by exactly the rendered text; a rendering that raises gives the same exception |
| `Dispatcher.HelpDecidedBySuffix` | simple_cmd_interpreter/interpreter.py:52-54 | every level of the walk asks whether the tokens it has left end in `help`; the answer is the same at every level, and it is yes exactly when the command is some tokens followed by `help` |
| `Dispatcher.EvalNode` | simple_cmd_interpreter/interpreter.py:27-76 | a walk returns a one-element list holding a value other than `None`, and returns help text only for a command ending in `help` |
| `Dispatcher.Run` | simple_cmd_interpreter/interpreter.py:19-25 | success is a one-element list; help text is non-empty and only for a command ending in `help` |
| `Dispatcher.Eval` | simple_cmd_interpreter/interpreter.py:16-25 | `eval` gives help text only when the last token of the command is `help`; success is one value other than `None` |
| `Dispatcher.DescendOne` | simple_cmd_interpreter/interpreter.py:64-71 | a group consumes the first token and goes on with the rest into that key's entry |
| `Dispatcher.WalkStep` | simple_cmd_interpreter/interpreter.py:64-71 | a group consumes the first key of a path and goes on with the rest into that key's entry; the rest does not end in `help` either |
| `Dispatcher.WalkPath` | simple_cmd_interpreter/interpreter.py:64-76 | walking a resolvable path consumes exactly its keys; the walk's result below is passed up unchanged, with no path prepended |
| `Dispatcher.HandlerGetsRemainingTokens` | simple_cmd_interpreter/interpreter.py:32-49 | a handler reached by a path gets exactly the remaining tokens in order; `eval` gives `[value]` with `None` as `True`, a `TypeError` as an `InterpreterException` with the failure message, other exceptions unchanged |
| `Dispatcher.CallFailedMessageShows` | simple_cmd_interpreter/interpreter.py:47-49 | the failure message contains the comma-joined arguments and the exception text |
| `Dispatcher.NotFoundAtDepth` | simple_cmd_interpreter/interpreter.py:64-66 | a key missing at any depth fails with the not-found message for that key and the keys of that tier |
| `Dispatcher.NotFoundMessageNamesKeys` | simple_cmd_interpreter/interpreter.py:66 | the not-found message quotes the missing key and every key of the tier, `"default"` and `"summary"` included |
| `Dispatcher.DefaultWhenExhausted` | simple_cmd_interpreter/interpreter.py:56-58 | when the tokens run out at a group, the walk goes on into `"default"` with no tokens; without `"default"` it raises `KeyError` |
| `Dispatcher.DefaultHandlerCalledWithNoArgs` | simple_cmd_interpreter/interpreter.py:56-58 | a command that stops at a group runs the group's `"default"` handler with no arguments |
| `Dispatcher.HelpIntercepted` | simple_cmd_interpreter/interpreter.py:51-54 | at a dict root, a command ending in `help` never calls a handler; the result is the prefix plus the rendering of the other tokens, or the rendering's exception, or `IndexError` when both are empty |
| `Dispatcher.HelpForPath` | simple_cmd_interpreter/interpreter.py:19-25 | `eval` of a path of dicts followed by `help` gives the help prefix, one `key: summary` line per key, and the listing of the dict the path ends at |
| `Dispatcher.HelpForSilentEnd` | simple_cmd_interpreter/interpreter.py:19-25 | `eval` of such a path followed by `help` gives the help prefix, one `key: summary` line per earlier key, and the last key alone |
| `Dispatcher.EmptyHelpRaisesIndexError` | simple_cmd_interpreter/interpreter.py:22 | `help` on a dict with nothing to list and no help prefix raises `IndexError` at `_out[-1]` |
| `Dispatcher.WalkIntoLiteralRaisesTypeError` | simple_cmd_interpreter/interpreter.py:78-80 | a walk that reaches a string with tokens left falls out of `_eval`, and `eval` raises `TypeError` |
| `Dispatcher.EvalOfJoinedTokens` | simple_cmd_interpreter/interpreter.py:17-19 | evaluating tokens joined by single spaces is evaluating exactly those tokens |

## Left out

- Docstrings are taken as already cleaned by `inspect.getdoc` (lines 93-94). The empty
  string stands for "no docstring".
- Handlers are deterministic functions from their arguments to a result. Their side
  effects, and different results on repeated calls, are not modelled.
- A handler's return value is never an `InterpreterException` object. So the
  returned-exception branches at lines 22-23 and 72-75 never run, and they are not modelled.
- Dict values other than callables, dicts and strings (lists, numbers: the TODOs at
  lines 78-79) are not modelled.
- Python's own exceptions are modelled by their class only. Their message text is not.
- `Strings.ReprList` does not escape quotes, backslashes or unprintable characters the
  way Python's `repr` does.
- `Tokenizer.IsSpace` covers the ASCII whitespace only. The Unicode whitespace that
  `str.split()` also accepts is not modelled.
- Dict keys are strings only. A key of another type would make line 118's
  `" " * indent + k` raise `TypeError`; that case is not modelled.
- Dict keys are distinct in Python. Lookups in the model take the first matching entry,
  which is the only one when keys are distinct.
- The `__main__` demo tree and its `print` calls (lines 125-161) are not modelled.
  Neither is the unreachable `print` at line 122.
