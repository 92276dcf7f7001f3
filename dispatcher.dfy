/** `Interpreter.eval` and `Interpreter._eval`: tokenize a command, walk the command
    tree one token per level, and call the handler reached with the tokens left over, or
    render help when the command ends in `help`. */
module Dispatcher {
  import opened Strings
  import opened CommandTree
  import opened Tokenizer
  import opened Help

  /** An `Interpreter`: its dictionary and the text put before every help rendering.
      Neither is changed after construction. */
  datatype Interpreter = Interpreter(root: Node, prependHelp: string)

  /** What `_eval` gives its caller: the list `[value]`, a help string, the `None` of a
      walk that falls out of the bottom, or an exception it raises. */
  datatype Outcome = Ret(values: seq<Value>) | HelpStr(s: string) | NoneOut | Raise(e: Exc)

  /** What `eval` gives its caller: the list `[value]`, help text, or an exception. */
  datatype EvalResult = Success(values: seq<Value>) | HelpText(text: string) | Failure(e: Exc)

  /** The command ends in the `help` token. */
  predicate AsksForHelp(toks: seq<string>)
  {
    toks != [] && Last(toks) == "help"
  }

  /** Lines 41-43: a handler that returns `None` counts as having returned `True`. */
  function Normalize(v: Value): (r: Value)
    ensures v == NoneValue ==> r == Bool(true)
    ensures v != NoneValue ==> r == v
  {
    if v == NoneValue then Bool(true) else v
  }

  /** The message of line 48. */
  function CallFailedMessage(args: seq<string>, msg: string): (r: string)
    ensures OccursAt(Join(args, ","), r, 28)
    ensures OccursAt(msg, r, 28 + |Join(args, ",")| + 22)
    ensures |r| == 28 + |Join(args, ",")| + 22 + |msg| + 3 && r[|r| - 2..] == "\n\n"
  {
    "Command failed with params `" + Join(args, ",") + "` and with exception `" + msg + "`\n\n"
  }

  /** The message of line 66: every key of the tier, ignored ones included. */
  function NotFoundMessage(key: string, es: seq<(string, Node)>): (r: string)
    ensures OccursAt(Quote(key), r, 8)
    ensures OccursAt(ReprList(Keys(es)), r, 8 + |key| + 2 + 14)
    ensures |r| == 8 + |key| + 2 + 14 + |ReprList(Keys(es))| + 1 && r[|r| - 1] == '.'
  {
    "Command '" + key + "' not found in " + ReprList(Keys(es)) + "."
  }

  /** Lines 32-49: call the handler with the remaining tokens as positional arguments. */
  function CallLeaf(handler: seq<string> -> Call, args: seq<string>): (r: Outcome)
    ensures r.Ret? <==> handler(args).Returned?
    ensures r.Ret? ==> r.values == [Normalize(handler(args).v)]
    ensures r.Raise? ==> (r.e.InterpreterException? <==> handler(args).RaisedTypeError?)
    ensures !r.HelpStr? && !r.NoneOut?
  {
    match handler(args)
    case Returned(v) => Ret([Normalize(v)])
    case RaisedTypeError(msg) => Raise(InterpreterException(CallFailedMessage(args, msg)))
    case RaisedOther(name) => Raise(HandlerException(name))
  }

  /** Lines 52-54: strip the final `help` and render the rest of the command. */
  function HelpOutcome(prepend: string, rendering: Rendering): (r: Outcome)
    ensures r.HelpStr? <==> rendering.Rendered?
    ensures r.HelpStr? ==> |r.s| == |prepend| + |rendering.text|
    ensures r.HelpStr? ==> r.s[..|prepend|] == prepend && r.s[|prepend|..] == rendering.text
    ensures !r.HelpStr? ==> r.Raise? && r.e == rendering.e
  {
    match rendering
    case Raised(e) => Raise(e)
    case Rendered(text) => HelpStr(prepend + text)
  }

  /** `_eval(toks, node)`. Its result is a handler's normalised value, or help text for a
      command that ends in `help`. */
  function EvalNode(prepend: string, toks: seq<string>, node: Node): (r: Outcome)
    ensures r.Ret? ==> |r.values| == 1 && r.values[0] != NoneValue
    ensures r.HelpStr? ==> AsksForHelp(toks)
    decreases node
  {
    match node
    case Leaf(handler, _) => CallLeaf(handler, toks)
    case Literal(_) =>
      if AsksForHelp(toks) then HelpOutcome(prepend, RenderHelp(toks[..|toks| - 1], node, 0))
      else if toks == [] then Raise(TypeError)   // `s["default"]` on a str
      else NoneOut                               // neither callable nor dict: fall out
    case Group(es) =>
      if AsksForHelp(toks) then HelpOutcome(prepend, RenderHelp(toks[..|toks| - 1], node, 0))
      else if toks == [] then
        var i := IndexOf(es, "default");
        if i < 0 then Raise(KeyError("default")) else EvalNode(prepend, [], es[i].1)
      else
        var i := IndexOf(es, toks[0]);
        if i < 0 then Raise(InterpreterException(NotFoundMessage(toks[0], es)))
        else EvalNode(prepend, toks[1..], es[i].1)
  }

  /** Lines 19-25 on a token list: `_out[-1]` fails on an empty help string and on the
      `None` of a walk that fell out; exceptions are not caught. */
  function Run(interp: Interpreter, toks: seq<string>): (r: EvalResult)
    ensures r.Success? ==> |r.values| == 1 && r.values[0] != NoneValue
    ensures r.HelpText? ==> AsksForHelp(toks) && r.text != ""
  {
    match EvalNode(interp.prependHelp, toks, interp.root)
    case Raise(e) => Failure(e)
    case Ret(values) => Success(values)
    case HelpStr(text) => if text == "" then Failure(IndexError) else HelpText(text)
    case NoneOut => Failure(TypeError)
  }

  /** `Interpreter.eval(command)`. */
  function Eval(interp: Interpreter, command: string): (r: EvalResult)
    ensures r.Success? ==> |r.values| == 1 && r.values[0] != NoneValue
    ensures r.HelpText? ==> AsksForHelp(Tokenize(command))
  {
    Run(interp, Tokenize(command))
  }

  // ---------------------------------------------------------------------------
  // Lemmas
  // ---------------------------------------------------------------------------

  /** Every level of the walk tests the tokens it still has (line 52), and these all end
      in the command's last token: whether help is asked for is fixed by the command. */
  lemma HelpDecidedBySuffix(toks: seq<string>, j: int)
    requires 0 <= j < |toks|
    ensures AsksForHelp(toks[j..]) <==> AsksForHelp(toks)
    ensures AsksForHelp(toks) <==> toks == toks[..|toks| - 1] + ["help"]
  {
    assert toks[j..][|toks[j..]| - 1] == toks[|toks| - 1];
    if toks[|toks| - 1] == "help" {
      assert toks == toks[..|toks| - 1] + ["help"];
    }
  }

  /** One level of the walk: a group consumes the first token and goes on into its entry. */
  lemma DescendOne(prepend: string, es: seq<(string, Node)>, toks: seq<string>)
    requires toks != [] && !AsksForHelp(toks)
    requires IndexOf(es, toks[0]) >= 0
    ensures EvalNode(prepend, toks, Group(es)) == EvalNode(prepend, toks[1..], es[IndexOf(es, toks[0])].1)
  {
  }

  /** One key of a path: the walk consumes it and goes on into that key's entry. */
  lemma WalkStep(prepend: string, root: Node, path: seq<string>, child: Node, rest: seq<string>)
    requires path != [] && root.Group? && IndexOf(root.entries, path[0]) >= 0
    requires child == root.entries[IndexOf(root.entries, path[0])].1
    requires !AsksForHelp(path + rest)
    ensures EvalNode(prepend, path + rest, root) == EvalNode(prepend, path[1..] + rest, child)
    ensures !AsksForHelp(path[1..] + rest)
  {
    var toks := path + rest;
    assert toks[0] == path[0];
    assert toks[1..] == path[1..] + rest;
    if |toks| > 1 { HelpDecidedBySuffix(toks, 1); }
    DescendOne(prepend, root.entries, toks);
  }

  /** Walking a path of keys through groups consumes exactly those keys and hands back the
      rest of the walk's result unchanged, as long as the command does not end in `help`. */
  lemma {:induction false} WalkPath(prepend: string, root: Node, path: seq<string>, target: Node,
                                    rest: seq<string>)
    requires Resolve(root, path) == Some(target)
    requires !AsksForHelp(path + rest)
    ensures EvalNode(prepend, path + rest, root) == EvalNode(prepend, rest, target)
    decreases |path|
  {
    if path == [] {
      assert path + rest == rest;
    } else {
      ResolveDescends(root, path);
      var child := root.entries[IndexOf(root.entries, path[0])].1;
      WalkStep(prepend, root, path, child, rest);
      WalkPath(prepend, child, path[1..], target, rest);
    }
  }

  /** Reaching a handler calls it with exactly the tokens after its path, in order; its
      value comes back as a one-element list with `None` read as `True`, a `TypeError`
      becomes an `InterpreterException` naming the arguments, anything else propagates. */
  lemma HandlerGetsRemainingTokens(interp: Interpreter, path: seq<string>, args: seq<string>)
    requires Resolve(interp.root, path).Some? && Resolve(interp.root, path).value.Leaf?
    requires !AsksForHelp(path + args)
    ensures var call := Resolve(interp.root, path).value.handler(args);
            && (call.Returned? ==> Run(interp, path + args) == Success([Normalize(call.v)]))
            && (call.RaisedTypeError? ==>
                  Run(interp, path + args) == Failure(InterpreterException(CallFailedMessage(args, call.msg))))
            && (call.RaisedOther? ==> Run(interp, path + args) == Failure(HandlerException(call.name)))
  {
    WalkPath(interp.prependHelp, interp.root, path, Resolve(interp.root, path).value, args);
  }

  /** The failure message of a handler's `TypeError` shows the comma-joined arguments and
      the exception's text. */
  lemma CallFailedMessageShows(args: seq<string>, msg: string)
    ensures Occurs(Join(args, ","), CallFailedMessage(args, msg))
    ensures Occurs(msg, CallFailedMessage(args, msg))
  {
    var joined := Join(args, ",");
    assert OccursAt(joined, CallFailedMessage(args, msg), 28);
    assert OccursAt(msg, CallFailedMessage(args, msg), 28 + |joined| + 22);
  }

  /** A key missing at some depth fails there, naming the key and every key of that
      tier; the levels above pass the exception through without adding to it. */
  lemma NotFoundAtDepth(interp: Interpreter, path: seq<string>, key: string, rest: seq<string>)
    requires Resolve(interp.root, path).Some? && Resolve(interp.root, path).value.Group?
    requires IndexOf(Resolve(interp.root, path).value.entries, key) < 0
    requires !AsksForHelp(path + [key] + rest)
    ensures Run(interp, path + [key] + rest)
            == Failure(InterpreterException(NotFoundMessage(key, Resolve(interp.root, path).value.entries)))
  {
    var target := Resolve(interp.root, path).value;
    var toks := [key] + rest;
    assert path + [key] + rest == path + toks;
    assert (path + toks)[|path|..] == toks;
    HelpDecidedBySuffix(path + toks, |path|);
    WalkPath(interp.prependHelp, interp.root, path, target, toks);
    assert toks[0] == key;
    assert EvalNode(interp.prependHelp, toks, target)
           == Raise(InterpreterException(NotFoundMessage(key, target.entries)));
  }

  /** The not-found message of a walk quotes the missing key and every key of the tier,
      `"default"` and `"summary"` included. */
  lemma NotFoundMessageNamesKeys(key: string, es: seq<(string, Node)>, k: string)
    requires k in Keys(es)
    ensures Occurs(Quote(key), NotFoundMessage(key, es))
    ensures Occurs(Quote(k), NotFoundMessage(key, es))
  {
    var msg := NotFoundMessage(key, es);
    assert OccursAt(Quote(key), msg, 8);
    ReprListMentions(Keys(es), k);
    OccursInside(Quote(k), ReprList(Keys(es)), msg, 8 + |key| + 2 + 14);
  }

  /** Running out of tokens at a group continues into its `"default"` entry with no
      tokens; a group without one raises `KeyError`. */
  lemma DefaultWhenExhausted(interp: Interpreter, path: seq<string>)
    requires Resolve(interp.root, path).Some? && Resolve(interp.root, path).value.Group?
    requires !AsksForHelp(path)
    ensures var es := Resolve(interp.root, path).value.entries;
            var i := IndexOf(es, "default");
            && (i < 0 ==> Run(interp, path) == Failure(KeyError("default")))
            && (0 <= i ==> EvalNode(interp.prependHelp, path, interp.root)
                           == EvalNode(interp.prependHelp, [], es[i].1))
  {
    assert path + [] == path;
    WalkPath(interp.prependHelp, interp.root, path, Resolve(interp.root, path).value, []);
  }

  /** A group's `"default"` handler is called with no arguments when the command stops
      at that group. */
  lemma DefaultHandlerCalledWithNoArgs(interp: Interpreter, path: seq<string>)
    requires Resolve(interp.root, path).Some? && Resolve(interp.root, path).value.Group?
    requires !AsksForHelp(path)
    requires IndexOf(Resolve(interp.root, path).value.entries, "default") >= 0
    requires Resolve(interp.root, path + ["default"]).Some?
             && Resolve(interp.root, path + ["default"]).value.Leaf?
    ensures var call := Resolve(interp.root, path + ["default"]).value.handler([]);
            && (call.Returned? ==> Run(interp, path) == Success([Normalize(call.v)]))
            && (call.RaisedTypeError? ==>
                  Run(interp, path) == Failure(InterpreterException(CallFailedMessage([], call.msg))))
            && (call.RaisedOther? ==> Run(interp, path) == Failure(HandlerException(call.name)))
  {
    DefaultWhenExhausted(interp, path);
    ResolveStep(interp.root, path, "default");
  }

  /** A command ending in `help` at a group root never calls a handler: the result is the
      help prefix plus the rendering of the other tokens, or the rendering's exception. */
  lemma HelpIntercepted(interp: Interpreter, toks: seq<string>)
    requires interp.root.Group?
    requires AsksForHelp(toks)
    ensures var rendering := RenderHelp(toks[..|toks| - 1], interp.root, 0);
            && (rendering.Raised? ==> Run(interp, toks) == Failure(rendering.e))
            && (rendering.Rendered? && interp.prependHelp + rendering.text != "" ==>
                  Run(interp, toks) == HelpText(interp.prependHelp + rendering.text))
            && (rendering.Rendered? && interp.prependHelp + rendering.text == "" ==>
                  Run(interp, toks) == Failure(IndexError))
    ensures !Run(interp, toks).Success?
  {
  }

  /** `help` after a path of dicts gives the help prefix, one heading per key of the path
      (`key: summary`), then the listing of the dict the path ends at. */
  lemma HelpForPath(interp: Interpreter, path: seq<string>, target: Node, listing: string)
    requires interp.root.Group?
    requires PlainPath(interp.root, path) && Resolve(interp.root, path) == Some(target)
    requires RenderHelp([], target, 2 * |path|) == Rendered(listing) && listing != ""
    ensures Run(interp, path + ["help"])
            == HelpText(interp.prependHelp + Headed(interp.root, path, listing))
  {
    HelpDescent(interp.root, path, target, 0, 2 * |path|, listing);
    var toks := path + ["help"];
    assert toks[..|toks| - 1] == path;
    assert AsksForHelp(toks);
    var text := Headed(interp.root, path, listing);
    assert EvalNode(interp.prependHelp, toks, interp.root) == HelpStr(interp.prependHelp + text);
  }

  /** `help` after a path whose last key holds nothing to list prints the summaries down the
      path and then the last key alone, with no newline after it. */
  lemma HelpForSilentEnd(interp: Interpreter, init: seq<string>, last: string, target: Node)
    requires interp.root.Group? && last != ""
    requires PlainPath(interp.root, init) && Resolve(interp.root, init + [last]) == Some(target)
    requires Silent(target)
    ensures Run(interp, init + [last] + ["help"])
            == HelpText(interp.prependHelp + Headed(interp.root, init, last))
  {
    HelpDescentToEmpty(interp.root, init, last, target, 0);
    var toks := init + [last] + ["help"];
    assert toks[..|toks| - 1] == init + [last];
    assert AsksForHelp(toks);
    var text := Headed(interp.root, init, last);
    assert EvalNode(interp.prependHelp, toks, interp.root) == HelpStr(interp.prependHelp + text);
  }

  /** `help` on a dictionary with nothing to list, and no help prefix, renders the empty
      string, on which line 22's `_out[-1]` raises `IndexError`. */
  lemma EmptyHelpRaisesIndexError(es: seq<(string, Node)>)
    requires ListedKeys(es) == []
    ensures Run(Interpreter(Group(es), ""), ["help"]) == Failure(IndexError)
  {
    forall j | 0 <= j < |es| ensures es[j].0 in IGNORE {
      assert Keys(es)[j] == es[j].0;
    }
    TierOfIgnoredOnly(Group(es), |es|, 0);
    assert ["help"][..0] == [];
  }

  /** A command that walks into a string value with tokens left falls out of `_eval`,
      which returns `None`; `eval` then raises `TypeError` on `None[-1]`. */
  lemma WalkIntoLiteralRaisesTypeError(interp: Interpreter, path: seq<string>, rest: seq<string>)
    requires Resolve(interp.root, path).Some? && Resolve(interp.root, path).value.Literal?
    requires rest != [] && !AsksForHelp(path + rest)
    ensures Run(interp, path + rest) == Failure(TypeError)
  {
    WalkPath(interp.prependHelp, interp.root, path, Resolve(interp.root, path).value, rest);
  }

  /** A command written as tokens separated by single spaces is evaluated on exactly
      those tokens. */
  lemma EvalOfJoinedTokens(interp: Interpreter, toks: seq<string>)
    requires forall i :: 0 <= i < |toks| ==> IsToken(toks[i])
    ensures Eval(interp, Join(toks, " ")) == Run(interp, toks)
  {
    TokenizeJoin(toks);
  }
}
