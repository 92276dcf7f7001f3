/** The command tree an `Interpreter` walks, the handlers at its leaves, and the Python
    exceptions a walk can end in. */
module CommandTree {

  datatype Option<T> = None | Some(value: T)

  /** A Python object a handler may return; `NoneValue` is `None`. */
  datatype Value = NoneValue | Bool(b: bool) | Str(s: string) | Object(id: nat)

  /** What calling a handler with some positional string arguments does: it returns a
      value, or raises `TypeError` (a wrong number of arguments, or from its body), or
      raises some other exception, named here by its class. */
  datatype Call = Returned(v: Value) | RaisedTypeError(msg: string) | RaisedOther(name: string)

  /** A value of the interpreter's dictionary.
      - `Leaf`: a callable, with its cleaned docstring (`""` when it has none).
      - `Group`: a dict; its entries in insertion order, keys distinct.
      - `Literal`: a string value, as a `"summary"` entry holds. */
  datatype Node =
    | Leaf(handler: seq<string> -> Call, doc: string)
    | Group(entries: seq<(string, Node)>)
    | Literal(s: string)

  /** The exceptions a call of `eval` can end in. */
  datatype Exc =
    | InterpreterException(msg: string)
    | KeyError(key: string)        // a dict lookup of a missing key
    | TypeError                    // indexing a str with a str, subscripting None, str + non-str
    | AttributeError               // `.get` or `.items` on something that is not a dict
    | IndexError                   // `[-1]` on an empty string
    | HandlerException(name: string) // raised by a handler and not a TypeError

  /** `Interpreter.IGNORE`: keys that help listings skip. */
  const IGNORE: seq<string> := ["summary"]

  /** The dict's keys in insertion order. */
  function Keys(entries: seq<(string, Node)>): (r: seq<string>)
    ensures |r| == |entries| && forall i {:trigger r[i]} :: 0 <= i < |r| ==> r[i] == entries[i].0
  {
    if entries == [] then [] else [entries[0].0] + Keys(entries[1..])
  }

  /** Where `key` sits in the dict, or -1 when `key in d` is false. */
  function IndexOf(entries: seq<(string, Node)>, key: string): (i: int)
    ensures -1 <= i < |entries|
    ensures i == -1 <==> key !in Keys(entries)
    ensures 0 <= i ==> entries[i].0 == key && forall j :: 0 <= j < i ==> entries[j].0 != key
  {
    if entries == [] then -1
    else if entries[0].0 == key then 0
    else
      var j := IndexOf(entries[1..], key);
      assert Keys(entries) == [entries[0].0] + Keys(entries[1..]);
      if j < 0 then -1 else j + 1
  }

  /** `[x for x, _ in d.items() if x not in Interpreter.IGNORE]`. */
  function ListedKeys(entries: seq<(string, Node)>): (r: seq<string>)
    ensures forall k {:trigger k in r} :: k in r <==> k in Keys(entries) && k !in IGNORE
  {
    if entries == [] then []
    else
      var init := entries[..|entries| - 1];
      var k := entries[|entries| - 1].0;
      assert Keys(entries) == Keys(init) + [k];
      ListedKeys(init) + (if k in IGNORE then [] else [k])
  }

  /** The node reached from `node` by looking up each key of `path` in turn, through
      groups only; `None` when a key is missing or a non-group is reached early. */
  function Resolve(node: Node, path: seq<string>): Option<Node>
    decreases |path|
  {
    if path == [] then Some(node)
    else match node
      case Group(es) =>
        var i := IndexOf(es, path[0]);
        if i < 0 then None else Resolve(es[i].1, path[1..])
      case _ => None
  }

  /** A non-empty path resolves through the entry of its first key. */
  lemma ResolveDescends(node: Node, path: seq<string>)
    requires path != [] && Resolve(node, path).Some?
    ensures node.Group? && IndexOf(node.entries, path[0]) >= 0
    ensures Resolve(node, path) == Resolve(node.entries[IndexOf(node.entries, path[0])].1, path[1..])
  {
  }

  /** Resolving one more key looks it up in the group the shorter path reached. */
  lemma {:induction false} ResolveStep(root: Node, path: seq<string>, key: string)
    requires Resolve(root, path).Some? && Resolve(root, path).value.Group?
    ensures var es := Resolve(root, path).value.entries;
            var i := IndexOf(es, key);
            Resolve(root, path + [key]) == if i < 0 then None else Some(es[i].1)
    decreases |path|
  {
    if path == [] {
      assert path + [key] == [key];
      assert [key][1..] == [];
    } else {
      assert (path + [key])[0] == path[0];
      assert (path + [key])[1..] == path[1..] + [key];
      var i := IndexOf(root.entries, path[0]);
      ResolveStep(root.entries[i].1, path[1..], key);
    }
  }

  function Last(toks: seq<string>): string
    requires toks != []
  {
    toks[|toks| - 1]
  }
}
