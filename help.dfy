/** `Interpreter._render_help`: the usage text for a path of keys, or for a whole tier
    of the command tree. */
module Help {
  import opened Strings
  import opened CommandTree

  /** A rendering either produces text or raises. */
  datatype Rendering = Rendered(text: string) | Raised(e: Exc)

  /** Lines 105-107: `child.get("summary")`, and `child["summary"]` when that is truthy.
      `.get` exists only on a dict; a truthy summary that is not a string makes the
      concatenation of line 108 raise `TypeError`. */
  function SummaryOf(child: Node): (r: Rendering)
    ensures r.Rendered? <==> child.Group?
                             && (IndexOf(child.entries, "summary") < 0
                                 || child.entries[IndexOf(child.entries, "summary")].1.Literal?
                                 || child.entries[IndexOf(child.entries, "summary")].1 == Group([]))
    ensures r.Raised? ==> r.e == (if child.Group? then TypeError else AttributeError)
    ensures PlainSummary(child) ==> r == Rendered(SummaryText(child))
  {
    match child
    case Group(es) =>
      var i := IndexOf(es, "summary");
      if i < 0 then Rendered("")
      else (match es[i].1
        case Literal(s) => Rendered(s)
        case Group(inner) => if inner == [] then Rendered("") else Raised(TypeError)
        case Leaf(_, _) => Raised(TypeError))
    case _ => Raised(AttributeError)
  }

  /** A dict whose `"summary"` entry is missing or a string. */
  predicate PlainSummary(g: Node)
  {
    g.Group? && (IndexOf(g.entries, "summary") < 0 || g.entries[IndexOf(g.entries, "summary")].1.Literal?)
  }

  /** The `"summary"` string of such a dict, or `""` when it has none. */
  function SummaryText(g: Node): string
    requires PlainSummary(g)
  {
    var i := IndexOf(g.entries, "summary");
    if i < 0 then "" else g.entries[i].1.s
  }

  /** `_render_help(toks, node, indent)`. No rendering raises `KeyError`, so the
      `except KeyError` of line 111 only ever catches the lookup of line 102. */
  function RenderHelp(toks: seq<string>, node: Node, indent: nat): (r: Rendering)
    ensures !(r.Raised? && r.e.KeyError?)
    decreases node, 1, 0
  {
    match node
    case Leaf(_, doc) =>
      var name := if toks != [] then toks[0] else "";
      Rendered(if doc != "" then name + ": " + doc + "\n" else name)
    case Literal(_) =>
      // a str indexed by a key, or asked for `.items()`
      Raised(if toks != [] then TypeError else AttributeError)
    case Group(es) =>
      if toks == [] then Tier(node, |es|, indent)
      else
        var i := IndexOf(es, toks[0]);
        if i < 0 then Raised(InterpreterException(HelpNotFoundMessage(toks[0], es)))
        else match RenderHelp(toks[1..], es[i].1, indent + 2)
          case Raised(e) => Raised(e)
          case Rendered(sub) =>
            if sub == "" then Rendered(toks[0])
            else match SummaryOf(es[i].1)
              case Raised(e) => Raised(e)
              case Rendered(summary) => Rendered(toks[0] + ": " + summary + "\n" + sub)
  }

  /** Line 112's message: the key, then the tier's keys except the ignored ones. */
  function HelpNotFoundMessage(key: string, es: seq<(string, Node)>): (r: string)
    ensures OccursAt(key, r, 0)
    ensures OccursAt(ReprList(ListedKeys(es)), r, |key| + 14)
    ensures |r| == |key| + 14 + |ReprList(ListedKeys(es))| + 1 && r[|r| - 1] == '.'
  {
    key + " not found in " + ReprList(ListedKeys(es)) + "."
  }

  /** The loop of lines 116-118 after its first `n` entries: each key not in `IGNORE`
      adds `indent` spaces, the key, a newline and the key's own listing at `indent + 2`. */
  function Tier(g: Node, n: nat, indent: nat): (r: Rendering)
    requires g.Group? && n <= |g.entries|
    ensures !(r.Raised? && r.e.KeyError?)
    decreases g, 0, n
  {
    if n == 0 then Rendered("")
    else match Tier(g, n - 1, indent)
      case Raised(e) => Raised(e)
      case Rendered(acc) =>
        var key := g.entries[n - 1].0;
        if key in IGNORE then Rendered(acc)
        else match RenderHelp([], g.entries[n - 1].1, indent + 2)
          case Raised(e) => Raised(e)
          case Rendered(sub) => Rendered(acc + (Spaces(indent) + key + "\n" + sub))
  }

  /** Once an entry's listing raises, the loop stops: every longer prefix raises the same. */
  lemma {:induction false} TierRaisedStays(g: Node, m: nat, n: nat, indent: nat)
    requires g.Group? && m <= n <= |g.entries|
    requires Tier(g, m, indent).Raised?
    ensures Tier(g, n, indent) == Tier(g, m, indent)
    decreases n
  {
    if n > m {
      TierRaisedStays(g, m, n - 1, indent);
    }
  }

  /** A tier whose every entry is ignored renders as the empty string. */
  lemma {:induction false} TierOfIgnoredOnly(g: Node, n: nat, indent: nat)
    requires g.Group? && n <= |g.entries|
    requires forall j :: 0 <= j < n ==> g.entries[j].0 in IGNORE
    ensures Tier(g, n, indent) == Rendered("")
  {
    if n > 0 {
      TierOfIgnoredOnly(g, n - 1, indent);
    }
  }

  /** A listed entry whose listing succeeds leaves a non-empty tier. */
  lemma {:induction false} TierListedNonEmpty(g: Node, n: nat, indent: nat, j: nat)
    requires g.Group? && j < n <= |g.entries| && g.entries[j].0 !in IGNORE
    requires Tier(g, n, indent).Rendered?
    ensures Tier(g, n, indent).text != ""
  {
    if j < n - 1 {
      TierListedNonEmpty(g, n - 1, indent, j);
    }
  }

  /** What has nothing to list below a help path: an undocumented handler, or a dict whose
      keys are all in `IGNORE`. */
  predicate Silent(node: Node)
  {
    (node.Leaf? && node.doc == "") || (node.Group? && ListedKeys(node.entries) == [])
  }

  /** A node's own listing is empty exactly when it is `Silent`. */
  lemma NothingToListIffSilent(node: Node, indent: nat)
    ensures RenderHelp([], node, indent) == Rendered("") <==> Silent(node)
  {
    if node.Group? {
      var es := node.entries;
      if ListedKeys(es) == [] {
        forall j | 0 <= j < |es| ensures es[j].0 in IGNORE {
          assert Keys(es)[j] == es[j].0;
        }
        TierOfIgnoredOnly(node, |es|, indent);
      } else if RenderHelp([], node, indent).Rendered? {
        var k := ListedKeys(es)[0];
        assert k in ListedKeys(es);
        var j :| 0 <= j < |es| && Keys(es)[j] == k;
        TierListedNonEmpty(node, |es|, indent, j);
      }
    }
  }

  /** Lines 115-120 as written: a loop that appends to an accumulator string, leaving
      through the exception of the first entry whose listing raises. */
  method ListTier(g: Node, indent: nat) returns (r: Rendering)
    requires g.Group?
    ensures r == Tier(g, |g.entries|, indent)
  {
    var out := "";
    var i := 0;
    while i < |g.entries|
      invariant 0 <= i <= |g.entries|
      invariant Tier(g, i, indent) == Rendered(out)
    {
      var key := g.entries[i].0;
      if key !in IGNORE {
        var sub := RenderHelp([], g.entries[i].1, indent + 2);
        if sub.Raised? {
          TierRaisedStays(g, i + 1, |g.entries|, indent);
          return sub;
        }
        out := out + (Spaces(indent) + key + "\n" + sub.text);
      }
      i := i + 1;
    }
    return Rendered(out);
  }

  // ---------------------------------------------------------------------------
  // Lemmas
  // ---------------------------------------------------------------------------

  /** One listing line per key, each indented by `indent` spaces. */
  function Lines(keys: seq<string>, indent: nat): string
  {
    if keys == [] then "" else Lines(keys[..|keys| - 1], indent) + (Spaces(indent) + keys[|keys| - 1] + "\n")
  }

  /** An entry whose own listing is empty: an undocumented handler. */
  predicate Quiet(entry: (string, Node))
  {
    entry.0 !in IGNORE ==> entry.1.Leaf? && entry.1.doc == ""
  }

  lemma ListedKeysSnoc(es: seq<(string, Node)>, n: nat)
    requires 0 < n <= |es|
    ensures ListedKeys(es[..n])
            == ListedKeys(es[..n - 1]) + (if es[n - 1].0 in IGNORE then [] else [es[n - 1].0])
  {
    var prefix := es[..n];
    assert prefix[..n - 1] == es[..n - 1];
    assert prefix[n - 1] == es[n - 1];
  }

  /** One step of the loop over an entry whose own listing is empty adds at most its key
      line. */
  lemma TierStepQuiet(g: Node, n: nat, indent: nat)
    requires g.Group? && 0 < n <= |g.entries|
    requires Tier(g, n - 1, indent) == Rendered(Lines(ListedKeys(g.entries[..n - 1]), indent))
    requires Quiet(g.entries[n - 1])
    ensures Tier(g, n, indent) == Rendered(Lines(ListedKeys(g.entries[..n]), indent))
  {
    var es := g.entries;
    var before := ListedKeys(es[..n - 1]);
    var key := es[n - 1].0;
    ListedKeysSnoc(es, n);
    if key !in IGNORE {
      assert RenderHelp([], es[n - 1].1, indent + 2) == Rendered("");
      var line := Spaces(indent) + key + "\n";
      assert line + "" == line;
      LinesSnoc(before, key, indent);
    } else {
      assert before + [] == before;
    }
  }

  lemma LinesSnoc(keys: seq<string>, key: string, indent: nat)
    ensures Lines(keys + [key], indent) == Lines(keys, indent) + (Spaces(indent) + key + "\n")
  {
    var all := keys + [key];
    assert all[..|all| - 1] == keys;
  }

  /** A tier whose listed entries are undocumented handlers lists exactly the keys not in
      `IGNORE` (so `"default"` is listed and `"summary"` is not), in dict order, one per
      line, each indented by `indent` spaces. */
  lemma {:induction false} TierOfQuietEntries(g: Node, n: nat, indent: nat)
    requires g.Group? && n <= |g.entries|
    requires forall j :: 0 <= j < n ==> Quiet(g.entries[j])
    ensures Tier(g, n, indent) == Rendered(Lines(ListedKeys(g.entries[..n]), indent))
  {
    if n == 0 {
      assert g.entries[..0] == [];
    } else {
      TierOfQuietEntries(g, n - 1, indent);
      TierStepQuiet(g, n, indent);
    }
  }


  /** An entry that is listed only if it is a handler. */
  predicate Handler(entry: (string, Node))
  {
    entry.0 !in IGNORE ==> entry.1.Leaf?
  }

  /** What a handler adds below its key in a listing: `": " + doc + "\n"`, or nothing
      when it has no docstring (lines 93-95 with no key). */
  function DocLine(doc: string): string
  {
    if doc == "" then "" else ": " + doc + "\n"
  }

  /** The listing of a tier of handlers: per key not in `IGNORE`, in dict order, the key
      line indented by `indent` spaces and then the handler's `DocLine`. */
  function HandlerListing(es: seq<(string, Node)>, indent: nat): string
    requires forall j :: 0 <= j < |es| ==> Handler(es[j])
  {
    if es == [] then ""
    else
      var e := es[|es| - 1];
      assert Handler(e);
      HandlerListing(es[..|es| - 1], indent)
        + (if e.0 in IGNORE then "" else Spaces(indent) + e.0 + "\n" + DocLine(e.1.doc))
  }

  /** The listing of one more entry is the listing before it plus that entry's lines. */
  lemma HandlerListingSnoc(es: seq<(string, Node)>, n: nat, indent: nat)
    requires 0 < n <= |es| && forall j :: 0 <= j < n ==> Handler(es[j])
    ensures es[n - 1].0 !in IGNORE ==> es[n - 1].1.Leaf?
    ensures HandlerListing(es[..n], indent)
            == HandlerListing(es[..n - 1], indent)
               + (if es[n - 1].0 in IGNORE then "" else Spaces(indent) + es[n - 1].0 + "\n" + DocLine(es[n - 1].1.doc))
  {
    var prefix := es[..n];
    assert prefix[..n - 1] == es[..n - 1];
    assert prefix[n - 1] == es[n - 1];
    assert Handler(es[n - 1]);
  }

  /** A handler's own listing, with no key in front of it, is its `DocLine`. */
  lemma LeafListing(leaf: Node, indent: nat)
    requires leaf.Leaf?
    ensures RenderHelp([], leaf, indent) == Rendered(DocLine(leaf.doc))
  {
    assert "" + ": " == ": ";
  }

  /** One step of the loop over a handler adds its key line and its docstring line. */
  lemma TierStepHandler(g: Node, n: nat, indent: nat)
    requires g.Group? && 0 < n <= |g.entries|
    requires forall j :: 0 <= j < n ==> Handler(g.entries[j])
    requires Tier(g, n - 1, indent) == Rendered(HandlerListing(g.entries[..n - 1], indent))
    ensures Tier(g, n, indent) == Rendered(HandlerListing(g.entries[..n], indent))
  {
    var es := g.entries;
    HandlerListingSnoc(es, n, indent);
    var before := HandlerListing(es[..n - 1], indent);
    if es[n - 1].0 in IGNORE {
      assert before + "" == before;
    } else {
      LeafListing(es[n - 1].1, indent + 2);
    }
  }

  /** A tier of handlers lists, in dict order, each key not in `IGNORE` on its own line,
      indented by `indent` spaces, followed by `": " + doc` on the next line when the
      handler has a docstring. */
  lemma {:induction false} TierOfHandlers(g: Node, n: nat, indent: nat)
    requires g.Group? && n <= |g.entries|
    requires forall j :: 0 <= j < n ==> Handler(g.entries[j])
    ensures Tier(g, n, indent) == Rendered(HandlerListing(g.entries[..n], indent))
  {
    if n == 0 {
      assert g.entries[..0] == [];
    } else {
      TierOfHandlers(g, n - 1, indent);
      TierStepHandler(g, n, indent);
    }
  }

  /** A key missing at any depth of a help path is reported at that depth: the message
      names the key and the keys of the tier it was looked up in, except `"summary"`,
      and the levels above pass it on unchanged. */
  lemma {:induction false} HelpNotFoundAtDepth(root: Node, path: seq<string>, tier: seq<(string, Node)>,
                                               key: string, rest: seq<string>, indent: nat)
    requires Resolve(root, path) == Some(Group(tier)) && IndexOf(tier, key) < 0
    ensures RenderHelp(path + [key] + rest, root, indent)
            == Raised(InterpreterException(HelpNotFoundMessage(key, tier)))
    decreases |path|
  {
    var toks := path + [key] + rest;
    if path == [] {
      assert toks == [key] + rest;
    } else {
      ResolveDescends(root, path);
      var child := root.entries[IndexOf(root.entries, path[0])].1;
      assert toks[0] == path[0];
      assert toks[1..] == path[1..] + [key] + rest;
      HelpNotFoundAtDepth(child, path[1..], tier, key, rest, indent + 2);
      RaisedPassesUp(root.entries, toks, child, indent);
    }
  }

  /** An exception from below a key of a help path is raised unchanged at that key. */
  lemma RaisedPassesUp(es: seq<(string, Node)>, toks: seq<string>, child: Node, indent: nat)
    requires toks != [] && IndexOf(es, toks[0]) >= 0 && es[IndexOf(es, toks[0])].1 == child
    requires RenderHelp(toks[1..], child, indent + 2).Raised?
    ensures RenderHelp(toks, Group(es), indent) == RenderHelp(toks[1..], child, indent + 2)
  {
  }

  /** The help message for a missing key names every listed key of its tier. */
  lemma HelpNotFoundNamesListedKeys(key: string, es: seq<(string, Node)>, k: string)
    requires k in Keys(es) && k !in IGNORE
    ensures Occurs(Quote(k), HelpNotFoundMessage(key, es))
  {
    ReprListMentions(ListedKeys(es), k);
    OccursInside(Quote(k), ReprList(ListedKeys(es)), HelpNotFoundMessage(key, es), |key| + 14);
  }

  /** Every key of `path` leads, from `node`, into a dict whose summary is missing or a string. */
  predicate PlainPath(node: Node, path: seq<string>)
    decreases |path|
  {
    path != [] ==>
      node.Group? && IndexOf(node.entries, path[0]) >= 0
      && PlainSummary(node.entries[IndexOf(node.entries, path[0])].1)
      && PlainPath(node.entries[IndexOf(node.entries, path[0])].1, path[1..])
  }

  /** `listing` below one heading line per key of `path`: the key, `": "`, the summary of
      the dict it leads into, and a newline. */
  function Headed(node: Node, path: seq<string>, listing: string): (r: string)
    requires PlainPath(node, path)
    ensures |r| >= |listing|
    decreases |path|
  {
    if path == [] then listing
    else
      var child := node.entries[IndexOf(node.entries, path[0])].1;
      path[0] + ": " + SummaryText(child) + "\n" + Headed(child, path[1..], listing)
  }

  /** One level of a help descent into a dict whose summary is missing or a string. */
  lemma HelpStep(es: seq<(string, Node)>, toks: seq<string>, child: Node, indent: nat, sub: string)
    requires toks != [] && IndexOf(es, toks[0]) >= 0 && es[IndexOf(es, toks[0])].1 == child
    requires PlainSummary(child)
    requires RenderHelp(toks[1..], child, indent + 2) == Rendered(sub) && sub != ""
    ensures RenderHelp(toks, Group(es), indent)
            == Rendered(toks[0] + ": " + SummaryText(child) + "\n" + sub)
  {
  }

  /** What a help descent needs one level down is what it needs here. */
  lemma DescentOneLevelDown(root: Node, path: seq<string>, target: Node) returns (child: Node)
    requires path != [] && PlainPath(root, path) && Resolve(root, path) == Some(target)
    ensures root.Group? && IndexOf(root.entries, path[0]) >= 0
    ensures child == root.entries[IndexOf(root.entries, path[0])].1
    ensures PlainSummary(child) && PlainPath(child, path[1..]) && Resolve(child, path[1..]) == Some(target)
  {
    ResolveDescends(root, path);
    child := root.entries[IndexOf(root.entries, path[0])].1;
  }

  /** One more key in front of a help path adds its heading line in front of the help. */
  lemma HeadingStep(root: Node, path: seq<string>, child: Node, indent: nat, listing: string)
    requires path != [] && PlainPath(root, path) && listing != ""
    requires child == root.entries[IndexOf(root.entries, path[0])].1
    requires RenderHelp(path[1..], child, indent + 2) == Rendered(Headed(child, path[1..], listing))
    ensures RenderHelp(path, root, indent) == Rendered(Headed(root, path, listing))
  {
    var sub := Headed(child, path[1..], listing);
    HelpStep(root.entries, path, child, indent, sub);
    assert Headed(root, path, listing) == path[0] + ": " + SummaryText(child) + "\n" + sub;
  }

  /** Help for a path of dicts: one heading per key, then the listing of the dict `target`
      the path ends at, which is rendered at `bottom`, 2 more spaces for every key. */
  lemma {:induction false} HelpDescent(root: Node, path: seq<string>, target: Node, indent: nat,
                                       bottom: nat, listing: string)
    requires PlainPath(root, path) && Resolve(root, path) == Some(target)
    requires bottom == indent + 2 * |path|
    requires RenderHelp([], target, bottom) == Rendered(listing) && listing != ""
    ensures RenderHelp(path, root, indent) == Rendered(Headed(root, path, listing))
    decreases |path|
  {
    if path != [] {
      var child := DescentOneLevelDown(root, path, target);
      HelpDescent(child, path[1..], target, indent + 2, bottom, listing);
      HeadingStep(root, path, child, indent, listing);
    }
  }

  /** Line 110: when the help below a key is empty, the help is the key alone. */
  lemma EmptyBelowGivesKey(es: seq<(string, Node)>, toks: seq<string>, child: Node, indent: nat)
    requires toks != [] && IndexOf(es, toks[0]) >= 0 && es[IndexOf(es, toks[0])].1 == child
    requires RenderHelp(toks[1..], child, indent + 2) == Rendered("")
    ensures RenderHelp(toks, Group(es), indent) == Rendered(toks[0])
  {
  }

  /** What an empty-ended help descent needs one level down is what it needs here. */
  lemma EmptyDescentOneLevelDown(root: Node, init: seq<string>, last: string, target: Node)
    returns (child: Node)
    requires init != [] && PlainPath(root, init) && Resolve(root, init + [last]) == Some(target)
    ensures root.Group? && IndexOf(root.entries, init[0]) >= 0
    ensures child == root.entries[IndexOf(root.entries, init[0])].1
    ensures PlainPath(child, init[1..]) && Resolve(child, init[1..] + [last]) == Some(target)
  {
    var path := init + [last];
    ResolveDescends(root, path);
    assert path[0] == init[0] && path[1..] == init[1..] + [last];
    child := root.entries[IndexOf(root.entries, init[0])].1;
  }

  /** One more key in front of an empty-ended help path adds its heading line. */
  lemma EmptyHeadingStep(root: Node, init: seq<string>, last: string, child: Node, indent: nat)
    requires init != [] && last != "" && PlainPath(root, init)
    requires child == root.entries[IndexOf(root.entries, init[0])].1
    requires RenderHelp(init[1..] + [last], child, indent + 2) == Rendered(Headed(child, init[1..], last))
    ensures RenderHelp(init + [last], root, indent) == Rendered(Headed(root, init, last))
  {
    var path := init + [last];
    assert path[0] == init[0];
    assert path[1..] == init[1..] + [last];
    var sub := Headed(child, init[1..], last);
    HelpStep(root.entries, path, child, indent, sub);
  }

  /** A one-key help path into something with nothing to list is the key alone. */
  lemma EmptyAtOnlyKey(root: Node, last: string, target: Node, indent: nat)
    requires Resolve(root, [last]) == Some(target) && Silent(target)
    ensures RenderHelp([last], root, indent) == Rendered(last)
  {
    NothingToListIffSilent(target, indent + 2);
    ResolveDescends(root, [last]);
    var child := root.entries[IndexOf(root.entries, last)].1;
    assert [last][1..] == [];
    EmptyBelowGivesKey(root.entries, [last], child, indent);
  }

  /** Help for a path whose last key leads to something with nothing to list (a dict with
      only ignored keys, an undocumented handler): the last key alone, under one heading
      line for each key before it. */
  lemma {:induction false} HelpDescentToEmpty(root: Node, init: seq<string>, last: string, target: Node,
                                              indent: nat)
    requires last != "" && PlainPath(root, init) && Resolve(root, init + [last]) == Some(target)
    requires Silent(target)
    ensures RenderHelp(init + [last], root, indent) == Rendered(Headed(root, init, last))
    decreases |init|
  {
    if init == [] {
      assert init + [last] == [last];
      EmptyAtOnlyKey(root, last, target, indent);
    } else {
      var child := EmptyDescentOneLevelDown(root, init, last, target);
      HelpDescentToEmpty(child, init[1..], last, target, indent + 2);
      EmptyHeadingStep(root, init, last, child, indent);
    }
  }

  /** `help` below a handler that has a docstring raises `AttributeError`: the handler's
      listing is non-empty, so line 106 calls `.get` on the function. */
  lemma DocumentedLeafHelpRaises(es: seq<(string, Node)>, key: string, indent: nat)
    requires IndexOf(es, key) >= 0
    requires es[IndexOf(es, key)].1.Leaf? && es[IndexOf(es, key)].1.doc != ""
    ensures RenderHelp([key], Group(es), indent) == Raised(AttributeError)
  {
  }

  /** `help` below a handler without a docstring renders as the key alone. */
  lemma UndocumentedLeafHelp(es: seq<(string, Node)>, key: string, indent: nat)
    requires IndexOf(es, key) >= 0
    requires es[IndexOf(es, key)].1.Leaf? && es[IndexOf(es, key)].1.doc == ""
    ensures RenderHelp([key], Group(es), indent) == Rendered(key)
  {
  }
}
