/** The few Python string operations the interpreter builds its messages from:
    `sep.join(parts)`, `" " * n` and the `repr` of a list of strings. */
module Strings {

  /** `sep.join(parts)`. */
  function Join(parts: seq<string>, sep: string): string
  {
    if parts == [] then ""
    else if |parts| == 1 then parts[0]
    else parts[0] + sep + Join(parts[1..], sep)
  }

  /** `" " * n`. */
  function Spaces(n: nat): (r: string)
    ensures |r| == n && forall i :: 0 <= i < n ==> r[i] == ' '
  {
    if n == 0 then "" else " " + Spaces(n - 1)
  }

  /** `w` starts at offset `i` of `s`. */
  predicate OccursAt(w: string, s: string, i: int)
  {
    0 <= i <= |s| - |w| && s[i..i + |w|] == w
  }

  /** `w` is a substring of `s`. */
  ghost predicate Occurs(w: string, s: string)
  {
    exists i :: OccursAt(w, s, i)
  }

  /** The `repr` of one string, for strings without quotes, backslashes or unprintable characters. */
  function Quote(k: string): string
  {
    "'" + k + "'"
  }

  function QuoteAll(items: seq<string>): (r: seq<string>)
    ensures |r| == |items| && forall i :: 0 <= i < |items| ==> r[i] == Quote(items[i])
  {
    if items == [] then [] else [Quote(items[0])] + QuoteAll(items[1..])
  }

  /** The `repr` of a Python list of strings, as an f-string prints it: `['a', 'b']`. */
  function ReprList(items: seq<string>): (r: string)
    ensures |r| >= 2 && r[0] == '[' && r[|r| - 1] == ']'
    ensures items == [] <==> r == "[]"
  {
    "[" + Join(QuoteAll(items), ", ") + "]"
  }

  lemma OccursWithin(w: string, s: string, a: string, b: string)
    requires Occurs(w, s)
    ensures Occurs(w, a + s + b)
  {
    var i :| OccursAt(w, s, i);
    assert (a + s + b)[|a| + i..|a| + i + |w|] == s[i..i + |w|];
    assert OccursAt(w, a + s + b, |a| + i);
  }

  /** What occurs in a string occurs in every string that string occurs in. */
  lemma OccursInside(w: string, s: string, t: string, at: int)
    requires Occurs(w, s) && OccursAt(s, t, at)
    ensures Occurs(w, t)
  {
    var i :| OccursAt(w, s, i);
    forall j | 0 <= j < |w| ensures t[at + i + j] == w[j] {
      assert w[j] == s[i + j] == t[at..at + |s|][i + j];
    }
    assert t[at + i..at + i + |w|] == w;
    assert OccursAt(w, t, at + i);
  }

  /** Every part of a join can be found in the joined string. */
  lemma {:induction false} JoinMentions(parts: seq<string>, sep: string, j: nat)
    requires j < |parts|
    ensures Occurs(parts[j], Join(parts, sep))
  {
    var whole := Join(parts, sep);
    if |parts| == 1 || j == 0 {
      assert whole[0..|parts[0]|] == parts[0];
      assert OccursAt(parts[0], whole, 0);
    } else {
      JoinMentions(parts[1..], sep, j - 1);
      var rest := Join(parts[1..], sep);
      var w := parts[j];
      assert w == parts[1..][j - 1];
      var off :| OccursAt(w, rest, off);
      var pre := parts[0] + sep;
      assert whole == pre + rest;
      assert whole[|pre| + off..|pre| + off + |w|] == rest[off..off + |w|];
      assert OccursAt(w, whole, |pre| + off);
    }
  }

  /** Every item of a list shows up, quoted, in the list's `repr`. */
  lemma {:induction false} ReprListMentions(items: seq<string>, k: string)
    requires k in items
    ensures Occurs(Quote(k), ReprList(items))
  {
    var j :| 0 <= j < |items| && items[j] == k;
    JoinMentions(QuoteAll(items), ", ", j);
    OccursWithin(Quote(k), Join(QuoteAll(items), ", "), "[", "]");
  }
}
