/** The tokenization of `Interpreter.eval`: `command.strip().split()`, with the ASCII
    whitespace set that Python's `str.strip()` and `str.split()` use. */
module Tokenizer {
  import opened Strings

  /** Tab, line feed, vertical tab, form feed, carriage return, the four information
      separators 0x1C-0x1F, and space. */
  predicate IsSpace(c: char)
  {
    var n := c as int;
    9 <= n <= 13 || 28 <= n <= 32
  }

  /** What `split()` can return: a non-empty run of non-whitespace characters. */
  predicate IsToken(t: string)
  {
    t != [] && forall i :: 0 <= i < |t| ==> !IsSpace(t[i])
  }

  predicate AllSpace(s: string)
  {
    forall i :: 0 <= i < |s| ==> IsSpace(s[i])
  }

  /** The longest prefix of `s` free of whitespace. */
  function Word(s: string): (w: string)
    ensures |w| <= |s| && w == s[..|w|]
    ensures forall i :: 0 <= i < |w| ==> !IsSpace(w[i])
    ensures |w| < |s| ==> IsSpace(s[|w|])
  {
    if s == [] || IsSpace(s[0]) then [] else [s[0]] + Word(s[1..])
  }

  /** `s.split()`: skip whitespace, take a maximal word, repeat. */
  function Split(s: string): (r: seq<string>)
    ensures forall i :: 0 <= i < |r| ==> IsToken(r[i])
    decreases |s|
  {
    if s == [] then []
    else if IsSpace(s[0]) then Split(s[1..])
    else var w := Word(s); [w] + Split(s[|w|..])
  }

  /** `s` without its leading whitespace. */
  function TrimLeft(s: string): (r: string)
    ensures |r| <= |s| && r == s[|s| - |r|..] && AllSpace(s[..|s| - |r|])
    ensures r == [] || !IsSpace(r[0])
  {
    if s != [] && IsSpace(s[0]) then TrimLeft(s[1..]) else s
  }

  /** `s` without its trailing whitespace. */
  function TrimRight(s: string): (r: string)
    ensures |r| <= |s| && r == s[..|r|] && AllSpace(s[|r|..])
    ensures r == [] || !IsSpace(r[|r| - 1])
  {
    if s != [] && IsSpace(s[|s| - 1]) then TrimRight(s[..|s| - 1]) else s
  }

  /** `s.strip()`. */
  function Strip(s: string): (r: string)
    ensures r == [] || (!IsSpace(r[0]) && !IsSpace(r[|r| - 1]))
    ensures exists i :: OccursAt(r, s, i) && AllSpace(s[..i]) && AllSpace(s[i + |r|..])
    ensures r == [] <==> AllSpace(s)
  {
    var t := TrimLeft(s);
    StripPlacement(s, t, TrimRight(t));
    TrimRight(t)
  }

  /** Where the stripped text sits: after the leading whitespace, before the trailing. */
  lemma StripPlacement(s: string, t: string, r: string)
    requires |t| <= |s| && t == s[|s| - |t|..] && AllSpace(s[..|s| - |t|])
    requires |r| <= |t| && r == t[..|r|] && AllSpace(t[|r|..])
    ensures OccursAt(r, s, |s| - |t|) && AllSpace(s[..|s| - |t|]) && AllSpace(s[|s| - |t| + |r|..])
  {
    var i := |s| - |t|;
    forall j | 0 <= j < |r| ensures s[i + j] == r[j] {
      assert r[j] == t[j] == s[i + j];
    }
    assert s[i..i + |r|] == r;
    forall j | i + |r| <= j < |s| ensures IsSpace(s[j]) {
      assert s[j] == t[j - i] == t[|r|..][j - i - |r|];
    }
    assert AllSpace(s[i + |r|..]);
  }

  /** `command.strip().split()` (interpreter.py line 17). */
  function Tokenize(command: string): (r: seq<string>)
    ensures forall i :: 0 <= i < |r| ==> IsToken(r[i])
  {
    Split(Strip(command))
  }

  /** The characters of `s` that are not whitespace, in order. */
  function RemoveSpaces(s: string): string
  {
    if s == [] then "" else (if IsSpace(s[0]) then "" else [s[0]]) + RemoveSpaces(s[1..])
  }

  /** Tokens glued back together. */
  function Concat(ts: seq<string>): string
  {
    if ts == [] then "" else ts[0] + Concat(ts[1..])
  }

  // ---------------------------------------------------------------------------
  // Lemmas
  // ---------------------------------------------------------------------------

  lemma {:induction false} WordStopsAt(t: string, rest: string)
    requires forall i :: 0 <= i < |t| ==> !IsSpace(t[i])
    requires rest == [] || IsSpace(rest[0])
    ensures Word(t + rest) == t
  {
    if t != [] {
      assert (t + rest)[1..] == t[1..] + rest;
      WordStopsAt(t[1..], rest);
    } else {
      assert t + rest == rest;
    }
  }

  lemma {:induction false} SplitOfSpaces(s: string)
    requires AllSpace(s)
    ensures Split(s) == []
    decreases |s|
  {
    if s != [] {
      SplitOfSpaces(s[1..]);
    }
  }

  lemma {:induction false} SplitAppendSpaces(s: string, sp: string)
    requires AllSpace(sp)
    ensures Split(s + sp) == Split(s)
    decreases |s|
  {
    if s == [] {
      assert s + sp == sp;
      SplitOfSpaces(sp);
    } else if IsSpace(s[0]) {
      assert (s + sp)[1..] == s[1..] + sp;
      SplitAppendSpaces(s[1..], sp);
    } else {
      var w := Word(s);
      var tail := s[|w|..];
      assert s == w + tail;
      assert tail == [] || IsSpace(tail[0]);
      assert s + sp == w + (tail + sp);
      assert tail + sp == [] || IsSpace((tail + sp)[0]);
      WordStopsAt(w, tail + sp);
      assert (s + sp)[|w|..] == tail + sp;
      SplitAppendSpaces(tail, sp);
    }
  }

  lemma {:induction false} SplitTrimLeft(s: string)
    ensures Split(TrimLeft(s)) == Split(s)
    decreases |s|
  {
    if s != [] && IsSpace(s[0]) {
      SplitTrimLeft(s[1..]);
    }
  }

  lemma {:induction false} SplitTrimRight(s: string)
    ensures Split(TrimRight(s)) == Split(s)
    decreases |s|
  {
    if s != [] && IsSpace(s[|s| - 1]) {
      var init := s[..|s| - 1];
      assert s == init + [s[|s| - 1]];
      SplitAppendSpaces(init, [s[|s| - 1]]);
      SplitTrimRight(init);
    }
  }

  /** The `strip()` before `split()` changes nothing: splitting already drops outer whitespace. */
  lemma StripIsRedundant(command: string)
    ensures Tokenize(command) == Split(command)
  {
    SplitTrimRight(TrimLeft(command));
    SplitTrimLeft(command);
  }

  lemma {:induction false} RemoveSpacesAppend(a: string, b: string)
    ensures RemoveSpaces(a + b) == RemoveSpaces(a) + RemoveSpaces(b)
  {
    if a == [] {
      assert a + b == b;
    } else {
      assert (a + b)[1..] == a[1..] + b;
      RemoveSpacesAppend(a[1..], b);
    }
  }

  lemma {:induction false} RemoveSpacesOfWord(w: string)
    requires forall i :: 0 <= i < |w| ==> !IsSpace(w[i])
    ensures RemoveSpaces(w) == w
  {
    if w != [] {
      RemoveSpacesOfWord(w[1..]);
    }
  }

  lemma {:induction false} SplitKeepsText(s: string)
    ensures Concat(Split(s)) == RemoveSpaces(s)
    decreases |s|
  {
    if s == [] {
    } else if IsSpace(s[0]) {
      SplitKeepsText(s[1..]);
    } else {
      var w := Word(s);
      var tail := s[|w|..];
      assert s == w + tail;
      RemoveSpacesAppend(w, tail);
      RemoveSpacesOfWord(w);
      SplitKeepsText(tail);
      assert Split(s) == [w] + Split(tail);
      assert Concat(Split(s)) == w + Concat(Split(tail));
    }
  }

  /** Tokenization drops exactly the whitespace: the tokens, glued back together, are
      the command's non-whitespace characters in their original order. */
  lemma TokensKeepOrder(command: string)
    ensures Concat(Tokenize(command)) == RemoveSpaces(command)
  {
    StripIsRedundant(command);
    SplitKeepsText(command);
  }

  lemma {:induction false} SplitEmptyIffSpaces(s: string)
    ensures Split(s) == [] <==> AllSpace(s)
    decreases |s|
  {
    if s != [] {
      if IsSpace(s[0]) {
        SplitEmptyIffSpaces(s[1..]);
        assert AllSpace(s) <==> AllSpace(s[1..]) by {
          if AllSpace(s[1..]) {
            forall i | 0 <= i < |s| ensures IsSpace(s[i]) {
              if i > 0 { assert s[i] == s[1..][i - 1]; }
            }
          }
        }
      }
    }
  }

  /** A command yields no tokens exactly when it is all whitespace (the empty command included). */
  lemma NoTokensIffBlank(command: string)
    ensures Tokenize(command) == [] <==> AllSpace(command)
  {
    StripIsRedundant(command);
    SplitEmptyIffSpaces(command);
  }

  /** Joining tokens with single spaces and tokenizing gives the same tokens back. */
  lemma {:induction false} SplitJoin(toks: seq<string>)
    requires forall i :: 0 <= i < |toks| ==> IsToken(toks[i])
    ensures Split(Join(toks, " ")) == toks
  {
    if |toks| == 1 {
      var t := toks[0];
      WordStopsAt(t, []);
      assert t + [] == t;
      assert t[|t|..] == [];
    } else if |toks| > 1 {
      var t := toks[0];
      var rest := Join(toks[1..], " ");
      var s := Join(toks, " ");
      assert s == t + (" " + rest);
      WordStopsAt(t, " " + rest);
      assert s[|t|..] == " " + rest;
      assert (" " + rest)[1..] == rest;
      SplitJoin(toks[1..]);
    }
  }

  lemma TokenizeJoin(toks: seq<string>)
    requires forall i :: 0 <= i < |toks| ==> IsToken(toks[i])
    ensures Tokenize(Join(toks, " ")) == toks
  {
    StripIsRedundant(Join(toks, " "));
    SplitJoin(toks);
  }
}
