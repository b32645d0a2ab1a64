/**
 * The JavaScript string built-ins the trainer relies on, over `string`
 * (a sequence of Unicode scalar values; JavaScript uses UTF-16 characters,
 * which agree with it on the ASCII text handled here): `split` on a one-character separator,
 * `Array.prototype.join`, `trim` and `toLowerCase`.
 */
module JsString {

  /** ECMAScript `WhiteSpace` and `LineTerminator` characters: what `trim` strips. */
  predicate IsWhiteSpace(c: char) {
    || c == '\t' || c == '\U{000B}' || c == '\U{000C}' || c == ' ' || c == '\U{00A0}'
    || c == '\U{FEFF}' || c == '\U{1680}' || ('\U{2000}' <= c <= '\U{200A}')
    || c == '\U{202F}' || c == '\U{205F}' || c == '\U{3000}'
    || c == '\n' || c == '\r' || c == '\U{2028}' || c == '\U{2029}'
  }

  predicate AllWhiteSpace(s: string) {
    forall i | 0 <= i < |s| :: IsWhiteSpace(s[i])
  }

  /** `s.split(sep)` for a one-character separator: the pieces between occurrences of `sep`. */
  function Split(s: string, sep: char): (pieces: seq<string>)
    ensures |pieces| > 0
    ensures forall i | 0 <= i < |pieces| :: sep !in pieces[i]
  {
    if s == [] then [""]
    else
      var rest := Split(s[1..], sep);
      if s[0] == sep then [""] + rest
      else [[s[0]] + rest[0]] + rest[1..]
  }

  /** `pieces.join(sep)`. */
  function Join(pieces: seq<string>, sep: string): string {
    if |pieces| == 0 then ""
    else if |pieces| == 1 then pieces[0]
    else pieces[0] + sep + Join(pieces[1..], sep)
  }

  /** Joining what `split` produced gives back the string. */
  lemma {:induction false} JoinSplit(s: string, sep: char)
    ensures Join(Split(s, sep), [sep]) == s
  {
    if s != [] {
      var rest := Split(s[1..], sep);
      JoinSplit(s[1..], sep);
      if s[0] == sep {
        assert Split(s, sep)[1..] == rest;
      } else if |rest| > 1 {
        var head := [s[0]] + rest[0];
        assert Split(s, sep)[1..] == rest[1..];
        calc {
          Join(Split(s, sep), [sep]);
          head + [sep] + Join(rest[1..], [sep]);
          [s[0]] + (rest[0] + [sep] + Join(rest[1..], [sep]));
          [s[0]] + Join(rest, [sep]);
        }
        assert s == [s[0]] + s[1..];
      } else {
        assert s == [s[0]] + s[1..];
      }
    }
  }

  /** Splitting a string that starts with a character other than the separator. */
  lemma SplitCons(c: char, u: string, sep: char)
    requires c != sep
    ensures var rest := Split(u, sep); Split([c] + u, sep) == [[c] + rest[0]] + rest[1..]
  {
    assert ([c] + u)[0] == c && ([c] + u)[1..] == u;
  }

  /** Splitting a string that starts with the separator. */
  lemma SplitConsSep(u: string, sep: char)
    ensures Split([sep] + u, sep) == [""] + Split(u, sep)
  {
    assert ([sep] + u)[0] == sep && ([sep] + u)[1..] == u;
  }

  lemma ConsHeadAppend(x: string, left: seq<string>, right: seq<string>)
    requires |left| > 0
    ensures var rest := left + right; [x + rest[0]] + rest[1..] == ([x + left[0]] + left[1..]) + right
  {
    var rest := left + right;
    assert rest[0] == left[0] && rest[1..] == left[1..] + right;
  }

  /** One step of `SplitConcat`: a first character in front of both sides. */
  lemma SplitConcatStep(c: char, u: string, sep: char, b: string)
    requires Split(u + [sep] + b, sep) == Split(u, sep) + Split(b, sep)
    ensures Split([c] + u + [sep] + b, sep) == Split([c] + u, sep) + Split(b, sep)
  {
    var w := u + [sep] + b;
    assert [c] + u + [sep] + b == [c] + w;
    if c == sep {
      SplitConsSep(w, sep);
      SplitConsSep(u, sep);
    } else {
      SplitCons(c, w, sep);
      SplitCons(c, u, sep);
      ConsHeadAppend([c], Split(u, sep), Split(b, sep));
    }
  }

  /** The separator splits a concatenation exactly where it was put. */
  lemma {:induction false} SplitConcat(a: string, sep: char, b: string)
    ensures Split(a + [sep] + b, sep) == Split(a, sep) + Split(b, sep)
  {
    if a == [] {
      assert a + [sep] + b == [sep] + b;
      SplitConsSep(b, sep);
    } else {
      SplitConcat(a[1..], sep, b);
      SplitConcatStep(a[0], a[1..], sep, b);
      assert a == [a[0]] + a[1..];
    }
  }

  /** A string without the separator is a single piece. */
  lemma {:induction false} SplitNoSep(g: string, sep: char)
    requires sep !in g
    ensures Split(g, sep) == [g]
  {
    if g != [] {
      assert sep !in g[1..];
      SplitNoSep(g[1..], sep);
      assert g == [g[0]] + g[1..];
    }
  }

  /** Splitting what `join` produced gives back the pieces, when no piece holds the separator. */
  lemma {:induction false} SplitJoin(pieces: seq<string>, sep: char)
    requires |pieces| > 0
    requires forall i | 0 <= i < |pieces| :: sep !in pieces[i]
    ensures Split(Join(pieces, [sep]), sep) == pieces
  {
    SplitNoSep(pieces[0], sep);
    if |pieces| > 1 {
      SplitJoin(pieces[1..], sep);
      SplitConcat(pieces[0], sep, Join(pieces[1..], [sep]));
      assert pieces == [pieces[0]] + pieces[1..];
    }
  }

  /** With an empty separator, `join` distributes over concatenation of the pieces. */
  lemma {:induction false} JoinEmptyAppend(a: seq<string>, b: seq<string>)
    ensures Join(a + b, "") == Join(a, "") + Join(b, "")
  {
    if a == [] {
      assert a + b == b;
    } else if |a| == 1 {
      if b != [] {
        assert (a + b)[1..] == b;
      }
    } else {
      assert (a + b)[1..] == a[1..] + b;
      JoinEmptyAppend(a[1..], b);
    }
  }

  /** How many white-space characters `s` starts with. */
  function LeadingWhiteSpace(s: string): (n: nat)
    ensures n <= |s|
    ensures n < |s| ==> !IsWhiteSpace(s[n])
  {
    if s != [] && IsWhiteSpace(s[0]) then 1 + LeadingWhiteSpace(s[1..]) else 0
  }

  /** How many white-space characters `s` ends with. */
  function TrailingWhiteSpace(s: string): (n: nat)
    ensures n <= |s|
    ensures n < |s| ==> !IsWhiteSpace(s[|s| - 1 - n])
  {
    if s != [] && IsWhiteSpace(s[|s| - 1]) then 1 + TrailingWhiteSpace(s[..|s| - 1]) else 0
  }

  /** What is left of `s` once a leading run of `i` and a trailing run of `j` characters are cut. */
  function Middle(s: string, i: nat, j: nat): string
    requires i + j <= |s|
  {
    s[i..][..|s| - i - j]
  }

  /** The facts `LeadingWhiteSpace` and `TrailingWhiteSpace` give about the runs `i` and `j`. */
  predicate Runs(s: string, i: nat, j: nat) {
    && i + j <= |s|
    && AllWhiteSpace(s[..i]) && (i < |s| ==> !IsWhiteSpace(s[i]))
    && AllWhiteSpace(s[|s| - j..]) && (i + j < |s| ==> !IsWhiteSpace(s[|s| - 1 - j]))
  }

  /** Cutting both runs leaves no white space at either end. */
  lemma MiddleEnds(s: string, i: nat, j: nat)
    requires Runs(s, i, j)
    ensures var r := Middle(s, i, j); r != [] ==> !IsWhiteSpace(r[0]) && !IsWhiteSpace(r[|r| - 1])
  {
    var r := Middle(s, i, j);
    if r != [] {
      assert r[0] == s[i];
      assert r[|r| - 1] == s[|s| - 1 - j];
    }
  }

  /** Cutting both runs removes only white space. */
  lemma MiddleCuts(s: string, i: nat, j: nat)
    requires Runs(s, i, j)
    ensures var r := Middle(s, i, j);
      i + |r| <= |s| && s[i..i + |r|] == r && AllWhiteSpace(s[..i]) && AllWhiteSpace(s[i + |r|..])
  {
    var r := Middle(s, i, j);
    assert s[i..i + |r|] == r;
    assert i + |r| == |s| - j;
  }

  lemma RunsOf(s: string, i: nat, j: nat)
    requires i == LeadingWhiteSpace(s) && j == TrailingWhiteSpace(s[i..])
    ensures Runs(s, i, j)
  {
    var t := s[i..];
    LeadingRun(s);
    TrailingRun(t);
    assert t[|t| - j..] == s[|s| - j..];
    if i + j < |s| {
      assert t[|t| - 1 - j] == s[|s| - 1 - j];
    }
  }

  /** The leading run is all white space. */
  lemma {:induction false} LeadingRun(s: string)
    ensures AllWhiteSpace(s[..LeadingWhiteSpace(s)])
  {
    if s != [] && IsWhiteSpace(s[0]) {
      LeadingRun(s[1..]);
      var n := LeadingWhiteSpace(s[1..]);
      assert s[..n + 1] == [s[0]] + s[1..][..n];
    }
  }

  /** The trailing run is all white space. */
  lemma {:induction false} TrailingRun(s: string)
    ensures AllWhiteSpace(s[|s| - TrailingWhiteSpace(s)..])
  {
    if s != [] && IsWhiteSpace(s[|s| - 1]) {
      var u := s[..|s| - 1];
      TrailingRun(u);
      var n := TrailingWhiteSpace(u);
      assert s[|s| - (n + 1)..] == u[|u| - n..] + [s[|s| - 1]];
    }
  }

  /** `s.trim()`: the part of `s` left once white space is dropped from both ends. */
  function Trim(s: string): (r: string)
    ensures r != [] ==> !IsWhiteSpace(r[0]) && !IsWhiteSpace(r[|r| - 1])
    ensures exists i | 0 <= i <= |s| - |r| ::
      s[i..i + |r|] == r && AllWhiteSpace(s[..i]) && AllWhiteSpace(s[i + |r|..])
  {
    var i := LeadingWhiteSpace(s);
    var j := TrailingWhiteSpace(s[i..]);
    RunsOf(s, i, j);
    MiddleEnds(s, i, j);
    MiddleCuts(s, i, j);
    Middle(s, i, j)
  }

  predicate NoWhiteSpace(s: string) {
    forall i | 0 <= i < |s| :: !IsWhiteSpace(s[i])
  }

  /** Joining white-space-free pieces with no separator gives a white-space-free string. */
  lemma {:induction false} JoinNoWhiteSpace(pieces: seq<string>)
    requires forall i | 0 <= i < |pieces| :: NoWhiteSpace(pieces[i])
    ensures NoWhiteSpace(Join(pieces, ""))
  {
    if |pieces| > 1 {
      JoinNoWhiteSpace(pieces[1..]);
      assert NoWhiteSpace(pieces[0]);
    }
  }

  /** A string with no white space at either end is its own trim. */
  lemma TrimNoEdges(s: string)
    requires s != [] ==> !IsWhiteSpace(s[0]) && !IsWhiteSpace(s[|s| - 1])
    ensures Trim(s) == s
  {
  }

  /** White space in front of a string adds to its leading run. */
  lemma {:induction false} LeadingAfterWhiteSpace(w: string, u: string)
    requires AllWhiteSpace(w)
    ensures LeadingWhiteSpace(w + u) == |w| + LeadingWhiteSpace(u)
  {
    if w != [] {
      assert (w + u)[0] == w[0];
      assert (w + u)[1..] == w[1..] + u;
      LeadingAfterWhiteSpace(w[1..], u);
    } else {
      assert w + u == u;
    }
  }

  /** White space behind a string adds to its trailing run. */
  lemma {:induction false} TrailingBeforeWhiteSpace(u: string, w: string)
    requires AllWhiteSpace(w)
    ensures TrailingWhiteSpace(u + w) == |w| + TrailingWhiteSpace(u)
  {
    if w != [] {
      assert (u + w)[|u + w| - 1] == w[|w| - 1];
      assert (u + w)[..|u + w| - 1] == u + w[..|w| - 1];
      TrailingBeforeWhiteSpace(u, w[..|w| - 1]);
    } else {
      assert u + w == u;
    }
  }

  /** The trim of `s`, given its leading run and the trailing run of what follows it. */
  lemma TrimBy(s: string, i: nat, j: nat)
    requires LeadingWhiteSpace(s) == i && TrailingWhiteSpace(s[i..]) == j
    ensures Trim(s) == Middle(s, i, j)
  {
  }

  /** Trimming drops exactly the white space around a string with no white space at its ends. */
  lemma TrimPadded(pre: string, t: string, post: string)
    requires AllWhiteSpace(pre) && AllWhiteSpace(post)
    requires t != [] ==> !IsWhiteSpace(t[0]) && !IsWhiteSpace(t[|t| - 1])
    ensures Trim(pre + t + post) == t
  {
    var s := pre + t + post;
    assert s == pre + (t + post);
    LeadingAfterWhiteSpace(pre, t + post);
    if t == [] {
      assert t + post == post + [];
      LeadingAfterWhiteSpace(post, []);
      assert s[|s|..] == [];
      TrimBy(s, |s|, 0);
    } else {
      assert LeadingWhiteSpace(t + post) == 0 by {
        assert (t + post)[0] == t[0];
      }
      assert s[|pre|..] == t + post;
      TrailingBeforeWhiteSpace(t, post);
      assert TrailingWhiteSpace(t) == 0;
      TrimBy(s, |pre|, |post|);
      assert Middle(s, |pre|, |post|) == t;
    }
  }

  lemma AllWhiteSpaceConcat(a: string, b: string)
    requires AllWhiteSpace(a) && AllWhiteSpace(b)
    ensures AllWhiteSpace(a + b)
  {
    assert forall i | |a| <= i < |a + b| :: (a + b)[i] == b[i - |a|];
  }

  lemma Cut(s: string, i: nat, n: nat)
    requires i + n <= |s|
    ensures s == s[..i] + s[i..i + n] + s[i + n..]
  {
  }

  lemma Regroup(pre: string, a: string, r: string, c: string, post: string)
    ensures pre + (a + r + c) + post == (pre + a) + r + (c + post)
  {
  }

  /** A string is its trim with white space on either side. */
  lemma TrimSplit(s: string) returns (a: string, c: string)
    ensures s == a + Trim(s) + c && AllWhiteSpace(a) && AllWhiteSpace(c)
  {
    var r := Trim(s);
    var i :| 0 <= i <= |s| - |r| && s[i..i + |r|] == r && AllWhiteSpace(s[..i]) && AllWhiteSpace(s[i + |r|..]);
    a, c := s[..i], s[i + |r|..];
    Cut(s, i, |r|);
  }

  /** Adding white space around a string does not change its trim. */
  lemma TrimIgnoresPadding(pre: string, s: string, post: string)
    requires AllWhiteSpace(pre) && AllWhiteSpace(post)
    ensures Trim(pre + s + post) == Trim(s)
  {
    var a, c := TrimSplit(s);
    AllWhiteSpaceConcat(pre, a);
    AllWhiteSpaceConcat(c, post);
    Regroup(pre, a, Trim(s), c, post);
    TrimPadded(pre + a, Trim(s), c + post);
  }

  /** `String.prototype.toLowerCase` on one character, for the ASCII letters. */
  function LowerChar(c: char): (d: char)
    ensures 'A' <= c <= 'Z' ==> 'a' <= d <= 'z' && d as int - c as int == 32
    ensures !('A' <= c <= 'Z') ==> d == c
  {
    if 'A' <= c <= 'Z' then (c as int + 32) as char else c
  }

  /** `s.toLowerCase()`, one character at a time. */
  function ToLower(s: string): (r: string)
    ensures |r| == |s|
    ensures forall i | 0 <= i < |s| :: r[i] == LowerChar(s[i])
  {
    if s == [] then [] else [LowerChar(s[0])] + ToLower(s[1..])
  }
}
