/**
 * Character classes and the string operations the formatter relies on:
 * dropping line breaks while scanning, skipping whitespace after a tag,
 * splitting at the first occurrence of a character, and Java's `String.trim`.
 */
module Text {

  /** `findNext` treats exactly these two characters as line breaks. */
  predicate IsLineBreak(c: char) {
    c == '\n' || c == '\r'
  }

  /**
   * Java's `Character.isWhitespace` as of Java 9 (Unicode 6.3 and later):
   * the space separators other than the non-breaking ones (U+00A0, U+2007,
   * U+202F), the line and paragraph separators, and the controls
   * U+0009..U+000D and U+001C..U+001F. Java 8 (Unicode 6.2) also counts
   * U+180E, which this set leaves out.
   */
  predicate IsWhitespace(c: char) {
    || c == ' '
    || '\t' <= c <= '\r'
    || '\U{001C}' <= c <= '\U{001F}'
    || c == '\U{1680}'
    || '\U{2000}' <= c <= '\U{2006}'
    || '\U{2008}' <= c <= '\U{200A}'
    || c == '\U{2028}' || c == '\U{2029}'
    || c == '\U{205F}' || c == '\U{3000}'
  }

  /** `s` with every line break removed, the order of the rest kept. */
  function StripBreaks(s: string): (r: string)
    ensures |r| <= |s|
  {
    if s == [] then [] else (if IsLineBreak(s[0]) then [] else [s[0]]) + StripBreaks(s[1..])
  }

  /** No line break survives stripping. */
  lemma {:induction false} StripBreaksNone(s: string)
    ensures forall i :: 0 <= i < |StripBreaks(s)| ==> !IsLineBreak(StripBreaks(s)[i])
  {
    if s != [] {
      StripBreaksNone(s[1..]);
    }
  }

  /** Stripping a string that starts with `x`. */
  lemma StripBreaksCons(x: char, w: string)
    ensures StripBreaks([x] + w) == (if IsLineBreak(x) then [] else [x]) + StripBreaks(w)
  {
    assert ([x] + w)[1..] == w;
  }

  /** Stripping distributes over concatenation, so it can be done piecewise. */
  lemma {:induction false} StripBreaksAppend(a: string, b: string)
    ensures StripBreaks(a + b) == StripBreaks(a) + StripBreaks(b)
  {
    if a == [] {
      assert a + b == b;
    } else {
      var x := if IsLineBreak(a[0]) then [] else [a[0]];
      assert a + b == [a[0]] + (a[1..] + b);
      calc {
        StripBreaks(a + b);
        { StripBreaksCons(a[0], a[1..] + b); }
        x + StripBreaks(a[1..] + b);
        { StripBreaksAppend(a[1..], b); }
        x + (StripBreaks(a[1..]) + StripBreaks(b));
        (x + StripBreaks(a[1..])) + StripBreaks(b);
      }
    }
  }

  /** Text without line breaks passes through unchanged. */
  lemma {:induction false} StripBreaksKeeps(s: string)
    requires forall i :: 0 <= i < |s| ==> !IsLineBreak(s[i])
    ensures StripBreaks(s) == s
  {
    if s != [] {
      assert !IsLineBreak(s[0]);
      StripBreaksKeeps(s[1..]);
      assert s == [s[0]] + s[1..];
    }
  }

  /** The text of `s` before its first `c` (all of `s` when there is none). */
  function Before(s: string, c: char): (r: string)
    ensures |r| <= |s|
  {
    if s == [] || s[0] == c then [] else [s[0]] + Before(s[1..], c)
  }

  /** The text of `s` from its first `c` on (empty when there is none). */
  function From(s: string, c: char): (r: string)
    ensures |r| <= |s|
  {
    if s == [] || s[0] == c then s else From(s[1..], c)
  }

  /**
   * `Before` and `From` split `s` at its first `c`: the two parts make up
   * `s`, the first holds no `c`, and the second starts with `c` exactly when
   * `s` holds one.
   */
  lemma {:induction false} SplitAtFirst(s: string, c: char)
    ensures Before(s, c) + From(s, c) == s
    ensures c !in Before(s, c)
    ensures c in s <==> From(s, c) != []
    ensures From(s, c) != [] ==> From(s, c)[0] == c
  {
    if s != [] && s[0] != c {
      SplitAtFirst(s[1..], c);
      assert s == [s[0]] + s[1..];
    }
  }

  /** The split is unique: any `p + q` with no `c` in `p` and `q` starting with `c` is it. */
  lemma {:induction false} SplitAtFirstUnique(p: string, q: string, c: char)
    requires c !in p && q != [] && q[0] == c
    ensures Before(p + q, c) == p && From(p + q, c) == q
  {
    if p == [] {
      assert p + q == q;
    } else {
      assert (p + q)[1..] == p[1..] + q;
      SplitAtFirstUnique(p[1..], q, c);
    }
  }

  /** Looking past a character other than `c`. */
  lemma SplitCons(x: char, u: string, c: char)
    requires x != c
    ensures Before([x] + u, c) == [x] + Before(u, c)
    ensures From([x] + u, c) == From(u, c)
  {
    assert ([x] + u)[1..] == u;
  }

  /** The suffix of `s` that starts at its first non-whitespace character. */
  function SkipSpace(s: string): (r: string)
    ensures |r| <= |s| && r == s[|s| - |r|..]
    ensures r == [] || !IsWhitespace(r[0])
    ensures forall i :: 0 <= i < |s| - |r| ==> IsWhitespace(s[i])
  {
    if s != [] && IsWhitespace(s[0]) then SkipSpace(s[1..]) else s
  }

  /** `String.trim` removes every character up to U+0020 from both ends. */
  predicate IsTrimmed(c: char) {
    c <= ' '
  }

  /** `s` without its leading characters up to U+0020. */
  function TrimStart(s: string): (r: string)
    ensures |r| <= |s| && r == s[|s| - |r|..]
    ensures r == [] || !IsTrimmed(r[0])
    ensures forall i :: 0 <= i < |s| - |r| ==> IsTrimmed(s[i])
  {
    if s != [] && IsTrimmed(s[0]) then TrimStart(s[1..]) else s
  }

  /** `s` without its trailing characters up to U+0020. */
  function TrimEnd(s: string): (r: string)
    ensures |r| <= |s| && r == s[..|r|]
    ensures r == [] || !IsTrimmed(r[|r| - 1])
    ensures forall i :: |r| <= i < |s| ==> IsTrimmed(s[i])
  {
    if s != [] && IsTrimmed(s[|s| - 1]) then TrimEnd(s[..|s| - 1]) else s
  }

  /** Java's `String.trim`. */
  function Trim(s: string): (r: string)
    ensures r == [] || (!IsTrimmed(r[0]) && !IsTrimmed(r[|r| - 1]))
    ensures r == [] <==> forall i :: 0 <= i < |s| ==> IsTrimmed(s[i])
    ensures (s == [] || (!IsTrimmed(s[0]) && !IsTrimmed(s[|s| - 1]))) ==> r == s
  {
    var t := TrimStart(s);
    if t == [] then
      []
    else
      var r := TrimEnd(t);
      assert r != [] by {
        assert !IsTrimmed(t[0]);
      }
      assert !IsTrimmed(s[|s| - |t|]);
      r
  }

  /**
   * `Trim(s)` is the middle of `s`: it is `s` read from the first character
   * above U+0020 on, and everything `s` holds before and after it is up to
   * U+0020.
   */
  lemma TrimIsMiddle(s: string)
    ensures var r := Trim(s);
            var a := |s| - |TrimStart(s)|;
            && a + |r| <= |s|
            && (forall i :: 0 <= i < |r| ==> r[i] == s[a + i])
            && (forall i :: 0 <= i < a ==> IsTrimmed(s[i]))
            && (forall i :: a + |r| <= i < |s| ==> IsTrimmed(s[i]))
  {
    var t := TrimStart(s);
    var r := TrimEnd(t);
    assert Trim(s) == r;
    MiddleOf(s, t, r);
  }

  /** A prefix `r` of a suffix `t` of `s`, with a blank rest of `t`, sits in `s` before a blank tail. */
  lemma MiddleOf(s: string, t: string, r: string)
    requires |t| <= |s| && t == s[|s| - |t|..]
    requires |r| <= |t| && r == t[..|r|]
    requires forall i :: |r| <= i < |t| ==> IsTrimmed(t[i])
    ensures var a := |s| - |t|;
            && (forall i :: 0 <= i < |r| ==> r[i] == s[a + i])
            && (forall i :: a + |r| <= i < |s| ==> IsTrimmed(s[i]))
  {
    var a := |s| - |t|;
    forall i | a + |r| <= i < |s|
      ensures IsTrimmed(s[i])
    {
      assert s[i] == t[i - a];
    }
  }

  /** Trimming twice is trimming once. */
  lemma TrimIdempotent(s: string)
    ensures Trim(Trim(s)) == Trim(s)
  {
  }
}
