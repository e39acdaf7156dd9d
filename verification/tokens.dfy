/**
 * Tags as the formatting loop sees them. A tag is read by `findNext('>')`,
 * `step(true)` and `getText()` with the lexer standing on a `<`; `Token` and
 * `AfterToken` say what that produces from the text still unread, and
 * `ReadTag` is the sequence of calls itself.
 */
module Tokens {
  import opened Text
  import opened Lexer

  /**
   * The tag read from `s`: the text up to the first `>` with its line breaks
   * dropped, then the `>` itself.
   */
  function Token(s: string): (t: string)
    requires '>' in s
    ensures |t| >= 1 && t[|t| - 1] == '>'
  {
    StripBreaks(Before(s, '>')) + ">"
  }

  /** What is left unread after the tag: the text past the first `>`, leading whitespace skipped. */
  function AfterToken(s: string): (r: string)
    requires '>' in s
    ensures |r| < |s|
    ensures r == [] || !IsWhitespace(r[0])
  {
    SplitAtFirst(s, '>');
    SkipSpace(From(s, '>')[1..])
  }

  /**
   * A tag read with the lexer on a `<` starts with `<`, ends with its only
   * `>`, and holds no line break.
   */
  lemma TokenShape(s: string)
    requires s != [] && s[0] == '<' && '>' in s
    ensures var t := Token(s);
            && |t| >= 2 && t[0] == '<' && t[|t| - 1] == '>'
            && '>' !in t[..|t| - 1]
            && forall i :: 0 <= i < |t| ==> !IsLineBreak(t[i])
  {
    SplitAtFirst(s, '>');
    var b := Before(s, '>');
    assert b == [s[0]] + Before(s[1..], '>');
    StripBreaksCons(s[0], Before(s[1..], '>'));
    StripBreaksNone(b);
    var t := Token(s);
    assert t[..|t| - 1] == StripBreaks(b);
    assert '>' !in StripBreaks(b) by {
      StripBreaksOnlyDrops(b, '>');
    }
  }

  /**
   * Reading gives back a tag as written: a tag with no line break and no
   * `>` before its last character is read whole, and reading goes on at the
   * first non-whitespace character after it.
   */
  lemma TokenRoundTrip(t: string, rest: string)
    requires |t| >= 2 && t[0] == '<' && t[|t| - 1] == '>'
    requires forall i :: 0 <= i < |t| - 1 ==> t[i] != '>' && !IsLineBreak(t[i])
    ensures '>' in t + rest
    ensures Token(t + rest) == t && AfterToken(t + rest) == SkipSpace(rest)
  {
    var body := t[..|t| - 1];
    var tail := ['>'] + rest;
    assert t == body + ['>'];
    assert t + rest == body + tail;
    SplitAtFirstUnique(body, tail, '>');
    StripBreaksKeeps(body);
    assert tail[1..] == rest;
  }

  /** Stripping line breaks adds no character that was not there. */
  lemma {:induction false} StripBreaksOnlyDrops(s: string, c: char)
    requires c !in s
    ensures c !in StripBreaks(s)
  {
    if s != [] {
      assert c !in s[1..];
      StripBreaksOnlyDrops(s[1..], c);
    }
  }

  /** A close tag, `</...>`. */
  predicate IsClose(t: string)
    requires |t| >= 2
  {
    t[1] == '/'
  }

  /** An empty-element tag `<.../>` or a declaration `<?...>`. */
  predicate IsEmptyOrDecl(t: string)
    requires |t| >= 2
  {
    t[|t| - 2] == '/' || t[1] == '?'
  }

  /**
   * The match check between a start tag and the tag that ends it: the text
   * of `close` between its second character and its final one must be a
   * prefix of the text of `open` after its `<`.
   */
  predicate NamesMatch(open: string, close: string)
    requires |open| >= 1 && |close| >= 3
  {
    close[2..|close| - 1] <= open[1..]
  }

  /**
   * The check is a prefix test, not an equality: `</a>` closes `<ab>` and
   * `<a x="1">`, and `</>` closes anything.
   */
  lemma NamesMatchIsPrefix(open: string, close: string)
    requires |open| >= 1 && |close| >= 3
    ensures var name := close[2..|close| - 1];
            NamesMatch(open, close) <==> |name| < |open| && open[1..|name| + 1] == name
  {
  }

  /** The prefix test lets through close tags that name another element, and `</>` closes every tag. */
  lemma NamesMatchLoose()
    ensures NamesMatch("<ab>", "</a>")
    ensures NamesMatch("<a x=\"1\">", "</a>")
    ensures !NamesMatch("<a>", "</ab>")
    ensures forall t: string :: |t| >= 1 ==> NamesMatch(t, "</>")
  {
    assert "</ab>"[2..4] == "ab" && "<a>"[1..] == "a>";
    assert !("ab" <= "a>") by {
      assert "ab"[1] != "a>"[1];
    }
  }

  /**
   * Reads one tag, as lines 69-71 and 106-108 do: scan to the `>`, take it
   * and skip the whitespace after it, then hand out the accumulated text.
   */
  method ReadTag(buff: Buffer) returns (tag: string)
    requires buff.Valid() && buff.sb == [] && '>' in buff.Rest()
    modifies buff
    ensures buff.Valid() && buff.sb == []
    ensures tag == Token(old(buff.Rest()))
    ensures buff.Rest() == AfterToken(old(buff.Rest()))
  {
    ghost var s := buff.Rest();
    SplitAtFirst(s, '>');
    buff.FindNext('>');
    ghost var text := buff.sb;
    assert text == StripBreaks(Before(s, '>'));
    assert buff.Rest() == From(s, '>') && buff.Rest()[0] == '>';
    buff.Step(true);
    assert buff.sb == text + ['>'];
    tag := buff.GetText();
  }

  /**
   * Reads the next tag, as lines 67-71 do: drop the text before the next
   * `<`, then read the tag that starts there.
   */
  method NextTag(buff: Buffer) returns (tag: string)
    requires buff.Valid() && buff.sb == [] && '<' in buff.Rest() && '>' in From(buff.Rest(), '<')
    modifies buff
    ensures buff.Valid() && buff.sb == []
    ensures tag == Token(From(old(buff.Rest()), '<'))
    ensures buff.Rest() == AfterToken(From(old(buff.Rest()), '<'))
  {
    buff.FindNext('<');
    var _ := buff.GetText();
    tag := ReadTag(buff);
  }

  /**
   * Reads the text before the next `<`, as lines 104-105 do: scan to the `<`
   * and hand out the text gathered on the way, line breaks dropped.
   */
  method ReadText(buff: Buffer) returns (text: string)
    requires buff.Valid() && buff.sb == [] && '<' in buff.Rest()
    modifies buff
    ensures buff.Valid() && buff.sb == []
    ensures text == StripBreaks(Before(old(buff.Rest()), '<'))
    ensures buff.Rest() == From(old(buff.Rest()), '<')
  {
    buff.FindNext('<');
    text := buff.GetText();
  }
}
