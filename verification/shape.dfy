/**
 * What the formatting loop keeps true from turn to turn. The indentation
 * level is the depth of the tag stack. The unwritten buffer `output` holds
 * exactly the lines of the start tags opened since the last write, each at
 * the indentation of its depth, and the last of them is `lastStartTag`.
 * From this follow the fusion of `<t></t>` into `<t/>`, the placement of
 * close tags, and that nothing buffered is lost at the end of the input.
 */
module Shape {
  import opened Wrappers
  import opened Text
  import opened Tokens
  import opened Formatter

  /** A tag as the loop reads it: it starts with `<` and ends with `>`. */
  predicate IsTag(t: string) {
    |t| >= 2 && t[0] == '<' && t[|t| - 1] == '>'
  }

  /** The lines of the top `p` tags of the stack `tags`, each indented by the depth below it. */
  function Pending(tags: seq<string>, p: nat): (r: string)
    requires p <= |tags|
    ensures p == 0 <==> r == []
    decreases p
  {
    if p == 0 then []
    else
      var n := |tags|;
      Pending(tags[..n - 1], p - 1) + Indent(n - 1) + tags[n - 1] + "\n"
  }

  /**
   * The loop's variables are in shape with `p` start tags pending: the level
   * is the stack depth, the buffer holds the lines of the top `p` tags, a last
   * start tag is remembered exactly when some are pending and it is then the
   * top of the stack, and every tag on the stack is a tag.
   */
  predicate Shaped(st: State, p: nat) {
    && st.indentLevel == |st.tags|
    && p <= |st.tags|
    && (st.lastStartTag.Some? <==> p > 0)
    && (p > 0 ==> st.lastStartTag.value == st.tags[|st.tags| - 1])
    && st.output == Pending(st.tags, p)
    && forall i :: 0 <= i < |st.tags| ==> IsTag(st.tags[i])
  }

  /** The loop starts in shape, with nothing pending. */
  lemma StartShaped()
    ensures Shaped(State([], 0, None, [], []), 0)
  {
  }

  /** Pushing a tag and buffering its line adds one pending line. */
  lemma PendingPush(tags: seq<string>, p: nat, tag: string)
    requires p <= |tags|
    ensures Pending(tags + [tag], p + 1) == Pending(tags, p) + Indent(|tags|) + tag + "\n"
  {
    assert (tags + [tag])[..|tags|] == tags;
  }

  /**
   * A close tag, in a shaped state: with an empty stack the pop fails; a
   * close tag that does not match the top of the stack stops the run and
   * names both tags; a matching one is written on its own line at the
   * indentation of its start tag, or, when that start tag is still pending,
   * turns its line into an empty-element tag `<t/>`. Either way the stack is
   * popped and everything buffered is written.
   */
  lemma CloseInShape(rest: string, st: State, p: nat, tag: string)
    requires Shaped(st, p) && |tag| >= 3
    ensures var t := CloseStep(rest, st, tag);
            var n := |st.tags|;
            && (n == 0 ==> t == Stop(Crashed))
            && (n > 0 && !NamesMatch(st.tags[n - 1], tag) ==>
                  t == Stop(Mismatched(st.written, Mismatch(st.tags[n - 1], tag))))
            && (n > 0 && NamesMatch(st.tags[n - 1], tag) && p == 0 ==>
                  t == Go(rest, State(st.tags[..n - 1], n - 1, None, [],
                                      st.written + (Indent(n - 1) + tag + "\n"))))
            && (n > 0 && NamesMatch(st.tags[n - 1], tag) && p > 0 ==>
                  var top := st.tags[n - 1];
                  t == Go(rest, State(st.tags[..n - 1], n - 1, None, [],
                                      st.written + (Pending(st.tags[..n - 1], p - 1) + Indent(n - 1)
                                                    + top[..|top| - 1] + "/>" + "\n"))))
  {
    var n := |st.tags|;
    if n > 0 {
      assert IsTag(st.tags[n - 1]);
      if NamesMatch(st.tags[n - 1], tag) && p > 0 {
        FuseInShape(rest, st, p, tag);
      }
    }
  }

  /** The fusing case of `CloseInShape`: the pending line of the matched start tag becomes `<t/>`. */
  lemma FuseInShape(rest: string, st: State, p: nat, tag: string)
    requires Shaped(st, p) && |tag| >= 3 && p > 0
    requires NamesMatch(st.tags[|st.tags| - 1], tag)
    ensures var n := |st.tags|;
            var top := st.tags[n - 1];
            CloseStep(rest, st, tag)
            == Go(rest, State(st.tags[..n - 1], n - 1, None, [],
                              st.written + (Pending(st.tags[..n - 1], p - 1) + Indent(n - 1)
                                            + top[..|top| - 1] + "/>" + "\n")))
  {
    var n := |st.tags|;
    var top := st.tags[n - 1];
    assert IsTag(top);
    var below := Pending(st.tags[..n - 1], p - 1) + Indent(n - 1);
    assert st.output == below + top + "\n";
    FuseLine(below, top);
    var popped := State(st.tags[..n - 1], st.indentLevel - 1, st.lastStartTag, st.output, st.written);
    assert CloseStep(rest, st, tag) == Go(rest, Flush(popped, Fuse(st.output, top)));
  }

  /**
   * An empty-element tag or a declaration, in a shaped state, is written on
   * its own line at the current depth, after the pending lines; the stack
   * and the depth stay as they were.
   */
  lemma EmptyTagInShape(rest: string, st: State, p: nat, tag: string, unescape: string -> string)
    requires Shaped(st, p) && IsTag(tag) && !IsClose(tag) && IsEmptyOrDecl(tag)
    ensures TagStep(rest, st, tag, unescape)
         == Go(rest, State(st.tags, |st.tags|, None, [],
                           st.written + (Pending(st.tags, p) + Indent(|st.tags|) + tag + "\n")))
  {
  }

  /**
   * A start tag followed by text, in a shaped state: when the run goes on,
   * the end tag after the text passed the match check, and one line is
   * written after the pending lines, at the current depth, holding the start
   * tag, the decoded trimmed text and the end tag; the stack and the depth
   * stay as they were.
   */
  lemma LeafInShape(rest: string, st: State, p: nat, tag: string, unescape: string -> string)
    requires Shaped(st, p) && IsTag(tag) && rest != [] && rest[0] != '<'
    ensures var t := OpenStep(rest, st, tag, unescape);
            t.Go? ==>
              && '<' in rest && '>' in From(rest, '<')
              && var endTag := Token(From(rest, '<'));
                 var content := unescape(Trim(StripBreaks(Before(rest, '<'))));
                 && |endTag| >= 3 && NamesMatch(tag, endTag)
                 && t == Go(AfterToken(From(rest, '<')),
                            State(st.tags, |st.tags|, None, [],
                                  st.written + (Pending(st.tags, p) + Indent(|st.tags|) + tag + content + endTag + "\n")))
  {
  }

  /**
   * Fusing cuts off exactly the line of the last start tag and its line
   * break, and puts the tag back with `/>` in place of its `>`.
   */
  lemma FuseLine(below: string, last: string)
    requires |last| >= 1
    ensures Fuse(below + last + "\n", last) == below + last[..|last| - 1] + "/>" + "\n"
  {
    var out := below + last + "\n";
    assert out[..|out| - |last| - 1] == below;
  }

  /**
   * A close tag that gets through pops the stack, lowers the level and writes
   * everything buffered; a mismatch stops with the text written before it.
   */
  lemma CloseCases(rest: string, st: State, tag: string)
    requires |tag| >= 3
    ensures var t := CloseStep(rest, st, tag);
            && (t.Stop? && t.outcome.Mismatched? ==> t.outcome.written == st.written)
            && (t.Go? ==> && |st.tags| > 0 && t.st.tags == st.tags[..|st.tags| - 1]
                          && t.st.indentLevel == st.indentLevel - 1
                          && t.st.lastStartTag.None? && t.st.output == [] && st.written <= t.st.written)
  {
  }

  /**
   * A start tag is either pushed and buffered, with a `<` next, or it ends
   * up on one line with its text and end tag, written with everything
   * buffered; a mismatch stops with the text written before it.
   */
  lemma OpenCases(rest: string, st: State, tag: string, unescape: string -> string)
    requires |tag| >= 1
    ensures var t := OpenStep(rest, st, tag, unescape);
            && (t.Stop? && t.outcome.Mismatched? ==> t.outcome.written == st.written)
            && (t.Go? && t.st.lastStartTag.Some? ==>
                  && t.st == State(st.tags + [tag], st.indentLevel + 1, Some(tag),
                                   st.output + Indent(st.indentLevel) + tag + "\n", st.written)
                  && t.rest == rest && rest != [] && rest[0] == '<')
            && (t.Go? && t.st.lastStartTag.None? ==>
                  && t.st.tags == st.tags && t.st.indentLevel == st.indentLevel
                  && t.st.output == [] && st.written <= t.st.written)
  {
  }

  /** What acting on one tag does to the loop's variables (see `IterationCases`). */
  lemma TagCases(rest: string, st: State, tag: string, unescape: string -> string)
    requires |tag| >= 2 && tag[0] == '<' && tag[|tag| - 1] == '>'
    ensures var t := TagStep(rest, st, tag, unescape);
            && (t.Stop? && t.outcome.Mismatched? ==> t.outcome.written == st.written)
            && (t.Go? && t.st.lastStartTag.Some? ==>
                  var pushed := t.st.lastStartTag.value;
                  && IsTag(pushed)
                  && t.st == State(st.tags + [pushed], st.indentLevel + 1, Some(pushed),
                                   st.output + Indent(st.indentLevel) + pushed + "\n", st.written)
                  && t.rest != [] && t.rest[0] == '<')
            && (t.Go? && t.st.lastStartTag.None? ==>
                  && t.st.output == [] && st.written <= t.st.written
                  && ((t.st.tags == st.tags && t.st.indentLevel == st.indentLevel)
                      || (|st.tags| > 0 && t.st.tags == st.tags[..|st.tags| - 1]
                          && t.st.indentLevel == st.indentLevel - 1)))
  {
    if IsClose(tag) {
      CloseCases(rest, st, tag);
    } else if !IsEmptyOrDecl(tag) {
      OpenCases(rest, st, tag, unescape);
    }
  }

  /**
   * What one turn does to the loop's variables. Either a start tag is
   * pushed and its line buffered, and a `<` comes next; or everything
   * buffered is written, the last start tag is forgotten, and the stack is
   * kept or popped. A mismatch stops with the text written before it.
   */
  lemma IterationCases(r: string, st: State, unescape: string -> string)
    requires r != []
    ensures var t := Iteration(r, st, unescape);
            && (t.Stop? && t.outcome.Mismatched? ==> t.outcome.written == st.written)
            && (t.Go? && t.st.lastStartTag.Some? ==>
                  var pushed := t.st.lastStartTag.value;
                  && IsTag(pushed)
                  && t.st == State(st.tags + [pushed], st.indentLevel + 1, Some(pushed),
                                   st.output + Indent(st.indentLevel) + pushed + "\n", st.written)
                  && t.rest != [] && t.rest[0] == '<')
            && (t.Go? && t.st.lastStartTag.None? ==>
                  && t.st.output == [] && st.written <= t.st.written
                  && ((t.st.tags == st.tags && t.st.indentLevel == st.indentLevel)
                      || (|st.tags| > 0 && t.st.tags == st.tags[..|st.tags| - 1]
                          && t.st.indentLevel == st.indentLevel - 1)))
  {
    if '<' in r {
      SplitAtFirst(r, '<');
      var s := From(r, '<');
      if '>' in s {
        TokenShape(s);
        TagCases(AfterToken(s), st, Token(s), unescape);
      }
    }
  }

  /** One turn keeps the loop in shape; a start tag followed by a tag adds a pending line, every other turn writes them all. */
  lemma IterationKeepsShape(r: string, st: State, p: nat, unescape: string -> string)
    requires r != [] && Shaped(st, p)
    ensures var t := Iteration(r, st, unescape);
            t.Go? ==> Shaped(t.st, if t.st.lastStartTag.Some? then p + 1 else 0)
  {
    IterationCases(r, st, unescape);
    var t := Iteration(r, st, unescape);
    if t.Go? && t.st.lastStartTag.Some? {
      var tag := t.st.lastStartTag.value;
      PendingPush(st.tags, p, tag);
      var tags' := st.tags + [tag];
      assert forall i :: 0 <= i < |tags'| ==> IsTag(tags'[i]) by {
        forall i | 0 <= i < |tags'|
          ensures IsTag(tags'[i])
        {
          if i < |st.tags| {
            assert tags'[i] == st.tags[i];
          }
        }
      }
    }
  }

  /** The file is only ever appended to: a run that does not crash keeps what was written before it. */
  lemma {:induction false} FormatAppends(r: string, st: State, unescape: string -> string)
    ensures var o := FormatFrom(r, st, unescape);
            !o.Crashed? ==> st.written <= o.written
    decreases |r|
  {
    if r != [] {
      IterationCases(r, st, unescape);
      var t := Iteration(r, st, unescape);
      if t.Go? {
        FormatAppends(t.rest, t.st, unescape);
      }
    }
  }

  /**
   * Along a whole run the loop stays in shape, and when the input is used up
   * no start tag is pending: the final state of a finished run has an empty
   * buffer and no remembered start tag.
   */
  lemma {:induction false} RunStaysShaped(r: string, st: State, p: nat, unescape: string -> string)
    requires Shaped(st, p) && (r == [] ==> p == 0)
    ensures FinalState(r, st, unescape).Some? ==>
              var fin := FinalState(r, st, unescape).value;
              Shaped(fin, 0) && fin.output == [] && fin.lastStartTag.None?
    decreases |r|
  {
    if r != [] {
      IterationKeepsShape(r, st, p, unescape);
      IterationCases(r, st, unescape);
      var t := Iteration(r, st, unescape);
      if t.Go? {
        var p' := if t.st.lastStartTag.Some? then p + 1 else 0;
        RunStaysShaped(t.rest, t.st, p', unescape);
      }
    }
  }

  /** The state a run ends in when the input is used up, or `None` when it stops before. */
  function FinalState(r: string, st: State, unescape: string -> string): (fin: Option<State>)
    ensures fin.Some? <==> FormatFrom(r, st, unescape).Formatted?
    ensures fin.Some? ==> FormatFrom(r, st, unescape) == Formatted(fin.value.written)
    decreases |r|
  {
    if r == [] then Some(st)
    else
      match Iteration(r, st, unescape)
      case Go(rest, st') => FinalState(rest, st', unescape)
      case Stop(_) => None
  }
}
