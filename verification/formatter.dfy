/**
 * The formatting loop of `FormatXML.run`. It reads one tag per turn and
 * classifies it as a close tag, an empty-element tag or declaration, or a
 * start tag. It keeps a stack of open tags, an indentation level, and a
 * buffer `output` of lines not yet written. A start tag followed by a tag is
 * held back in that buffer, so that an immediately following matching close
 * tag can fuse with it into `<t/>`. A start tag followed by text becomes one
 * line holding the start tag, the trimmed text and the end tag.
 *
 * `Iteration` is one turn of the loop over the text not yet read and `FormatFrom`
 * runs it to the end. `Loop.Run` is the loop itself, written over a `Buffer`, and
 * is proved to produce what `Format` says for the concatenated input.
 */
module Formatter {
  import opened Wrappers
  import opened Text
  import opened Lexer
  import opened Tokens

  /** One level of indentation (`INDENT`). */
  const IndentUnit := "  "

  /** `indent(n)`: `n` copies of `IndentUnit`, and nothing when `n` is not positive. */
  function Indent(n: int): (r: string)
    ensures |r| == if n <= 0 then 0 else 2 * n
    ensures forall i :: 0 <= i < |r| ==> r[i] == ' '
    decreases n
  {
    if n <= 0 then [] else IndentUnit + Indent(n - 1)
  }

  /** The start and end tag named by the `IllegalStateException` of lines 75 and 110. */
  datatype Mismatch = Mismatch(open: string, close: string)

  /** How a run ends, with what has been written to the output file by then. */
  datatype Outcome =
    | Formatted(written: string)
    | Mismatched(written: string, mismatch: Mismatch)
    | Crashed

  /**
   * The loop's variables: the stack `tags`, `indentLevel`, `lastStartTag`,
   * the unwritten `output`, and the text `written` to the file so far.
   */
  datatype State = State(tags: seq<string>, indentLevel: int, lastStartTag: Option<string>,
                         output: string, written: string)

  /** The result of one turn of the loop: go on with the text left and the new state, or stop. */
  datatype Turn = Go(rest: string, st: State) | Stop(outcome: Outcome)

  /** Writes `out`, the buffered output with this turn's line appended, and forgets the last start tag. */
  function Flush(st: State, out: string): State {
    State(st.tags, st.indentLevel, None, [], st.written + out)
  }

  /** `output` after `<last>` is fused with its end tag: the line of `last` ends in `/>` instead. */
  function Fuse(output: string, last: string): string
    requires 1 <= |last| && |last| + 1 <= |output|
  {
    output[..|output| - |last| - 1] + last[..|last| - 1] + "/>" + "\n"
  }

  /** Lines 72-92: the tag just read, `tag`, is a close tag; `rest` is the text after it. */
  function CloseStep(rest: string, st: State, tag: string): (t: Turn)
    requires |tag| >= 3
    ensures t.Go? ==> t.rest == rest
  {
    if st.tags == [] then Stop(Crashed)
    else
      var other := st.tags[|st.tags| - 1];
      if other == [] then Stop(Crashed)
      else if !NamesMatch(other, tag) then Stop(Mismatched(st.written, Mismatch(other, tag)))
      else
        var popped := State(st.tags[..|st.tags| - 1], st.indentLevel - 1, st.lastStartTag, st.output, st.written);
        match st.lastStartTag
        case Some(last) =>
          if last == [] then Stop(Crashed)
          else if !NamesMatch(last, tag) then Go(rest, Flush(popped, st.output + Indent(popped.indentLevel) + tag + "\n"))
          else if |st.output| < |last| + 1 then Stop(Crashed)
          else Go(rest, Flush(popped, Fuse(st.output, last)))
        case None =>
          Go(rest, Flush(popped, st.output + Indent(popped.indentLevel) + tag + "\n"))
  }

  /**
   * Lines 103-120: the start tag `tag` is followed by text, in `rest`; the
   * text and the end tag after it are read, and the element becomes one line.
   */
  function LeafStep(rest: string, st: State, tag: string, unescape: string -> string): (t: Turn)
    requires |tag| >= 1
    ensures t.Go? ==> |t.rest| < |rest|
  {
    if '<' !in rest then Stop(Crashed)
    else
      var content := unescape(Trim(StripBreaks(Before(rest, '<'))));
      var more := From(rest, '<');
      if '>' !in more then Stop(Crashed)
      else
        var endTag := Token(more);
        if |endTag| < 3 then Stop(Crashed)
        else if !NamesMatch(tag, endTag) then Stop(Mismatched(st.written, Mismatch(tag, endTag)))
        else Go(AfterToken(more), Flush(st, st.output + Indent(st.indentLevel) + tag + content + endTag + "\n"))
  }

  /** Lines 101-127: the tag just read, `tag`, is a start tag; `rest` is the text after it. */
  function OpenStep(rest: string, st: State, tag: string, unescape: string -> string): (t: Turn)
    requires |tag| >= 1
    ensures t.Go? ==> |t.rest| <= |rest|
  {
    if rest == [] then Stop(Crashed)
    else if rest[0] != '<' then LeafStep(rest, st, tag, unescape)
    else
      Go(rest, State(st.tags + [tag], st.indentLevel + 1, Some(tag),
                     st.output + Indent(st.indentLevel) + tag + "\n", st.written))
  }

  /** Lines 72-127: the tag just read, `tag`, is dispatched on its kind; `rest` is the text after it. */
  function TagStep(rest: string, st: State, tag: string, unescape: string -> string): (t: Turn)
    requires |tag| >= 2 && tag[|tag| - 1] == '>'
    ensures t.Go? ==> |t.rest| <= |rest|
    ensures t.Stop? ==> !t.outcome.Formatted?
  {
    if IsClose(tag) then CloseStep(rest, st, tag)
    else if IsEmptyOrDecl(tag) then Go(rest, Flush(st, st.output + Indent(st.indentLevel) + tag + "\n"))
    else OpenStep(rest, st, tag, unescape)
  }

  /** One turn of the loop (lines 67-128) on the unread text `r`: read a tag and act on it. */
  function Iteration(r: string, st: State, unescape: string -> string): (t: Turn)
    requires r != []
    ensures t.Go? ==> |t.rest| < |r|
    ensures t.Stop? ==> !t.outcome.Formatted?
  {
    if '<' !in r then Stop(Crashed)
    else
      SplitAtFirst(r, '<');
      var s := From(r, '<');
      if '>' !in s then Stop(Crashed)
      else
        TokenShape(s);
        TagStep(AfterToken(s), st, Token(s), unescape)
  }

  /** A turn on text that starts with a tag `t` acts on `t`, then goes on after the whitespace that follows it. */
  lemma IterationOnTag(t: string, rest: string, st: State, unescape: string -> string)
    requires |t| >= 2 && t[0] == '<' && t[|t| - 1] == '>'
    requires forall i :: 0 <= i < |t| - 1 ==> t[i] != '>' && !IsLineBreak(t[i])
    ensures Iteration(t + rest, st, unescape) == TagStep(SkipSpace(rest), st, t, unescape)
  {
    var r := t + rest;
    TokenRoundTrip(t, rest);
    assert r[0] == '<';
    assert From(r, '<') == r;
    assert Token(From(r, '<')) == t && AfterToken(From(r, '<')) == SkipSpace(rest);
  }

  /** The loop run from state `st` on the unread text `r` until the stream is done. */
  function FormatFrom(r: string, st: State, unescape: string -> string): Outcome
    decreases |r|
  {
    if r == [] then Formatted(st.written)
    else
      match Iteration(r, st, unescape)
      case Go(rest, st') => FormatFrom(rest, st', unescape)
      case Stop(outcome) => outcome
  }

  /** The whole run on the document `doc`, with `unescape` standing for jsoup's `unescapeEntities`. */
  function Format(doc: string, unescape: string -> string): Outcome {
    FormatFrom(doc, State([], 0, None, [], []), unescape)
  }

  /**
   * The end of the input is not checked against the stack: input that ends
   * with an empty-element tag formats, however many start tags are still
   * open, and no close line is written for them.
   */
  lemma UnclosedAtEnd(tag: string, st: State, unescape: string -> string)
    requires |tag| >= 3 && tag[0] == '<' && tag[1] != '/' && tag[|tag| - 2] == '/' && tag[|tag| - 1] == '>'
    requires forall i :: 0 <= i < |tag| - 1 ==> tag[i] != '>' && !IsLineBreak(tag[i])
    ensures FormatFrom(tag, st, unescape) == Formatted(st.written + (st.output + Indent(st.indentLevel) + tag + "\n"))
  {
    var out := st.output + Indent(st.indentLevel) + tag + "\n";
    assert TagStep([], st, tag, unescape) == Go([], Flush(st, out));
    IterationOnTag(tag, [], st, unescape);
    assert tag + [] == tag;
    assert Iteration(tag, st, unescape) == Go([], Flush(st, out));
  }

  /**
   * Lines 72-92 on the loop's variables: the close tag `currentTag` pops its
   * start tag and is written on a line of its own, or fuses with the start
   * tag when that is still buffered. `rest` is the text after the close tag.
   */
  method CloseTag(tags: seq<string>, indentLevel: int, lastStartTag: Option<string>, output: string,
                  written: string, currentTag: string, ghost rest: string)
    returns (tags': seq<string>, indentLevel': int, lastStartTag': Option<string>, output': string,
             written': string, mismatch: Option<Mismatch>)
    requires |currentTag| >= 3
    requires CloseStep(rest, State(tags, indentLevel, lastStartTag, output, written), currentTag) != Stop(Crashed)
    ensures CloseStep(rest, State(tags, indentLevel, lastStartTag, output, written), currentTag)
         == if mismatch.Some? then Stop(Mismatched(written', mismatch.value))
            else Go(rest, State(tags', indentLevel', lastStartTag', output', written'))
  {
    tags', indentLevel', lastStartTag', output', written', mismatch := tags, indentLevel, lastStartTag, output, written, None;
    var other := tags'[|tags'| - 1];
    tags' := tags'[..|tags'| - 1];
    if !NamesMatch(other, currentTag) {
      mismatch := Some(Mismatch(other, currentTag));
      return;
    }
    indentLevel' := indentLevel' - 1;
    if lastStartTag'.Some? && NamesMatch(lastStartTag'.value, currentTag) {
      var last := lastStartTag'.value;
      output' := output'[..|output'| - |last| - 1];
      output' := output' + last[..|last| - 1];
      output' := output' + "/>";
      output' := output' + "\n";
    } else {
      output' := output' + Indent(indentLevel');
      output' := output' + currentTag;
      output' := output' + "\n";
    }
    lastStartTag' := None;
    written' := written' + output';
    output' := [];
  }

  /**
   * Lines 104-120 on the loop's variables: the start tag `currentTag` is
   * followed by text; read the text and the end tag after it and write the
   * element as one line. (The push of line 102 and the pop of line 112 cancel
   * out, so `tags` is passed and returned without `currentTag`.)
   */
  method LeafTag(buff: Buffer, tags: seq<string>, indentLevel: int, lastStartTag: Option<string>, output: string,
                 written: string, currentTag: string, unescape: string -> string)
    returns (tags': seq<string>, indentLevel': int, lastStartTag': Option<string>, output': string,
             written': string, mismatch: Option<Mismatch>)
    requires buff.Valid() && buff.sb == [] && |currentTag| >= 1
    requires LeafStep(buff.Rest(), State(tags, indentLevel, lastStartTag, output, written), currentTag, unescape)
          != Stop(Crashed)
    modifies buff
    ensures buff.Valid() && buff.sb == []
    ensures LeafStep(old(buff.Rest()), State(tags, indentLevel, lastStartTag, output, written), currentTag, unescape)
         == if mismatch.Some? then Stop(Mismatched(written', mismatch.value))
            else Go(buff.Rest(), State(tags', indentLevel', lastStartTag', output', written'))
  {
    ghost var rest := buff.Rest();
    ghost var st := State(tags, indentLevel, lastStartTag, output, written);
    tags', indentLevel', lastStartTag', output', written', mismatch := tags, indentLevel, lastStartTag, output, written, None;
    var text := ReadText(buff);
    ghost var more := buff.Rest();
    var content := unescape(Trim(text));
    SplitAtFirst(rest, '<');
    var endTag := ReadTag(buff);
    assert |endTag| >= 3;
    if !NamesMatch(currentTag, endTag) {
      mismatch := Some(Mismatch(currentTag, endTag));
      assert LeafStep(rest, st, currentTag, unescape) == Stop(Mismatched(written, mismatch.value));
      return;
    }
    output' := output' + Indent(indentLevel') + currentTag + content + endTag + "\n";
    assert LeafStep(rest, st, currentTag, unescape) == Go(AfterToken(more), Flush(st, output'));
    written' := written' + output';
    output' := [];
    lastStartTag' := None;
  }

  /**
   * Lines 101-127 on the loop's variables: the start tag `currentTag` is
   * pushed; followed by text it becomes a one-line element with its end tag,
   * followed by a tag it is buffered as the last start tag.
   */
  method OpenTag(buff: Buffer, tags: seq<string>, indentLevel: int, lastStartTag: Option<string>, output: string,
                 written: string, currentTag: string, unescape: string -> string)
    returns (tags': seq<string>, indentLevel': int, lastStartTag': Option<string>, output': string,
             written': string, mismatch: Option<Mismatch>)
    requires buff.Valid() && buff.sb == [] && |currentTag| >= 1
    requires OpenStep(buff.Rest(), State(tags, indentLevel, lastStartTag, output, written), currentTag, unescape)
          != Stop(Crashed)
    modifies buff
    ensures buff.Valid() && buff.sb == []
    ensures OpenStep(old(buff.Rest()), State(tags, indentLevel, lastStartTag, output, written), currentTag, unescape)
         == if mismatch.Some? then Stop(Mismatched(written', mismatch.value))
            else Go(buff.Rest(), State(tags', indentLevel', lastStartTag', output', written'))
  {
    if buff.Peek() != '<' {
      tags', indentLevel', lastStartTag', output', written', mismatch :=
        LeafTag(buff, tags, indentLevel, lastStartTag, output, written, currentTag, unescape);
    } else {
      tags', indentLevel', lastStartTag', output', written', mismatch := tags, indentLevel, lastStartTag, output, written, None;
      tags' := tags' + [currentTag];
      output' := output' + Indent(indentLevel');
      output' := output' + currentTag;
      output' := output' + "\n";
      lastStartTag' := Some(currentTag);
      indentLevel' := indentLevel' + 1;
    }
  }

  /**
   * One turn of the loop, lines 67-128, on the loop's variables: read a tag
   * and handle it according to its kind.
   */
  method TakeTurn(buff: Buffer, tags: seq<string>, indentLevel: int, lastStartTag: Option<string>, output: string,
                  written: string, unescape: string -> string)
    returns (tags': seq<string>, indentLevel': int, lastStartTag': Option<string>, output': string,
             written': string, mismatch: Option<Mismatch>)
    requires buff.Valid() && buff.sb == [] && !buff.Done()
    requires Iteration(buff.Rest(), State(tags, indentLevel, lastStartTag, output, written), unescape) != Stop(Crashed)
    modifies buff
    ensures buff.Valid() && buff.sb == []
    ensures Iteration(old(buff.Rest()), State(tags, indentLevel, lastStartTag, output, written), unescape)
         == if mismatch.Some? then Stop(Mismatched(written', mismatch.value))
            else Go(buff.Rest(), State(tags', indentLevel', lastStartTag', output', written'))
  {
    ghost var r := buff.Rest();
    ghost var st := State(tags, indentLevel, lastStartTag, output, written);
    assert '<' in r && '>' in From(r, '<');
    SplitAtFirst(r, '<');
    TokenShape(From(r, '<'));
    var currentTag := NextTag(buff);
    assert Iteration(r, st, unescape) == TagStep(buff.Rest(), st, currentTag, unescape);
    tags', indentLevel', lastStartTag', output', written', mismatch :=
      ActOnTag(buff, tags, indentLevel, lastStartTag, output, written, currentTag, unescape);
  }

  /** Lines 72-127 on the loop's variables: act on the tag just read, `currentTag`, by its kind. */
  method ActOnTag(buff: Buffer, tags: seq<string>, indentLevel: int, lastStartTag: Option<string>, output: string,
                  written: string, currentTag: string, unescape: string -> string)
    returns (tags': seq<string>, indentLevel': int, lastStartTag': Option<string>, output': string,
             written': string, mismatch: Option<Mismatch>)
    requires buff.Valid() && buff.sb == [] && |currentTag| >= 2 && currentTag[|currentTag| - 1] == '>'
    requires TagStep(buff.Rest(), State(tags, indentLevel, lastStartTag, output, written), currentTag, unescape)
          != Stop(Crashed)
    modifies buff
    ensures buff.Valid() && buff.sb == []
    ensures TagStep(old(buff.Rest()), State(tags, indentLevel, lastStartTag, output, written), currentTag, unescape)
         == if mismatch.Some? then Stop(Mismatched(written', mismatch.value))
            else Go(buff.Rest(), State(tags', indentLevel', lastStartTag', output', written'))
  {
    if currentTag[1] == '/' {
      tags', indentLevel', lastStartTag', output', written', mismatch :=
        CloseTag(tags, indentLevel, lastStartTag, output, written, currentTag, buff.Rest());
    } else if currentTag[|currentTag| - 2] == '/' || currentTag[1] == '?' {
      tags', indentLevel', lastStartTag', output', written', mismatch := tags, indentLevel, None, output, written, None;
      output' := output' + Indent(indentLevel');
      output' := output' + currentTag;
      output' := output' + "\n";
      written' := written' + output';
      output' := [];
    } else {
      tags', indentLevel', lastStartTag', output', written', mismatch :=
        OpenTag(buff, tags, indentLevel, lastStartTag, output, written, currentTag, unescape);
    }
  }
}
