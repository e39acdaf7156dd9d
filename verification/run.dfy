/**
 * The loop of `FormatXML.run` itself, over a `Buffer`: it keeps the loop
 * invariant of module `Shape` on its own variables and writes what
 * `Formatter.Format` says for the concatenated input.
 */
module Loop {
  import opened Wrappers
  import opened Lexer
  import opened Formatter
  import opened Shape

  /**
   * The loop of lines 62-129 over a `Buffer` reading `chunks`. It returns
   * what has been written to the output file, and the mismatch when an
   * `IllegalStateException` ended the run. Because the result is `Format` of
   * the concatenated chunks, it does not depend on how the input was split.
   */
  method Run(chunks: seq<string>, unescape: string -> string) returns (written: string, mismatch: Option<Mismatch>)
    requires ChunksOk(chunks)
    requires !Format(Flatten(chunks), unescape).Crashed?
    ensures mismatch.None? ==> Format(Flatten(chunks), unescape) == Formatted(written)
    ensures mismatch.Some? ==> Format(Flatten(chunks), unescape) == Mismatched(written, mismatch.value)
  {
    mismatch := None;
    var buff := new Buffer(chunks);
    var output: string := [];
    written := [];
    var tags: seq<string> := [];
    var lastStartTag: Option<string> := None;
    var indentLevel := 0;
    ghost var final := Format(Flatten(chunks), unescape);
    ghost var p: nat := 0;
    StartShaped();
    while !buff.Done()
      invariant buff.Valid() && buff.sb == [] && mismatch.None?
      invariant Shaped(State(tags, indentLevel, lastStartTag, output, written), p)
      invariant FormatFrom(buff.Rest(), State(tags, indentLevel, lastStartTag, output, written), unescape) == final
      decreases |buff.Rest()|
    {
      ghost var r := buff.Rest();
      ghost var turn := Iteration(r, State(tags, indentLevel, lastStartTag, output, written), unescape);
      assert turn.Stop? ==> turn.outcome == final;
      IterationKeepsShape(r, State(tags, indentLevel, lastStartTag, output, written), p, unescape);
      tags, indentLevel, lastStartTag, output, written, mismatch :=
        TakeTurn(buff, tags, indentLevel, lastStartTag, output, written, unescape);
      if mismatch.Some? {
        return;
      }
      p := if lastStartTag.Some? then p + 1 else 0;
    }
  }
}
