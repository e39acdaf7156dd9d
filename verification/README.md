# XmlFormatter core, modelled in Dafny

XmlFormatter re-indents an XML file in a single pass (`FormatXML.run`). The
program has three parts, and this project models and proves properties of
each of them:

- **The lexer `FormatXML.Buffer`** (`buffer.dfy`, module `Lexer`). It reads
  the input in chunks of at most 4096 characters and keeps a cursor and an
  accumulator. `findNext(c)` scans to the next `c`, accumulating what it
  passes except line breaks. `step(skipSpace)` takes one character and can
  skip the whitespace after it. `getText()` hands out the accumulator.
  `peek()` and `done()` look at the cursor.
  - The class is modelled with its own fields and loops.
  - Every method is specified against `Rest()`, the text not yet consumed:
    the rest of the current chunk followed by every chunk still to come.
  - Because the contracts speak only of `Rest()` and the accumulator, what
    the lexer produces is the same however the input is split into chunks.
- **The tag loop of `run()`** (`tokens.dfy`, `formatter.dfy`, `shape.dfy`,
  `run.dfy`).
  Each turn reads one tag and acts on it by kind:
  - A close tag pops the tag stack.
  - An empty-element tag or a declaration is written on a line of its own.
  - A start tag followed by text becomes one line: start tag, trimmed and
    decoded text, end tag.
  - A start tag followed by another tag is pushed and its line is held back
    in the buffer `output`, so that an immediately following matching close
    tag can turn it into `<t/>`.

  How the loop is modelled:
  - `Formatter.Iteration` is one turn of the loop as a function of the unread
    text.
  - `Formatter.Format` runs the turns to the end. It ends in `Formatted` (the
    text written), `Mismatched` (the `IllegalStateException` of lines 75 and
    110, with the text written before it) or `Crashed` (any other runtime
    exception).
  - `Loop.Run` is the loop itself over a `Buffer`. It is proved to
    write exactly what `Format` says for the concatenated chunks, and it
    keeps the invariant `Shape.Shaped` on its own variables.
  - Module `Shape` states the loop invariant (`Shaped`) and proves that every
    turn keeps it. It also proves the fusion, close-line, empty-tag and text
    leaf behaviour from the invariant.
- **The default output path** (`paths.dfy`, module `Paths`): `_formatted` is
  inserted before the last `.` of the input path.

The code is followed in these details:
- The buffer `output` can hold more than one line. The branch for a start
  tag followed by a tag (lines 121-127) never writes, so a run of nested
  start tags leaves one pending line per tag. `Shape.Pending` describes
  these lines, and `Shape.Shaped` says that `lastStartTag` is the last of
  them.
- When the input runs out, nothing is pending: a pending start tag is always
  followed by a `<` (`Shape.RunStaysShaped`).
- The end of the input is not checked against the stack. A run can end
  `Formatted` with start tags still open, and no close line is written for
  them: `<a><b/>` formats to `<a>` and an indented `<b/>`.
  `Formatter.UnclosedAtEnd` states this for any loop state.
- `step(true)` accumulates only the character under the cursor, never the
  whitespace it skips after it.
- A short read is not the end of the stream; only a read returning -1 is.
- The name check of lines 74, 79 and 109 is a prefix test: the name of the
  close tag must be a prefix of the start tag's text after its `<`. Line
  109 does not check that the end tag starts with `</`.

## Model

| member | source | states |
|---|---|---|
| Text.SplitAtFirst | src/main/java/FormatXML.java:160-179 | `Before(s, c)` and `From(s, c)` together make up `s`. The first part holds no `c`, and the second starts with `c` exactly when `s` holds one. |
| Text.IsWhitespace | src/main/java/FormatXML.java:188 | Defined as Java's `Character.isWhitespace`: the space separators except the non-breaking ones, the line and paragraph separators, and the controls U+0009..U+000D and U+001C..U+001F. |
| Text.StripBreaks | src/main/java/FormatXML.java:168-171 | Defined as the text with every `\n` and `\r` removed and all other characters kept in order; its result is never longer than its input. |
| Text.SplitAtFirstUnique | src/main/java/FormatXML.java:160-179 | Any split of a text into a `c`-free part and a part starting with `c` is the one at its first `c`. |
| Text.StripBreaksAppend | src/main/java/FormatXML.java:162-178 | Dropping line breaks can be done chunk by chunk: it distributes over concatenation. |
| Text.StripBreaksNone | src/main/java/FormatXML.java:168-171 | No `\n` or `\r` survives dropping line breaks. |
| Text.StripBreaksKeeps | src/main/java/FormatXML.java:168-171 | Text without line breaks is left unchanged. |
| Text.SkipSpace | src/main/java/FormatXML.java:183-188 | The suffix after skipping whitespace is empty or starts with a non-whitespace character. Every character skipped is whitespace. |
| Text.Trim | src/main/java/FormatXML.java:105 | `String.trim`: the result is empty, or starts and ends with a character above U+0020. It is empty exactly when every character is at most U+0020. A string already trimmed is returned unchanged. |
| Text.TrimIsMiddle | src/main/java/FormatXML.java:105 | `trim` returns the middle of its input: the result is the input read from its first character above U+0020 on. Everything before the result is at most U+0020, and everything after it is too. |
| Text.MiddleOf | src/main/java/FormatXML.java:105 | A prefix of a suffix of a text, followed in that suffix only by characters up to U+0020, is the slice of the text at the suffix's start, followed in the text only by such characters. |
| Text.TrimIdempotent | src/main/java/FormatXML.java:105 | Trimming twice is trimming once. |
| Lexer.NextKeeps | src/main/java/FormatXML.java:162-178 | A turn of `findNext`'s loop changes neither what the scan will accumulate nor where it stops. This holds across a chunk refill, a line break and any other character. |
| Lexer.ScanFinds | src/main/java/FormatXML.java:160-179 | With `c` ahead, the scan reaches the first `c`. The accumulator then holds the text before that `c` without line breaks, and the cursor stands on the `c`, whatever the chunk boundaries. |
| Lexer.FindsFirst | src/main/java/FormatXML.java:160-179 | The same, from the lexer's state on entry to `findNext`. |
| Lexer.Next | src/main/java/FormatXML.java:162-178 | One turn of `findNext`'s loop: at the end of a chunk it makes the next chunk current with the pending run accumulated; on a line break it accumulates the run before it and restarts the run after it; otherwise it moves the cursor. Each turn keeps the scan state well-formed and consumes a chunk or a character. |
| Lexer.Scan | src/main/java/FormatXML.java:160-179 | Defined as `findNext`'s loop run to its end: `Found` with the cursor on the first `c` and the text passed accumulated, or `Exhausted` when the chunks run out first. |
| Lexer.Buffer.constructor | src/main/java/FormatXML.java:146-150 | A new lexer has the whole input unread and an empty accumulator. |
| Lexer.Buffer.Done | src/main/java/FormatXML.java:152-154 | `done()` is true exactly when nothing is left unread. |
| Lexer.Buffer.Peek | src/main/java/FormatXML.java:156-158 | `peek()` is the first unread character. |
| Lexer.Buffer.FindNext | src/main/java/FormatXML.java:160-179 | Appends to the accumulator exactly the unread text before the first `c`, line breaks dropped. It leaves the unread text starting at that `c`. |
| Lexer.Buffer.Step | src/main/java/FormatXML.java:181-189 | Appends exactly the current character. Afterwards the unread text is what followed it, with leading whitespace skipped when `skipSpace` is set, so the stream is done or the cursor is on a non-whitespace character. |
| Lexer.Buffer.Advance | src/main/java/FormatXML.java:183-187 | One turn of `step`'s do/while consumes exactly one character, refilling at the end of a chunk. |
| Lexer.Buffer.ReadNext | src/main/java/FormatXML.java:191-205 | Makes the next chunk current with the cursor at its start, or marks the stream exhausted. The unread text is all chunks not yet delivered. |
| Lexer.Buffer.GetText | src/main/java/FormatXML.java:207-211 | Returns everything accumulated since the last call and empties the accumulator; the unread text is untouched. |
| Tokens.Token | src/main/java/FormatXML.java:69-71 | A tag read ends with `>`. |
| Tokens.AfterToken | src/main/java/FormatXML.java:70 | After a tag, the unread text is shorter and does not start with whitespace. |
| Tokens.TokenShape | src/main/java/FormatXML.java:67-71 | A tag read with the lexer on a `<` starts with `<`, has length at least 2, ends with its only `>`, and holds no line break. |
| Tokens.TokenRoundTrip | src/main/java/FormatXML.java:69-71 | Reading text that starts with a well-formed tag gives back that tag, and reading goes on at the first non-whitespace character after it. |
| Tokens.IsClose | src/main/java/FormatXML.java:72 | Defined as the test of line 72: the second character is `/`. |
| Tokens.IsEmptyOrDecl | src/main/java/FormatXML.java:93-94 | Defined as the test of lines 93-94: the character before the final `>` is `/`, or the second character is `?`. |
| Tokens.NamesMatch | src/main/java/FormatXML.java:74 | Defined as the check of lines 74, 79 and 109: the close tag's text between `</` and `>` starts the start tag's text after `<`. |
| Tokens.NamesMatchIsPrefix | src/main/java/FormatXML.java:74 | The match check holds exactly when the close tag's name is a prefix of the start tag's text after `<`. |
| Tokens.NamesMatchLoose | src/main/java/FormatXML.java:74 | The prefix test as the code has it: `</a>` closes `<ab>` and `<a x="1">`, `</ab>` does not close `<a>`, and `</>` closes every tag. |
| Tokens.ReadTag | src/main/java/FormatXML.java:69-71 | `findNext('>')`, `step(true)` and `getText()` return the tag at the front of the unread text and leave the text after it, whitespace skipped. |
| Tokens.NextTag | src/main/java/FormatXML.java:67-71 | The text before the next `<` is dropped, then the tag starting there is read. |
| Tokens.ReadText | src/main/java/FormatXML.java:104-105 | Returns the unread text before the next `<` without line breaks and leaves the lexer on that `<`. |
| Formatter.Indent | src/main/java/FormatXML.java:134-136 | `indent(n)` is `2n` spaces for positive `n` and empty otherwise. |
| Formatter.Flush | src/main/java/FormatXML.java:90-92 | Defined as writing the buffered lines with this turn's line to the file, emptying the buffer and forgetting the last start tag, as lines 90-92 and 98-99 do. |
| Formatter.Fuse | src/main/java/FormatXML.java:81-84 | Defined as the buffer with the line of the last start tag cut off (`setLength`) and replaced by that tag with `/>` in place of `>`. Its effect is stated by `Shape.FuseLine`. |
| Formatter.CloseStep | src/main/java/FormatXML.java:72-92 | A close tag never moves the reading position. An empty stack, an empty stacked tag or a buffer too short to cut crashes. A failed name check stops with both tags, and a match pops and writes either the close line or the fused `<t/>` line. |
| Formatter.LeafStep | src/main/java/FormatXML.java:103-120 | A text leaf that goes on has consumed input: the text, the end tag and the whitespace after it. Without a `<` or `>` ahead it crashes; a failed name check stops with both tags and what was written. |
| Formatter.OpenStep | src/main/java/FormatXML.java:101-127 | A start tag never lengthens the unread text: at the end of the input it crashes, before text it is a leaf, and before a `<` it is pushed with its line buffered. |
| Formatter.TagStep | src/main/java/FormatXML.java:72-127 | Dispatch on the tag's kind (close, empty or declaration, start). A turn that goes on never lengthens the unread text, and one that stops does so by a mismatch or a crash. |
| Formatter.Iteration | src/main/java/FormatXML.java:66-128 | A turn that goes on has consumed input. A turn that stops does so by a mismatch or a crash. |
| Formatter.IterationOnTag | src/main/java/FormatXML.java:67-72 | A turn on text starting with a tag acts on that tag and goes on after the whitespace following it. |
| Formatter.FormatFrom | src/main/java/FormatXML.java:66-129 | Defined as running turns until the unread text is empty (the loop's `!buff.done()` test), which ends `Formatted` with what was written, or until a turn stops. Its properties are stated by `Shape.FormatAppends`, `Shape.RunStaysShaped` and `Loop.Run`. |
| Formatter.Format | src/main/java/FormatXML.java:62-129 | Defined as `FormatFrom` from the loop's initial variables (lines 62-65): empty stack, level 0, no last start tag, nothing buffered or written. |
| Formatter.UnclosedAtEnd | src/main/java/FormatXML.java:66-129 | Input that ends with an empty-element tag formats, from any loop state: the pending lines and the tag's line are written and the run ends `Formatted`, whatever start tags are still on the stack. |
| Formatter.CloseTag | src/main/java/FormatXML.java:72-92 | The close-tag branch on the loop's variables does what `CloseStep` says: mismatch, pop and write, or fuse and write. |
| Formatter.LeafTag | src/main/java/FormatXML.java:103-120 | The text-leaf branch on a `Buffer` does what `LeafStep` says. |
| Formatter.OpenTag | src/main/java/FormatXML.java:101-127 | The start-tag branch on a `Buffer` does what `OpenStep` says. |
| Formatter.ActOnTag | src/main/java/FormatXML.java:72-127 | Acting on the tag just read does what `TagStep` says. |
| Formatter.TakeTurn | src/main/java/FormatXML.java:66-128 | One iteration of the loop on a `Buffer` does what `Iteration` says for the unread text. |
| Loop.Run | src/main/java/FormatXML.java:62-129 | The loop over a `Buffer` of any chunking writes exactly what `Format` gives for the concatenated input, and reports a mismatch exactly when `Format` does. Its loop keeps `Shape.Shaped` on the variables of lines 62-65 throughout. |
| Shape.Pending | src/main/java/FormatXML.java:122-126 | The pending lines are empty exactly when no start tag is pending. |
| Shape.Shaped | src/main/java/FormatXML.java:62-128 | The loop invariant: the level is the stack depth, the buffer holds exactly the lines of the top `p` tags, a last start tag is remembered exactly when some are pending and is then the top of the stack, and every stacked tag starts with `<` and ends with `>`. `Shape.IterationKeepsShape` proves every turn keeps it. |
| Shape.StartShaped | src/main/java/FormatXML.java:62-65 | The loop starts in shape with nothing pending. |
| Shape.PendingPush | src/main/java/FormatXML.java:122-126 | Pushing a start tag and buffering its line adds one pending line at the indentation of the old depth. |
| Shape.CloseInShape | src/main/java/FormatXML.java:72-92 | In shape, a close tag does one of four things. On an empty stack it crashes. A mismatch with the top of the stack stops, naming both tags, with nothing written in that turn. With nothing pending, a match writes the close tag at the indentation of its start tag. With start tags pending, a match fuses. In every case that goes on, the stack is popped. |
| Shape.FuseInShape | src/main/java/FormatXML.java:79-92 | When start tags are pending, a matching close tag always fuses. What is written is the pending lines below the top one, then the top tag's indentation, the tag without its `>`, then `/>` and a line break. |
| Shape.FuseLine | src/main/java/FormatXML.java:81-84 | The truncation removes exactly the last start tag and its line break, and the tag comes back with `/>` in place of `>`. |
| Shape.EmptyTagInShape | src/main/java/FormatXML.java:93-100 | In shape, an empty-element tag or declaration is written after the pending lines at the current depth, with stack and depth unchanged. |
| Shape.LeafInShape | src/main/java/FormatXML.java:102-120 | In shape, a text leaf that goes on has passed the match check. It writes after the pending lines one line: indentation, start tag, decoded trimmed text, end tag. Stack and depth are unchanged. |
| Shape.CloseCases | src/main/java/FormatXML.java:72-92 | A close tag that goes on pops the stack, lowers the depth and writes everything buffered. A mismatch keeps what was written. |
| Shape.OpenCases | src/main/java/FormatXML.java:101-127 | A start tag is either pushed with its line buffered and a `<` next, or written as a leaf with stack and depth unchanged. |
| Shape.TagCases | src/main/java/FormatXML.java:72-127 | What acting on a tag does to the loop's variables, over all three kinds of tag. |
| Shape.IterationCases | src/main/java/FormatXML.java:66-128 | One turn either pushes a well-formed tag with a `<` next, or writes everything buffered with the stack kept or popped. A mismatch keeps what was written. |
| Shape.IterationKeepsShape | src/main/java/FormatXML.java:66-128 | Every turn keeps the invariant. The depth is the stack size, the buffer holds exactly the pending lines, and `lastStartTag` is the top of the stack when any are pending. |
| Shape.FormatAppends | src/main/java/FormatXML.java:91-118 | The output file is only appended to: a run that does not crash keeps everything written before. |
| Shape.FinalState | src/main/java/FormatXML.java:66-129 | A final state exists exactly when the run formats, and it carries what was written. |
| Shape.RunStaysShaped | src/main/java/FormatXML.java:66-129 | A finished run ends in shape with an empty buffer and no pending start tag, so no buffered line is lost at the end of the input. |
| Paths.LastIndexOf | src/main/java/FormatXML.java:52 | `lastIndexOf`: the position of the last `c`, or -1 exactly when there is none. |
| Paths.OutputPath | src/main/java/FormatXML.java:51-54 | A given non-empty output path is kept. Otherwise the derivation fails exactly when the input path has no `.`. |
| Paths.DerivedPath | src/main/java/FormatXML.java:53 | The derived path is the input with `_formatted` at its last `.`: taking the marker out gives the input back. |
| Paths.ExtensionKept | src/main/java/FormatXML.java:52-53 | The derived path's last `.` is the input's, shifted by the marker, and the extension from it on is the input's. |
| Paths.LastDotAfterMarker | src/main/java/FormatXML.java:53 | The marker holds no `.`, so a stem, the marker and an extension with one leading `.` have their last `.` at the extension. |
| Paths.LastIndexOfUnique | src/main/java/FormatXML.java:52 | A `c` with no `c` after it is the one `lastIndexOf` finds. |

## Left out

- Command-line parsing and help (lines 25-48) are not modelled. Neither are the opening and closing of the files (line 56) or the timing printout (lines 60 and 130). These are I/O and clock plumbing. The output file is the string `written`, and `out.write` appends to it.
- The `FileReader` is modelled as the sequence of chunks its `read` calls would deliver. Each chunk is non-empty and holds at most 4096 characters. `IOException` is not modelled.
- Lexer.Buffer.ReadNext: the chunk is a value, not a `char[]` filled in place and copied by `System.arraycopy`. No array is ever shared, so nothing about aliasing is lost.
- Jsoup's `Parser.unescapeEntities` (line 105) is foreign code. It is a function parameter `unescape` of the loop.
- `Character.isWhitespace` is written out as its character set. Characters are Dafny characters (Unicode scalar values), so Java's UTF-16 surrogate pairs are not modelled.
- Loop.Run: requires that `Format` does not crash on the input, instead of modelling the exceptions the code then throws. `Format` itself models every such crash as `Crashed`:
  - `findNext` running past the end of the stream;
  - `peek` at the end;
  - `pop` on an empty stack;
  - `substring` or `setLength` out of range.
- Lexer.Buffer.FindNext: requires the target to be ahead, because otherwise the code dereferences a null chunk. It also requires the target not to be a line break; the loop only looks for `<` and `>`.
- Lexer.Buffer.Peek: requires the stream not to be exhausted, because otherwise the code dereferences a null chunk.
- Lexer.Buffer.Step: requires the stream not to be exhausted, for the same reason.
- The `IllegalStateException` of lines 75 and 110 is modelled as the two tags it names (`Mismatch`), not as its message text.
- Paths.OutputPath: an input path without a `.` makes `substring(0, -1)` throw. The model returns `None` instead of modelling the exception.
- Formatter.Format: idempotence is not stated or proved. The property is that formatting the output again gives the same output, for a well-formed document with no entity references and no whitespace-only text. A proof needs a grammar of the documents the loop accepts, and a law saying `unescape` leaves entity-free text unchanged. The code defines neither, and `unescape` is foreign code.
