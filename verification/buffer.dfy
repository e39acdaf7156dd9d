/**
 * The chunked character lexer (`FormatXML.Buffer`). The reader behind it is
 * modelled as the sequence of chunks it will still deliver; each chunk holds
 * between one and 4096 characters, and only running out of chunks is the end
 * of the stream (a short chunk is not).
 *
 * Every method is specified against `Rest()`, the characters not yet
 * consumed, which is the unread part of the current chunk followed by all
 * chunks still to come. Because the contracts mention only `Rest()` and the
 * accumulator, what the lexer produces depends on the concatenated input and
 * never on where the chunk boundaries fall.
 */
module Lexer {
  import opened Wrappers
  import opened Text

  /** The capacity of the array `readNext` reads into. */
  const ChunkSize := 4096

  /** What a reader may deliver: non-empty chunks of at most `ChunkSize` characters. */
  predicate ChunksOk(chunks: seq<string>) {
    forall k :: 0 <= k < |chunks| ==> 0 < |chunks[k]| <= ChunkSize
  }

  /** The text a sequence of chunks carries. */
  function Flatten(chunks: seq<string>): string {
    if chunks == [] then [] else chunks[0] + Flatten(chunks[1..])
  }

  /** The lexer's invariant: a current chunk with the cursor inside it, or the end of the stream. */
  ghost predicate LexerOk(input: seq<string>, buff: Option<string>, idx: int) {
    && ChunksOk(input)
    && (buff.None? ==> input == [] && idx == 0)
    && (buff.Some? ==> 0 < |buff.value| <= ChunkSize && 0 <= idx < |buff.value|)
  }

  /** The characters from the cursor to the end of the stream. */
  ghost function Unread(input: seq<string>, buff: Option<string>, idx: int): string
    requires LexerOk(input, buff, idx)
  {
    (if buff.None? then [] else buff.value[idx..]) + Flatten(input)
  }

  /** The local state of `findNext`'s loop: the lexer's fields and the scan position `i`. */
  datatype Scanner = Scanner(buff: string, input: seq<string>, idx: int, i: int, sb: string)
  {
    ghost predicate Ok() {
      0 <= idx <= i <= |buff|
    }

    /** The text from the scan position to the end of the stream. */
    ghost function Ahead(): string
      requires Ok()
    {
      buff[i..] + Flatten(input)
    }
  }

  /** How `findNext` ends: on the target, or with the stream exhausted before it. */
  datatype ScanEnd =
    | Found(buff: string, input: seq<string>, idx: int, sb: string)
    | Exhausted

  /** Whether the turn of `findNext`'s loop in state `s` ends the scan. */
  ghost predicate Stops(c: char, s: Scanner)
    requires s.Ok()
  {
    if s.i == |s.buff| then s.input == [] else !IsLineBreak(s.buff[s.i]) && s.buff[s.i] == c
  }

  /** One turn of `findNext`'s loop that does not end the scan. */
  ghost function Next(c: char, s: Scanner): (s': Scanner)
    requires s.Ok() && !Stops(c, s)
    ensures s'.Ok()
    ensures |s'.input| < |s.input| || (s'.input == s.input && |s'.buff| - s'.i < |s.buff| - s.i)
  {
    if s.i == |s.buff| then Scanner(s.input[0], s.input[1..], 0, 0, s.sb + s.buff[s.idx..])
    else if IsLineBreak(s.buff[s.i]) then Scanner(s.buff, s.input, s.i + 1, s.i + 1, s.sb + s.buff[s.idx..s.i])
    else Scanner(s.buff, s.input, s.idx, s.i + 1, s.sb)
  }

  /** The outcome of `findNext`'s loop for `c` started in state `s`. */
  ghost function Scan(c: char, s: Scanner): ScanEnd
    requires s.Ok()
    decreases |s.input|, |s.buff| - s.i
  {
    if !Stops(c, s) then Scan(c, Next(c, s))
    else if s.i == |s.buff| then Exhausted
    else Found(s.buff, s.input, s.i, s.sb + s.buff[s.idx..s.i])
  }

  /** What the accumulator holds once the scan from `s` reaches `c`. */
  ghost function Promised(c: char, s: Scanner): string
    requires s.Ok()
  {
    s.sb + s.buff[s.idx..s.i] + StripBreaks(Before(s.Ahead(), c))
  }

  /** At the end of a chunk the scan moves to the next one, with the pending run accumulated. */
  lemma RefillKeeps(c: char, s: Scanner)
    requires s.Ok() && s.i == |s.buff| && s.input != []
    ensures var s' := Scanner(s.input[0], s.input[1..], 0, 0, s.sb + s.buff[s.idx..]);
            && s'.Ahead() == s.Ahead() && Promised(c, s') == Promised(c, s)
  {
    var s' := Scanner(s.input[0], s.input[1..], 0, 0, s.sb + s.buff[s.idx..]);
    assert s'.Ahead() == s.Ahead();
    assert s.buff[s.idx..s.i] == s.buff[s.idx..] && s'.buff[0..0] == [];
  }

  /** Scanning past the character at the scan position, which is not `c`. */
  lemma AheadCons(c: char, s: Scanner)
    requires s.Ok() && s.i < |s.buff| && s.buff[s.i] != c
    ensures var t := Scanner(s.buff, s.input, s.idx, s.i + 1, s.sb).Ahead();
            && s.Ahead() == [s.buff[s.i]] + t
            && StripBreaks(Before(s.Ahead(), c)) == StripBreaks([s.buff[s.i]]) + StripBreaks(Before(t, c))
            && From(s.Ahead(), c) == From(t, c)
  {
    var t := Scanner(s.buff, s.input, s.idx, s.i + 1, s.sb).Ahead();
    assert s.Ahead() == [s.buff[s.i]] + t;
    SplitCons(s.buff[s.i], t, c);
    StripBreaksAppend([s.buff[s.i]], Before(t, c));
  }

  /** A line break is passed over: the pending run is accumulated and a new one starts after the break. */
  lemma BreakKeeps(c: char, s: Scanner)
    requires s.Ok() && s.i < |s.buff| && IsLineBreak(s.buff[s.i]) && !IsLineBreak(c)
    ensures var s' := Scanner(s.buff, s.input, s.i + 1, s.i + 1, s.sb + s.buff[s.idx..s.i]);
            && Promised(c, s') == Promised(c, s) && From(s'.Ahead(), c) == From(s.Ahead(), c)
  {
    AheadCons(c, s);
    var s' := Scanner(s.buff, s.input, s.i + 1, s.i + 1, s.sb + s.buff[s.idx..s.i]);
    var rest := StripBreaks(Before(s'.Ahead(), c));
    assert StripBreaks([s.buff[s.i]]) == [] by {
      StripBreaksCons(s.buff[s.i], []);
    }
    assert s.buff[s.i + 1..s.i + 1] == [];
    assert Promised(c, s') == s.sb + s.buff[s.idx..s.i] + rest;
  }

  /** Any other character is passed over and joins the pending run. */
  lemma OtherKeeps(c: char, s: Scanner)
    requires s.Ok() && s.i < |s.buff| && !IsLineBreak(s.buff[s.i]) && s.buff[s.i] != c
    ensures var s' := Scanner(s.buff, s.input, s.idx, s.i + 1, s.sb);
            && Promised(c, s') == Promised(c, s) && From(s'.Ahead(), c) == From(s.Ahead(), c)
  {
    AheadCons(c, s);
    var s' := Scanner(s.buff, s.input, s.idx, s.i + 1, s.sb);
    var rest := StripBreaks(Before(s'.Ahead(), c));
    assert StripBreaks([s.buff[s.i]]) == [s.buff[s.i]] by {
      StripBreaksCons(s.buff[s.i], []);
    }
    assert s.buff[s.idx..s.i + 1] == s.buff[s.idx..s.i] + [s.buff[s.i]];
    assert s.sb + s.buff[s.idx..s.i + 1] + rest == s.sb + s.buff[s.idx..s.i] + ([s.buff[s.i]] + rest);
  }

  /** A turn of the loop changes neither what the scan will accumulate nor where it will stop. */
  lemma NextKeeps(c: char, s: Scanner)
    requires s.Ok() && !Stops(c, s) && !IsLineBreak(c)
    ensures Promised(c, Next(c, s)) == Promised(c, s)
    ensures From(Next(c, s).Ahead(), c) == From(s.Ahead(), c)
  {
    if s.i == |s.buff| {
      RefillKeeps(c, s);
    } else if IsLineBreak(s.buff[s.i]) {
      BreakKeeps(c, s);
    } else {
      OtherKeeps(c, s);
    }
  }

  /**
   * Started on a chunk of the reader with `c` ahead, the scan reaches the
   * first `c`, with the accumulator holding what `Promised` says and the lexer
   * on the `c`.
   */
  lemma {:induction false} ScanFinds(c: char, s: Scanner)
    requires s.Ok() && 0 < |s.buff| <= ChunkSize && ChunksOk(s.input)
    requires c in s.Ahead() && !IsLineBreak(c)
    ensures var r := Scan(c, s);
            && r.Found? && LexerOk(r.input, Some(r.buff), r.idx) && r.sb == Promised(c, s)
            && Unread(r.input, Some(r.buff), r.idx) == From(s.Ahead(), c)
    decreases |s.input|, |s.buff| - s.i
  {
    if !Stops(c, s) {
      NextKeeps(c, s);
      assert c in Next(c, s).Ahead() by {
        SplitAtFirst(s.Ahead(), c);
        SplitAtFirst(Next(c, s).Ahead(), c);
      }
      ScanFinds(c, Next(c, s));
    } else {
      assert s.i < |s.buff|;
      var t := s.Ahead();
      assert Before(t, c) == [] && From(t, c) == t;
    }
  }

  /** `findNext` from the lexer state `(input, buff, idx)`, as `Scan` describes it. */
  lemma FindsFirst(c: char, input: seq<string>, buff: Option<string>, idx: int, sb: string)
    requires LexerOk(input, buff, idx) && c in Unread(input, buff, idx) && !IsLineBreak(c)
    ensures buff.Some?
    ensures var r := Scan(c, Scanner(buff.value, input, idx, idx, sb));
            && r.Found? && LexerOk(r.input, Some(r.buff), r.idx)
            && r.sb == sb + StripBreaks(Before(Unread(input, buff, idx), c))
            && Unread(r.input, Some(r.buff), r.idx) == From(Unread(input, buff, idx), c)
  {
    var s := Scanner(buff.value, input, idx, idx, sb);
    assert s.Ahead() == Unread(input, buff, idx);
    assert Promised(c, s) == sb + StripBreaks(Before(s.Ahead(), c)) by {
      assert buff.value[idx..idx] == [];
    }
    ScanFinds(c, s);
  }

  class Buffer {
    /** The chunks the reader has not delivered yet (the Java field `in`). */
    var input: seq<string>
    /** The current chunk; `null` once the stream is exhausted. */
    var buff: Option<seq<char>>
    /** The cursor into `buff`. */
    var idx: int
    /** The accumulator of scanned characters (the Java `StringBuilder sb`). */
    var sb: string

    ghost predicate Valid()
      reads this
    {
      LexerOk(input, buff, idx)
    }

    /** The characters from the cursor to the end of the stream. */
    ghost function Rest(): string
      reads this
      requires Valid()
    {
      Unread(input, buff, idx)
    }

    constructor (chunks: seq<string>)
      requires ChunksOk(chunks)
      ensures Valid() && Rest() == Flatten(chunks) && sb == []
    {
      input := chunks;
      buff := None;
      idx := 0;
      sb := [];
      new;
      ReadNext();
    }

    /** True once the stream is exhausted; then nothing is left to consume. */
    function Done(): (d: bool)
      reads this
      requires Valid()
      ensures d <==> Rest() == []
    {
      buff.None?
    }

    /** The character under the cursor, without consuming it. */
    function Peek(): (c: char)
      reads this
      requires Valid() && !Done()
      ensures c == Rest()[0]
    {
      buff.value[idx]
    }

    /**
     * Consumes everything before the next `c`, appending it to the
     * accumulator without its line breaks, and stops with the cursor on `c`.
     */
    method FindNext(c: char)
      requires Valid() && c in Rest() && !IsLineBreak(c)
      modifies this
      ensures Valid()
      ensures sb == old(sb) + StripBreaks(Before(old(Rest()), c))
      ensures Rest() == From(old(Rest()), c)
    {
      var i := idx;
      ghost var input0, buff0, idx0, sb0 := input, buff, idx, sb;
      ghost var final := Scan(c, Scanner(buff.value, input, idx, i, sb));
      assert final.Found? by {
        FindsFirst(c, input, buff, idx, sb);
      }
      while true
        invariant buff.Some? && ChunksOk(input) && 0 < |buff.value| <= ChunkSize
        invariant 0 <= idx <= i <= |buff.value|
        invariant Scan(c, Scanner(buff.value, input, idx, i, sb)) == final
        decreases |input|, |buff.value| - i
      {
        if i == |buff.value| {
          sb := sb + buff.value[idx..];
          i := 0;
          ReadNext();
          assert Scan(c, Scanner(buff.value, input, idx, i, sb)) == final;
        }
        if IsLineBreak(buff.value[i]) {
          sb := sb + buff.value[idx..i];
          idx := i + 1;
        }
        if buff.value[i] == c {
          sb := sb + buff.value[idx..i];
          idx := i;
          assert final == Found(buff.value, input, idx, sb);
          break;
        }
        i := i + 1;
      }
      FindsFirst(c, input0, buff0, idx0, sb0);
    }

    /**
     * Appends the character under the cursor to the accumulator and moves
     * past it; with `skipSpace`, then also moves past the whitespace that
     * follows, without accumulating it.
     */
    method Step(skipSpace: bool)
      requires Valid() && !Done()
      modifies this
      ensures Valid()
      ensures sb == old(sb) + [old(Rest())[0]]
      ensures Rest() == if skipSpace then SkipSpace(old(Rest())[1..]) else old(Rest())[1..]
    {
      sb := sb + [buff.value[idx]];
      Advance();
      while skipSpace && buff.Some? && IsWhitespace(buff.value[idx])
        invariant Valid() && sb == old(sb) + [old(Rest())[0]]
        invariant skipSpace ==> SkipSpace(Rest()) == SkipSpace(old(Rest())[1..])
        invariant !skipSpace ==> Rest() == old(Rest())[1..]
        decreases |Rest()|
      {
        Advance();
      }
    }

    /** One turn of the do/while in `step`: move the cursor on, refilling at the chunk's end. */
    method Advance()
      requires Valid() && !Done()
      modifies this
      ensures Valid() && sb == old(sb)
      ensures Rest() == old(Rest())[1..]
    {
      ghost var x, tail := buff.value[idx], buff.value[idx + 1..] + Flatten(input);
      assert Rest() == [x] + tail;
      idx := idx + 1;
      if idx == |buff.value| {
        assert buff.value[idx..] == [];
        ReadNext();
      }
      assert Rest() == tail;
      assert ([x] + tail)[1..] == tail;
    }

    /** Pulls the next chunk from the reader, or marks the stream exhausted. */
    method ReadNext()
      requires ChunksOk(input)
      modifies this
      ensures Valid() && sb == old(sb) && idx == 0
      ensures Rest() == Flatten(old(input))
      ensures old(input) != [] ==> buff == Some(old(input)[0]) && input == old(input)[1..]
    {
      if input == [] {
        // the reader reports the end of the stream (`read` returns -1)
        buff := None;
        idx := 0;
        return;
      }
      buff := Some(input[0]);
      input := input[1..];
      idx := 0;
    }

    /** Hands out everything accumulated since the last call and clears the accumulator. */
    method GetText() returns (text: string)
      requires Valid()
      modifies this
      ensures Valid() && sb == [] && Rest() == old(Rest())
      ensures text == old(sb)
    {
      text := sb;
      sb := [];
    }
  }
}
