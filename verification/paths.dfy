/**
 * The output file name of `FormatXML.run`: the one given on the command
 * line, or else the input file name with `_formatted` put in front of its
 * last `.`. An input name without a `.` makes `substring(0, -1)` throw.
 */
module Paths {
  import opened Wrappers

  /** What is put in front of the extension. */
  const Marker := "_formatted"

  /** `String.lastIndexOf`: the position of the last `c` in `s`, or -1 when there is none. */
  function LastIndexOf(s: string, c: char): (k: int)
    ensures -1 <= k < |s|
    ensures k == -1 <==> c !in s
    ensures k >= 0 ==> s[k] == c && forall j :: k < j < |s| ==> s[j] != c
  {
    if s == [] then -1
    else if s[|s| - 1] == c then |s| - 1
    else LastIndexOf(s[..|s| - 1], c)
  }

  /**
   * Lines 51-54: the output path for the input path `input` and the path
   * `output` given with `-o`, if any; `None` when the derivation throws.
   */
  function OutputPath(input: string, output: Option<string>): (r: Option<string>)
    ensures output.Some? && output.value != [] ==> r == output
    ensures (output.None? || output.value == []) ==> (r.None? <==> '.' !in input)
  {
    if output.Some? && output.value != [] then output
    else
      var k := LastIndexOf(input, '.');
      if k < 0 then None else Some(input[..k] + Marker + input[k..])
  }

  /**
   * A derived path is the input path with the marker inserted at its last
   * `.`: the marker sits there, and taking it out gives the input back.
   */
  lemma DerivedPath(input: string, output: Option<string>)
    requires output.None? || output.value == []
    requires '.' in input
    ensures var r := OutputPath(input, output).value;
            var k := LastIndexOf(input, '.');
            && |r| == |input| + |Marker|
            && r[k..k + |Marker|] == Marker
            && r[..k] + r[k + |Marker|..] == input
  {
    var k := LastIndexOf(input, '.');
    var r := input[..k] + Marker + input[k..];
    assert OutputPath(input, output) == Some(r);
    assert r[..k] == input[..k];
    assert r[k + |Marker|..] == input[k..];
    assert input[..k] + input[k..] == input;
  }

  /** The derived path keeps the extension: its part from the last `.` on is the input's. */
  lemma ExtensionKept(input: string, output: Option<string>)
    requires output.None? || output.value == []
    requires '.' in input
    ensures var r := OutputPath(input, output).value;
            var k := LastIndexOf(input, '.');
            && LastIndexOf(r, '.') == k + |Marker|
            && r[LastIndexOf(r, '.')..] == input[k..]
  {
    var k := LastIndexOf(input, '.');
    var r := input[..k] + Marker + input[k..];
    assert OutputPath(input, output) == Some(r);
    assert forall j :: 0 < j < |input[k..]| ==> input[k..][j] == input[k + j];
    LastDotAfterMarker(input[..k], input[k..]);
    assert r[k + |Marker|..] == input[k..];
  }

  /** The marker holds no `.`, so the last `.` of the derived path is the input's, shifted by the marker. */
  lemma LastDotAfterMarker(stem: string, ext: string)
    requires ext != [] && ext[0] == '.'
    requires forall j :: 0 < j < |ext| ==> ext[j] != '.'
    ensures LastIndexOf(stem + Marker + ext, '.') == |stem| + |Marker|
  {
    var r := stem + Marker + ext;
    var k := |stem| + |Marker|;
    assert r[k..] == ext;
    forall j | k < j < |r|
      ensures r[j] != '.'
    {
      assert r[j] == ext[j - k];
    }
    LastIndexOfUnique(r, '.', k);
  }

  /** The only `c` with no `c` after it is the one `LastIndexOf` finds. */
  lemma LastIndexOfUnique(s: string, c: char, k: int)
    requires 0 <= k < |s| && s[k] == c
    requires forall j :: k < j < |s| ==> s[j] != c
    ensures LastIndexOf(s, c) == k
  {
  }
}
