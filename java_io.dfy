/** Reading a text file line by line, as `BufferedReader.readLine` does. */
module JavaIo {

  predicate IsTerminator(c: char) {
    c == '\n' || c == '\r'
  }

  predicate NoTerminator(s: string) {
    forall i :: 0 <= i < |s| ==> !IsTerminator(s[i])
  }

  /** Where the first line of `s` ends: its first line terminator, or the end of `s`. */
  function LineEnd(s: string): (i: nat)
    ensures i <= |s|
    ensures NoTerminator(s[..i])
    ensures i < |s| ==> IsTerminator(s[i])
  {
    if |s| == 0 then 0
    else if IsTerminator(s[0]) then 0
    else
      var j := LineEnd(s[1..]);
      assert s[..1 + j] == [s[0]] + s[1..][..j];
      1 + j
  }

  /**
   * The lines `readLine` returns until it returns `null`: a line ends at "\n", "\r" or
   * "\r\n", the terminator is not part of it, and a last line without a terminator still
   * counts.
   */
  function ReadLines(s: string): (r: seq<string>)
    ensures forall i :: 0 <= i < |r| ==> NoTerminator(r[i])
    decreases |s|
  {
    if |s| == 0 then []
    else
      var i := LineEnd(s);
      if i == |s| then [s]
      else
        var next := if s[i] == '\r' && i + 1 < |s| && s[i + 1] == '\n' then i + 2 else i + 1;
        [s[..i]] + ReadLines(s[next..])
  }

  lemma LineEndOfLine(line: string, rest: string)
    requires NoTerminator(line)
    ensures LineEnd(line + "\n" + rest) == |line|
  {
    if |line| > 0 {
      assert (line + "\n" + rest)[1..] == line[1..] + "\n" + rest;
      LineEndOfLine(line[1..], rest);
    }
  }

  /** A line written with a "\n" after it is read back as that line. */
  lemma ReadLinesOfLine(line: string, rest: string)
    requires NoTerminator(line)
    ensures ReadLines(line + "\n" + rest) == [line] + ReadLines(rest)
  {
    var s := line + "\n" + rest;
    LineEndOfLine(line, rest);
    assert s[..|line|] == line;
    assert s[|line| + 1..] == rest;
  }
}
