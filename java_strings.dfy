/** The java.lang.String operations the modelled code relies on, with Java's edge cases. */
module JavaStrings {
  import opened Wrappers

  /** An unsigned byte, as written to a file. */
  newtype byte = b: int | 0 <= b < 0x100

  /** `s.startsWith(prefix)` */
  predicate StartsWith(s: string, prefix: string) {
    |prefix| <= |s| && s[..|prefix|] == prefix
  }

  /** `s.indexOf(c)`: the first position of `c`, or -1. */
  function IndexOf(s: string, c: char): (i: int)
    ensures -1 <= i < |s|
    ensures i == -1 <==> c !in s
    ensures 0 <= i ==> s[i] == c && c !in s[..i]
  {
    if |s| == 0 then -1
    else if s[0] == c then 0
    else
      var j := IndexOf(s[1..], c);
      assert s[1..][..if j < 0 then 0 else j] == s[1..1 + (if j < 0 then 0 else j)];
      if j < 0 then -1 else 1 + j
  }

  /** `s.lastIndexOf(c)`: the last position of `c`, or -1. */
  function LastIndexOf(s: string, c: char): (i: int)
    ensures -1 <= i < |s|
    ensures i == -1 <==> c !in s
    ensures 0 <= i ==> s[i] == c && c !in s[i + 1..]
  {
    if |s| == 0 then -1
    else if s[|s| - 1] == c then |s| - 1
    else
      var t := s[..|s| - 1];
      var j := LastIndexOf(t, c);
      assert s == t + [s[|s| - 1]];
      assert j >= 0 ==> s[j + 1..] == t[j + 1..] + [s[|s| - 1]];
      j
  }

  /** `s.substring(begin, end)`, which throws unless 0 <= begin <= end <= length. */
  function Substring(s: string, begin: int, end: int): (r: Result<string>)
    ensures r.Ok? <==> 0 <= begin <= end <= |s|
    ensures r.Ok? ==> |r.value| == end - begin
  {
    if 0 <= begin <= end <= |s| then Ok(s[begin..end]) else Err(StringIndexOutOfBounds)
  }

  /** `s.substring(begin)` */
  function SubstringFrom(s: string, begin: int): (r: Result<string>)
    ensures r.Ok? <==> 0 <= begin <= |s|
  {
    Substring(s, begin, |s|)
  }

  /** The pieces of `s` between occurrences of `sep`, empty pieces included. */
  function Pieces(s: string, sep: char): (r: seq<string>)
    ensures |r| >= 1
    ensures forall i :: 0 <= i < |r| ==> sep !in r[i]
    ensures Join(r, sep) == s
    decreases |s|
  {
    var i := IndexOf(s, sep);
    if i < 0 then [s]
    else
      var rest := Pieces(s[i + 1..], sep);
      assert [s[..i]] + rest == [s[..i]] + rest;
      assert s == s[..i] + [sep] + s[i + 1..];
      [s[..i]] + rest
  }

  /** The pieces joined back with `sep` between them. */
  function Join(parts: seq<string>, sep: char): string {
    if |parts| == 0 then ""
    else if |parts| == 1 then parts[0]
    else parts[0] + [sep] + Join(parts[1..], sep)
  }

  /** Drops trailing empty strings, as `String.split` with limit 0 does. */
  function DropTrailingEmpty(parts: seq<string>): (r: seq<string>)
    ensures |r| <= |parts| && r == parts[..|r|]
    ensures |r| > 0 ==> r[|r| - 1] != ""
    ensures forall i :: |r| <= i < |parts| ==> parts[i] == ""
  {
    if |parts| == 0 then []
    else if parts[|parts| - 1] == "" then DropTrailingEmpty(parts[..|parts| - 1])
    else parts
  }

  /**
   * `s.split(sep)` for a one-character separator that is not a regular-expression
   * metacharacter: the whole string when `sep` does not occur, otherwise the pieces
   * between occurrences without the trailing empty ones.
   */
  function Split(s: string, sep: char): (r: seq<string>)
    ensures sep !in s ==> r == [s]
    ensures forall i :: 0 <= i < |r| ==> sep !in r[i]
  {
    if sep !in s then [s]
    else
      var p := Pieces(s, sep);
      var r := DropTrailingEmpty(p);
      assert forall i :: 0 <= i < |r| ==> r[i] == p[i];
      r
  }

  /** The first separator of `first + [sep] + rest` is the one after `first`. */
  lemma IndexOfAfterFirst(first: string, rest: string, sep: char)
    requires sep !in first
    ensures IndexOf(first + [sep] + rest, sep) == |first|
  {
    var s := first + [sep] + rest;
    var i := IndexOf(s, sep);
    assert s[|first|] == sep;
    assert s[..|first|] == first;
  }

  lemma PiecesCons(first: string, rest: string, sep: char)
    requires sep !in first
    ensures Pieces(first + [sep] + rest, sep) == [first] + Pieces(rest, sep)
  {
    var s := first + [sep] + rest;
    IndexOfAfterFirst(first, rest, sep);
    assert s[..|first|] == first;
    assert s[|first| + 1..] == rest;
  }

  /** Splitting pieces joined with a separator they do not contain gives the pieces back. */
  lemma {:induction false} PiecesOfJoin(parts: seq<string>, sep: char)
    requires |parts| >= 1
    requires forall i :: 0 <= i < |parts| ==> sep !in parts[i]
    ensures Pieces(Join(parts, sep), sep) == parts
    decreases |parts|
  {
    if |parts| == 1 {
      assert IndexOf(parts[0], sep) == -1;
    } else {
      var rest := Join(parts[1..], sep);
      assert Join(parts, sep) == parts[0] + [sep] + rest;
      PiecesCons(parts[0], rest, sep);
      assert forall i :: 0 <= i < |parts[1..]| ==> sep !in parts[1..][i] by {
        forall i | 0 <= i < |parts[1..]|
          ensures sep !in parts[1..][i]
        {
          assert parts[1..][i] == parts[i + 1];
        }
      }
      PiecesOfJoin(parts[1..], sep);
      assert parts == [parts[0]] + parts[1..];
    }
  }

  /** `String.split` undoes joining when the last piece is not empty. */
  lemma SplitOfJoin(parts: seq<string>, sep: char)
    requires |parts| >= 2 && parts[|parts| - 1] != ""
    requires forall i :: 0 <= i < |parts| ==> sep !in parts[i]
    ensures Split(Join(parts, sep), sep) == parts
  {
    var s := Join(parts, sep);
    PiecesOfJoin(parts, sep);
    JoinHasSep(parts, sep);
  }

  lemma JoinHasSep(parts: seq<string>, sep: char)
    requires |parts| >= 2
    ensures sep in Join(parts, sep)
  {
    assert Join(parts, sep)[|parts[0]|] == sep;
  }

  /**
   * `s.regionMatches(toffset, other, ooffset, len)`: false when either region falls
   * outside its string, otherwise whether the two regions are equal.
   */
  predicate RegionMatches(s: string, toffset: int, other: string, ooffset: int, len: int) {
    if ooffset < 0 || toffset < 0 || toffset > |s| - len || ooffset > |other| - len then false
    else len <= 0 || s[toffset..toffset + len] == other[ooffset..ooffset + len]
  }

  /** The UTF-8 encoding of one Unicode scalar value. */
  function CharUtf8(c: char): (r: seq<byte>)
    ensures 1 <= |r| <= 4
    ensures (c as int) < 0x80 ==> r == [c as int as byte]
  {
    var cp := c as int;
    if cp < 0x80 then [cp as byte]
    else if cp < 0x800 then [(0xC0 + cp / 0x40) as byte, (0x80 + cp % 0x40) as byte]
    else if cp < 0x1_0000 then
      [(0xE0 + cp / 0x1000) as byte, (0x80 + cp / 0x40 % 0x40) as byte, (0x80 + cp % 0x40) as byte]
    else
      [(0xF0 + cp / 0x4_0000) as byte, (0x80 + cp / 0x1000 % 0x40) as byte,
       (0x80 + cp / 0x40 % 0x40) as byte, (0x80 + cp % 0x40) as byte]
  }

  /** `s.getBytes(StandardCharsets.UTF_8)` */
  function GetBytesUtf8(s: string): (r: seq<byte>)
    ensures |s| <= |r| <= 4 * |s|
  {
    if |s| == 0 then [] else CharUtf8(s[0]) + GetBytesUtf8(s[1..])
  }

  /** Concatenation regrouped. */
  lemma AppendAssociative<T>(a: seq<T>, b: seq<T>, c: seq<T>)
    ensures (a + b) + c == a + (b + c)
  {
  }
}
