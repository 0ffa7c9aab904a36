/**
 * The parameter-name side file. For each method with named arguments it holds a header
 * line `classTo/methodFrom` followed directly by the method's descriptor, then one
 * `\tindex: name` line per named argument, largest index first. The reader turns the
 * file back into a table from header to argument slots, where an unnamed slot is `null`.
 */
module ParamNames {
  import opened Wrappers
  import opened JavaStrings
  import opened JavaIntegers
  import opened JavaIo

  /** One named argument: its slot and its name. */
  datatype NamedArg = NamedArg(index: int, name: string)

  /** A method with named arguments (`ArgOnlyMethod`): its from-name, its from-descriptor and its arguments as listed. */
  datatype ArgMethod = ArgMethod(from: string, fromDesc: string, args: seq<NamedArg>)

  /** A combined class: its to-name and the methods it has named arguments for (`allArgs`). */
  datatype ArgClass = ArgClass(to: string, methods: seq<ArgMethod>)

  /** The text `namedArgs()` holds for one argument. */
  function NamedArgText(a: NamedArg): string {
    IntToString(a.index) + ": " + a.name
  }

  function ArgLine(a: NamedArg): string {
    "\t" + NamedArgText(a)
  }

  function Header(c: ArgClass, m: ArgMethod): string {
    c.to + "/" + m.from + m.fromDesc
  }

  /** What one method contributes: its header and its arguments. */
  datatype ArgBlock = ArgBlock(header: string, args: seq<NamedArg>)

  function ClassBlocks(c: ArgClass): (r: seq<ArgBlock>)
    ensures |r| == |c.methods|
    ensures forall j :: 0 <= j < |r| ==> r[j] == ArgBlock(Header(c, c.methods[j]), c.methods[j].args)
  {
    seq(|c.methods|, j requires 0 <= j < |c.methods| => ArgBlock(Header(c, c.methods[j]), c.methods[j].args))
  }

  /** The blocks of all classes, in iteration order. */
  function Blocks(classes: seq<ArgClass>): seq<ArgBlock> {
    if |classes| == 0 then [] else ClassBlocks(classes[0]) + Blocks(classes[1..])
  }

  function ArgsText(args: seq<NamedArg>): string {
    if |args| == 0 then "" else ArgLine(args[0]) + "\n" + ArgsText(args[1..])
  }

  function ArgBlockText(b: ArgBlock): string {
    b.header + "\n" + ArgsText(b.args)
  }

  function ArgBlocksText(blocks: seq<ArgBlock>): string {
    if |blocks| == 0 then "" else ArgBlockText(blocks[0]) + ArgBlocksText(blocks[1..])
  }

  /** The text of the side file for `classes`. */
  function ParamText(classes: seq<ArgClass>): string {
    ArgBlocksText(Blocks(classes))
  }

  lemma {:induction false} ArgBlocksTextAppend(a: seq<ArgBlock>, b: seq<ArgBlock>)
    ensures ArgBlocksText(a + b) == ArgBlocksText(a) + ArgBlocksText(b)
  {
    if |a| == 0 {
      assert a + b == b;
    } else {
      assert (a + b)[1..] == a[1..] + b;
      ArgBlocksTextAppend(a[1..], b);
    }
  }

  // ---------------------------------------------------------------------------------------
  // The writer

  lemma ArgsTextFrom(args: seq<NamedArg>, k: nat)
    requires k < |args|
    ensures ArgsText(args[k..]) == "\t" + NamedArgText(args[k]) + "\n" + ArgsText(args[k + 1..])
  {
    assert args[k..][1..] == args[k + 1..];
  }

  lemma ArgBlocksTextFrom(blocks: seq<ArgBlock>, j: nat)
    requires j < |blocks|
    ensures ArgBlocksText(blocks[j..]) == ArgBlockText(blocks[j]) + ArgBlocksText(blocks[j + 1..])
  {
    assert blocks[j..][1..] == blocks[j + 1..];
  }

  lemma BlocksFrom(classes: seq<ArgClass>, i: nat)
    requires i < |classes|
    ensures ArgBlocksText(Blocks(classes[i..])) == ArgBlocksText(ClassBlocks(classes[i])) + ArgBlocksText(Blocks(classes[i + 1..]))
  {
    assert classes[i..][1..] == classes[i + 1..];
    ArgBlocksTextAppend(ClassBlocks(classes[i]), Blocks(classes[i + 1..]));
  }

  /** One method: the header line, then an argument line per named argument. */
  method WriteMethod(text: string, c: ArgClass, m: ArgMethod) returns (r: string)
    ensures r == text + ArgBlockText(ArgBlock(Header(c, m), m.args))
  {
    ghost var whole := text + ArgBlockText(ArgBlock(Header(c, m), m.args));
    r := text + (c.to + "/" + m.from + m.fromDesc) + "\n";
    assert m.args[0..] == m.args;
    AppendAssociative(text, Header(c, m) + "\n", ArgsText(m.args));
    for k := 0 to |m.args|
      invariant r + ArgsText(m.args[k..]) == whole
    {
      var line := "\t" + NamedArgText(m.args[k]) + "\n";
      ArgsTextFrom(m.args, k);
      AppendAssociative(r, line, ArgsText(m.args[k + 1..]));
      r := r + line;
    }
    assert m.args[|m.args|..] == [];
  }

  /** One class: its methods' blocks in order. */
  method WriteClass(text: string, c: ArgClass) returns (r: string)
    ensures r == text + ArgBlocksText(ClassBlocks(c))
  {
    r := text;
    ghost var blocks := ClassBlocks(c);
    for j := 0 to |c.methods|
      invariant r + ArgBlocksText(blocks[j..]) == text + ArgBlocksText(blocks)
    {
      ArgBlocksTextFrom(blocks, j);
      AppendAssociative(r, ArgBlockText(blocks[j]), ArgBlocksText(blocks[j + 1..]));
      r := WriteMethod(r, c, c.methods[j]);
    }
    assert blocks[|c.methods|..] == [];
  }

  /** The side-file writer: every class's blocks in iteration order, each line ended by "\n". */
  method WriteParams(classes: seq<ArgClass>) returns (text: string)
    ensures text == ParamText(classes)
  {
    text := "";
    for i := 0 to |classes|
      invariant text + ArgBlocksText(Blocks(classes[i..])) == ParamText(classes)
    {
      BlocksFrom(classes, i);
      AppendAssociative(text, ArgBlocksText(ClassBlocks(classes[i])), ArgBlocksText(Blocks(classes[i + 1..])));
      text := WriteClass(text, classes[i]);
    }
    assert classes[|classes|..] == [];
  }

  // ---------------------------------------------------------------------------------------
  // The reader

  /** For each header, the argument slots; `None` is a slot no line named. */
  type ParamTable = map<string, seq<Option<string>>>

  /** `new String[n]` */
  function Unnamed(n: nat): (r: seq<Option<string>>)
    ensures |r| == n && forall j :: 0 <= j < n ==> r[j] == None
  {
    seq(n, _ => None)
  }

  /**
   * A `\tindex: name` line: the index is the text between the tab and the first ':', the
   * name what follows the ':' and one more character.
   */
  function ParseArgLine(line: string): (r: Result<NamedArg>)
    ensures IndexOf(line, ':') < 1 ==> r == Err(StringIndexOutOfBounds)
    ensures r.Ok? ==> IsInt(r.value.index)
  {
    var split := IndexOf(line, ':');
    var digits :- Substring(line, 1, split);
    var number :- ParseInt(digits);
    var name :- SubstringFrom(line, split + 2);
    Ok(NamedArg(number, name))
  }

  /**
   * Stores an argument under `key`. The first one stored for a key makes its slots, one
   * more than its index (computed in `int`); storing outside the slots throws.
   */
  function Store(table: ParamTable, key: string, arg: NamedArg): (r: Result<ParamTable>)
    requires IsInt(arg.index)
    ensures key !in table && 0 <= arg.index < INT_MAX ==>
              r == Ok(table[key := Unnamed(arg.index + 1)[arg.index := Some(arg.name)]])
    ensures key !in table && (arg.index < -1 || arg.index == INT_MAX) ==> r == Err(NegativeArraySize)
    ensures key !in table && arg.index == -1 ==> r == Err(ArrayIndexOutOfBounds)
    ensures key in table ==>
              r == if 0 <= arg.index < |table[key]| then Ok(table[key := table[key][arg.index := Some(arg.name)]])
                   else Err(ArrayIndexOutOfBounds)
  {
    var slots :- if key in table then Ok(table[key])
                 else if Wrap32(arg.index + 1) < 0 then Err(NegativeArraySize)
                 else Ok(Unnamed(Wrap32(arg.index + 1)));
    if 0 <= arg.index < |slots| then Ok(table[key := slots[arg.index := Some(arg.name)]])
    else Err(ArrayIndexOutOfBounds)
  }

  /**
   * The reading loop from `current` (`None` before the first line): a first line or a line
   * not starting with a tab becomes the current header, and any other line names an
   * argument of the current header.
   */
  function ParseFrom(lines: seq<string>, current: Option<string>, table: ParamTable): Result<ParamTable>
    decreases |lines|
  {
    if |lines| == 0 then Ok(table)
    else
      var line := lines[0];
      if current.None? then ParseFrom(lines[1..], Some(line), table)
      else if |line| == 0 then Err(StringIndexOutOfBounds)
      else if line[0] != '\t' then ParseFrom(lines[1..], Some(line), table)
      else
        var arg :- ParseArgLine(line);
        var next :- Store(table, current.value, arg);
        ParseFrom(lines[1..], current, next)
  }

  /** One line of the reading loop. */
  lemma ParseFromStep(lines: seq<string>, current: Option<string>, table: ParamTable)
    requires |lines| > 0
    ensures ParseFrom(lines, current, table) ==
            if current.None? || (|lines[0]| > 0 && lines[0][0] != '\t') then ParseFrom(lines[1..], Some(lines[0]), table)
            else if |lines[0]| == 0 then Err(StringIndexOutOfBounds)
            else if ParseArgLine(lines[0]).Err? then Err(ParseArgLine(lines[0]).error)
            else if Store(table, current.value, ParseArgLine(lines[0]).value).Err? then Err(Store(table, current.value, ParseArgLine(lines[0]).value).error)
            else ParseFrom(lines[1..], current, Store(table, current.value, ParseArgLine(lines[0]).value).value)
  {
  }

  function ParseParams(lines: seq<string>): Result<ParamTable> {
    ParseFrom(lines, None, map[])
  }

  /** The side-file reader, over the lines `readLine` returns. */
  method ReadParams(lines: seq<string>) returns (r: Result<ParamTable>)
    ensures r == ParseParams(lines)
  {
    var table: ParamTable := map[];
    var current: Option<string> := None;
    var i := 0;
    while i < |lines|
      invariant i <= |lines|
      invariant ParseFrom(lines[i..], current, table) == ParseParams(lines)
    {
      ParseFromStep(lines[i..], current, table);
      assert lines[i..][1..] == lines[i + 1..];
      var line := lines[i];
      if current.None? || (|line| > 0 && line[0] != '\t') {
        current := Some(line);
      } else if |line| == 0 {
        return Err(StringIndexOutOfBounds);
      } else {
        var arg := ParseArgLine(line);
        if arg.Err? {
          return Err(arg.error);
        }
        var next := Store(table, current.value, arg.value);
        if next.Err? {
          return Err(next.error);
        }
        table := next.value;
      }
      i := i + 1;
    }
    assert lines[|lines|..] == [];
    r := Ok(table);
  }

  // ---------------------------------------------------------------------------------------
  // Reading back what was written

  /** Each argument slot once, largest first, each a non-negative `int` below the largest. */
  predicate GoodArgs(args: seq<NamedArg>) {
    && (forall i :: 0 <= i < |args| ==> 0 <= args[i].index < INT_MAX && NoTerminator(args[i].name))
    && (forall i, j :: 0 <= i < j < |args| ==> args[i].index > args[j].index)
  }

  /** A header line the reader takes as a header. */
  predicate GoodHeader(h: string) {
    |h| > 0 && h[0] != '\t' && NoTerminator(h)
  }

  /** The blocks a side file is read back from: well-formed, and no header twice. */
  predicate GoodBlocks(blocks: seq<ArgBlock>) {
    && (forall i :: 0 <= i < |blocks| ==> GoodHeader(blocks[i].header) && GoodArgs(blocks[i].args))
    && (forall i, j :: 0 <= i < j < |blocks| ==> blocks[i].header != blocks[j].header)
  }

  /** The slots after storing `args` in order. */
  function Fill(slots: seq<Option<string>>, args: seq<NamedArg>): seq<Option<string>>
    decreases |args|
  {
    if |args| == 0 then slots
    else if 0 <= args[0].index < |slots| then Fill(slots[args[0].index := Some(args[0].name)], args[1..])
    else Fill(slots, args[1..])
  }

  /** The slots a method's arguments are read back into. */
  function SlotsOf(args: seq<NamedArg>): seq<Option<string>>
    requires |args| > 0 && args[0].index >= 0
  {
    Fill(Unnamed(args[0].index + 1), args)
  }

  /** The table after one block: its slots under its header, when it has arguments. */
  function NextTable(b: ArgBlock, table: ParamTable): ParamTable
    requires GoodArgs(b.args)
  {
    if |b.args| == 0 then table else table[b.header := SlotsOf(b.args)]
  }

  /** The table the blocks are read back into. */
  function TableOf(blocks: seq<ArgBlock>, table: ParamTable): ParamTable
    requires GoodBlocks(blocks)
  {
    if |blocks| == 0 then table
    else
      assert GoodBlocks(blocks[1..]) by {
        forall i, j | 0 <= i < j < |blocks| - 1
          ensures blocks[1..][i].header != blocks[1..][j].header
        {
          assert blocks[1..][i] == blocks[i + 1] && blocks[1..][j] == blocks[j + 1];
        }
      }
      TableOf(blocks[1..], NextTable(blocks[0], table))
  }

  /** The lines of the blocks' text. */
  function BlockLines(blocks: seq<ArgBlock>): seq<string> {
    if |blocks| == 0 then [] else [blocks[0].header] + ArgLines(blocks[0].args) + BlockLines(blocks[1..])
  }

  function ArgLines(args: seq<NamedArg>): (r: seq<string>)
    ensures |r| == |args| && forall i :: 0 <= i < |args| ==> r[i] == ArgLine(args[i])
  {
    if |args| == 0 then [] else [ArgLine(args[0])] + ArgLines(args[1..])
  }

  lemma IntToStringNoColon(n: nat)
    ensures |IntToString(n)| > 0 && forall i :: 0 <= i < |IntToString(n)| ==> IsDigit(IntToString(n)[i])
  {
  }

  lemma ArgLineNoTerminator(a: NamedArg)
    requires 0 <= a.index && NoTerminator(a.name)
    ensures NoTerminator(ArgLine(a))
  {
    var digits := IntToString(a.index);
    IntToStringNoColon(a.index);
    var line := ArgLine(a);
    assert line == "\t" + digits + ": " + a.name;
    forall i | 0 <= i < |line|
      ensures !IsTerminator(line[i])
    {
      if 1 <= i < 1 + |digits| {
        assert line[i] == digits[i - 1];
      } else if 3 + |digits| <= i {
        assert line[i] == a.name[i - 3 - |digits|];
      }
    }
  }

  /** The first `c` is the one after a prefix without `c`. */
  lemma {:induction false} IndexOfAfter(p: string, c: char, suffix: string)
    requires c !in p
    ensures IndexOf(p + [c] + suffix, c) == |p|
  {
    if |p| > 0 {
      assert (p + [c] + suffix)[1..] == p[1..] + [c] + suffix;
      IndexOfAfter(p[1..], c, suffix);
    }
  }

  /** The first ':' of an argument line is the one after the index. */
  lemma ArgLineSplit(a: NamedArg)
    requires 0 <= a.index
    ensures IndexOf(ArgLine(a), ':') == 1 + |IntToString(a.index)|
  {
    var digits := IntToString(a.index);
    var p := "\t" + digits;
    assert ArgLine(a) == p + [':'] + (" " + a.name);
    assert ':' !in p by {
      IntToStringNoColon(a.index);
      forall i | 0 <= i < |p|
        ensures p[i] != ':'
      {
        if i > 0 {
          assert p[i] == digits[i - 1];
        }
      }
    }
    IndexOfAfter(p, ':', " " + a.name);
  }

  lemma ArgLineParts(a: NamedArg)
    ensures var n := |IntToString(a.index)|;
            |ArgLine(a)| == n + 3 + |a.name| &&
            ArgLine(a)[1..1 + n] == IntToString(a.index) && ArgLine(a)[n + 3..|ArgLine(a)|] == a.name
  {
  }

  /** An argument line reads back as the argument. */
  lemma ParseArgLineOfArgLine(a: NamedArg)
    requires 0 <= a.index <= INT_MAX
    ensures ParseArgLine(ArgLine(a)) == Ok(a)
  {
    ArgLineSplit(a);
    ArgLineParts(a);
    ParseIntOfIntToString(a.index);
  }

  lemma GoodArgsTail(args: seq<NamedArg>)
    requires |args| > 0 && GoodArgs(args)
    ensures GoodArgs(args[1..])
  {
    forall i, j | 0 <= i < j < |args| - 1
      ensures args[1..][i].index > args[1..][j].index
    {
      assert args[1..][i] == args[i + 1] && args[1..][j] == args[j + 1];
    }
  }

  lemma ArgsTextCons(args: seq<NamedArg>, rest: string)
    requires |args| > 0
    ensures ArgsText(args) + rest == ArgLine(args[0]) + "\n" + (ArgsText(args[1..]) + rest)
  {
    AppendAssociative(ArgLine(args[0]) + "\n", ArgsText(args[1..]), rest);
  }

  lemma {:induction false} ReadArgsText(args: seq<NamedArg>, rest: string)
    requires GoodArgs(args)
    ensures ReadLines(ArgsText(args) + rest) == ArgLines(args) + ReadLines(rest)
  {
    if |args| == 0 {
      assert ArgsText(args) + rest == rest;
    } else {
      var line := ArgLine(args[0]);
      var tail := ArgsText(args[1..]) + rest;
      GoodArgsTail(args);
      calc {
        ReadLines(ArgsText(args) + rest);
        { ArgsTextCons(args, rest); }
        ReadLines(line + "\n" + tail);
        { ArgLineNoTerminator(args[0]); ReadLinesOfLine(line, tail); }
        [line] + ReadLines(tail);
        { ReadArgsText(args[1..], rest); }
        [line] + (ArgLines(args[1..]) + ReadLines(rest));
        { AppendAssociative([line], ArgLines(args[1..]), ReadLines(rest)); }
        ArgLines(args) + ReadLines(rest);
      }
    }
  }

  lemma GoodBlocksTail(blocks: seq<ArgBlock>)
    requires |blocks| > 0 && GoodBlocks(blocks)
    ensures GoodBlocks(blocks[1..])
    ensures forall i :: 0 <= i < |blocks| - 1 ==> blocks[1..][i].header != blocks[0].header
  {
    forall i, j | 0 <= i < j < |blocks| - 1
      ensures blocks[1..][i].header != blocks[1..][j].header
    {
      assert blocks[1..][i] == blocks[i + 1] && blocks[1..][j] == blocks[j + 1];
    }
    forall i | 0 <= i < |blocks| - 1
      ensures blocks[1..][i].header != blocks[0].header
    {
      assert blocks[1..][i] == blocks[i + 1];
    }
  }

  /** The lines of the file are the blocks' lines. */
  lemma ArgBlocksTextCons(blocks: seq<ArgBlock>)
    requires |blocks| > 0
    ensures ArgBlocksText(blocks) == blocks[0].header + "\n" + (ArgsText(blocks[0].args) + ArgBlocksText(blocks[1..]))
  {
    AppendAssociative(blocks[0].header + "\n", ArgsText(blocks[0].args), ArgBlocksText(blocks[1..]));
  }

  lemma BlockLinesCons(blocks: seq<ArgBlock>)
    requires |blocks| > 0
    ensures BlockLines(blocks) == [blocks[0].header] + (ArgLines(blocks[0].args) + BlockLines(blocks[1..]))
  {
    AppendAssociative([blocks[0].header], ArgLines(blocks[0].args), BlockLines(blocks[1..]));
  }

  lemma {:induction false} ReadArgBlocksText(blocks: seq<ArgBlock>)
    requires GoodBlocks(blocks)
    ensures ReadLines(ArgBlocksText(blocks)) == BlockLines(blocks)
  {
    if |blocks| > 0 {
      var b := blocks[0];
      GoodBlocksTail(blocks);
      var tail := ArgBlocksText(blocks[1..]);
      calc {
        ReadLines(ArgBlocksText(blocks));
        { ArgBlocksTextCons(blocks); }
        ReadLines(b.header + "\n" + (ArgsText(b.args) + tail));
        { ReadLinesOfLine(b.header, ArgsText(b.args) + tail); }
        [b.header] + ReadLines(ArgsText(b.args) + tail);
        { ReadArgsText(b.args, tail); }
        [b.header] + (ArgLines(b.args) + ReadLines(tail));
        { ReadArgBlocksText(blocks[1..]); }
        [b.header] + (ArgLines(b.args) + BlockLines(blocks[1..]));
        { BlockLinesCons(blocks); }
        BlockLines(blocks);
      }
    }
  }

  lemma ArgLinesCons(args: seq<NamedArg>, rest: seq<string>)
    requires |args| > 0
    ensures ArgLines(args) + rest == [ArgLine(args[0])] + (ArgLines(args[1..]) + rest)
  {
    var first := [ArgLine(args[0])];
    var others := ArgLines(args[1..]);
    assert ArgLines(args) == first + others;
    AppendAssociative(first, others, rest);
  }

  lemma FillCons(slots: seq<Option<string>>, args: seq<NamedArg>)
    requires |args| > 0 && 0 <= args[0].index < |slots|
    ensures Fill(slots, args) == Fill(slots[args[0].index := Some(args[0].name)], args[1..])
  {
  }

  /** Every later argument's index is below the first's. */
  lemma GoodArgsBelowFirst(args: seq<NamedArg>)
    requires GoodArgs(args) && |args| > 0
    ensures forall i :: 0 <= i < |args[1..]| ==> 0 <= args[1..][i].index < args[0].index
  {
    forall i | 0 <= i < |args[1..]|
      ensures 0 <= args[1..][i].index < args[0].index
    {
      assert args[1..][i] == args[i + 1];
    }
  }

  /** A header line becomes the current header. */
  lemma ParseHeaderLine(line: string, rest: seq<string>, current: Option<string>, table: ParamTable)
    requires GoodHeader(line)
    ensures ParseFrom([line] + rest, current, table) == ParseFrom(rest, Some(line), table)
  {
    assert ([line] + rest)[0] == line;
    assert ([line] + rest)[1..] == rest;
  }

  /** An argument line stores its argument under the current header. */
  lemma ParseArgLineStep(a: NamedArg, rest: seq<string>, h: string, table: ParamTable)
    requires 0 <= a.index < INT_MAX
    ensures Store(table, h, a).Ok? ==> ParseFrom([ArgLine(a)] + rest, Some(h), table) == ParseFrom(rest, Some(h), Store(table, h, a).value)
  {
    ParseArgLineOfArgLine(a);
    assert ([ArgLine(a)] + rest)[0] == ArgLine(a);
    assert ([ArgLine(a)] + rest)[1..] == rest;
  }

  /** Arguments of a header already in the table are stored in order. */
  lemma {:induction false} ParseArgLines(args: seq<NamedArg>, rest: seq<string>, h: string, table: ParamTable)
    requires h in table
    requires forall i :: 0 <= i < |args| ==> 0 <= args[i].index < |table[h]| && args[i].index < INT_MAX
    ensures ParseFrom(ArgLines(args) + rest, Some(h), table) == ParseFrom(rest, Some(h), table[h := Fill(table[h], args)])
  {
    if |args| == 0 {
      assert ArgLines(args) + rest == rest;
      assert table[h := table[h]] == table;
    } else {
      var a := args[0];
      var tail := ArgLines(args[1..]) + rest;
      ArgLinesCons(args, rest);
      var next := table[h := table[h][a.index := Some(a.name)]];
      ParseArgLineStep(a, tail, h, table);
      assert forall i :: 0 <= i < |args[1..]| ==> 0 <= args[1..][i].index < |next[h]| && args[1..][i].index < INT_MAX by {
        forall i | 0 <= i < |args[1..]|
          ensures 0 <= args[1..][i].index < |next[h]| && args[1..][i].index < INT_MAX
        {
          assert args[1..][i] == args[i + 1];
        }
      }
      ParseArgLines(args[1..], rest, h, next);
      FillCons(table[h], args);
      UpdateTwice(table, h, table[h][a.index := Some(a.name)], Fill(next[h], args[1..]));
    }
  }

  /** The first argument of a header not yet in the table sizes its slots. */
  lemma ParseFirstArg(args: seq<NamedArg>, rest: seq<string>, h: string, table: ParamTable)
    requires GoodArgs(args) && |args| > 0 && h !in table
    ensures ParseFrom(ArgLines(args) + rest, Some(h), table) ==
            ParseFrom(ArgLines(args[1..]) + rest, Some(h), table[h := Unnamed(args[0].index + 1)[args[0].index := Some(args[0].name)]])
  {
    ArgLinesCons(args, rest);
    ParseArgLineStep(args[0], ArgLines(args[1..]) + rest, h, table);
  }

  /** The arguments of a header not yet in the table make its slots. */
  lemma ParseNewArgs(args: seq<NamedArg>, rest: seq<string>, h: string, table: ParamTable)
    requires GoodArgs(args) && |args| > 0 && h !in table
    ensures ParseFrom(ArgLines(args) + rest, Some(h), table) == ParseFrom(rest, Some(h), table[h := SlotsOf(args)])
  {
    var a := args[0];
    var slots := Unnamed(a.index + 1)[a.index := Some(a.name)];
    ParseFirstArg(args, rest, h, table);
    GoodArgsBelowFirst(args);
    ParseArgLines(args[1..], rest, h, table[h := slots]);
    FillCons(Unnamed(a.index + 1), args);
    UpdateTwice(table, h, slots, Fill(slots, args[1..]));
  }

  /** A block whose header is new adds its slots under the header. */
  lemma ParseBlock(b: ArgBlock, rest: seq<string>, current: Option<string>, table: ParamTable)
    requires GoodHeader(b.header) && GoodArgs(b.args) && b.header !in table
    ensures ParseFrom([b.header] + ArgLines(b.args) + rest, current, table) ==
            ParseFrom(rest, Some(b.header), NextTable(b, table))
  {
    AppendAssociative([b.header], ArgLines(b.args), rest);
    ParseHeaderLine(b.header, ArgLines(b.args) + rest, current, table);
    if |b.args| > 0 {
      ParseNewArgs(b.args, rest, b.header, table);
    } else {
      assert ArgLines(b.args) + rest == rest;
    }
  }

  /** Reading the blocks' lines builds their table. */
  lemma {:induction false} ParseBlockLines(blocks: seq<ArgBlock>, current: Option<string>, table: ParamTable)
    requires GoodBlocks(blocks)
    requires forall i :: 0 <= i < |blocks| ==> blocks[i].header !in table
    ensures ParseFrom(BlockLines(blocks), current, table) == Ok(TableOf(blocks, table))
  {
    if |blocks| > 0 {
      var b := blocks[0];
      GoodBlocksTail(blocks);
      var next := NextTable(b, table);
      assert BlockLines(blocks) == [b.header] + ArgLines(b.args) + BlockLines(blocks[1..]);
      ParseBlock(b, BlockLines(blocks[1..]), current, table);
      ParseBlockLines(blocks[1..], Some(b.header), next);
    }
  }

  /** Round trip: reading the written side file gives each written method's slots under its header. */
  lemma ReadWrittenParams(classes: seq<ArgClass>)
    requires GoodBlocks(Blocks(classes))
    ensures ParseParams(ReadLines(ParamText(classes))) == Ok(TableOf(Blocks(classes), map[]))
  {
    ReadArgBlocksText(Blocks(classes));
    ParseBlockLines(Blocks(classes), None, map[]);
  }

  /** Storing arguments names their slots and leaves every other slot as it was. */
  lemma {:induction false} FillNames(slots: seq<Option<string>>, args: seq<NamedArg>)
    requires GoodArgs(args)
    requires forall i :: 0 <= i < |args| ==> args[i].index < |slots|
    ensures |Fill(slots, args)| == |slots|
    ensures forall i :: 0 <= i < |args| ==> Fill(slots, args)[args[i].index] == Some(args[i].name)
    ensures forall j :: 0 <= j < |slots| && (forall i :: 0 <= i < |args| ==> args[i].index != j) ==> Fill(slots, args)[j] == slots[j]
    decreases |args|
  {
    if |args| > 0 {
      var a := args[0];
      var s' := slots[a.index := Some(a.name)];
      assert GoodArgs(args[1..]) by {
        forall i, j | 0 <= i < j < |args| - 1
          ensures args[1..][i].index > args[1..][j].index
        {
          assert args[1..][i] == args[i + 1] && args[1..][j] == args[j + 1];
        }
      }
      FillNames(s', args[1..]);
      forall i | 0 <= i < |args|
        ensures Fill(slots, args)[args[i].index] == Some(args[i].name)
      {
        if i > 0 {
          assert args[i] == args[1..][i - 1];
        } else {
          assert forall k :: 0 <= k < |args[1..]| ==> args[1..][k].index != a.index by {
            forall k | 0 <= k < |args[1..]|
              ensures args[1..][k].index != a.index
            {
              assert args[1..][k] == args[k + 1];
            }
          }
        }
      }
      forall j | 0 <= j < |slots| && (forall i :: 0 <= i < |args| ==> args[i].index != j)
        ensures Fill(slots, args)[j] == slots[j]
      {
        assert a.index != j;
        assert forall k :: 0 <= k < |args[1..]| ==> args[1..][k].index != j by {
          forall k | 0 <= k < |args[1..]|
            ensures args[1..][k].index != j
          {
            assert args[1..][k] == args[k + 1];
          }
        }
      }
    }
  }

  /**
   * What a method's slots hold: one more slot than its first (largest) index, its names
   * in their slots, and `null` in every slot no argument names.
   */
  lemma SlotsOfNames(args: seq<NamedArg>)
    requires |args| > 0 && GoodArgs(args)
    ensures |SlotsOf(args)| == args[0].index + 1
    ensures forall i :: 0 <= i < |args| ==> SlotsOf(args)[args[i].index] == Some(args[i].name)
    ensures forall j :: 0 <= j < |SlotsOf(args)| && (forall i :: 0 <= i < |args| ==> args[i].index != j) ==> SlotsOf(args)[j] == None
  {
    forall i | 0 <= i < |args|
      ensures args[i].index < args[0].index + 1
    {
      if i > 0 {
        assert args[0].index > args[i].index;
      }
    }
    FillNames(Unnamed(args[0].index + 1), args);
  }

  /** One block's step of `TableOf`, and what the rest of the blocks still satisfy. */
  lemma TableOfStep(blocks: seq<ArgBlock>, table: ParamTable)
    requires GoodBlocks(blocks) && |blocks| > 0
    requires forall i :: 0 <= i < |blocks| ==> blocks[i].header !in table
    ensures GoodBlocks(blocks[1..])
    ensures var next := NextTable(blocks[0], table);
            && (forall i :: 0 <= i < |blocks[1..]| ==> blocks[1..][i].header !in next)
            && TableOf(blocks, table) == TableOf(blocks[1..], next)
  {
    GoodBlocksTail(blocks);
    forall i | 0 <= i < |blocks[1..]|
      ensures blocks[1..][i].header !in table
    {
      assert blocks[1..][i] == blocks[i + 1];
    }
  }

  lemma {:induction false} TableOfKeeps(blocks: seq<ArgBlock>, table: ParamTable)
    requires GoodBlocks(blocks)
    requires forall i :: 0 <= i < |blocks| ==> blocks[i].header !in table
    ensures forall h :: h in table ==> h in TableOf(blocks, table) && TableOf(blocks, table)[h] == table[h]
  {
    if |blocks| > 0 {
      TableOfStep(blocks, table);
      TableOfKeeps(blocks[1..], NextTable(blocks[0], table));
    }
  }

  lemma {:induction false} TableOfHas(blocks: seq<ArgBlock>, table: ParamTable)
    requires GoodBlocks(blocks)
    requires forall i :: 0 <= i < |blocks| ==> blocks[i].header !in table
    ensures forall i :: 0 <= i < |blocks| && |blocks[i].args| > 0 ==>
              blocks[i].header in TableOf(blocks, table) && TableOf(blocks, table)[blocks[i].header] == SlotsOf(blocks[i].args)
  {
    if |blocks| > 0 {
      var rest := blocks[1..];
      var next := NextTable(blocks[0], table);
      TableOfStep(blocks, table);
      TableOfHas(rest, next);
      TableOfKeeps(rest, next);
      forall i | 0 <= i < |blocks| && |blocks[i].args| > 0
        ensures blocks[i].header in TableOf(blocks, table) && TableOf(blocks, table)[blocks[i].header] == SlotsOf(blocks[i].args)
      {
        if i > 0 {
          assert blocks[i] == rest[i - 1];
        }
      }
    }
  }

  lemma {:induction false} TableOfOnly(blocks: seq<ArgBlock>, table: ParamTable)
    requires GoodBlocks(blocks)
    requires forall i :: 0 <= i < |blocks| ==> blocks[i].header !in table
    ensures forall h :: h in TableOf(blocks, table) ==>
              h in table || exists i :: 0 <= i < |blocks| && |blocks[i].args| > 0 && blocks[i].header == h
  {
    if |blocks| > 0 {
      var b := blocks[0];
      var rest := blocks[1..];
      var next := NextTable(b, table);
      TableOfStep(blocks, table);
      TableOfOnly(rest, next);
      forall h | h in TableOf(blocks, table)
        ensures h in table || exists i :: 0 <= i < |blocks| && |blocks[i].args| > 0 && blocks[i].header == h
      {
        if h !in next {
          var i :| 0 <= i < |rest| && |rest[i].args| > 0 && rest[i].header == h;
          assert blocks[i + 1] == rest[i];
        } else if h !in table {
          assert h == b.header && |b.args| > 0;
        }
      }
    }
  }

  /** The table holds exactly the headers of the blocks with arguments, each with its slots. */
  lemma TableOfEntries(blocks: seq<ArgBlock>, table: ParamTable)
    requires GoodBlocks(blocks)
    requires forall i :: 0 <= i < |blocks| ==> blocks[i].header !in table
    ensures forall i :: 0 <= i < |blocks| && |blocks[i].args| > 0 ==>
              blocks[i].header in TableOf(blocks, table) && TableOf(blocks, table)[blocks[i].header] == SlotsOf(blocks[i].args)
    ensures forall h :: h in TableOf(blocks, table) ==>
              h in table || exists i :: 0 <= i < |blocks| && |blocks[i].args| > 0 && blocks[i].header == h
    ensures forall h :: h in table ==> h in TableOf(blocks, table) && TableOf(blocks, table)[h] == table[h]
  {
    TableOfHas(blocks, table);
    TableOfOnly(blocks, table);
    TableOfKeeps(blocks, table);
  }
}
