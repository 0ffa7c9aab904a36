/**
 * The Alpha-era MCP converter: reads the `.class_map`, `.field_map` and `.method_map`
 * directives of `minecraft.rgs` together with the names of `fields.csv` and `methods.csv`,
 * builds one record per obfuscated class and writes them as tiny rows.
 *
 * The converter's `ClassMapping` records are created inside the call and never escape it,
 * so they are modelled as values in the `mappings` map; appending to a record's list is a
 * map update.
 */
module AlphaMcpConverter {
  import opened Wrappers
  import opened HashMapOrder
  import opened JavaStrings
  import opened TinyRows

  /** The package that classes without one of their own are placed in. */
  const DEFAULT_PACKAGE: string := "net/minecraft/src/"
  const MINECRAFT_PREFIX: string := "net/minecraft/"

  datatype MemberMapping = MemberMapping(notch: string, desc: string, srg: string, named: string)

  datatype ClassMapping = ClassMapping(notch: string, mcp: string, fields: seq<MemberMapping>, methods: seq<MemberMapping>)

  /** What the converter reads besides the RGS file. */
  datatype Tables = Tables(
    /** `owner/name` to descriptor, from scanning the fields of the game jar */
    fieldDescs: map<string, string>,
    /** srg field name to MCP name, from `fields.csv` */
    fieldNames: map<string, string>,
    /** srg method name to MCP name, from `methods.csv` */
    methodNames: map<string, string>)

  /** A class outside any package, or one inside `net/minecraft/`. */
  predicate ValidClass(clazz: string) {
    '/' !in clazz || StartsWith(clazz, MINECRAFT_PREFIX)
  }

  // ---------------------------------------------------------------------------------------
  // The CSV name tables

  /** `lines().skip(n)` */
  function Skip(lines: seq<string>, n: nat): (r: seq<string>)
    ensures |lines| <= n ==> r == []
    ensures n < |lines| ==> r == lines[n..]
  {
    if |lines| <= n then [] else lines[n..]
  }

  /**
   * The entry a CSV row contributes: the row is split on ',' and taken when it has more than
   * `valCol` columns and the value column is not `*`.
   */
  function RowEntry(row: string, keyCol: nat, valCol: nat): (e: Option<(string, string)>)
    requires keyCol < valCol
    ensures e.Some? ==> e.value.1 != "*"
  {
    var cols := Split(row, ',');
    if |cols| > valCol && cols[valCol] != "*" then Some((cols[keyCol], cols[valCol])) else None
  }

  /** The table that the rows build, a later row for a key replacing an earlier one. */
  function TableOf(rows: seq<string>, keyCol: nat, valCol: nat): (t: map<string, string>)
    requires keyCol < valCol
    ensures forall k :: k in t ==> t[k] != "*"
  {
    if |rows| == 0 then map[]
    else
      var t := TableOf(rows[..|rows| - 1], keyCol, valCol);
      var e := RowEntry(rows[|rows| - 1], keyCol, valCol);
      if e.Some? then t[e.value.0 := e.value.1] else t
  }

  /** The table a CSV file builds; an absent file builds an empty one. */
  function CsvTable(lines: Option<seq<string>>, skip: nat, keyCol: nat, valCol: nat): map<string, string>
    requires keyCol < valCol
  {
    if lines.None? then map[] else TableOf(Skip(lines.value, skip), keyCol, valCol)
  }

  /** The value of a key is the one of the last taken row carrying that key. */
  lemma {:induction false} TableLastWins(rows: seq<string>, keyCol: nat, valCol: nat, i: nat)
    requires keyCol < valCol && i < |rows| && RowEntry(rows[i], keyCol, valCol).Some?
    requires forall j :: i < j < |rows| && RowEntry(rows[j], keyCol, valCol).Some? ==>
               RowEntry(rows[j], keyCol, valCol).value.0 != RowEntry(rows[i], keyCol, valCol).value.0
    ensures var e := RowEntry(rows[i], keyCol, valCol).value;
            e.0 in TableOf(rows, keyCol, valCol) && TableOf(rows, keyCol, valCol)[e.0] == e.1
  {
    var n := |rows| - 1;
    var e := RowEntry(rows[i], keyCol, valCol).value;
    var last := RowEntry(rows[n], keyCol, valCol);
    var t := TableOf(rows[..n], keyCol, valCol);
    TableOfLast(rows, keyCol, valCol);
    if i < n {
      LastWinsPrefix(rows, keyCol, valCol, i);
      TableLastWins(rows[..n], keyCol, valCol, i);
      assert rows[..n][i] == rows[i];
      UpdateKeeps(t, last, e);
    } else {
      assert last == Some(e);
    }
  }

  /** Updating a map by an entry for another key, or by none, keeps the entry `e`. */
  lemma UpdateKeeps(t: map<string, string>, last: Option<(string, string)>, e: (string, string))
    requires e.0 in t && t[e.0] == e.1 && (last.Some? ==> last.value.0 != e.0)
    ensures var u := if last.Some? then t[last.value.0 := last.value.1] else t;
            e.0 in u && u[e.0] == e.1
  {
  }

  /** The table of non-empty rows is the table of all but the last, updated by the last. */
  lemma TableOfLast(rows: seq<string>, keyCol: nat, valCol: nat)
    requires keyCol < valCol && |rows| > 0
    ensures var t := TableOf(rows[..|rows| - 1], keyCol, valCol);
            var last := RowEntry(rows[|rows| - 1], keyCol, valCol);
            TableOf(rows, keyCol, valCol) == if last.Some? then t[last.value.0 := last.value.1] else t
  {
  }

  /** The conditions of `TableLastWins` carry over to the rows before the last one. */
  lemma LastWinsPrefix(rows: seq<string>, keyCol: nat, valCol: nat, i: nat)
    requires keyCol < valCol && i < |rows| - 1 && RowEntry(rows[i], keyCol, valCol).Some?
    requires forall j :: i < j < |rows| && RowEntry(rows[j], keyCol, valCol).Some? ==>
               RowEntry(rows[j], keyCol, valCol).value.0 != RowEntry(rows[i], keyCol, valCol).value.0
    ensures var p := rows[..|rows| - 1];
            && RowEntry(p[i], keyCol, valCol).Some?
            && forall j :: i < j < |p| && RowEntry(p[j], keyCol, valCol).Some? ==>
                 RowEntry(p[j], keyCol, valCol).value.0 != RowEntry(p[i], keyCol, valCol).value.0
  {
    var p := rows[..|rows| - 1];
    assert p[i] == rows[i];
    forall j | i < j < |p| && RowEntry(p[j], keyCol, valCol).Some?
      ensures RowEntry(p[j], keyCol, valCol).value.0 != RowEntry(p[i], keyCol, valCol).value.0
    {
      assert p[j] == rows[j];
    }
  }

  /** Every entry of the table comes from a taken row. */
  lemma {:induction false} TableFromRows(rows: seq<string>, keyCol: nat, valCol: nat, k: string)
    requires keyCol < valCol && k in TableOf(rows, keyCol, valCol)
    ensures exists i :: 0 <= i < |rows| && RowEntry(rows[i], keyCol, valCol) == Some((k, TableOf(rows, keyCol, valCol)[k]))
  {
    var n := |rows| - 1;
    var e := RowEntry(rows[n], keyCol, valCol);
    if e.Some? && e.value.0 == k {
      assert RowEntry(rows[n], keyCol, valCol) == Some((k, TableOf(rows, keyCol, valCol)[k]));
    } else {
      TableFromRows(rows[..n], keyCol, valCol, k);
      var i :| 0 <= i < n && RowEntry(rows[..n][i], keyCol, valCol) == Some((k, TableOf(rows[..n], keyCol, valCol)[k]));
      assert rows[..n][i] == rows[i];
    }
  }

  /** The stream pipeline over one CSV file, as a loop over its lines. */
  method ReadTable(lines: Option<seq<string>>, skip: nat, keyCol: nat, valCol: nat) returns (t: map<string, string>)
    requires keyCol < valCol
    ensures t == CsvTable(lines, skip, keyCol, valCol)
  {
    t := map[];
    if lines.None? {
      return;
    }
    var rows := Skip(lines.value, skip);
    for i := 0 to |rows|
      invariant t == TableOf(rows[..i], keyCol, valCol)
    {
      assert rows[..i + 1][..i] == rows[..i];
      var cols := Split(rows[i], ',');
      if |cols| > valCol && cols[valCol] != "*" {
        t := t[cols[keyCol] := cols[valCol]];
      }
    }
    assert rows[..|rows|] == rows;
  }

  /** `fields.csv`: three header lines, srg name in column 2, MCP name in column 6. */
  method ReadFieldNames(lines: Option<seq<string>>) returns (t: map<string, string>)
    ensures t == CsvTable(lines, 3, 2, 6)
  {
    t := ReadTable(lines, 3, 2, 6);
  }

  /** `methods.csv`: four header lines, srg name in column 1, MCP name in column 4. */
  method ReadMethodNames(lines: Option<seq<string>>) returns (t: map<string, string>)
    ensures t == CsvTable(lines, 4, 1, 4)
  {
    t := ReadTable(lines, 4, 1, 4);
  }

  // ---------------------------------------------------------------------------------------
  // The RGS directives

  /** The lines the converter looks at. */
  predicate IsDirective(line: string) {
    StartsWith(line, ".class_map") || StartsWith(line, ".field_map") || StartsWith(line, ".method_map")
  }

  /** The deobfuscated name of a `.class_map` target. */
  function ClassTarget(target: string): (r: string)
    ensures '/' in r
    ensures '/' in target ==> r == target
    ensures '/' !in target ==> StartsWith(r, DEFAULT_PACKAGE) && r[|DEFAULT_PACKAGE|..] == target
  {
    if '/' in target then target
    else
      var r := DEFAULT_PACKAGE + target;
      assert r[|DEFAULT_PACKAGE| - 1] == '/';
      r
  }

  /**
   * `computeIfAbsent(clazz, k -> new ClassMapping(k, k))` followed by appending `member` to
   * the fields (`toFields`) or to the methods of the record.
   */
  function AddMember(m: map<string, ClassMapping>, clazz: string, member: MemberMapping, toFields: bool): (r: map<string, ClassMapping>)
    ensures r.Keys == m.Keys + {clazz}
    ensures forall k :: k in m && k != clazz ==> r[k] == m[k]
    ensures clazz !in m ==> r[clazz] == ClassMapping(clazz, clazz, if toFields then [member] else [], if toFields then [] else [member])
    ensures clazz in m ==> r[clazz].notch == m[clazz].notch && r[clazz].mcp == m[clazz].mcp
    ensures clazz in m && toFields ==> r[clazz].fields == m[clazz].fields + [member] && r[clazz].methods == m[clazz].methods
    ensures clazz in m && !toFields ==> r[clazz].methods == m[clazz].methods + [member] && r[clazz].fields == m[clazz].fields
  {
    var c := if clazz in m then m[clazz] else ClassMapping(clazz, clazz, [], []);
    m[clazz := if toFields then c.(fields := c.fields + [member]) else c.(methods := c.methods + [member])]
  }

  /** A `.class_map` line: a valid class gets a fresh record, replacing any earlier one. */
  function ClassMapStep(m: map<string, ClassMapping>, cols: seq<string>): (r: Result<map<string, ClassMapping>>)
    ensures |cols| < 2 ==> r == Err(ArrayIndexOutOfBounds)
    ensures |cols| >= 2 && !ValidClass(cols[1]) ==> r == Ok(m)
  {
    if |cols| < 2 then Err(ArrayIndexOutOfBounds)
    else if !ValidClass(cols[1]) then Ok(m)
    else if |cols| < 3 then Err(ArrayIndexOutOfBounds)
    else Ok(m[cols[1] := ClassMapping(cols[1], ClassTarget(cols[2]), [], [])])
  }

  /**
   * `key.substring(0, key.lastIndexOf('/'))` and `key.substring(key.lastIndexOf('/') + 1)`:
   * the owner and the member name, or the exception the first call throws when the key has
   * no '/'.
   */
  function SplitKey(key: string): (r: Result<(string, string)>)
    ensures r.Ok? <==> '/' in key
    ensures r.Err? ==> r == Err(StringIndexOutOfBounds)
    ensures r.Ok? ==> key == r.value.0 + "/" + r.value.1 && '/' !in r.value.1
  {
    var slash := LastIndexOf(key, '/');
    if slash < 0 then Err(StringIndexOutOfBounds)
    else
      assert key == key[..slash] + [key[slash]] + key[slash + 1..];
      Ok((key[..slash], key[slash + 1..]))
  }

  /**
   * A `.field_map` line `key srg`: the field is kept when its owner is valid and a
   * descriptor was scanned for the key.
   */
  function FieldMapStep(m: map<string, ClassMapping>, cols: seq<string>, tables: Tables): (r: Result<map<string, ClassMapping>>)
    ensures |cols| < 2 || '/' !in cols[1] ==> r.Err?
    ensures |cols| >= 2 && cols[1] !in tables.fieldDescs && '/' in cols[1] ==> r == Ok(m)
    ensures |cols| >= 2 && '/' in cols[1] && !ValidClass(SplitKey(cols[1]).value.0) ==> r == Ok(m)
    ensures |cols| == 2 && '/' in cols[1] && cols[1] in tables.fieldDescs && ValidClass(SplitKey(cols[1]).value.0) ==>
              r == Err(ArrayIndexOutOfBounds)
    ensures |cols| >= 3 && '/' in cols[1] && cols[1] in tables.fieldDescs && ValidClass(SplitKey(cols[1]).value.0) ==>
              var (owner, name) := SplitKey(cols[1]).value;
              r == Ok(AddMember(m, owner, MemberMapping(name, tables.fieldDescs[cols[1]], cols[2], GetOrDefault(tables.fieldNames, cols[2], cols[2])), true))
  {
    if |cols| < 2 then Err(ArrayIndexOutOfBounds)
    else
      var key := cols[1];
      var owner :- SplitKey(key);
      var desc := Get(tables.fieldDescs, key);
      if desc.Some? && ValidClass(owner.0) then
        if |cols| < 3 then Err(ArrayIndexOutOfBounds)
        else
          var field := MemberMapping(owner.1, desc.value, cols[2], GetOrDefault(tables.fieldNames, cols[2], cols[2]));
          Ok(AddMember(m, owner.0, field, true))
      else Ok(m)
  }

  /**
   * Any other directive, read as a `.method_map` line `key desc srg`; the owner is split off
   * as for fields.
   */
  function MethodMapStep(m: map<string, ClassMapping>, cols: seq<string>, tables: Tables): (r: Result<map<string, ClassMapping>>)
    ensures |cols| < 2 || '/' !in cols[1] ==> r.Err?
    ensures |cols| >= 2 && '/' in cols[1] && !ValidClass(SplitKey(cols[1]).value.0) ==> r == Ok(m)
    ensures 2 <= |cols| < 4 && '/' in cols[1] && ValidClass(SplitKey(cols[1]).value.0) ==> r == Err(ArrayIndexOutOfBounds)
    ensures |cols| >= 4 && '/' in cols[1] && ValidClass(SplitKey(cols[1]).value.0) ==>
              var (owner, name) := SplitKey(cols[1]).value;
              r == Ok(AddMember(m, owner, MemberMapping(name, cols[2], cols[3], GetOrDefault(tables.methodNames, cols[3], cols[3])), false))
  {
    if |cols| < 2 then Err(ArrayIndexOutOfBounds)
    else
      var owner :- SplitKey(cols[1]);
      if ValidClass(owner.0) then
        if |cols| < 4 then Err(ArrayIndexOutOfBounds)
        else
          var meth := MemberMapping(owner.1, cols[2], cols[3], GetOrDefault(tables.methodNames, cols[3], cols[3]));
          Ok(AddMember(m, owner.0, meth, false))
      else Ok(m)
  }

  /** One directive line, dispatched on its first word. */
  function DirectiveStep(m: map<string, ClassMapping>, line: string, tables: Tables): Result<map<string, ClassMapping>>
  {
    var cols := Split(line, ' ');
    if |cols| > 0 && cols[0] == ".class_map" then ClassMapStep(m, cols)
    else if |cols| > 0 && cols[0] == ".field_map" then FieldMapStep(m, cols, tables)
    else MethodMapStep(m, cols, tables)
  }

  /** The records after the remaining `lines`, or the first exception a line throws. */
  ghost function RgsFrom(m: map<string, ClassMapping>, lines: seq<string>, tables: Tables): Result<map<string, ClassMapping>>
    decreases |lines|
  {
    if |lines| == 0 then Ok(m)
    else if !IsDirective(lines[0]) then RgsFrom(m, lines[1..], tables)
    else
      match DirectiveStep(m, lines[0], tables)
      case Err(e) => Err(e)
      case Ok(m') => RgsFrom(m', lines[1..], tables)
  }

  /** The `forEach` over the RGS lines. */
  method ReadRgs(lines: seq<string>, tables: Tables) returns (r: Result<map<string, ClassMapping>>)
    ensures r == RgsFrom(map[], lines, tables)
  {
    var mappings: map<string, ClassMapping> := map[];
    var i := 0;
    while i < |lines|
      invariant i <= |lines|
      invariant RgsFrom(map[], lines, tables) == RgsFrom(mappings, lines[i..], tables)
    {
      var line := lines[i];
      assert lines[i..][1..] == lines[i + 1..];
      if IsDirective(line) {
        var step := DirectiveStep(mappings, line, tables);
        if step.Err? {
          return Err(step.error);
        }
        mappings := step.value;
      }
      i := i + 1;
    }
    r := Ok(mappings);
  }

  // ---------------------------------------------------------------------------------------
  // What every record satisfies

  /**
   * A record filed under `k`: `k` is a valid class and the record's obfuscated name; the
   * deobfuscated name is qualified or is `k` itself; each field's descriptor is the one
   * scanned for `k/name`; member names have no '/'; named names come from the CSV tables.
   */
  ghost predicate GoodRecord(k: string, c: ClassMapping, tables: Tables) {
    && ValidClass(k) && c.notch == k && ('/' in c.mcp || c.mcp == k)
    && (forall i :: 0 <= i < |c.fields| ==>
          && k + "/" + c.fields[i].notch in tables.fieldDescs
          && tables.fieldDescs[k + "/" + c.fields[i].notch] == c.fields[i].desc
          && '/' !in c.fields[i].notch
          && c.fields[i].named == GetOrDefault(tables.fieldNames, c.fields[i].srg, c.fields[i].srg))
    && (forall i :: 0 <= i < |c.methods| ==>
          && '/' !in c.methods[i].notch
          && c.methods[i].named == GetOrDefault(tables.methodNames, c.methods[i].srg, c.methods[i].srg))
  }

  ghost predicate GoodRecords(m: map<string, ClassMapping>, tables: Tables) {
    forall k :: k in m ==> GoodRecord(k, m[k], tables)
  }

  lemma AddMemberGood(m: map<string, ClassMapping>, clazz: string, member: MemberMapping, toFields: bool, tables: Tables)
    requires GoodRecords(m, tables) && ValidClass(clazz) && '/' !in member.notch
    requires toFields ==>
               && clazz + "/" + member.notch in tables.fieldDescs
               && tables.fieldDescs[clazz + "/" + member.notch] == member.desc
               && member.named == GetOrDefault(tables.fieldNames, member.srg, member.srg)
    requires !toFields ==> member.named == GetOrDefault(tables.methodNames, member.srg, member.srg)
    ensures GoodRecords(AddMember(m, clazz, member, toFields), tables)
  {
    var r := AddMember(m, clazz, member, toFields);
    var c := if clazz in m then m[clazz] else ClassMapping(clazz, clazz, [], []);
    assert GoodRecord(clazz, c, tables);
    if toFields {
      AppendFieldGood(clazz, c, member, tables);
      assert r[clazz] == c.(fields := c.fields + [member]);
    } else {
      AppendMethodGood(clazz, c, member, tables);
      assert r[clazz] == c.(methods := c.methods + [member]);
    }
    forall k | k in r
      ensures GoodRecord(k, r[k], tables)
    {
      if k != clazz {
        assert r[k] == m[k];
      }
    }
  }

  lemma AppendFieldGood(k: string, c: ClassMapping, member: MemberMapping, tables: Tables)
    requires GoodRecord(k, c, tables) && '/' !in member.notch
    requires && k + "/" + member.notch in tables.fieldDescs
             && tables.fieldDescs[k + "/" + member.notch] == member.desc
             && member.named == GetOrDefault(tables.fieldNames, member.srg, member.srg)
    ensures GoodRecord(k, c.(fields := c.fields + [member]), tables)
  {
    var fs := c.fields + [member];
    forall i | 0 <= i < |fs|
      ensures && k + "/" + fs[i].notch in tables.fieldDescs
              && tables.fieldDescs[k + "/" + fs[i].notch] == fs[i].desc
              && '/' !in fs[i].notch
              && fs[i].named == GetOrDefault(tables.fieldNames, fs[i].srg, fs[i].srg)
    {
      if i < |c.fields| {
        assert fs[i] == c.fields[i];
      }
    }
  }

  lemma AppendMethodGood(k: string, c: ClassMapping, member: MemberMapping, tables: Tables)
    requires GoodRecord(k, c, tables) && '/' !in member.notch
    requires member.named == GetOrDefault(tables.methodNames, member.srg, member.srg)
    ensures GoodRecord(k, c.(methods := c.methods + [member]), tables)
  {
    var ms := c.methods + [member];
    forall i | 0 <= i < |ms|
      ensures '/' !in ms[i].notch && ms[i].named == GetOrDefault(tables.methodNames, ms[i].srg, ms[i].srg)
    {
      if i < |c.methods| {
        assert ms[i] == c.methods[i];
      }
    }
  }

  lemma ClassMapGood(m: map<string, ClassMapping>, cols: seq<string>, tables: Tables)
    requires GoodRecords(m, tables)
    ensures ClassMapStep(m, cols).Ok? ==> GoodRecords(ClassMapStep(m, cols).value, tables)
  {
    if |cols| >= 3 && ValidClass(cols[1]) {
      var r := m[cols[1] := ClassMapping(cols[1], ClassTarget(cols[2]), [], [])];
      assert GoodRecord(cols[1], r[cols[1]], tables);
    }
  }

  lemma FieldMapGood(m: map<string, ClassMapping>, cols: seq<string>, tables: Tables)
    requires GoodRecords(m, tables)
    ensures FieldMapStep(m, cols, tables).Ok? ==> GoodRecords(FieldMapStep(m, cols, tables).value, tables)
  {
    if |cols| >= 3 && '/' in cols[1] {
      var key := cols[1];
      var owner := SplitKey(key).value;
      if key in tables.fieldDescs && ValidClass(owner.0) {
        var field := MemberMapping(owner.1, tables.fieldDescs[key], cols[2], GetOrDefault(tables.fieldNames, cols[2], cols[2]));
        AddMemberGood(m, owner.0, field, true, tables);
      }
    }
  }

  lemma MethodMapGood(m: map<string, ClassMapping>, cols: seq<string>, tables: Tables)
    requires GoodRecords(m, tables)
    ensures MethodMapStep(m, cols, tables).Ok? ==> GoodRecords(MethodMapStep(m, cols, tables).value, tables)
  {
    if |cols| >= 4 && '/' in cols[1] {
      var owner := SplitKey(cols[1]).value;
      if ValidClass(owner.0) {
        var meth := MemberMapping(owner.1, cols[2], cols[3], GetOrDefault(tables.methodNames, cols[3], cols[3]));
        AddMemberGood(m, owner.0, meth, false, tables);
      }
    }
  }

  /** Each directive keeps every record good. */
  lemma DirectiveStepGood(m: map<string, ClassMapping>, line: string, tables: Tables)
    requires GoodRecords(m, tables)
    ensures DirectiveStep(m, line, tables).Ok? ==> GoodRecords(DirectiveStep(m, line, tables).value, tables)
  {
    var cols := Split(line, ' ');
    ClassMapGood(m, cols, tables);
    FieldMapGood(m, cols, tables);
    MethodMapGood(m, cols, tables);
  }

  /** Whatever the RGS file holds, every record it builds is good. */
  lemma {:induction false} RgsGood(m: map<string, ClassMapping>, lines: seq<string>, tables: Tables)
    requires GoodRecords(m, tables)
    ensures RgsFrom(m, lines, tables).Ok? ==> GoodRecords(RgsFrom(m, lines, tables).value, tables)
    decreases |lines|
  {
    if |lines| > 0 {
      if !IsDirective(lines[0]) {
        RgsGood(m, lines[1..], tables);
      } else {
        DirectiveStepGood(m, lines[0], tables);
        var step := DirectiveStep(m, lines[0], tables);
        if step.Ok? {
          RgsGood(step.value, lines[1..], tables);
        }
      }
    }
  }

  /** A key built from an owner and a name without '/' splits back into the two. */
  lemma SplitKeyOfJoin(owner: string, name: string)
    requires '/' !in name
    ensures SplitKey(owner + "/" + name) == Ok((owner, name))
  {
    var key := owner + "/" + name;
    assert key[|owner|] == '/' && key[|owner| + 1..] == name;
    assert LastIndexOf(key, '/') == |owner|;
    assert key[..|owner|] == owner;
  }

  /** The words of a directive line with non-empty words free of spaces. */
  lemma DirectiveWords(words: seq<string>)
    requires |words| >= 2 && words[|words| - 1] != ""
    requires forall i :: 0 <= i < |words| ==> ' ' !in words[i]
    ensures Split(Join(words, ' '), ' ') == words
  {
    SplitOfJoin(words, ' ');
  }

  /**
   * A `.class_map` line for a valid class files a fresh record under it, dropping the
   * members an earlier record for that class had collected.
   */
  lemma ClassMapReplaces(m: map<string, ClassMapping>, clazz: string, target: string, tables: Tables)
    requires ValidClass(clazz) && ' ' !in clazz && ' ' !in target && target != ""
    ensures DirectiveStep(m, Join([".class_map", clazz, target], ' '), tables) ==
            Ok(m[clazz := ClassMapping(clazz, ClassTarget(target), [], [])])
  {
    DirectiveWords([".class_map", clazz, target]);
  }

  /**
   * A member directive for a class not seen before creates a record that maps the class to
   * itself.
   */
  lemma MemberOfUnseenClass(m: map<string, ClassMapping>, clazz: string, name: string, desc: string, srg: string, tables: Tables)
    requires ValidClass(clazz) && clazz !in m && '/' !in name
    requires ' ' !in clazz && ' ' !in name && ' ' !in desc && ' ' !in srg && srg != ""
    ensures var r := DirectiveStep(m, Join([".method_map", clazz + "/" + name, desc, srg], ' '), tables);
            && r.Ok? && clazz in r.value
            && r.value[clazz] == ClassMapping(clazz, clazz, [], [MemberMapping(name, desc, srg, GetOrDefault(tables.methodNames, srg, srg))])
  {
    var key := clazz + "/" + name;
    var words := [".method_map", key, desc, srg];
    assert ' ' !in key;
    DirectiveWords(words);
    SplitKeyOfJoin(clazz, name);
  }

  /**
   * A `.field_map` line for a valid class whose descriptor was scanned appends the field to
   * the class's record, creating the record if there is none; no other record changes.
   */
  lemma FieldOfClass(m: map<string, ClassMapping>, clazz: string, name: string, srg: string, tables: Tables)
    requires ValidClass(clazz) && '/' !in name && clazz + "/" + name in tables.fieldDescs
    requires ' ' !in clazz && ' ' !in name && ' ' !in srg && srg != ""
    ensures var field := MemberMapping(name, tables.fieldDescs[clazz + "/" + name], srg, GetOrDefault(tables.fieldNames, srg, srg));
            DirectiveStep(m, Join([".field_map", clazz + "/" + name, srg], ' '), tables) == Ok(AddMember(m, clazz, field, true))
  {
    var key := clazz + "/" + name;
    assert ' ' !in key;
    DirectiveWords([".field_map", key, srg]);
    SplitKeyOfJoin(clazz, name);
  }

  /**
   * A `.method_map` line for a valid class appends the method to the class's record,
   * creating the record if there is none; no other record changes.
   */
  lemma MethodOfClass(m: map<string, ClassMapping>, clazz: string, name: string, desc: string, srg: string, tables: Tables)
    requires ValidClass(clazz) && '/' !in name
    requires ' ' !in clazz && ' ' !in name && ' ' !in desc && ' ' !in srg && srg != ""
    ensures var meth := MemberMapping(name, desc, srg, GetOrDefault(tables.methodNames, srg, srg));
            DirectiveStep(m, Join([".method_map", clazz + "/" + name, desc, srg], ' '), tables) == Ok(AddMember(m, clazz, meth, false))
  {
    var key := clazz + "/" + name;
    assert ' ' !in key;
    DirectiveWords([".method_map", key, desc, srg]);
    SplitKeyOfJoin(clazz, name);
  }

  // ---------------------------------------------------------------------------------------
  // Writing the records

  /** A field row or a method row: owner, descriptor, then the official, intermediary and named names. */
  function MemberRow(owner: string, f: MemberMapping, asField: bool): TinyRow {
    if asField then FieldRow(owner, f.desc, f.notch, f.srg, f.named) else MethodRow(owner, f.desc, f.notch, f.srg, f.named)
  }

  function MemberRows(owner: string, members: seq<MemberMapping>, asFields: bool): (r: seq<TinyRow>)
    ensures |r| == |members|
    ensures forall i :: 0 <= i < |r| ==> r[i] == MemberRow(owner, members[i], asFields)
  {
    if |members| == 0 then []
    else
      var f := members[|members| - 1];
      MemberRows(owner, members[..|members| - 1], asFields) + [MemberRow(owner, f, asFields)]
  }

  /** One record: its class row, then its fields, then its methods. */
  function RecordRows(c: ClassMapping): seq<TinyRow> {
    [ClassRow(c.notch, c.mcp, c.mcp)] + MemberRows(c.notch, c.fields, true) + MemberRows(c.notch, c.methods, false)
  }

  /** The records of `m`, visited in `order`. */
  function Emitted(m: map<string, ClassMapping>, order: seq<string>): seq<TinyRow>
    requires forall i :: 0 <= i < |order| ==> order[i] in m
  {
    if |order| == 0 then [] else Emitted(m, order[..|order| - 1]) + RecordRows(m[order[|order| - 1]])
  }

  lemma ClassNamesOfRecord(c: ClassMapping)
    ensures ClassNames(RecordRows(c)) == [c.notch]
  {
    var fs := MemberRows(c.notch, c.fields, true);
    var ms := MemberRows(c.notch, c.methods, false);
    NoClassNames(fs);
    NoClassNames(ms);
    ClassNamesAppend([ClassRow(c.notch, c.mcp, c.mcp)], fs);
    ClassNamesAppend([ClassRow(c.notch, c.mcp, c.mcp)] + fs, ms);
    assert ClassNames([ClassRow(c.notch, c.mcp, c.mcp)]) == ClassNames([]) + [c.notch];
  }

  /** With records filed under their own names, the class rows follow the visiting order. */
  lemma {:induction false} ClassNamesOfEmitted(m: map<string, ClassMapping>, order: seq<string>)
    requires forall k :: k in m ==> m[k].notch == k
    requires forall i :: 0 <= i < |order| ==> order[i] in m
    ensures ClassNames(Emitted(m, order)) == order
  {
    if |order| > 0 {
      var n := |order| - 1;
      ClassNamesOfEmitted(m, order[..n]);
      ClassNamesOfRecord(m[order[n]]);
      ClassNamesSnoc(Emitted(m, order[..n]), RecordRows(m[order[n]]), order);
    }
  }

  /** One of the inner writer loops, over a record's fields or its methods. */
  method WriteMembers(owner: string, members: seq<MemberMapping>, asFields: bool) returns (rows: seq<TinyRow>)
    ensures rows == MemberRows(owner, members, asFields)
  {
    rows := [];
    for j := 0 to |members|
      invariant rows == MemberRows(owner, members[..j], asFields)
    {
      assert members[..j + 1][..j] == members[..j];
      var f := members[j];
      rows := rows + [if asFields then FieldRow(owner, f.desc, f.notch, f.srg, f.named)
                      else MethodRow(owner, f.desc, f.notch, f.srg, f.named)];
    }
    assert members[..|members|] == members;
  }

  /** The writer loop over `mappings.values()`. */
  method WriteRows(m: map<string, ClassMapping>, order: seq<string>) returns (rows: seq<TinyRow>)
    requires forall i :: 0 <= i < |order| ==> order[i] in m
    ensures rows == Emitted(m, order)
  {
    rows := [];
    for i := 0 to |order|
      invariant rows == Emitted(m, order[..i])
    {
      assert order[..i + 1][..i] == order[..i];
      var c := m[order[i]];
      var fieldRows := WriteMembers(c.notch, c.fields, true);
      var methodRows := WriteMembers(c.notch, c.methods, false);
      rows := rows + ([ClassRow(c.notch, c.mcp, c.mcp)] + fieldRows + methodRows);
    }
    assert order[..|order|] == order;
  }

  /**
   * `convert`, given the fields scanned from the game jar, the lines of the two optional CSV
   * files and of `minecraft.rgs`: every record it builds is good, and the rows are the
   * records in some enumeration of their names, each record once.
   */
  method Convert(fieldDescs: map<string, string>, fieldsCsv: Option<seq<string>>, methodsCsv: Option<seq<string>>, rgs: seq<string>)
    returns (r: Result<seq<TinyRow>>)
    ensures
      var tables := Tables(fieldDescs, CsvTable(fieldsCsv, 3, 2, 6), CsvTable(methodsCsv, 4, 1, 4));
      && (r.Ok? <==> RgsFrom(map[], rgs, tables).Ok?)
      && (r.Ok? ==>
            var m := RgsFrom(map[], rgs, tables).value;
            && GoodRecords(m, tables)
            && exists order :: IsEnumeration(order, m.Keys) && r.value == Emitted(m, order) && ClassNames(r.value) == order)
  {
    var fieldNames := ReadFieldNames(fieldsCsv);
    var methodNames := ReadMethodNames(methodsCsv);
    var tables := Tables(fieldDescs, fieldNames, methodNames);
    var built := ReadRgs(rgs, tables);
    if built.Err? {
      return Err(built.error);
    }
    var m := built.value;
    RgsGood(map[], rgs, tables);
    var order := Enumerate(m.Keys);
    var rows := WriteRows(m, order);
    ClassNamesOfEmitted(m, order);
    r := Ok(rows);
  }
}
