/**
 * The Beta-era MCP converter: keeps the rows of `classes.csv`, `fields.csv` and
 * `methods.csv` that belong to side 0, groups the members under their owning class and
 * emits one tiny row per class, field and method.
 */
module BetaMcpConverter {
  import opened Wrappers
  import opened HashMapOrder
  import opened JavaStrings
  import opened TinyRows
  import opened McpMember
  import opened McpClass

  /** The side-0 classes keyed by obfuscated name; a later row replaces an earlier one. */
  ghost function Kept(classes: seq<McpClass>): map<string, McpClass>
    reads set c | c in classes
  {
    if |classes| == 0 then map[]
    else
      var m := Kept(classes[..|classes| - 1]);
      var c := classes[|classes| - 1];
      if c.side != 0 then m else m[c.notch := c]
  }

  /** Every kept class is one of the rows, filed under its own obfuscated name. */
  lemma {:induction false} KeptWellFormed(classes: seq<McpClass>)
    ensures forall k :: k in Kept(classes) ==> Kept(classes)[k] in classes
    ensures forall k :: k in Kept(classes) ==> Kept(classes)[k].notch == k && Kept(classes)[k].side == 0
  {
    if |classes| > 0 {
      KeptWellFormed(classes[..|classes| - 1]);
    }
  }

  /**
   * A class row is kept under its name when it is the last side-0 row with that name, and
   * every side-0 name is kept. (The converse fails only when one bean occurs twice.)
   */
  lemma {:induction false} KeptIsLastSideZero(classes: seq<McpClass>, i: nat)
    requires i < |classes|
    ensures (classes[i].notch in Kept(classes) && Kept(classes)[classes[i].notch] == classes[i]) <==
            (classes[i].side == 0 && forall j :: i < j < |classes| ==> classes[j].side != 0 || classes[j].notch != classes[i].notch)
    ensures classes[i].side == 0 ==> classes[i].notch in Kept(classes)
  {
    var n := |classes| - 1;
    if i < n {
      KeptIsLastSideZero(classes[..n], i);
    }
  }

  /** The side-0 members of `members` that name `owner` as their class, in order. */
  function MembersOf(members: seq<McpMember>, owner: string): seq<McpMember>
  {
    if |members| == 0 then []
    else
      var m := members[|members| - 1];
      MembersOf(members[..|members| - 1], owner) + (if m.side == 0 && m.classnotch == owner then [m] else [])
  }

  /** A member is grouped under `owner` exactly when it is a side-0 row naming `owner`. */
  lemma {:induction false} MembersOfExactly(members: seq<McpMember>, owner: string, m: McpMember)
    ensures m in MembersOf(members, owner) <==> m in members && m.side == 0 && m.classnotch == owner
  {
    if |members| > 0 {
      var init := members[..|members| - 1];
      MembersOfExactly(init, owner, m);
      assert members == init + [members[|members| - 1]];
    }
  }

  lemma MembersOfSnoc(members: seq<McpMember>, x: McpMember, owner: string)
    ensures MembersOf(members + [x], owner) ==
            MembersOf(members, owner) + (if x.side == 0 && x.classnotch == owner then [x] else [])
  {
    assert (members + [x])[..|members|] == members;
  }

  /** Every side-0 member names a class that is among `keys`. */
  predicate AllOwned(members: seq<McpMember>, keys: set<string>) {
    forall i :: 0 <= i < |members| && members[i].side == 0 ==> members[i].classnotch in keys
  }

  /** The first grouping loop: side-0 classes keyed by obfuscated name. */
  method GroupClasses(classes: seq<McpClass>) returns (m: map<string, McpClass>)
    ensures m == Kept(classes)
  {
    m := map[];
    for i := 0 to |classes|
      invariant m == Kept(classes[..i])
    {
      assert classes[..i + 1][..i] == classes[..i];
      var c := classes[i];
      if c.side != 0 {
        continue;
      }
      m := m[c.notch := c];
    }
    assert classes[..|classes|] == classes;
  }

  /** A side-0 member naming an absent class breaks ownership. */
  lemma NotOwned(members: seq<McpMember>, i: nat, keys: set<string>)
    requires i < |members| && members[i].side == 0 && members[i].classnotch !in keys
    ensures !AllOwned(members, keys)
  {
  }

  /**
   * After the rows `done` of the field loop: every side-0 field among them had its class,
   * and every class holds its starting fields followed by its own side-0 fields of `done`.
   */
  ghost predicate FieldsAttached(m: map<string, McpClass>, start: map<string, seq<McpMember>>, done: seq<McpMember>)
    reads m.Values
  {
    && AllOwned(done, m.Keys)
    && forall k :: k in m ==> k in start && m[k].fields == start[k] + MembersOf(done, k)
  }

  /** Like `FieldsAttached`, for the method loop. */
  ghost predicate MethodsAttached(m: map<string, McpClass>, start: map<string, seq<McpMember>>, done: seq<McpMember>)
    reads m.Values
  {
    && AllOwned(done, m.Keys)
    && forall k :: k in m ==> k in start && m[k].methods == start[k] + MembersOf(done, k)
  }

  /** One step of the field loop: `mappings.get(classnotch).getFields().add(field)`. */
  method AttachField(m: map<string, McpClass>, mapping: McpClass, fields: seq<McpMember>, i: nat,
                     ghost start: map<string, seq<McpMember>>)
    requires forall k :: k in m ==> m[k].notch == k
    requires i < |fields| && fields[i].side == 0 && fields[i].classnotch in m
    requires mapping == m[fields[i].classnotch]
    requires FieldsAttached(m, start, fields[..i])
    modifies mapping`fields
    ensures FieldsAttached(m, start, fields[..i + 1])
  {
    var f := fields[i];
    ghost var done := fields[..i];
    assert fields[..i + 1] == done + [f];
    ghost var k0 := f.classnotch;
    MembersOfSnoc(done, f, k0);
    assert (start[k0] + MembersOf(done, k0)) + [f] == start[k0] + (MembersOf(done, k0) + [f]);
    forall k | k in m && k != k0
      ensures MembersOf(done + [f], k) == MembersOf(done, k)
    {
      MembersOfSnoc(done, f, k);
    }
    mapping.AddField(f);
    assert forall k :: k in m && k != k0 ==> m[k] != mapping;
  }

  /** One step of the method loop: `mappings.get(classnotch).getMethods().add(method)`. */
  method AttachMethod(m: map<string, McpClass>, mapping: McpClass, methods: seq<McpMember>, i: nat,
                      ghost start: map<string, seq<McpMember>>)
    requires forall k :: k in m ==> m[k].notch == k
    requires i < |methods| && methods[i].side == 0 && methods[i].classnotch in m
    requires mapping == m[methods[i].classnotch]
    requires MethodsAttached(m, start, methods[..i])
    modifies mapping`methods
    ensures MethodsAttached(m, start, methods[..i + 1])
  {
    var meth := methods[i];
    ghost var done := methods[..i];
    assert methods[..i + 1] == done + [meth];
    ghost var k0 := meth.classnotch;
    MembersOfSnoc(done, meth, k0);
    assert (start[k0] + MembersOf(done, k0)) + [meth] == start[k0] + (MembersOf(done, k0) + [meth]);
    forall k | k in m && k != k0
      ensures MembersOf(done + [meth], k) == MembersOf(done, k)
    {
      MembersOfSnoc(done, meth, k);
    }
    mapping.AddMethod(meth);
    assert forall k :: k in m && k != k0 ==> m[k] != mapping;
  }

  /** A member of another side leaves every grouping as it was. */
  lemma SkipMember(members: seq<McpMember>, i: nat, keys: set<string>, owner: string)
    requires i < |members| && members[i].side != 0 && AllOwned(members[..i], keys)
    ensures AllOwned(members[..i + 1], keys)
    ensures MembersOf(members[..i + 1], owner) == MembersOf(members[..i], owner)
  {
    assert members[..i + 1] == members[..i] + [members[i]];
    MembersOfSnoc(members[..i], members[i], owner);
  }

  lemma SkipField(m: map<string, McpClass>, fields: seq<McpMember>, i: nat, start: map<string, seq<McpMember>>)
    requires i < |fields| && fields[i].side != 0 && FieldsAttached(m, start, fields[..i])
    ensures FieldsAttached(m, start, fields[..i + 1])
  {
    forall k | k in m
      ensures MembersOf(fields[..i + 1], k) == MembersOf(fields[..i], k)
    {
      SkipMember(fields, i, m.Keys, k);
    }
    SkipMember(fields, i, m.Keys, "");
  }

  lemma SkipMethod(m: map<string, McpClass>, methods: seq<McpMember>, i: nat, start: map<string, seq<McpMember>>)
    requires i < |methods| && methods[i].side != 0 && MethodsAttached(m, start, methods[..i])
    ensures MethodsAttached(m, start, methods[..i + 1])
  {
    forall k | k in m
      ensures MembersOf(methods[..i + 1], k) == MembersOf(methods[..i], k)
    {
      SkipMember(methods, i, m.Keys, k);
    }
    SkipMember(methods, i, m.Keys, "");
  }

  /** Row `i` of the field loop: appended to its class, skipped for another side, or a null dereference. */
  method AttachFieldAt(m: map<string, McpClass>, fields: seq<McpMember>, i: nat, ghost start: map<string, seq<McpMember>>)
    returns (ok: bool)
    requires forall k :: k in m ==> m[k].notch == k
    requires i < |fields| && FieldsAttached(m, start, fields[..i])
    modifies m.Values`fields
    ensures ok ==> FieldsAttached(m, start, fields[..i + 1])
    ensures !ok ==> !AllOwned(fields, m.Keys)
  {
    var f := fields[i];
    if f.side == 0 {
      if f.classnotch !in m {
        NotOwned(fields, i, m.Keys);
        return false;
      }
      var mapping := m[f.classnotch];
      AttachField(m, mapping, fields, i, start);
    } else {
      SkipField(m, fields, i, start);
    }
    ok := true;
  }

  /**
   * The field loop: every side-0 field is appended to the class its `classnotch` names;
   * a field whose class is absent dereferences null.
   */
  method AttachFields(m: map<string, McpClass>, fields: seq<McpMember>) returns (ok: bool)
    requires forall k :: k in m ==> m[k].notch == k
    modifies m.Values`fields
    ensures ok <==> AllOwned(fields, m.Keys)
    ensures ok ==> FieldsAttached(m, old(map k | k in m :: m[k].fields), fields)
  {
    ghost var start := map k | k in m :: m[k].fields;
    var i := 0;
    while i < |fields|
      invariant i <= |fields|
      invariant FieldsAttached(m, start, fields[..i])
    {
      var attached := AttachFieldAt(m, fields, i, start);
      if !attached {
        return false;
      }
      i := i + 1;
    }
    assert fields[..|fields|] == fields;
    ok := true;
  }

  /** Row `i` of the method loop: appended to its class, skipped for another side, or a null dereference. */
  method AttachMethodAt(m: map<string, McpClass>, methods: seq<McpMember>, i: nat, ghost start: map<string, seq<McpMember>>)
    returns (ok: bool)
    requires forall k :: k in m ==> m[k].notch == k
    requires i < |methods| && MethodsAttached(m, start, methods[..i])
    modifies m.Values`methods
    ensures ok ==> MethodsAttached(m, start, methods[..i + 1])
    ensures !ok ==> !AllOwned(methods, m.Keys)
  {
    var meth := methods[i];
    if meth.side == 0 {
      if meth.classnotch !in m {
        NotOwned(methods, i, m.Keys);
        return false;
      }
      var mapping := m[meth.classnotch];
      AttachMethod(m, mapping, methods, i, start);
    } else {
      SkipMethod(m, methods, i, start);
    }
    ok := true;
  }

  /** The method loop, like the field loop. */
  method AttachMethods(m: map<string, McpClass>, methods: seq<McpMember>) returns (ok: bool)
    requires forall k :: k in m ==> m[k].notch == k
    modifies m.Values`methods
    ensures ok <==> AllOwned(methods, m.Keys)
    ensures ok ==> MethodsAttached(m, old(map k | k in m :: m[k].methods), methods)
  {
    ghost var start := map k | k in m :: m[k].methods;
    var i := 0;
    while i < |methods|
      invariant i <= |methods|
      invariant MethodsAttached(m, start, methods[..i])
    {
      var attached := AttachMethodAt(m, methods, i, start);
      if !attached {
        return false;
      }
      i := i + 1;
    }
    assert methods[..|methods|] == methods;
    ok := true;
  }

  /**
   * The three grouping loops of `convert`. On success the result is the kept classes, each
   * holding (after what it held before) its side-0 fields and methods in row order; only the
   * two member lists change.
   */
  method Collect(classes: seq<McpClass>, fields: seq<McpMember>, methods: seq<McpMember>)
    returns (r: Result<map<string, McpClass>>)
    modifies Kept(classes).Values`fields, Kept(classes).Values`methods
    ensures r.Ok? <==> AllOwned(fields, old(Kept(classes)).Keys) && AllOwned(methods, old(Kept(classes)).Keys)
    ensures r.Ok? ==> r.value == old(Kept(classes))
    ensures r.Ok? ==> forall k :: k in r.value ==>
      && r.value[k].notch == k
      && r.value[k].fields == old(r.value[k].fields) + MembersOf(fields, k)
      && r.value[k].methods == old(r.value[k].methods) + MembersOf(methods, k)
  {
    KeptWellFormed(classes);
    var m := GroupClasses(classes);
    var ok := AttachFields(m, fields);
    if !ok {
      return Err(NullPointer);
    }
    ok := AttachMethods(m, methods);
    if !ok {
      return Err(NullPointer);
    }
    r := Ok(m);
  }

  /** The deobfuscated class name: `name` when it already has a package, else qualified by `packageName`. */
  function ComposedName(name: string, packageName: string): (r: string)
    ensures '/' in r
    ensures '/' in name ==> r == name
    ensures '/' !in name ==> r == packageName + "/" + name && LastIndexOf(r, '/') == |packageName|
  {
    if '/' in name then name
    else
      var r := packageName + "/" + name;
      assert r[|packageName|] == '/';
      assert r[|packageName| + 1..] == name;
      r
  }

  /** The composed name, unless the extra mappings rename it. */
  function OutputName(c: McpClass, extraClasses: map<string, string>): (r: string)
    reads c
    ensures ComposedName(c.name, c.packageName) in extraClasses ==> r == extraClasses[ComposedName(c.name, c.packageName)]
    ensures ComposedName(c.name, c.packageName) !in extraClasses ==> r == ComposedName(c.name, c.packageName) && '/' in r
  {
    var n := ComposedName(c.name, c.packageName);
    GetOrDefault(extraClasses, n, n)
  }

  /** One field row per member: owner, descriptor, then the official, intermediary and named names. */
  function FieldRows(owner: string, fs: seq<McpMember>): (r: seq<TinyRow>)
    ensures |r| == |fs|
    ensures forall i :: 0 <= i < |r| ==> r[i] == FieldRow(owner, fs[i].sig, fs[i].notch, fs[i].searge, fs[i].name)
  {
    if |fs| == 0 then []
    else
      var f := fs[|fs| - 1];
      FieldRows(owner, fs[..|fs| - 1]) + [FieldRow(owner, f.sig, f.notch, f.searge, f.name)]
  }

  function MethodRows(owner: string, ms: seq<McpMember>): (r: seq<TinyRow>)
    ensures |r| == |ms|
    ensures forall i :: 0 <= i < |r| ==> r[i] == MethodRow(owner, ms[i].sig, ms[i].notch, ms[i].searge, ms[i].name)
  {
    if |ms| == 0 then []
    else
      var m := ms[|ms| - 1];
      MethodRows(owner, ms[..|ms| - 1]) + [MethodRow(owner, m.sig, m.notch, m.searge, m.name)]
  }

  /** The rows written for one class: its class row, then its fields, then its methods. */
  ghost function ClassBlock(c: McpClass, extraClasses: map<string, string>): seq<TinyRow>
    reads c
  {
    var n := OutputName(c, extraClasses);
    [ClassRow(c.notch, n, n)] + FieldRows(c.notch, c.fields) + MethodRows(c.notch, c.methods)
  }

  /** The rows written for the classes of `m` visited in `order`. */
  ghost function Emitted(m: map<string, McpClass>, order: seq<string>, extraClasses: map<string, string>): seq<TinyRow>
    requires forall i :: 0 <= i < |order| ==> order[i] in m
    reads m.Values
  {
    if |order| == 0 then []
    else Emitted(m, order[..|order| - 1], extraClasses) + ClassBlock(m[order[|order| - 1]], extraClasses)
  }

  lemma {:induction false} ClassNamesOfBlock(c: McpClass, extraClasses: map<string, string>)
    ensures ClassNames(ClassBlock(c, extraClasses)) == [c.notch]
  {
    var n := OutputName(c, extraClasses);
    var fs := FieldRows(c.notch, c.fields);
    var ms := MethodRows(c.notch, c.methods);
    NoClassNames(fs);
    NoClassNames(ms);
    ClassNamesAppend([ClassRow(c.notch, n, n)], fs);
    ClassNamesAppend([ClassRow(c.notch, n, n)] + fs, ms);
    assert ClassNames([ClassRow(c.notch, n, n)]) == ClassNames([]) + [c.notch];
  }

  /**
   * Each visited class contributes exactly one class row, under its obfuscated name, so
   * the class rows name the classes in visiting order.
   */
  lemma {:induction false} ClassNamesOfEmitted(m: map<string, McpClass>, order: seq<string>, extraClasses: map<string, string>)
    requires forall k :: k in m ==> m[k].notch == k
    requires forall i :: 0 <= i < |order| ==> order[i] in m
    ensures ClassNames(Emitted(m, order, extraClasses)) == order
  {
    if |order| > 0 {
      var init := order[..|order| - 1];
      var k := order[|order| - 1];
      var front := Emitted(m, init, extraClasses);
      var block := ClassBlock(m[k], extraClasses);
      ClassNamesOfEmitted(m, init, extraClasses);
      ClassNamesOfBlock(m[k], extraClasses);
      ClassNamesSnoc(front, block, order);
      assert Emitted(m, order, extraClasses) == front + block;
    }
  }

  /** Every member row is owned by a visited class. */
  lemma {:induction false} OwnersVisited(m: map<string, McpClass>, order: seq<string>, extraClasses: map<string, string>)
    requires forall k :: k in m ==> m[k].notch == k
    requires forall i :: 0 <= i < |order| ==> order[i] in m
    ensures forall r :: r in Emitted(m, order, extraClasses) && !r.ClassRow? ==> r.owner in order
  {
    if |order| > 0 {
      var init := order[..|order| - 1];
      OwnersVisited(m, init, extraClasses);
      var c := m[order[|order| - 1]];
      assert forall r :: r in ClassBlock(c, extraClasses) && !r.ClassRow? ==> r.owner == c.notch;
    }
  }

  /** The inner field loop of the writer. */
  method WriteFields(owner: string, fs: seq<McpMember>) returns (rows: seq<TinyRow>)
    ensures rows == FieldRows(owner, fs)
  {
    rows := [];
    for j := 0 to |fs|
      invariant rows == FieldRows(owner, fs[..j])
    {
      assert fs[..j + 1][..j] == fs[..j];
      var f := fs[j];
      rows := rows + [FieldRow(owner, f.sig, f.notch, f.searge, f.name)];
    }
    assert fs[..|fs|] == fs;
  }

  /** The inner method loop of the writer. */
  method WriteMethods(owner: string, ms: seq<McpMember>) returns (rows: seq<TinyRow>)
    ensures rows == MethodRows(owner, ms)
  {
    rows := [];
    for j := 0 to |ms|
      invariant rows == MethodRows(owner, ms[..j])
    {
      assert ms[..j + 1][..j] == ms[..j];
      var meth := ms[j];
      rows := rows + [MethodRow(owner, meth.sig, meth.notch, meth.searge, meth.name)];
    }
    assert ms[..|ms|] == ms;
  }

  /** One more class visited appends its block. */
  lemma EmittedStep(m: map<string, McpClass>, order: seq<string>, i: nat, extraClasses: map<string, string>)
    requires i < |order| && forall j :: 0 <= j < |order| ==> order[j] in m
    ensures Emitted(m, order[..i + 1], extraClasses) == Emitted(m, order[..i], extraClasses) + ClassBlock(m[order[i]], extraClasses)
  {
    assert order[..i + 1][..i] == order[..i];
  }

  /** The rows written for one class by the body of the writer loop. */
  method WriteClass(c: McpClass, extraClasses: map<string, string>) returns (block: seq<TinyRow>)
    ensures block == ClassBlock(c, extraClasses)
  {
    var className := if '/' in c.name then c.name else c.packageName + "/" + c.name;
    className := GetOrDefault(extraClasses, className, className);
    var fieldRows := WriteFields(c.notch, c.fields);
    var methodRows := WriteMethods(c.notch, c.methods);
    block := [ClassRow(c.notch, className, className)] + fieldRows + methodRows;
  }

  /** The writer loop of `convert`, visiting the classes in `order` (the map's iteration order). */
  method WriteRows(m: map<string, McpClass>, order: seq<string>, extraClasses: map<string, string>)
    returns (rows: seq<TinyRow>)
    requires forall i :: 0 <= i < |order| ==> order[i] in m
    ensures rows == Emitted(m, order, extraClasses)
  {
    rows := [];
    for i := 0 to |order|
      invariant rows == Emitted(m, order[..i], extraClasses)
    {
      var block := WriteClass(m[order[i]], extraClasses);
      EmittedStep(m, order, i, extraClasses);
      rows := rows + block;
    }
    assert order[..|order|] == order;
  }

  /**
   * `convert` on the parsed CSV rows: group, then write every kept class once, in some
   * enumeration of the kept names, with its side-0 members in row order. A side-0 member whose
   * class was not kept makes the lookup return null and the call fail.
   */
  method Convert(classes: seq<McpClass>, fields: seq<McpMember>, methods: seq<McpMember>,
                 extraClasses: map<string, string>)
    returns (r: Result<seq<TinyRow>>)
    modifies Kept(classes).Values`fields, Kept(classes).Values`methods
    ensures r.Ok? <==> AllOwned(fields, old(Kept(classes)).Keys) && AllOwned(methods, old(Kept(classes)).Keys)
    ensures r.Ok? ==>
      var m := old(Kept(classes));
      forall k :: k in m ==>
        && m[k] in classes && m[k].notch == k
        && m[k].fields == old(m[k].fields) + MembersOf(fields, k)
        && m[k].methods == old(m[k].methods) + MembersOf(methods, k)
    ensures r.Ok? ==>
      exists order :: IsEnumeration(order, old(Kept(classes)).Keys) && r.value == Emitted(old(Kept(classes)), order, extraClasses)
  {
    KeptWellFormed(classes);
    var grouped := Collect(classes, fields, methods);
    if grouped.Err? {
      return Err(grouped.error);
    }
    var m := grouped.value;
    var order := Enumerate(m.Keys);
    var rows := WriteRows(m, order, extraClasses);
    r := Ok(rows);
  }

  /**
   * One bean for class "a" and one side-0 field of "a": the conversion succeeds, and the
   * bean's own field list is left holding that field.
   */
  method ConvertAttachesField() returns (ok: bool, attached: seq<McpMember>)
    ensures ok && attached == [McpMember("s", "n", "x", "I", "I", "C", "a", "p", 0)]
  {
    var c := new McpClass();
    c.SetNotch("a");
    var f := McpMember("s", "n", "x", "I", "I", "C", "a", "p", 0);
    KeptWellFormed([c]);
    KeptIsLastSideZero([c], 0);
    assert "a" in Kept([c]) && Kept([c])["a"] == c;
    assert MembersOf([f], "a") == [f] by {
      MembersOfSnoc([], f, "a");
      assert [] + [f] == [f];
    }
    var r := Convert([c], [f], [], map[]);
    ok := r.Ok?;
    attached := c.fields;
  }
}
