/**
 * The part of the mapping table that the merge loop uses: classes keyed by their
 * from-name, each with an optional to-name and with methods and fields keyed by
 * (from-name, from-descriptor), each with an optional name; methods also carry named
 * argument slots. The table's readers, writers, inversion and renaming are not part of
 * this model.
 */
module MappingBlob {
  import opened Wrappers

  /** A member's from-name and from-descriptor. */
  datatype MemberKey = MemberKey(name: string, desc: string)

  /** A method's name (`null` when unnamed) and its named argument slots. */
  datatype Method = Method(name: Option<string>, args: map<nat, string>)

  datatype Field = Field(name: Option<string>)

  /** A class's to-name (`null` when unnamed) and its members. */
  datatype Mapping = Mapping(to: Option<string>, methods: map<MemberKey, Method>, fields: map<MemberKey, Field>)

  /** The entry a lookup creates for a name not yet present. */
  const EmptyMapping: Mapping := Mapping(None, map[], map[])
  const EmptyMethod: Method := Method(None, map[])
  const EmptyField: Field := Field(None)

  /** `method.arg(index)`: the name in a slot, `null` for an empty one. */
  function Arg(m: Method, index: nat): Option<string> {
    Get(m.args, index)
  }

  /** `method.hasArgs()` */
  predicate HasArgs(m: Method) {
    |m.args| > 0
  }

  /** The entry for `from`, or the empty entry a lookup would create. */
  function ClassOrEmpty(classes: map<string, Mapping>, from: string): Mapping {
    if from in classes then classes[from] else EmptyMapping
  }

  function MethodOrEmpty(methods: map<MemberKey, Method>, key: MemberKey): Method {
    if key in methods then methods[key] else EmptyMethod
  }

  function FieldOrEmpty(fields: map<MemberKey, Field>, key: MemberKey): Field {
    if key in fields then fields[key] else EmptyField
  }

  /** `tryMapName(from)`: the to-name of a present class, `null` otherwise. */
  function TryMapName(classes: map<string, Mapping>, from: string): (r: Option<string>)
    ensures r.Some? ==> from in classes && classes[from].to == r
    ensures from in classes ==> r == classes[from].to
  {
    if from in classes then classes[from].to else None
  }

  class MappingBlob {
    var classes: map<string, Mapping>

    constructor ()
      ensures classes == map[]
    {
      classes := map[];
    }

    /** `get(from)`: the entry for `from`, created empty when absent. */
    method GetClass(from: string) returns (m: Mapping)
      modifies this
      ensures classes == old(classes)[from := ClassOrEmpty(old(classes), from)]
      ensures m == ClassOrEmpty(old(classes), from) && m == classes[from]
    {
      m := ClassOrEmpty(classes, from);
      classes := classes[from := m];
    }

    /** `get(from).method(key)`: the method entry, created empty (with its class) when absent. */
    method GetMethod(from: string, key: MemberKey) returns (m: Method)
      modifies this
      ensures var c := ClassOrEmpty(old(classes), from);
              classes == old(classes)[from := c.(methods := c.methods[key := MethodOrEmpty(c.methods, key)])]
      ensures m == MethodOrEmpty(ClassOrEmpty(old(classes), from).methods, key)
    {
      var c := ClassOrEmpty(classes, from);
      m := MethodOrEmpty(c.methods, key);
      classes := classes[from := c.(methods := c.methods[key := m])];
    }

    /** `get(from).field(key)` */
    method GetField(from: string, key: MemberKey) returns (f: Field)
      modifies this
      ensures var c := ClassOrEmpty(old(classes), from);
              classes == old(classes)[from := c.(fields := c.fields[key := FieldOrEmpty(c.fields, key)])]
      ensures f == FieldOrEmpty(ClassOrEmpty(old(classes), from).fields, key)
    {
      var c := ClassOrEmpty(classes, from);
      f := FieldOrEmpty(c.fields, key);
      classes := classes[from := c.(fields := c.fields[key := f])];
    }

    /** `acceptClass(from, to)`: sets the class's to-name. */
    method AcceptClass(from: string, to: Option<string>)
      modifies this
      ensures classes == old(classes)[from := ClassOrEmpty(old(classes), from).(to := to)]
    {
      classes := classes[from := ClassOrEmpty(classes, from).(to := to)];
    }

    /** `acceptMethod(from, name, desc, …, to, …)`: sets the method's name. */
    method AcceptMethod(from: string, key: MemberKey, name: Option<string>)
      modifies this
      ensures var c := ClassOrEmpty(old(classes), from);
              classes == old(classes)[from := c.(methods := c.methods[key := MethodOrEmpty(c.methods, key).(name := name)])]
    {
      var c := ClassOrEmpty(classes, from);
      classes := classes[from := c.(methods := c.methods[key := MethodOrEmpty(c.methods, key).(name := name)])];
    }

    /** `acceptMethodArg(from, name, desc, index, arg)`: names one argument slot. */
    method AcceptMethodArg(from: string, key: MemberKey, index: nat, arg: string)
      modifies this
      ensures var c := ClassOrEmpty(old(classes), from);
              var m := MethodOrEmpty(c.methods, key);
              classes == old(classes)[from := c.(methods := c.methods[key := m.(args := m.args[index := arg])])]
    {
      var c := ClassOrEmpty(classes, from);
      var m := MethodOrEmpty(c.methods, key);
      classes := classes[from := c.(methods := c.methods[key := m.(args := m.args[index := arg])])];
    }

    /** `acceptField(from, name, desc, …, to, …)`: sets the field's name. */
    method AcceptField(from: string, key: MemberKey, name: Option<string>)
      modifies this
      ensures var c := ClassOrEmpty(old(classes), from);
              classes == old(classes)[from := c.(fields := c.fields[key := FieldOrEmpty(c.fields, key).(name := name)])]
    {
      var c := ClassOrEmpty(classes, from);
      classes := classes[from := c.(fields := c.fields[key := FieldOrEmpty(c.fields, key).(name := name)])];
    }
  }
}
