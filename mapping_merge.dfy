/**
 * The first-wins merge of one source's mappings (its "gains") into the accumulated
 * mappings. A name already present is never replaced, an identity mapping is never
 * recorded, and when an inversion of the intermediaries exists, classes it cannot map and
 * members its class entry lacks are skipped.
 */
module MappingMerge {
  import opened Wrappers
  import opened HashMapOrder
  import opened MappingBlob

  // ---------------------------------------------------------------------------------------
  // The merge, entry by entry

  /**
   * The first-wins rule for one name: an unnamed entry takes the incoming name unless that
   * name is the entry's own from-name.
   */
  function MergedName(existing: Option<string>, from: string, incoming: Option<string>): Option<string> {
    if existing.None? && incoming != Some(from) then incoming else existing
  }

  /** Argument slots: every slot already named keeps its name; empty slots take the incoming one. */
  function MergedArgs(existing: map<nat, string>, incoming: map<nat, string>, done: set<nat>): map<nat, string> {
    map i | i in existing.Keys + (incoming.Keys * done) :: if i in existing then existing[i] else incoming[i]
  }

  function MergedMethod(existing: Method, key: MemberKey, incoming: Method): Method {
    Method(MergedName(existing.name, key.name, incoming.name), MergedArgs(existing.args, incoming.args, incoming.args.Keys))
  }

  function MergedField(existing: Field, key: MemberKey, incoming: Field): Field {
    Field(MergedName(existing.name, key.name, incoming.name))
  }

  /** A member passes the filter when there is no inversion, or its inverted class has it. */
  predicate Admits(interKeys: Option<set<MemberKey>>, key: MemberKey) {
    interKeys.None? || key in interKeys.value
  }

  /** The methods after merging the incoming methods whose keys are in `done`. */
  function MergedMethods(existing: map<MemberKey, Method>, incoming: map<MemberKey, Method>,
                         interKeys: Option<set<MemberKey>>, done: set<MemberKey>): map<MemberKey, Method>
  {
    map k | k in existing.Keys + (set k | k in incoming.Keys && k in done && Admits(interKeys, k)) ::
      if k in incoming && k in done && Admits(interKeys, k) then MergedMethod(MethodOrEmpty(existing, k), k, incoming[k])
      else existing[k]
  }

  function MergedFields(existing: map<MemberKey, Field>, incoming: map<MemberKey, Field>,
                        interKeys: Option<set<MemberKey>>, done: set<MemberKey>): map<MemberKey, Field>
  {
    map k | k in existing.Keys + (set k | k in incoming.Keys && k in done && Admits(interKeys, k)) ::
      if k in incoming && k in done && Admits(interKeys, k) then MergedField(FieldOrEmpty(existing, k), k, incoming[k])
      else existing[k]
  }

  function MethodKeys(inter: Option<Mapping>): Option<set<MemberKey>> {
    if inter.None? then None else Some(inter.value.methods.Keys)
  }

  function FieldKeys(inter: Option<Mapping>): Option<set<MemberKey>> {
    if inter.None? then None else Some(inter.value.fields.Keys)
  }

  /** One class of the gains merged into its accumulated entry. */
  function MergedClass(existing: Mapping, from: string, incoming: Mapping, inter: Option<Mapping>): Mapping {
    Mapping(
      MergedName(existing.to, from, incoming.to),
      MergedMethods(existing.methods, incoming.methods, MethodKeys(inter), incoming.methods.Keys),
      MergedFields(existing.fields, incoming.fields, FieldKeys(inter), incoming.fields.Keys))
  }

  /** A class of the gains is merged unless the inversion exists and cannot map it. */
  predicate Admitted(gains: map<string, Mapping>, inversion: Option<map<string, Mapping>>, from: string) {
    from in gains && (inversion.None? || TryMapName(inversion.value, from).Some?)
  }

  /** `inversion.get(from)` for an admitted class, or no inverted class without an inversion. */
  function InterOf(inversion: Option<map<string, Mapping>>, from: string): Option<Mapping> {
    if inversion.None? then None else Some(ClassOrEmpty(inversion.value, from))
  }

  /** The accumulated classes after merging the gains' classes in `done`. */
  function PartialMerge(acc: map<string, Mapping>, gains: map<string, Mapping>,
                        inversion: Option<map<string, Mapping>>, done: set<string>): map<string, Mapping>
  {
    map k | k in acc.Keys + (set k | k in gains.Keys && k in done && Admitted(gains, inversion, k)) ::
      if k in done && Admitted(gains, inversion, k) then MergedClass(ClassOrEmpty(acc, k), k, gains[k], InterOf(inversion, k))
      else acc[k]
  }

  /** The accumulated classes after merging all of the gains. */
  function Merge(acc: map<string, Mapping>, gains: map<string, Mapping>, inversion: Option<map<string, Mapping>>): map<string, Mapping> {
    PartialMerge(acc, gains, inversion, gains.Keys)
  }

  // ---------------------------------------------------------------------------------------
  // One entry at a time

  lemma MergedArgsNone(existing: map<nat, string>, incoming: map<nat, string>)
    ensures MergedArgs(existing, incoming, {}) == existing
  {
  }

  lemma MergedArgsStep(existing: map<nat, string>, incoming: map<nat, string>, done: set<nat>, i: nat)
    requires i in incoming
    ensures MergedArgs(existing, incoming, done + {i}) ==
            if i in existing then MergedArgs(existing, incoming, done) else MergedArgs(existing, incoming, done)[i := incoming[i]]
  {
  }

  /** Step `i` of the argument loop. */
  lemma MergedArgsVisit(existing: map<nat, string>, incoming: map<nat, string>, order: seq<nat>, i: nat)
    requires IsEnumeration(order, incoming.Keys) && i < |order|
    ensures order[i] in incoming
    ensures MergedArgs(existing, incoming, Visited(order, i + 1)) ==
            if order[i] in existing then MergedArgs(existing, incoming, Visited(order, i))
            else MergedArgs(existing, incoming, Visited(order, i))[order[i] := incoming[order[i]]]
  {
    VisitedStep(order, incoming.Keys, i);
    MergedArgsStep(existing, incoming, Visited(order, i), order[i]);
  }

  lemma MergedMethodsNone(existing: map<MemberKey, Method>, incoming: map<MemberKey, Method>, interKeys: Option<set<MemberKey>>)
    ensures MergedMethods(existing, incoming, interKeys, {}) == existing
  {
  }

  lemma MergedMethodsStep(existing: map<MemberKey, Method>, incoming: map<MemberKey, Method>,
                          interKeys: Option<set<MemberKey>>, done: set<MemberKey>, k: MemberKey)
    requires k in incoming && k !in done
    ensures MergedMethods(existing, incoming, interKeys, done + {k}) ==
            if Admits(interKeys, k)
            then MergedMethods(existing, incoming, interKeys, done)[k := MergedMethod(MethodOrEmpty(existing, k), k, incoming[k])]
            else MergedMethods(existing, incoming, interKeys, done)
  {
  }

  /** Step `i` of the method loop. */
  lemma MergedMethodsVisit(existing: map<MemberKey, Method>, incoming: map<MemberKey, Method>,
                           interKeys: Option<set<MemberKey>>, order: seq<MemberKey>, i: nat)
    requires IsEnumeration(order, incoming.Keys) && i < |order|
    ensures order[i] in incoming
    ensures MergedMethods(existing, incoming, interKeys, Visited(order, i + 1)) ==
            if Admits(interKeys, order[i])
            then MergedMethods(existing, incoming, interKeys, Visited(order, i))[order[i] := MergedMethod(MethodOrEmpty(existing, order[i]), order[i], incoming[order[i]])]
            else MergedMethods(existing, incoming, interKeys, Visited(order, i))
    ensures MethodOrEmpty(MergedMethods(existing, incoming, interKeys, Visited(order, i)), order[i]) == MethodOrEmpty(existing, order[i])
  {
    VisitedStep(order, incoming.Keys, i);
    MergedMethodsStep(existing, incoming, interKeys, Visited(order, i), order[i]);
  }

  lemma MergedFieldsNone(existing: map<MemberKey, Field>, incoming: map<MemberKey, Field>, interKeys: Option<set<MemberKey>>)
    ensures MergedFields(existing, incoming, interKeys, {}) == existing
  {
  }

  lemma MergedFieldsStep(existing: map<MemberKey, Field>, incoming: map<MemberKey, Field>,
                         interKeys: Option<set<MemberKey>>, done: set<MemberKey>, k: MemberKey)
    requires k in incoming && k !in done
    ensures MergedFields(existing, incoming, interKeys, done + {k}) ==
            if Admits(interKeys, k)
            then MergedFields(existing, incoming, interKeys, done)[k := MergedField(FieldOrEmpty(existing, k), k, incoming[k])]
            else MergedFields(existing, incoming, interKeys, done)
  {
  }

  /** Step `i` of the field loop. */
  lemma MergedFieldsVisit(existing: map<MemberKey, Field>, incoming: map<MemberKey, Field>,
                          interKeys: Option<set<MemberKey>>, order: seq<MemberKey>, i: nat)
    requires IsEnumeration(order, incoming.Keys) && i < |order|
    ensures order[i] in incoming
    ensures MergedFields(existing, incoming, interKeys, Visited(order, i + 1)) ==
            if Admits(interKeys, order[i])
            then MergedFields(existing, incoming, interKeys, Visited(order, i))[order[i] := MergedField(FieldOrEmpty(existing, order[i]), order[i], incoming[order[i]])]
            else MergedFields(existing, incoming, interKeys, Visited(order, i))
    ensures FieldOrEmpty(MergedFields(existing, incoming, interKeys, Visited(order, i)), order[i]) == FieldOrEmpty(existing, order[i])
  {
    VisitedStep(order, incoming.Keys, i);
    MergedFieldsStep(existing, incoming, interKeys, Visited(order, i), order[i]);
  }

  lemma PartialMergeNone(acc: map<string, Mapping>, gains: map<string, Mapping>, inversion: Option<map<string, Mapping>>)
    ensures PartialMerge(acc, gains, inversion, {}) == acc
  {
  }

  lemma PartialMergeStep(acc: map<string, Mapping>, gains: map<string, Mapping>,
                         inversion: Option<map<string, Mapping>>, done: set<string>, k: string)
    requires k in gains && k !in done
    ensures PartialMerge(acc, gains, inversion, done + {k}) ==
            if Admitted(gains, inversion, k)
            then PartialMerge(acc, gains, inversion, done)[k := MergedClass(ClassOrEmpty(acc, k), k, gains[k], InterOf(inversion, k))]
            else PartialMerge(acc, gains, inversion, done)
  {
  }

  /** Step `i` of the class loop. */
  lemma PartialMergeVisit(acc: map<string, Mapping>, gains: map<string, Mapping>,
                          inversion: Option<map<string, Mapping>>, order: seq<string>, i: nat)
    requires IsEnumeration(order, gains.Keys) && i < |order|
    ensures order[i] in gains
    ensures PartialMerge(acc, gains, inversion, Visited(order, i + 1)) ==
            if Admitted(gains, inversion, order[i])
            then PartialMerge(acc, gains, inversion, Visited(order, i))[order[i] := MergedClass(ClassOrEmpty(acc, order[i]), order[i], gains[order[i]], InterOf(inversion, order[i]))]
            else PartialMerge(acc, gains, inversion, Visited(order, i))
    ensures ClassOrEmpty(PartialMerge(acc, gains, inversion, Visited(order, i)), order[i]) == ClassOrEmpty(acc, order[i])
  {
    VisitedStep(order, gains.Keys, i);
    PartialMergeStep(acc, gains, inversion, Visited(order, i), order[i]);
    PartialMergeKeeps(acc, gains, inversion, Visited(order, i), order[i]);
  }

  /** A class not merged yet still has its accumulated entry. */
  lemma PartialMergeKeeps(acc: map<string, Mapping>, gains: map<string, Mapping>,
                          inversion: Option<map<string, Mapping>>, done: set<string>, k: string)
    requires k !in done
    ensures ClassOrEmpty(PartialMerge(acc, gains, inversion, done), k) == ClassOrEmpty(acc, k)
  {
  }

  // ---------------------------------------------------------------------------------------
  // The merge loop

  /** The argument loop: `iterateArgs`, naming each slot that is still empty. */
  method MergeArgs(acc: MappingBlob, from: string, key: MemberKey, existing: map<nat, string>, incoming: map<nat, string>)
    requires from in acc.classes && key in acc.classes[from].methods
    requires acc.classes[from].methods[key].args == existing
    modifies acc
    ensures var c := old(acc.classes)[from];
            var m := c.methods[key];
            acc.classes == old(acc.classes)[from := c.(methods := c.methods[key := m.(args := MergedArgs(existing, incoming, incoming.Keys))])]
  {
    ghost var c := acc.classes[from];
    ghost var m := c.methods[key];
    ghost var start := acc.classes;
    var order := Enumerate(incoming.Keys);
    VisitedNone(order);
    MergedArgsNone(existing, incoming);
    assert m.(args := existing) == m;
    assert c.methods[key := m] == c.methods;
    assert c.(methods := c.methods) == c;
    assert start[from := c] == start;
    for i := 0 to |order|
      invariant acc.classes == start[from := c.(methods := c.methods[key := m.(args := MergedArgs(existing, incoming, Visited(order, i)))])]
    {
      var index := order[i];
      MergedArgsVisit(existing, incoming, order, i);
      if index !in existing {
        ghost var args := MergedArgs(existing, incoming, Visited(order, i));
        assert acc.classes[from] == c.(methods := c.methods[key := m.(args := args)]);
        assert acc.classes[from].methods[key] == m.(args := args);
        acc.AcceptMethodArg(from, key, index, incoming[index]);
        UpdateTwice(c.methods, key, m.(args := args), m.(args := args[index := incoming[index]]));
      }
    }
    VisitedAll(order, incoming.Keys);
  }

  /** The name of one method of a class of the gains: `acceptMethod` when first wins. */
  method NameMethod(acc: MappingBlob, from: string, key: MemberKey, incoming: Method) returns (existing: Method)
    requires from in acc.classes
    modifies acc
    ensures var c := old(acc.classes)[from];
            && existing == MethodOrEmpty(c.methods, key)
            && acc.classes == old(acc.classes)[from := c.(methods := c.methods[key := existing.(name := MergedName(existing.name, key.name, incoming.name))])]
  {
    ghost var c := old(acc.classes)[from];
    existing := acc.GetMethod(from, key);
    ghost var named := existing.(name := MergedName(existing.name, key.name, incoming.name));
    if existing.name.None? && Some(key.name) != incoming.name {
      acc.AcceptMethod(from, key, incoming.name);
      assert c.(methods := c.methods[key := existing]).methods[key := named] == c.methods[key := named];
    } else {
      assert named == existing;
    }
  }

  /** One method of a class of the gains. */
  method MergeMethod(acc: MappingBlob, from: string, key: MemberKey, incoming: Method)
    requires from in acc.classes
    modifies acc
    ensures var c := old(acc.classes)[from];
            acc.classes == old(acc.classes)[from := c.(methods := c.methods[key := MergedMethod(MethodOrEmpty(c.methods, key), key, incoming)])]
  {
    ghost var before := acc.classes;
    ghost var c := before[from];
    var existing := NameMethod(acc, from, key, incoming);
    ghost var named := existing.(name := MergedName(existing.name, key.name, incoming.name));
    ghost var merged := MergedMethod(existing, key, incoming);
    if HasArgs(incoming) {
      ghost var cur := c.(methods := c.methods[key := named]);
      MergeArgs(acc, from, key, existing.args, incoming.args);
      assert cur.(methods := cur.methods[key := merged]) == c.(methods := c.methods[key := merged]);
      UpdateTwice(before, from, cur, c.(methods := c.methods[key := merged]));
    } else {
      assert merged == named;
    }
  }

  /** The method loop of one class. */
  method MergeMethods(acc: MappingBlob, from: string, incoming: map<MemberKey, Method>, interKeys: Option<set<MemberKey>>)
    requires from in acc.classes
    modifies acc
    ensures var c := old(acc.classes)[from];
            acc.classes == old(acc.classes)[from := c.(methods := MergedMethods(c.methods, incoming, interKeys, incoming.Keys))]
  {
    ghost var c := acc.classes[from];
    ghost var start := acc.classes;
    var order := Enumerate(incoming.Keys);
    VisitedNone(order);
    MergedMethodsNone(c.methods, incoming, interKeys);
    assert start == start[from := c.(methods := MergedMethods(c.methods, incoming, interKeys, Visited(order, 0)))];
    for i := 0 to |order|
      invariant acc.classes == start[from := c.(methods := MergedMethods(c.methods, incoming, interKeys, Visited(order, i)))]
    {
      var key := order[i];
      MergedMethodsVisit(c.methods, incoming, interKeys, order, i);
      if Admits(interKeys, key) {
        ghost var done := MergedMethods(c.methods, incoming, interKeys, Visited(order, i));
        MergeMethod(acc, from, key, incoming[key]);
        assert c.(methods := done).(methods := done[key := MergedMethod(MethodOrEmpty(done, key), key, incoming[key])])
            == c.(methods := done[key := MergedMethod(MethodOrEmpty(done, key), key, incoming[key])]);
      }
    }
    VisitedAll(order, incoming.Keys);
  }

  /** One field of a class of the gains. */
  method MergeField(acc: MappingBlob, from: string, key: MemberKey, incoming: Field)
    requires from in acc.classes
    modifies acc
    ensures var c := old(acc.classes)[from];
            acc.classes == old(acc.classes)[from := c.(fields := c.fields[key := MergedField(FieldOrEmpty(c.fields, key), key, incoming)])]
  {
    ghost var c := old(acc.classes)[from];
    var existingField := acc.GetField(from, key);
    ghost var named := MergedField(existingField, key, incoming);
    if existingField.name.None? && Some(key.name) != incoming.name {
      acc.AcceptField(from, key, incoming.name);
      assert c.(fields := c.fields[key := existingField]).fields[key := named] == c.fields[key := named];
    } else {
      assert named == existingField;
    }
  }

  /** Step `i` of the field loop. */
  method MergeFieldAt(acc: MappingBlob, from: string, incoming: map<MemberKey, Field>, interKeys: Option<set<MemberKey>>,
                      ghost start: map<string, Mapping>, ghost c: Mapping, order: seq<MemberKey>, i: nat)
    requires IsEnumeration(order, incoming.Keys) && i < |order|
    requires acc.classes == start[from := c.(fields := MergedFields(c.fields, incoming, interKeys, Visited(order, i)))]
    modifies acc
    ensures acc.classes == start[from := c.(fields := MergedFields(c.fields, incoming, interKeys, Visited(order, i + 1)))]
  {
    var key := order[i];
    MergedFieldsVisit(c.fields, incoming, interKeys, order, i);
    if Admits(interKeys, key) {
      ghost var done := MergedFields(c.fields, incoming, interKeys, Visited(order, i));
      ghost var next := done[key := MergedField(FieldOrEmpty(done, key), key, incoming[key])];
      MergeField(acc, from, key, incoming[key]);
      assert c.(fields := done).(fields := next) == c.(fields := next);
      UpdateTwice(start, from, c.(fields := done), c.(fields := next));
    }
  }

  /** The field loop of one class. */
  method MergeFields(acc: MappingBlob, from: string, incoming: map<MemberKey, Field>, interKeys: Option<set<MemberKey>>)
    requires from in acc.classes
    modifies acc
    ensures var c := old(acc.classes)[from];
            acc.classes == old(acc.classes)[from := c.(fields := MergedFields(c.fields, incoming, interKeys, incoming.Keys))]
  {
    ghost var c := acc.classes[from];
    ghost var start := acc.classes;
    var order := Enumerate(incoming.Keys);
    VisitedNone(order);
    MergedFieldsNone(c.fields, incoming, interKeys);
    assert start == start[from := c.(fields := MergedFields(c.fields, incoming, interKeys, Visited(order, 0)))];
    for i := 0 to |order|
      invariant acc.classes == start[from := c.(fields := MergedFields(c.fields, incoming, interKeys, Visited(order, i)))]
    {
      MergeFieldAt(acc, from, incoming, interKeys, start, c, order, i);
    }
    VisitedAll(order, incoming.Keys);
  }

  /** The body of the class loop for a class that passed the inversion filter. */
  method MergeClass(acc: MappingBlob, from: string, incoming: Mapping, inter: Option<Mapping>)
    modifies acc
    ensures acc.classes == old(acc.classes)[from := MergedClass(ClassOrEmpty(old(acc.classes), from), from, incoming, inter)]
  {
    ghost var before := acc.classes;
    ghost var e := ClassOrEmpty(before, from);
    ghost var named := e.(to := MergedName(e.to, from, incoming.to));
    var existingClass := acc.GetClass(from);
    if existingClass.to.None? && Some(from) != incoming.to {
      acc.AcceptClass(from, incoming.to);
    } else {
      assert named == e;
    }
    assert acc.classes == before[from := named];
    ghost var methods := MergedMethods(named.methods, incoming.methods, MethodKeys(inter), incoming.methods.Keys);
    MergeMethods(acc, from, incoming.methods, MethodKeys(inter));
    UpdateTwice(before, from, named, named.(methods := methods));
    ghost var withMethods := named.(methods := methods);
    ghost var fields := MergedFields(withMethods.fields, incoming.fields, FieldKeys(inter), incoming.fields.Keys);
    MergeFields(acc, from, incoming.fields, FieldKeys(inter));
    UpdateTwice(before, from, withMethods, withMethods.(fields := fields));
    assert withMethods.(fields := fields) == MergedClass(e, from, incoming, inter);
  }

  /** The class loop of one source: every admitted class of the gains is merged. */
  method MergeGains(acc: MappingBlob, gains: map<string, Mapping>, inversion: Option<map<string, Mapping>>)
    modifies acc
    ensures acc.classes == Merge(old(acc.classes), gains, inversion)
  {
    ghost var start := acc.classes;
    var order := Enumerate(gains.Keys);
    VisitedNone(order);
    PartialMergeNone(start, gains, inversion);
    for i := 0 to |order|
      invariant acc.classes == PartialMerge(start, gains, inversion, Visited(order, i))
    {
      var from := order[i];
      PartialMergeVisit(start, gains, inversion, order, i);
      var classMapping := gains[from];
      var inter: Option<Mapping> := None;
      if inversion.Some? {
        if TryMapName(inversion.value, from).None? {
          continue;
        }
        inter := Some(ClassOrEmpty(inversion.value, from));
      }
      MergeClass(acc, from, classMapping, inter);
    }
    VisitedAll(order, gains.Keys);
  }

  /** The accumulated classes after merging every source's gains, first source first. */
  function MergeAll(acc: map<string, Mapping>, stack: seq<map<string, Mapping>>, inversion: Option<map<string, Mapping>>): map<string, Mapping>
    decreases |stack|
  {
    if |stack| == 0 then acc else MergeAll(Merge(acc, stack[0], inversion), stack[1..], inversion)
  }

  /** The loop over the sources of the stack, each already read (and renamed) into its gains. */
  method MergeStack(acc: MappingBlob, stack: seq<map<string, Mapping>>, inversion: Option<map<string, Mapping>>)
    modifies acc
    ensures acc.classes == MergeAll(old(acc.classes), stack, inversion)
  {
    for i := 0 to |stack|
      invariant MergeAll(acc.classes, stack[i..], inversion) == MergeAll(old(acc.classes), stack, inversion)
    {
      assert stack[i..][1..] == stack[i + 1..];
      MergeGains(acc, stack[i], inversion);
    }
  }
}

/** What the first-wins merge promises. */
module MappingMergeProperties {
  import opened Wrappers
  import opened MappingBlob
  import opened MappingMerge

  /** A name that is set stays as it is. */
  predicate NameKept(before: Option<string>, after: Option<string>) {
    before.Some? ==> after == before
  }

  predicate MethodExtends(before: Method, after: Method) {
    && NameKept(before.name, after.name)
    && before.args.Keys <= after.args.Keys
    && (forall i :: i in before.args ==> after.args[i] == before.args[i])
  }

  predicate ClassExtends(before: Mapping, after: Mapping) {
    && NameKept(before.to, after.to)
    && before.methods.Keys <= after.methods.Keys
    && (forall k :: k in before.methods ==> MethodExtends(before.methods[k], after.methods[k]))
    && before.fields.Keys <= after.fields.Keys
    && (forall k :: k in before.fields ==> NameKept(before.fields[k].name, after.fields[k].name))
  }

  /** Every entry of `before` survives in `after`, with every name it had. */
  predicate Extends(before: map<string, Mapping>, after: map<string, Mapping>) {
    && before.Keys <= after.Keys
    && (forall k :: k in before ==> ClassExtends(before[k], after[k]))
  }

  lemma MergedMethodsExtend(existing: map<MemberKey, Method>, incoming: map<MemberKey, Method>, interKeys: Option<set<MemberKey>>)
    ensures var r := MergedMethods(existing, incoming, interKeys, incoming.Keys);
            existing.Keys <= r.Keys && forall k :: k in existing ==> MethodExtends(existing[k], r[k])
  {
  }

  lemma MergedClassExtends(existing: Mapping, from: string, incoming: Mapping, inter: Option<Mapping>)
    ensures ClassExtends(existing, MergedClass(existing, from, incoming, inter))
  {
    MergedMethodsExtend(existing.methods, incoming.methods, MethodKeys(inter));
  }

  /** First wins: merging never drops an entry or replaces a name already present. */
  lemma MergeExtends(acc: map<string, Mapping>, gains: map<string, Mapping>, inversion: Option<map<string, Mapping>>)
    ensures Extends(acc, Merge(acc, gains, inversion))
  {
    var r := Merge(acc, gains, inversion);
    forall k | k in acc
      ensures ClassExtends(acc[k], r[k])
    {
      if Admitted(gains, inversion, k) {
        MergedClassExtends(acc[k], k, gains[k], InterOf(inversion, k));
      }
    }
  }

  /** A class the gains name gets that name unless it had one already or it is the identity. */
  lemma MergeFillsClassName(acc: map<string, Mapping>, gains: map<string, Mapping>,
                                               inversion: Option<map<string, Mapping>>, from: string)
    requires Admitted(gains, inversion, from)
    ensures from in Merge(acc, gains, inversion)
    ensures Merge(acc, gains, inversion)[from].to ==
            if ClassOrEmpty(acc, from).to.None? && gains[from].to != Some(from) then gains[from].to
            else ClassOrEmpty(acc, from).to
  {
  }

  /** An identity name is never recorded: an entry maps to itself only if it already did. */
  lemma MergeNoIdentity(acc: map<string, Mapping>, gains: map<string, Mapping>,
                        inversion: Option<map<string, Mapping>>, from: string)
    requires from in Merge(acc, gains, inversion)
    requires ClassOrEmpty(acc, from).to != Some(from)
    ensures Merge(acc, gains, inversion)[from].to != Some(from)
  {
  }

  /** A class the gains lack, or the inversion cannot map, is left as it was. */
  lemma MergeSkips(acc: map<string, Mapping>, gains: map<string, Mapping>,
                   inversion: Option<map<string, Mapping>>, from: string)
    requires !Admitted(gains, inversion, from)
    ensures from in Merge(acc, gains, inversion) <==> from in acc
    ensures from in acc ==> Merge(acc, gains, inversion)[from] == acc[from]
  {
  }

  /**
   * With an inversion, every member the merge adds to a class is one that the class's
   * inverted entry has.
   */
  lemma MergeFiltersMembers(acc: map<string, Mapping>, gains: map<string, Mapping>,
                            inversion: map<string, Mapping>, from: string)
    requires from in Merge(acc, gains, Some(inversion))
    ensures forall k :: k in Merge(acc, gains, Some(inversion))[from].methods ==>
              k in ClassOrEmpty(acc, from).methods || k in ClassOrEmpty(inversion, from).methods
    ensures forall k :: k in Merge(acc, gains, Some(inversion))[from].fields ==>
              k in ClassOrEmpty(acc, from).fields || k in ClassOrEmpty(inversion, from).fields
  {
  }

  lemma MergedNameTwice(existing: Option<string>, from: string, incoming: Option<string>)
    ensures MergedName(MergedName(existing, from, incoming), from, incoming) == MergedName(existing, from, incoming)
  {
  }

  lemma MergedArgsTwice(existing: map<nat, string>, incoming: map<nat, string>)
    ensures MergedArgs(MergedArgs(existing, incoming, incoming.Keys), incoming, incoming.Keys) == MergedArgs(existing, incoming, incoming.Keys)
  {
  }

  lemma MergedMethodsTwice(existing: map<MemberKey, Method>, incoming: map<MemberKey, Method>, interKeys: Option<set<MemberKey>>)
    ensures var once := MergedMethods(existing, incoming, interKeys, incoming.Keys);
            MergedMethods(once, incoming, interKeys, incoming.Keys) == once
  {
    var once := MergedMethods(existing, incoming, interKeys, incoming.Keys);
    var twice := MergedMethods(once, incoming, interKeys, incoming.Keys);
    forall k | k in once
      ensures twice[k] == once[k]
    {
      if k in incoming && Admits(interKeys, k) {
        var m := MethodOrEmpty(existing, k);
        MergedNameTwice(m.name, k.name, incoming[k].name);
        MergedArgsTwice(m.args, incoming[k].args);
      }
    }
  }

  lemma MergedFieldsTwice(existing: map<MemberKey, Field>, incoming: map<MemberKey, Field>, interKeys: Option<set<MemberKey>>)
    ensures var once := MergedFields(existing, incoming, interKeys, incoming.Keys);
            MergedFields(once, incoming, interKeys, incoming.Keys) == once
  {
    var once := MergedFields(existing, incoming, interKeys, incoming.Keys);
    var twice := MergedFields(once, incoming, interKeys, incoming.Keys);
    forall k | k in once
      ensures twice[k] == once[k]
    {
      if k in incoming && Admits(interKeys, k) {
        MergedNameTwice(FieldOrEmpty(existing, k).name, k.name, incoming[k].name);
      }
    }
  }

  lemma MergedClassTwice(existing: Mapping, from: string, incoming: Mapping, inter: Option<Mapping>)
    ensures MergedClass(MergedClass(existing, from, incoming, inter), from, incoming, inter) == MergedClass(existing, from, incoming, inter)
  {
    MergedNameTwice(existing.to, from, incoming.to);
    MergedMethodsTwice(existing.methods, incoming.methods, MethodKeys(inter));
    MergedFieldsTwice(existing.fields, incoming.fields, FieldKeys(inter));
  }

  /** Merging the same source twice is the same as merging it once. */
  lemma MergeTwice(acc: map<string, Mapping>, gains: map<string, Mapping>, inversion: Option<map<string, Mapping>>)
    ensures Merge(Merge(acc, gains, inversion), gains, inversion) == Merge(acc, gains, inversion)
  {
    var once := Merge(acc, gains, inversion);
    var twice := Merge(once, gains, inversion);
    forall k | k in once
      ensures twice[k] == once[k]
    {
      if Admitted(gains, inversion, k) {
        MergedClassTwice(ClassOrEmpty(acc, k), k, gains[k], InterOf(inversion, k));
      }
    }
  }

  lemma ClassExtendsTransitive(a: Mapping, b: Mapping, c: Mapping)
    requires ClassExtends(a, b) && ClassExtends(b, c)
    ensures ClassExtends(a, c)
  {
    forall k | k in a.methods
      ensures MethodExtends(a.methods[k], c.methods[k])
    {
      assert MethodExtends(a.methods[k], b.methods[k]) && MethodExtends(b.methods[k], c.methods[k]);
    }
  }

  lemma ExtendsTransitive(a: map<string, Mapping>, b: map<string, Mapping>, c: map<string, Mapping>)
    requires Extends(a, b) && Extends(b, c)
    ensures Extends(a, c)
  {
    forall k | k in a
      ensures ClassExtends(a[k], c[k])
    {
      ClassExtendsTransitive(a[k], b[k], c[k]);
    }
  }

  /**
   * Earlier sources win: merging a whole stack keeps every entry and name the accumulator
   * had, so a name from one source is never replaced by a later source's.
   */
  lemma {:induction false} MergeAllExtends(acc: map<string, Mapping>, stack: seq<map<string, Mapping>>,
                                           inversion: Option<map<string, Mapping>>)
    ensures Extends(acc, MergeAll(acc, stack, inversion))
    decreases |stack|
  {
    if |stack| > 0 {
      var next := Merge(acc, stack[0], inversion);
      MergeExtends(acc, stack[0], inversion);
      MergeAllExtends(next, stack[1..], inversion);
      ExtendsTransitive(acc, next, MergeAll(next, stack[1..], inversion));
    } else {
      ExtendsRefl(acc);
    }
  }

  lemma ExtendsRefl(a: map<string, Mapping>)
    ensures Extends(a, a)
  {
  }
}
