/**
 * The stacked mapping sources: which one supplies the intermediaries for the Minecraft
 * version being set up, and which namespace each is read from.
 */
module MappingSources {
  import opened Wrappers
  import opened JavaStrings

  /** The kinds of mapping file; `Tiny` is an ambiguous kind that has not been worked out yet. */
  datatype MappingType = Tiny | TinyV1 | TinyV2 | TinyGz | Enigma

  /**
   * One source of the stack: its name, version, the Minecraft version it is for, its kind
   * and the namespaces its header declares (for a gzipped tiny file, as the header reader
   * returns them).
   */
  datatype MappingFile = MappingFile(name: string, version: string, minecraftVersion: string,
                                     kind: MappingType, namespaces: seq<string>)

  /** How easily a kind's headers can be read: the order the comparator sorts by. */
  function Rank(t: MappingType): nat
    requires t != Tiny
  {
    match t
    case TinyGz => 0
    case TinyV1 => 1
    case TinyV2 => 2
    case Enigma => 3
  }

  function Sign(n: int): int {
    if n < 0 then -1 else if n == 0 then 0 else 1
  }

  /** The sort comparator over two sources' kinds. */
  function Compare(a: MappingType, b: MappingType): (r: Result<int>)
    ensures a != Tiny && b != Tiny ==> r == Ok(Sign(Rank(a) - Rank(b)))
    ensures a == b ==> r == Ok(0)
    ensures a == Tiny && b != Tiny ==> r == Err(IllegalArgument)
  {
    if a == b then Ok(0)
    else
      match a
      case TinyGz => Ok(-1)
      case TinyV1 => Ok(if b == TinyGz then 1 else -1)
      case TinyV2 => Ok(if b == Enigma then -1 else 1)
      case Enigma => Ok(1)
      case Tiny => Err(IllegalArgument)
  }

  /** The comparator is antisymmetric on the kinds it accepts. */
  lemma CompareAntisymmetric(a: MappingType, b: MappingType)
    requires a != Tiny && b != Tiny
    ensures Compare(a, b).Ok? && Compare(b, a).Ok? && Compare(a, b).value == -Compare(b, a).value
  {
  }

  /** The header filter: whether a source's header names both "official" and "intermediary". */
  function HasIntermediaries(f: MappingFile): (r: Result<bool>)
    ensures r.Err? <==> f.kind == Tiny
    ensures r.Ok? ==> (r.value <==> f.kind != Enigma && "official" in f.namespaces && "intermediary" in f.namespaces)
  {
    match f.kind
    case Enigma => Ok(false)
    case TinyV1 => Ok("official" in f.namespaces && "intermediary" in f.namespaces)
    case TinyV2 => Ok("official" in f.namespaces && "intermediary" in f.namespaces)
    case TinyGz => Ok("official" in f.namespaces && "intermediary" in f.namespaces)
    case Tiny => Err(IllegalArgument)
  }

  /** No ambiguous source is left once every source has been worked out. */
  predicate Enlightened(files: seq<MappingFile>) {
    forall i :: 0 <= i < |files| ==> files[i].kind != Tiny
  }

  lemma EnlightenedTail(files: seq<MappingFile>)
    requires |files| > 0 && Enlightened(files)
    ensures Enlightened(files[1..])
  {
    forall i | 0 <= i < |files| - 1
      ensures files[1..][i].kind != Tiny
    {
      assert files[1..][i] == files[i + 1];
    }
  }

  predicate Supplies(f: MappingFile)
    requires f.kind != Tiny
  {
    HasIntermediaries(f) == Ok(true)
  }

  /** The sources made for the target Minecraft version, in stack order. */
  function ForVersion(files: seq<MappingFile>, target: string): (r: seq<MappingFile>)
    ensures forall i :: 0 <= i < |r| ==> r[i].minecraftVersion == target
    ensures Enlightened(files) ==> Enlightened(r)
  {
    if |files| == 0 then []
    else (if files[0].minecraftVersion == target then [files[0]] else []) + ForVersion(files[1..], target)
  }

  lemma {:induction false} ForVersionAppend(a: seq<MappingFile>, b: seq<MappingFile>, target: string)
    ensures ForVersion(a + b, target) == ForVersion(a, target) + ForVersion(b, target)
  {
    if |a| > 0 {
      assert (a + b)[1..] == a[1..] + b;
      ForVersionAppend(a[1..], b, target);
    } else {
      assert a + b == b;
    }
  }

  lemma {:induction false} ForVersionHas(files: seq<MappingFile>, target: string, f: MappingFile)
    requires f in files && f.minecraftVersion == target
    ensures f in ForVersion(files, target)
  {
    if files[0] != f {
      ForVersionHas(files[1..], target, f);
    }
  }

  /** The sources of one rank, in their original order. */
  function OfRank(files: seq<MappingFile>, k: nat): (r: seq<MappingFile>)
    requires Enlightened(files)
    ensures Enlightened(r)
    ensures forall i :: 0 <= i < |r| ==> Rank(r[i].kind) == k
  {
    if |files| == 0 then []
    else (if Rank(files[0].kind) == k then [files[0]] else []) + OfRank(files[1..], k)
  }

  lemma {:induction false} OfRankAppend(a: seq<MappingFile>, b: seq<MappingFile>, k: nat)
    requires Enlightened(a) && Enlightened(b)
    ensures Enlightened(a + b)
    ensures OfRank(a + b, k) == OfRank(a, k) + OfRank(b, k)
  {
    if |a| > 0 {
      assert (a + b)[1..] == a[1..] + b;
      OfRankAppend(a[1..], b, k);
    } else {
      assert a + b == b;
    }
  }

  lemma {:induction false} OfRankHas(files: seq<MappingFile>, k: nat, f: MappingFile)
    requires Enlightened(files) && f in files && Rank(f.kind) == k
    ensures f in OfRank(files, k)
  {
    if files[0] != f {
      OfRankHas(files[1..], k, f);
    }
  }

  /**
   * The sources stably sorted by the comparator: since it orders by a rank of four values,
   * a stable sort puts every source of rank 0 first, in its original order, then rank 1,
   * and so on.
   */
  function SortedByRank(files: seq<MappingFile>): (r: seq<MappingFile>)
    requires Enlightened(files)
    ensures Enlightened(r)
  {
    OfRank(files, 0) + OfRank(files, 1) + OfRank(files, 2) + OfRank(files, 3)
  }

  /** Every source has exactly one of the four ranks. */
  lemma {:induction false} RanksPartition(files: seq<MappingFile>)
    requires Enlightened(files)
    ensures multiset(OfRank(files, 0)) + multiset(OfRank(files, 1)) + multiset(OfRank(files, 2)) + multiset(OfRank(files, 3))
            == multiset(files)
  {
    if |files| > 0 {
      var x := files[0];
      var rest := files[1..];
      assert files == [x] + rest;
      EnlightenedTail(files);
      RanksPartition(rest);
      assert multiset(files) == multiset{x} + multiset(rest);
    }
  }

  lemma SortedByRankPermutes(files: seq<MappingFile>)
    requires Enlightened(files)
    ensures multiset(SortedByRank(files)) == multiset(files)
  {
    RanksPartition(files);
  }

  /** `SortedByRank` is a sort: ranks never decrease along it, and it permutes its input. */
  lemma SortedByRankSorts(files: seq<MappingFile>)
    requires Enlightened(files)
    ensures var s := SortedByRank(files);
            forall i, j :: 0 <= i < j < |s| ==> Rank(s[i].kind) <= Rank(s[j].kind)
    ensures multiset(SortedByRank(files)) == multiset(files)
  {
    SortedByRankPermutes(files);
    var s := SortedByRank(files);
    var n0 := |OfRank(files, 0)|;
    var n1 := n0 + |OfRank(files, 1)|;
    var n2 := n1 + |OfRank(files, 2)|;
    forall i | 0 <= i < |s|
      ensures Rank(s[i].kind) == if i < n0 then 0 else if i < n1 then 1 else if i < n2 then 2 else 3
    {
      if i < n0 {
        assert s[i] == OfRank(files, 0)[i];
      } else if i < n1 {
        assert s[i] == OfRank(files, 1)[i - n0];
      } else if i < n2 {
        assert s[i] == OfRank(files, 2)[i - n1];
      } else {
        assert s[i] == OfRank(files, 3)[i - n2];
      }
    }
  }

  /** `findFirst` after the header filter. */
  function FirstSupplier(files: seq<MappingFile>): (r: Option<MappingFile>)
    requires Enlightened(files)
    ensures r.Some? ==> r.value in files && Supplies(r.value)
  {
    if |files| == 0 then None
    else if Supplies(files[0]) then Some(files[0])
    else FirstSupplier(files[1..])
  }

  lemma {:induction false} FirstSupplierFinds(files: seq<MappingFile>, f: MappingFile)
    requires Enlightened(files) && f in files && Supplies(f)
    ensures FirstSupplier(files).Some?
  {
    if files[0] != f && !Supplies(files[0]) {
      FirstSupplierFinds(files[1..], f);
    }
  }

  lemma {:induction false} FirstSupplierAppend(a: seq<MappingFile>, b: seq<MappingFile>)
    requires Enlightened(a) && Enlightened(b)
    ensures Enlightened(a + b)
    ensures FirstSupplier(a + b) == if FirstSupplier(a).Some? then FirstSupplier(a) else FirstSupplier(b)
  {
    if |a| > 0 {
      assert (a + b)[1..] == a[1..] + b;
      FirstSupplierAppend(a[1..], b);
    } else {
      assert a + b == b;
    }
  }

  /** The source that supplies the intermediaries for `target`, if any does. */
  function InterProvider(files: seq<MappingFile>, target: string): Option<MappingFile>
    requires Enlightened(files)
  {
    FirstSupplier(SortedByRank(ForVersion(files, target)))
  }

  /** Whether a source could supply the intermediaries: made for `target`, and its header names both. */
  predicate CanSupply(f: MappingFile, target: string)
    requires f.kind != Tiny
  {
    f.minecraftVersion == target && Supplies(f)
  }

  /** The first source in stack order that could supply the intermediaries and has rank `k`. */
  function FirstOfRank(files: seq<MappingFile>, target: string, k: nat): (r: Option<MappingFile>)
    requires Enlightened(files)
    ensures r.Some? ==> r.value in files && CanSupply(r.value, target) && Rank(r.value.kind) == k
  {
    if |files| == 0 then None
    else if CanSupply(files[0], target) && Rank(files[0].kind) == k then Some(files[0])
    else FirstOfRank(files[1..], target, k)
  }

  lemma {:induction false} FirstSupplierOfRank(files: seq<MappingFile>, target: string, k: nat)
    requires Enlightened(files)
    ensures FirstSupplier(OfRank(ForVersion(files, target), k)) == FirstOfRank(files, target, k)
  {
    if |files| > 0 {
      var x := files[0];
      var rest := files[1..];
      assert files == [x] + rest;
      FirstSupplierOfRank(rest, target, k);
      ForVersionAppend([x], rest, target);
      var head := if x.minecraftVersion == target then [x] else [];
      assert ForVersion([x], target) == head by {
        assert [x][1..] == [];
      }
      OfRankAppend(head, ForVersion(rest, target), k);
      var mine := if x.minecraftVersion == target && Rank(x.kind) == k then [x] else [];
      assert OfRank(head, k) == mine by {
        if head == [x] {
          assert [x][1..] == [];
        }
      }
      FirstSupplierAppend(mine, OfRank(ForVersion(rest, target), k));
      if mine == [x] {
        assert FirstSupplier(mine) == if Supplies(x) then Some(x) else FirstSupplier([]) by {
          assert mine[1..] == [];
        }
      }
    }
  }

  lemma {:induction false} FirstOfRankFinds(files: seq<MappingFile>, target: string, f: MappingFile)
    requires Enlightened(files) && f in files && CanSupply(f, target)
    ensures FirstOfRank(files, target, Rank(f.kind)).Some?
  {
    if files[0] != f && !(CanSupply(files[0], target) && Rank(files[0].kind) == Rank(f.kind)) {
      EnlightenedTail(files);
      FirstOfRankFinds(files[1..], target, f);
    }
  }

  /** The first source of the lowest rank that has one. */
  function FirstOfRanks(files: seq<MappingFile>, target: string): Option<MappingFile>
    requires Enlightened(files)
  {
    var r0 := FirstOfRank(files, target, 0);
    var r1 := FirstOfRank(files, target, 1);
    var r2 := FirstOfRank(files, target, 2);
    if r0.Some? then r0 else if r1.Some? then r1 else if r2.Some? then r2 else FirstOfRank(files, target, 3)
  }

  /** Sorting then taking the first supplier takes the first supplier of the lowest rank. */
  lemma InterProviderOfRanks(files: seq<MappingFile>, target: string)
    requires Enlightened(files)
    ensures InterProvider(files, target) == FirstOfRanks(files, target)
  {
    var c := ForVersion(files, target);
    FirstSupplierAppend(OfRank(c, 0) + OfRank(c, 1) + OfRank(c, 2), OfRank(c, 3));
    FirstSupplierAppend(OfRank(c, 0) + OfRank(c, 1), OfRank(c, 2));
    FirstSupplierAppend(OfRank(c, 0), OfRank(c, 1));
    FirstSupplierOfRank(files, target, 0);
    FirstSupplierOfRank(files, target, 1);
    FirstSupplierOfRank(files, target, 2);
    FirstSupplierOfRank(files, target, 3);
  }

  /**
   * The intermediaries come from a source made for the target version whose header names
   * both "official" and "intermediary" (so never an Enigma source); among those it has the
   * easiest kind to read, and among those of that kind it is the first in the stack. When no
   * source qualifies there is none.
   */
  lemma InterProviderChoice(files: seq<MappingFile>, target: string)
    requires Enlightened(files)
    ensures var r := InterProvider(files, target);
            && (r.None? <==> forall f :: f in files ==> !CanSupply(f, target))
            && (r.Some? ==>
                  && r.value.minecraftVersion == target && Supplies(r.value) && r.value.kind != Enigma
                  && (forall f :: f in files && CanSupply(f, target) ==> Rank(r.value.kind) <= Rank(f.kind))
                  && r == FirstOfRank(files, target, Rank(r.value.kind)))
  {
    InterProviderOfRanks(files, target);
    var r := FirstOfRanks(files, target);
    forall f | f in files && CanSupply(f, target)
      ensures r.Some? && Rank(r.value.kind) <= Rank(f.kind)
    {
      FirstOfRankFinds(files, target, f);
    }
  }

  /**
   * How a source is read: the namespace its names are read from (none for an Enigma
   * source, whose reader has no namespaces) and whether those are native names that still
   * have to be renamed to intermediaries.
   */
  datatype Origin = Origin(namespace: Option<string>, nativeNames: bool)

  const NET_MINECRAFT_CLASS: string := "net/minecraft/class_"

  /**
   * The origin of a source. For an Enigma source `enigmaClasses` are the from-names of the
   * classes its reader produced; its names are native when none has an intermediary name.
   */
  function OriginOf(f: MappingFile, enigmaClasses: seq<string>): (r: Result<Origin>)
    ensures f.kind == Tiny <==> r == Err(IllegalState)
    ensures f.kind in {TinyV1, TinyV2, TinyGz} ==>
              r.Ok? && (r.value.namespace == Some("intermediary") <==> "intermediary" in f.namespaces)
              && (r.value.namespace == Some("official") <==> "intermediary" !in f.namespaces)
              && (r.value.nativeNames <==> r.value.namespace == Some("official"))
    ensures f.kind == Enigma ==>
              r.Ok? && r.value.namespace.None?
              && (r.value.nativeNames <==> forall i :: 0 <= i < |enigmaClasses| ==> !StartsWith(enigmaClasses[i], NET_MINECRAFT_CLASS))
  {
    match f.kind
    case Tiny => Err(IllegalState)
    case Enigma => Ok(Origin(None, forall i :: 0 <= i < |enigmaClasses| ==> !StartsWith(enigmaClasses[i], NET_MINECRAFT_CLASS)))
    case _ =>
      if "intermediary" in f.namespaces then Ok(Origin(Some("intermediary"), false))
      else Ok(Origin(Some("official"), true))
  }

  const INTERMEDIARY: string := "net.fabricmc.intermediary"
  const INTERMEDIARY_REPOSITORY: string := "https://github.com/FabricMC/intermediary/raw/master/mappings/"

  /** Where the intermediaries of Minecraft version `v` are downloaded from. */
  function IntermediaryUrl(v: string): (r: string)
    ensures StartsWith(r, INTERMEDIARY_REPOSITORY)
  {
    INTERMEDIARY_REPOSITORY + v + ".tiny"
  }

  lemma IntermediaryUrlInjective(a: string, b: string)
    requires IntermediaryUrl(a) == IntermediaryUrl(b)
    ensures a == b
  {
    var n := |INTERMEDIARY_REPOSITORY|;
    assert a == IntermediaryUrl(a)[n..|IntermediaryUrl(a)| - 5];
    assert b == IntermediaryUrl(b)[n..|IntermediaryUrl(b)| - 5];
  }

  /** The intermediaries that native names are renamed with, when a source needs them. */
  datatype RenamerSource =
    | TargetIntermediaries
      /** Another version's intermediaries, cached in `cacheFile` and downloaded from `url`. */
    | VersionIntermediaries(version: string, cacheFile: string, url: string)

  function CacheFile(userCache: string, version: string): string {
    userCache + "/mappings/" + version + "/" + INTERMEDIARY + "-intermediary.tiny"
  }

  /**
   * The renamer as written: for a source of another Minecraft version the cache file is
   * named for the source's version but the download address is built from the target
   * version.
   */
  function RenamerAsWritten(userCache: string, target: string, f: MappingFile, origin: Origin, useIntermediaries: bool): (r: Option<RenamerSource>)
    ensures r.Some? <==> origin.nativeNames && useIntermediaries
    ensures r.Some? && r.value.VersionIntermediaries? ==> r.value.url == IntermediaryUrl(target)
  {
    if !(origin.nativeNames && useIntermediaries) then None
    else if target == f.minecraftVersion then Some(TargetIntermediaries)
    else Some(VersionIntermediaries(f.minecraftVersion, CacheFile(userCache, f.minecraftVersion), IntermediaryUrl(target)))
  }

  /** A source for 1.14.4 stacked on 1.15 caches the 1.15 intermediaries under 1.14.4's name. */
  lemma RenamerAsWrittenMismatch()
    ensures var f := MappingFile("yarn", "1.14.4+build.1", "1.14.4", TinyV2, ["official", "named"]);
            var r := RenamerAsWritten("cache", "1.15", f, Origin(Some("official"), true), true);
            r.Some? && r.value.VersionIntermediaries? && r.value.url != IntermediaryUrl(r.value.version)
  {
    var f := MappingFile("yarn", "1.14.4+build.1", "1.14.4", TinyV2, ["official", "named"]);
    var r := RenamerAsWritten("cache", "1.15", f, Origin(Some("official"), true), true);
    if r.value.url == IntermediaryUrl(r.value.version) {
      IntermediaryUrlInjective("1.15", "1.14.4");
    }
  }

  /** The renamer downloading the intermediaries of the version its cache file is named for. */
  function RenamerFor(userCache: string, target: string, f: MappingFile, origin: Origin, useIntermediaries: bool): (r: Option<RenamerSource>)
    ensures r.Some? <==> origin.nativeNames && useIntermediaries
    ensures r == Some(TargetIntermediaries) <==> r.Some? && target == f.minecraftVersion
    ensures r.Some? && r.value.VersionIntermediaries? ==>
              && r.value.version == f.minecraftVersion
              && r.value.cacheFile == CacheFile(userCache, f.minecraftVersion)
              && r.value.url == IntermediaryUrl(f.minecraftVersion)
  {
    if !(origin.nativeNames && useIntermediaries) then None
    else if target == f.minecraftVersion then Some(TargetIntermediaries)
    else Some(VersionIntermediaries(f.minecraftVersion, CacheFile(userCache, f.minecraftVersion), IntermediaryUrl(f.minecraftVersion)))
  }
}
