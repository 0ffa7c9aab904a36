/**
 * Where the mappings provider keeps its files: the directory for the Minecraft version the
 * project runs on, and the names of the files derived from the mappings' name, Minecraft
 * version and version. One mapping file names them after itself, none after the
 * intermediary, and a stack of several after the version its history gives it.
 */
module MappingsProviderFiles {
  import opened Wrappers
  import opened JavaIo
  import opened MappingSources
  import opened StackHistory

  /** `new File(parent, child)`, as a path string. */
  function Child(parent: string, child: string): string {
    parent + "/" + child
  }

  /** The mappings directory: `mappings/<version>` in the user cache. */
  function MappingsDir(userCache: string, minecraftVersion: string): string {
    Child(userCache, "mappings/" + minecraftVersion)
  }

  /** The suffix every derived name shares: `-<minecraft version>-<version>`. */
  function Versions(minecraftVersion: string, version: string): string {
    "-" + minecraftVersion + "-" + version
  }

  function TinyFile(dir: string, name: string, minecraftVersion: string, version: string): string {
    Child(dir, name + "-tiny" + Versions(minecraftVersion, version) + ".tiny")
  }

  function TinyBaseFile(dir: string, name: string, minecraftVersion: string, version: string): string {
    Child(dir, name + "-tiny" + Versions(minecraftVersion, version) + "-base.tiny")
  }

  function ParamsFile(dir: string, name: string, minecraftVersion: string, version: string): string {
    Child(dir, name + "-params" + Versions(minecraftVersion, version))
  }

  function MixinExportFile(buildCache: string, minecraftVersion: string, version: string): string {
    Child(buildCache, "mixin-map" + Versions(minecraftVersion, version) + ".tiny")
  }

  function IntermediaryFile(dir: string): string {
    Child(dir, INTERMEDIARY + "-intermediary.tiny")
  }

  /** What the mappings are called: name, Minecraft version, version, and whether a stack was found in its history. */
  datatype Naming = Naming(name: string, minecraftVersion: string, version: string, known: bool)

  /**
   * The naming `initFiles` chooses for the stacked files `files` on the Minecraft version
   * `minecraftVersion`, where `history` holds the stack history's lines (`None` when the
   * file does not exist).
   */
  function ChooseNaming(files: seq<MappingFile>, minecraftVersion: string, history: Option<seq<string>>): (r: Result<Naming>)
    ensures |files| == 0 ==> r == Ok(Naming(INTERMEDIARY, minecraftVersion, minecraftVersion, false))
    ensures |files| == 1 ==> r == Ok(Naming(files[0].name, files[0].minecraftVersion, files[0].version, false))
    ensures |files| >= 2 && r.Ok? ==> r.value.name == "stack" && r.value.minecraftVersion == minecraftVersion
    ensures |files| >= 2 && history.None? ==> r == Ok(Naming("stack", minecraftVersion, "1", false))
  {
    if |files| == 0 then Ok(Naming(INTERMEDIARY, minecraftVersion, minecraftVersion, false))
    else if |files| == 1 then Ok(Naming(files[0].name, files[0].minecraftVersion, files[0].version, false))
    else
      var s :- Read(history, Expected(files));
      Ok(Naming("stack", minecraftVersion, s.version.value, s.known))
  }

  /**
   * The naming `initFiles` chooses with `readStackHistory` as written: a version the reader
   * returns as `null` is concatenated into the file names as "null".
   */
  function ChooseNamingAsWritten(files: seq<MappingFile>, minecraftVersion: string, history: Option<seq<string>>): (r: Result<Naming>)
    ensures |files| < 2 ==> r == ChooseNaming(files, minecraftVersion, history)
    ensures |files| >= 2 && r.Ok? ==> r.value.name == "stack" && r.value.minecraftVersion == minecraftVersion
    ensures |files| >= 2 && history.None? ==> r == Ok(Naming("stack", minecraftVersion, "1", false))
    ensures |files| >= 2 && history == Some([]) ==> r == Err(NumberFormat)
  {
    if |files| < 2 then ChooseNaming(files, minecraftVersion, history)
    else
      var s :- ReadAsWritten(history, Expected(files));
      Ok(Naming("stack", minecraftVersion, if s.version.Some? then s.version.value else "null", s.known))
  }

  /**
   * The provider's fields after naming: the chosen name, Minecraft version and version, and
   * `knownStack` set once a stack is found; on an exception, the exception, with the name
   * already set to "stack".
   */
  predicate NamedAs(naming: Result<Naming>, failure: Option<JavaException>,
                    name: string, minecraftVersion: string, version: string, known: bool, wasKnown: bool)
  {
    match naming
    case Err(e) => failure == Some(e) && name == "stack" && known == wasKnown
    case Ok(n) => failure.None? && name == n.name && minecraftVersion == n.minecraftVersion && version == n.version
                  && known == (wasKnown || n.known)
  }

  /** The files named after a naming: the intermediaries, both tiny files and the parameter names in `dir`, the mixin export in `buildCache`. */
  predicate FilesNamed(intermediaryNames: string, tinyBase: string, tiny: string, parameterNames: string, mixinExport: string,
                       dir: string, buildCache: string, name: string, minecraftVersion: string, version: string)
  {
    && intermediaryNames == IntermediaryFile(dir)
    && tinyBase == TinyBaseFile(dir, name, minecraftVersion, version)
    && tiny == TinyFile(dir, name, minecraftVersion, version)
    && parameterNames == ParamsFile(dir, name, minecraftVersion, version)
    && mixinExport == MixinExportFile(buildCache, minecraftVersion, version)
  }

  class MappingsProvider {
    var mappingFiles: seq<MappingFile>
    var mappingsName: string
    var minecraftVersion: string
    var mappingsVersion: string
    var mappingsDir: string
    var mixinExport: string
    var stackHistory: Option<string>
    var knownStack: bool
    var intermediaryNames: string
    var tinyBase: string
    var tiny: string
    var parameterNames: string

    /** A provider before any mappings are stacked on it. */
    constructor ()
      ensures mappingFiles == [] && stackHistory.None? && !knownStack
    {
      mappingFiles := [];
      stackHistory := None;
      knownStack := false;
    }

    /** `stackMappings(mappings)`: the file goes on top of the stack. */
    method StackMappings(mappings: MappingFile)
      modifies this
      ensures mappingFiles == old(mappingFiles) + [mappings]
      ensures stackHistory == old(stackHistory) && knownStack == old(knownStack)
    {
      mappingFiles := mappingFiles + [mappings];
    }

    /**
     * The `switch` of `initFiles`: names the mappings for a project running on
     * `providerVersion`. An exception from reading the stack history leaves the fields
     * assigned before it.
     */
    method Name(providerVersion: string, history: Option<seq<string>>) returns (failure: Option<JavaException>)
      modifies this
      ensures mappingFiles == old(mappingFiles) && mappingsDir == old(mappingsDir)
      ensures stackHistory == if |mappingFiles| >= 2 then Some(Child(mappingsDir, "stack.history")) else old(stackHistory)
      ensures NamedAs(ChooseNaming(mappingFiles, providerVersion, history), failure,
                      mappingsName, minecraftVersion, mappingsVersion, knownStack, old(knownStack))
      ensures failure.Some? ==> minecraftVersion == old(minecraftVersion) && mappingsVersion == old(mappingsVersion)
      ensures intermediaryNames == old(intermediaryNames) && tinyBase == old(tinyBase) && tiny == old(tiny)
      ensures parameterNames == old(parameterNames) && mixinExport == old(mixinExport)
    {
      if |mappingFiles| == 0 {
        mappingsName := INTERMEDIARY;
        minecraftVersion := providerVersion;
        mappingsVersion := minecraftVersion;
      } else if |mappingFiles| == 1 {
        var mappings := mappingFiles[0];
        mappingsName := mappings.name;
        mappingsVersion := mappings.version;
        minecraftVersion := mappings.minecraftVersion;
      } else {
        stackHistory := Some(Child(mappingsDir, "stack.history"));
        mappingsName := "stack";
        var read := Read(history, Expected(mappingFiles));
        ChooseStack(mappingFiles, providerVersion, history);
        if read.Err? {
          return Some(read.error);
        }
        mappingsVersion := read.value.version.value;
        if read.value.known {
          knownStack := true;
        }
        minecraftVersion := providerVersion;
      }
      failure := None;
    }

    /**
     * `initFiles`: the mappings directory, the naming, and the files named after it. An
     * exception from reading the stack history leaves the fields assigned before it.
     */
    method InitFiles(userCache: string, buildCache: string, providerVersion: string, history: Option<seq<string>>)
      returns (failure: Option<JavaException>)
      modifies this
      ensures mappingFiles == old(mappingFiles)
      ensures mappingsDir == MappingsDir(userCache, providerVersion)
      ensures stackHistory == if |mappingFiles| >= 2 then Some(Child(mappingsDir, "stack.history")) else old(stackHistory)
      ensures NamedAs(ChooseNaming(mappingFiles, providerVersion, history), failure,
                      mappingsName, minecraftVersion, mappingsVersion, knownStack, old(knownStack))
      ensures failure.Some? ==>
                && minecraftVersion == old(minecraftVersion) && mappingsVersion == old(mappingsVersion)
                && intermediaryNames == old(intermediaryNames) && tinyBase == old(tinyBase) && tiny == old(tiny)
                && parameterNames == old(parameterNames) && mixinExport == old(mixinExport)
      ensures failure.None? ==>
                FilesNamed(intermediaryNames, tinyBase, tiny, parameterNames, mixinExport,
                           mappingsDir, buildCache, mappingsName, minecraftVersion, mappingsVersion)
    {
      mappingsDir := MappingsDir(userCache, providerVersion);
      failure := Name(providerVersion, history);
      if failure.Some? {
        return;
      }
      NameFiles(buildCache);
    }

    /** The end of `initFiles`: the files named after the naming. */
    method NameFiles(buildCache: string)
      modifies this
      ensures mappingFiles == old(mappingFiles) && mappingsDir == old(mappingsDir) && stackHistory == old(stackHistory)
      ensures mappingsName == old(mappingsName) && minecraftVersion == old(minecraftVersion)
      ensures mappingsVersion == old(mappingsVersion) && knownStack == old(knownStack)
      ensures FilesNamed(intermediaryNames, tinyBase, tiny, parameterNames, mixinExport,
                         mappingsDir, buildCache, mappingsName, minecraftVersion, mappingsVersion)
    {
      intermediaryNames := IntermediaryFile(mappingsDir);
      tinyBase := TinyBaseFile(mappingsDir, mappingsName, minecraftVersion, mappingsVersion);
      tiny := TinyFile(mappingsDir, mappingsName, minecraftVersion, mappingsVersion);
      parameterNames := ParamsFile(mappingsDir, mappingsName, minecraftVersion, mappingsVersion);
      mixinExport := MixinExportFile(buildCache, minecraftVersion, mappingsVersion);
    }
  }

  // ---------------------------------------------------------------------------------------
  // What the names promise

  /** The base file is the tiny file with `-base` before its extension. */
  lemma TinyBaseOfTiny(dir: string, name: string, minecraftVersion: string, version: string)
    ensures var t := TinyFile(dir, name, minecraftVersion, version);
            TinyBaseFile(dir, name, minecraftVersion, version) == t[..|t| - 5] + "-base.tiny"
  {
    var stem := Child(dir, name + "-tiny" + Versions(minecraftVersion, version));
    assert TinyFile(dir, name, minecraftVersion, version) == stem + ".tiny";
    assert (stem + ".tiny")[..|stem|] == stem;
  }

  /** The derived files of one naming are three different files, all in the mappings directory. */
  lemma DerivedFilesDistinct(dir: string, name: string, minecraftVersion: string, version: string)
    ensures var t := TinyFile(dir, name, minecraftVersion, version);
            var b := TinyBaseFile(dir, name, minecraftVersion, version);
            var p := ParamsFile(dir, name, minecraftVersion, version);
            && t != b && t != p && b != p
            && t[..|dir| + 1] == dir + "/" && b[..|dir| + 1] == dir + "/" && p[..|dir| + 1] == dir + "/"
  {
    var t := TinyFile(dir, name, minecraftVersion, version);
    var b := TinyBaseFile(dir, name, minecraftVersion, version);
    var p := ParamsFile(dir, name, minecraftVersion, version);
    var k := |dir| + 1 + |name| + 1;
    assert |b| == |t| + 5;
    assert t[k] == 't' by {
      assert t == (dir + "/" + name) + "-tiny" + (Versions(minecraftVersion, version) + ".tiny");
    }
    assert b[k] == 't' by {
      assert b == (dir + "/" + name) + "-tiny" + (Versions(minecraftVersion, version) + "-base.tiny");
    }
    assert p[k] == 'p' by {
      assert p == (dir + "/" + name) + "-params" + Versions(minecraftVersion, version);
    }
    assert t[..|dir| + 1] == dir + "/";
    assert b[..|dir| + 1] == dir + "/";
    assert p[..|dir| + 1] == dir + "/";
  }

  /**
   * A stack set up again after its block was written to the history gets back the version
   * it was written under, and is known, so the provider finds the files it made before.
   */
  lemma StackSetUpAgain(files: seq<MappingFile>, minecraftVersion: string, version: string, previous: string)
    requires |files| >= 2
    requires IsHeader(version) && NoTerminator(version) && Recordable(files)
    requires |previous| > 0 ==> !IsTerminator(previous[0]) && previous[0] != '\t'
    ensures ChooseNaming(files, minecraftVersion, Some(ReadLines(BlockText(version, files) + previous))) ==
            Ok(Naming("stack", minecraftVersion, version, true))
  {
    ReadWrittenBlock(version, files, previous);
    ChooseStack(files, minecraftVersion, Some(ReadLines(BlockText(version, files) + previous)));
  }

  /**
   * With no empty line in the history, a stack is named after the first block that records
   * it and is known, and otherwise gets the newest version plus one.
   */
  lemma StackNaming(files: seq<MappingFile>, minecraftVersion: string, lines: seq<string>)
    requires |files| >= 2 && |lines| > 0 && NoEmptyLine(lines)
    ensures ChooseNaming(files, minecraftVersion, Some(lines)) ==
            match FirstRecording(lines[0], lines[1..], Expected(files))
            case Found(v) => Ok(Naming("stack", minecraftVersion, v.value, true))
            case Exhausted =>
              var next :- NextVersion(Some(lines[0]));
              Ok(Naming("stack", minecraftVersion, next, false))
  {
    ReadFindsStack(lines, files);
    ChooseStack(files, minecraftVersion, Some(lines));
  }

  lemma ChooseStack(files: seq<MappingFile>, minecraftVersion: string, history: Option<seq<string>>)
    requires |files| >= 2
    ensures var read := Read(history, Expected(files));
            ChooseNaming(files, minecraftVersion, history) ==
            if read.Err? then Err(read.error) else Ok(Naming("stack", minecraftVersion, read.value.version.value, read.value.known))
  {
  }

  /**
   * A stack of two files whose block was just written as the only one in the history is not
   * recognised as written, and gets version 2 with its files made again; the corrected reader
   * gives it back version 1, known.
   */
  lemma StackForgottenAsWritten()
    ensures var files := [MappingFile("a", "1", "1.15", TinyV2, []), MappingFile("b", "2", "1.15", TinyV2, [])];
            var history := Some(ReadLines(BlockText("1", files)));
            && ChooseNamingAsWritten(files, "1.15", history) == Ok(Naming("stack", "1.15", "2", false))
            && ChooseNaming(files, "1.15", history) == Ok(Naming("stack", "1.15", "1", true))
  {
    var files := [MappingFile("a", "1", "1.15", TinyV2, []), MappingFile("b", "2", "1.15", TinyV2, [])];
    var lines := ["1", "\t" + A, "\t" + B];
    assert Expected(files) == [A, B] by {
      assert Entry(files[0]) == A && Entry(files[1]) == B;
    }
    assert ReadLines(BlockText("1", files)) == lines by {
      assert Recordable(files) by {
        assert NoTerminator(A) && NoTerminator(B);
        assert Entry(files[0]) == A && Entry(files[1]) == B;
      }
      assert BlockText("1", files) + "" == BlockText("1", files);
      ReadBlockLines("1", files, "");
      assert TabLines([A, B]) == ["\t" + A, "\t" + B];
    }
    assert ChooseNamingAsWritten(files, "1.15", Some(lines)) == Ok(Naming("stack", "1.15", "2", false)) by {
      LastBlockMissed();
    }
    assert ChooseNaming(files, "1.15", Some(lines)) == Ok(Naming("stack", "1.15", "1", true)) by {
      LastBlockFound();
    }
  }
}
