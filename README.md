# fabric-loom mapping provider and MCP converters, modelled in Dafny

This project models the core of fabric-loom's mappings provider and of its two MCP
converters. The mappings provider builds one set of Minecraft deobfuscation mappings from a
stack of mapping files. It models:

- **Choosing the intermediaries supplier.** The stack's files are sorted by how easily their
  headers can be read. The first file for the target Minecraft version whose header declares
  both `official` and `intermediary` supplies the intermediaries.
- **Choosing each file's origin namespace.** Each file's origin namespace is picked, and so
  is whether its names must be renamed onto intermediaries, and by which intermediaries.
- **Merging the stack.** The stack's class, method, argument and field names are merged into
  one mapping blob. Earlier files win, and identity names are never recorded.
- **The parameter-names side file.** It is written as `Owner/method(desc)` header lines
  followed by tab-indented `index: name` lines. When read back, each header gets an array of
  argument names.
- **The stack history file.**
  - Its reader finds the version a stack was recorded under, or the next free version. The
    reader as written misses some recorded stacks (see Findings). The naming below uses a
    corrected reader, and the as-written naming is modelled beside it.
  - Its writer prepends the new block in place, running two buffers over one file channel.
- **Naming the mappings.** The mappings' name and versions, and the file names derived from
  them, depend on the size of the stack.

The alpha MCP converter turns an MCP `conf/` archive into tiny rows:

- It reads the field and method name tables from their CSV files, last row wins.
- It replays the `.class_map`, `.field_map` and `.method_map` directives of the RGS file:
  - a class directive replaces an earlier class record;
  - a member directive creates a record named after its owner if there isn't one;
  - invalid classes are skipped.
- It writes one block of rows per class.

The beta converter does the same from CSV beans:

- It keeps the last client-side (`side == 0`) row per obfuscated class name.
- It attaches each client-side member to its class's live list. A member of an unknown class
  throws, as the source's null dereference does.
- It writes each class under its composed and remapped name.

Java's exceptions and `null` are modelled by `Result` and `Option` (module `Wrappers`). HashMap
iteration order is left open: the model takes it as any enumeration of the keys
(`HashMapOrder`). Java's strings, integer parsing, `BufferedReader.readLine` and the
`java.nio` buffers and channels used are modelled in `JavaStrings`, `JavaIntegers`, `JavaIo`
and `JavaNio`.

Paths below are relative to the repository root.

## Model

| member | source | states |
|---|---|---|
| MappingSources.Compare | src/main/java/net/fabricmc/loom/providers/MappingsProvider.java:110-129 | Equal kinds compare 0. Two worked-out kinds compare by header-reading ease, TinyGz < TinyV1 < TinyV2 < Enigma. An unresolved `Tiny` on the left of a different kind throws IllegalArgument. |
| MappingSources.CompareAntisymmetric | src/main/java/net/fabricmc/loom/providers/MappingsProvider.java:111-129 | On worked-out kinds the comparator is total and antisymmetric, so the sort is well defined. |
| MappingSources.HasIntermediaries | src/main/java/net/fabricmc/loom/providers/MappingsProvider.java:130-156 | The header filter throws exactly for an unresolved `Tiny`. Otherwise it accepts a file iff the file is not Enigma and its header declares both `official` and `intermediary`. |
| MappingSources.ForVersion | src/main/java/net/fabricmc/loom/providers/MappingsProvider.java:110 | Only files for the target Minecraft version survive the version filter. |
| MappingSources.ForVersionHas | src/main/java/net/fabricmc/loom/providers/MappingsProvider.java:110 | Every file for the target version survives the version filter. |
| MappingSources.SortedByRankSorts | src/main/java/net/fabricmc/loom/providers/MappingsProvider.java:110-129 | The stable sort orders files by rank and is a permutation of its input. |
| MappingSources.SortedByRankPermutes | src/main/java/net/fabricmc/loom/providers/MappingsProvider.java:110-129 | The sorted stream holds exactly the files it was given. |
| MappingSources.FirstSupplier | src/main/java/net/fabricmc/loom/providers/MappingsProvider.java:130-156 | `findFirst` after the header filter returns a file of its input that supplies intermediaries. |
| MappingSources.FirstSupplierFinds | src/main/java/net/fabricmc/loom/providers/MappingsProvider.java:130-156 | If any input file supplies intermediaries, `findFirst` returns one. |
| MappingSources.InterProviderChoice | src/main/java/net/fabricmc/loom/providers/MappingsProvider.java:110-156 | No supplier is chosen iff no file for the target version supplies intermediaries. The chosen one is for the target version, supplies intermediaries and is not Enigma. Its rank is minimal among suppliers, and it is the first supplier of that rank in stack order. |
| MappingSources.InterProviderOfRanks | src/main/java/net/fabricmc/loom/providers/MappingsProvider.java:110-156 | Filter, sort, filter and take-first equals trying the ranks in order and taking the first supplier of each rank. |
| MappingSources.OriginOf | src/main/java/net/fabricmc/loom/providers/MappingsProvider.java:235-287 | An unresolved `Tiny` throws IllegalState. A tiny file's origin is `intermediary` iff its header has it, and otherwise `official`, with native names. Enigma has no origin namespace, and its names are native iff no class is under `net/minecraft/class_`. |
| MappingSources.IntermediaryUrlInjective | src/main/java/net/fabricmc/loom/providers/MappingsProvider.java:211 | Different Minecraft versions are downloaded from different addresses. |
| MappingSources.RenamerAsWritten | src/main/java/net/fabricmc/loom/providers/MappingsProvider.java:289-316 | As written: a renamer is used iff the names are native and intermediaries are in use. A foreign version's intermediaries are downloaded from the target version's address. |
| MappingSources.RenamerAsWrittenMismatch | src/main/java/net/fabricmc/loom/providers/MappingsProvider.java:297 | A 1.14.4 file in a 1.15 project is renamed through 1.14.4's cache file, but that file is filled from the 1.15 address. |
| MappingSources.RenamerFor | src/main/java/net/fabricmc/loom/providers/MappingsProvider.java:289-316 | Corrected: a renamer is used iff the file has native names and intermediaries are in use. The target's own intermediaries are used iff the file is for the target version. Otherwise the file's version supplies both the cache file and the download address. |
| MappingBlob.MappingBlob.GetClass | src/main/java/net/fabricmc/loom/providers/MappingsProvider.java:326 | `get` returns the class entry and inserts an empty one if it was missing; nothing else changes. |
| MappingBlob.MappingBlob.GetMethod | src/main/java/net/fabricmc/loom/providers/MappingsProvider.java:335 | `method` returns the method entry, inserting empty class and method entries if missing. |
| MappingBlob.MappingBlob.GetField | src/main/java/net/fabricmc/loom/providers/MappingsProvider.java:352 | `field` returns the field entry, inserting empty entries if missing. |
| MappingBlob.MappingBlob.AcceptClass | src/main/java/net/fabricmc/loom/providers/MappingsProvider.java:328 | Sets one class's name, leaving its members and every other class unchanged. |
| MappingBlob.MappingBlob.AcceptMethod | src/main/java/net/fabricmc/loom/providers/MappingsProvider.java:337 | Sets one method's name and nothing else. |
| MappingBlob.MappingBlob.AcceptMethodArg | src/main/java/net/fabricmc/loom/providers/MappingsProvider.java:343 | Sets one argument of one method and nothing else. |
| MappingBlob.MappingBlob.AcceptField | src/main/java/net/fabricmc/loom/providers/MappingsProvider.java:354 | Sets one field's name and nothing else. |
| MappingMerge.MergeArgs | src/main/java/net/fabricmc/loom/providers/MappingsProvider.java:340-346 | After visiting every incoming argument, the method's arguments are the merged table: unnamed indices get the incoming name and named ones are kept. |
| MappingMerge.NameMethod | src/main/java/net/fabricmc/loom/providers/MappingsProvider.java:335-338 | Returns the existing method entry. It names the method only if it had no name and the incoming name differs from the obfuscated one. |
| MappingMerge.MergeMethod | src/main/java/net/fabricmc/loom/providers/MappingsProvider.java:335-346 | One incoming method: its name and then its arguments are merged into the accumulator's entry. |
| MappingMerge.MergeMethods | src/main/java/net/fabricmc/loom/providers/MappingsProvider.java:332-347 | After a class's incoming methods, in any iteration order, the class's methods are the order-independent merge. Methods the inverted class lacks are skipped. |
| MappingMerge.MergeField | src/main/java/net/fabricmc/loom/providers/MappingsProvider.java:352-355 | One incoming field is named only if it had no name and the name is not the identity. |
| MappingMerge.MergeFields | src/main/java/net/fabricmc/loom/providers/MappingsProvider.java:349-356 | After a class's incoming fields, in any iteration order, the fields are the order-independent merge, filtered by the inverted class. |
| MappingMerge.MergeClass | src/main/java/net/fabricmc/loom/providers/MappingsProvider.java:320-356 | One class of the gains: its name, methods and fields are merged into the accumulator's entry, and no other class changes. |
| MappingMerge.MergeGains | src/main/java/net/fabricmc/loom/providers/MappingsProvider.java:318-357 | The loop over one file's gains, in any iteration order, leaves the accumulator equal to `Merge(old, gains, inversion)`. |
| MappingMerge.MergeStack | src/main/java/net/fabricmc/loom/providers/MappingsProvider.java:229-358 | The loop over the stack leaves the accumulator equal to the files' gains merged one after another, in stack order. |
| MappingMergeProperties.MergeExtends | src/main/java/net/fabricmc/loom/providers/MappingsProvider.java:326-356 | A merge loses no class, method, argument or field, and replaces no name already set. |
| MappingMergeProperties.MergedClassExtends | src/main/java/net/fabricmc/loom/providers/MappingsProvider.java:326-356 | Merging one class keeps every name and entry the class had. |
| MappingMergeProperties.MergedMethodsExtend | src/main/java/net/fabricmc/loom/providers/MappingsProvider.java:332-347 | Merging methods keeps every method, and every method name and argument already set. |
| MappingMergeProperties.MergeAllExtends | src/main/java/net/fabricmc/loom/providers/MappingsProvider.java:229-358 | Earlier files win: merging a whole stack never replaces or drops what the accumulator had. |
| MappingMergeProperties.MergeFillsClassName | src/main/java/net/fabricmc/loom/providers/MappingsProvider.java:326-329 | An admitted class gets the incoming name iff it had none and the incoming name is not the identity; otherwise it keeps its name. |
| MappingMergeProperties.MergeNoIdentity | src/main/java/net/fabricmc/loom/providers/MappingsProvider.java:327 | A merge never makes a class map to itself. |
| MappingMergeProperties.MergeSkips | src/main/java/net/fabricmc/loom/providers/MappingsProvider.java:321-322 | A class that is not in the gains, or that the inversion cannot map, is left as it was, and is not added. |
| MappingMergeProperties.MergeFiltersMembers | src/main/java/net/fabricmc/loom/providers/MappingsProvider.java:333-350 | With an inversion, every method or field of a merged class was already there or is one the inverted class has. |
| MappingMergeProperties.MergeTwice | src/main/java/net/fabricmc/loom/providers/MappingsProvider.java:318-357 | Merging the same gains twice gives the same blob as merging them once. |
| MappingMergeProperties.MergedClassTwice | src/main/java/net/fabricmc/loom/providers/MappingsProvider.java:320-356 | Merging one class twice is the same as merging it once. |
| ParamNames.WriteMethod | src/main/java/net/fabricmc/loom/providers/MappingsProvider.java:384-391 | Appends the method's header line, then one tab line per named argument. |
| ParamNames.WriteClass | src/main/java/net/fabricmc/loom/providers/MappingsProvider.java:383-392 | Appends one header and argument block per method of the class, in order. |
| ParamNames.WriteParams | src/main/java/net/fabricmc/loom/providers/MappingsProvider.java:379-395 | The side file's text is the blocks of every class in order (`ParamText`). |
| ParamNames.ParseArgLine | src/main/java/net/fabricmc/loom/providers/MappingsProvider.java:425-427 | A tab line without a ':' at index 1 or later throws StringIndexOutOfBounds. A parsed index is a 32-bit int. |
| ParamNames.Store | src/main/java/net/fabricmc/loom/providers/MappingsProvider.java:429-434 | A header's first argument sizes its array at index + 1, and an index below -1, or `INT_MAX` (whose successor wraps), throws NegativeArraySize. Index -1 makes an empty array and throws ArrayIndexOutOfBounds. Later arguments fill their slot, or throw ArrayIndexOutOfBounds outside the array. |
| ParamNames.ReadParams | src/main/java/net/fabricmc/loom/providers/MappingsProvider.java:416-437 | The read loop gives what `ParseParams` gives: the table of header lines to slot arrays, or the first exception. |
| ParamNames.ParseArgLineOfArgLine | src/main/java/net/fabricmc/loom/providers/MappingsProvider.java:386-390 | Parsing a written `\tindex: name` line gives back the argument, for every index from 0 to the int maximum. |
| ParamNames.ReadArgBlocksText | src/main/java/net/fabricmc/loom/providers/MappingsProvider.java:381-391 | Reading the written text line by line gives, per block, its header line and then its argument lines. |
| ParamNames.ReadWrittenParams | src/main/java/net/fabricmc/loom/providers/MappingsProvider.java:379-437 | Round trip: reading back the written side file succeeds and gives the table built from the written blocks. |
| ParamNames.FillNames | src/main/java/net/fabricmc/loom/providers/MappingsProvider.java:434 | Storing a block's arguments puts each name at its index and leaves every other slot as it was. |
| ParamNames.SlotsOfNames | src/main/java/net/fabricmc/loom/providers/MappingsProvider.java:429-434 | The array for a block is one longer than its first (largest) index. It holds each argument at its index and null elsewhere. |
| ParamNames.TableOfEntries | src/main/java/net/fabricmc/loom/providers/MappingsProvider.java:416-437 | Every header with arguments maps to its slot array, the table has no other new keys, and earlier entries are unchanged. |
| JavaIo.ReadLinesOfLine | src/main/java/net/fabricmc/loom/providers/MappingsProvider.java:421 | `readLine` on a line followed by a terminator gives that line, then the lines of the rest. |
| StackHistory.Expected | src/main/java/net/fabricmc/loom/providers/MappingsProvider.java:491 | There is one expected entry per stack file, in stack order: `name-version minecraftVersion`. |
| StackHistory.NextVersion | src/main/java/net/fabricmc/loom/providers/MappingsProvider.java:521 | An empty history (no first line) throws NumberFormat. Otherwise the newest version is parsed unsigned, incremented in 32 bits and printed. |
| StackHistory.MatchesAsWrittenIsPrefix | src/main/java/net/fabricmc/loom/providers/MappingsProvider.java:513 | The entry test as written holds iff the text after the tab is a prefix of the expected entry. |
| StackHistory.ScanAsWritten | src/main/java/net/fabricmc/loom/providers/MappingsProvider.java:498-519 | The scan as written can only fail with StringIndexOutOfBounds, on an empty line. |
| StackHistory.ReadAsWritten | src/main/java/net/fabricmc/loom/providers/MappingsProvider.java:487-526 | A missing file gives version "1", not known. An empty file throws NumberFormat. A known stack needs a non-empty history. |
| StackHistory.ReadStackHistory | src/main/java/net/fabricmc/loom/providers/MappingsProvider.java:487-526 | The reader's loop computes `ReadAsWritten` of the history and the expected entries. |
| StackHistory.LongerBlockGivesNull | src/main/java/net/fabricmc/loom/providers/MappingsProvider.java:502-517 | Finding: a block that starts with the expected entries but has more makes the reader report a known stack with a null version. |
| StackHistory.PrefixEntryMatches | src/main/java/net/fabricmc/loom/providers/MappingsProvider.java:513 | Finding: a truncated entry line matches, so a block that does not record the stack is taken as recording it. |
| StackHistory.LastBlockMissed | src/main/java/net/fabricmc/loom/providers/MappingsProvider.java:498-521 | Finding: a matching block at the end of the file is missed, and the reader hands out a new version. |
| StackHistory.Read | src/main/java/net/fabricmc/loom/providers/MappingsProvider.java:487-526 | Corrected reader: a missing file gives "1", not known. Every successful read yields a version, never null. |
| StackHistory.TabRun | src/main/java/net/fabricmc/loom/providers/MappingsProvider.java:498-518 | A block's entry lines are exactly the tab lines before the next header. |
| StackHistory.FirstRecording | src/main/java/net/fabricmc/loom/providers/MappingsProvider.java:498-521 | What the scan means: the first block whose entries are exactly the expected ones, and a found block always has a version. |
| StackHistory.ScanFindsFirstRecording | src/main/java/net/fabricmc/loom/providers/MappingsProvider.java:498-519 | With no empty line, the corrected scan finds exactly the first block that records the stack, or reports that none does. |
| StackHistory.ReadFindsStack | src/main/java/net/fabricmc/loom/providers/MappingsProvider.java:487-526 | The corrected reader returns the first recording block's version as known, or otherwise the newest version plus one as not known. |
| StackHistory.LastBlockFound | src/main/java/net/fabricmc/loom/providers/MappingsProvider.java:498-521 | The corrected reader finds a matching final block, for the same input as `LastBlockMissed`. |
| StackHistory.TabLines | src/main/java/net/fabricmc/loom/providers/MappingsProvider.java:534 | An entry line is a tab followed by the entry, one per entry. |
| StackHistory.ReadEntryLines | src/main/java/net/fabricmc/loom/providers/MappingsProvider.java:533-535 | Reading the written entry lines back gives one tab line per stack file, followed by the lines of what comes after. |
| StackHistory.ReadBlockLines | src/main/java/net/fabricmc/loom/providers/MappingsProvider.java:531-535 | The written block reads back as its version line and then its entry lines. |
| StackHistory.ReadWrittenBlock | src/main/java/net/fabricmc/loom/providers/MappingsProvider.java:531-535 | Round trip: after a block is prepended to any history, the corrected reader finds that block's version as known. |
| StackHistoryWrite.BuildAddition | src/main/java/net/fabricmc/loom/providers/MappingsProvider.java:531-535 | The built addition is the version line followed by one tab line per stack file (`BlockText`). |
| StackHistoryWrite.Prepare | src/main/java/net/fabricmc/loom/providers/MappingsProvider.java:537-548 | The active buffer holds exactly the addition's bytes. Its capacity is the addition's length, or 4096 for a shorter addition. |
| StackHistoryWrite.FillBuffer | src/main/java/net/fabricmc/loom/providers/MappingsProvider.java:567-570 | The read loop fills the buffer with the next bytes of the file until the buffer is full or the file ends. |
| StackHistoryWrite.Drain | src/main/java/net/fabricmc/loom/providers/MappingsProvider.java:577-579 | The write loop writes all of the buffer's remaining bytes at the channel position and moves past them. |
| StackHistoryWrite.ReadNext | src/main/java/net/fabricmc/loom/providers/MappingsProvider.java:560-572 | The passive buffer is filled with the next window of the old file, read from ahead of the write position, and the position is restored. |
| StackHistoryWrite.WriteActive | src/main/java/net/fabricmc/loom/providers/MappingsProvider.java:574-579 | Writing the active buffer extends the correctly rewritten prefix of the file by the buffer's length. |
| StackHistoryWrite.Exchange | src/main/java/net/fabricmc/loom/providers/MappingsProvider.java:560-583 | One pass of the loop reads ahead before overwriting, so the rewritten prefix grows and the swapped-in buffer holds the next bytes due. |
| StackHistoryWrite.ExchangeAll | src/main/java/net/fabricmc/loom/providers/MappingsProvider.java:557-584 | When the loop ends, the buffer left holds exactly the bytes still to be written at the end of the file. |
| StackHistoryWrite.WriteStackHistory | src/main/java/net/fabricmc/loom/providers/MappingsProvider.java:528-593 | The history file ends up as the new block's UTF-8 bytes followed by the whole previous content. |
| JavaStrings.GetBytesUtf8 | src/main/java/net/fabricmc/loom/providers/MappingsProvider.java:537 | The UTF-8 bytes of a string number at least one and at most four per character. |
| JavaNio.ByteBuffer.Allocate | src/main/java/net/fabricmc/loom/providers/MappingsProvider.java:542 | A fresh zeroed buffer whose whole capacity remains. |
| JavaNio.ByteBuffer.Wrap | src/main/java/net/fabricmc/loom/providers/MappingsProvider.java:540 | A buffer over the given array itself, all of it remaining. |
| JavaNio.ByteBuffer.Put | src/main/java/net/fabricmc/loom/providers/MappingsProvider.java:543 | The bytes are copied in at the position, which moves past them, and the rest of the array is unchanged. |
| JavaNio.ByteBuffer.Flip | src/main/java/net/fabricmc/loom/providers/MappingsProvider.java:544 | What was put becomes what remains. |
| JavaNio.ByteBuffer.Clear | src/main/java/net/fabricmc/loom/providers/MappingsProvider.java:565 | The whole capacity remains. |
| JavaNio.FileChannel.Read | src/main/java/net/fabricmc/loom/providers/MappingsProvider.java:569 | Copies as many file bytes as fit and returns their count. Returns -1 only when the buffer has room but the file has ended. |
| JavaNio.FileChannel.Write | src/main/java/net/fabricmc/loom/providers/MappingsProvider.java:578 | Overwrites the file at the position with the buffer's remaining bytes, growing the file as needed. |
| MappingsProviderFiles.MappingsProvider.constructor | src/main/java/net/fabricmc/loom/providers/MappingsProvider.java:58-68 | A provider starts with an empty stack, no history file and an unknown stack. |
| MappingsProviderFiles.MappingsProvider.StackMappings | src/main/java/net/fabricmc/loom/providers/MappingsProvider.java:85-87 | Appends one file to the stack and changes nothing else. |
| MappingsProviderFiles.ChooseNaming | src/main/java/net/fabricmc/loom/providers/MappingsProvider.java:598-624 | No file: intermediary at the Minecraft version. One file: that file's name and versions. A stack: "stack" at the project's Minecraft version, version "1" without a history. A stack's version comes from the corrected history reader. |
| MappingsProviderFiles.StackNaming | src/main/java/net/fabricmc/loom/providers/MappingsProvider.java:614-623 | With the corrected history reader: a stack is named after the first history block that records it, and is known. Otherwise it gets the newest version plus one. |
| MappingsProviderFiles.StackSetUpAgain | src/main/java/net/fabricmc/loom/providers/MappingsProvider.java:614-623 | With the corrected history reader: a stack set up again after its block was written gets the same version back and is known. |
| MappingsProviderFiles.ChooseNamingAsWritten | src/main/java/net/fabricmc/loom/providers/MappingsProvider.java:598-624 | The naming with the history reader as written. It agrees with `ChooseNaming` for fewer than two files. A stack without a history is version "1", and an empty history throws `NumberFormatException`. |
| MappingsProviderFiles.StackForgottenAsWritten | src/main/java/net/fabricmc/loom/providers/MappingsProvider.java:614-623 | A stack of two files whose block was just written as the only history block gets version "2" as written, unknown. The corrected naming gives it version "1", known. |
| MappingsProviderFiles.MappingsProvider.Name | src/main/java/net/fabricmc/loom/providers/MappingsProvider.java:598-624 | Sets the name, versions and known flag from `ChooseNaming` (corrected history reader), or reports its exception and leaves the versions unchanged. Every file field other than the history path is unchanged. A stack's history path is `stack.history` in the mappings directory. |
| MappingsProviderFiles.MappingsProvider.NameFiles | src/main/java/net/fabricmc/loom/providers/MappingsProvider.java:626-631 | Each derived file is named from the mappings directory, name and versions. |
| MappingsProviderFiles.MappingsProvider.InitFiles | src/main/java/net/fabricmc/loom/providers/MappingsProvider.java:595-632 | The mappings directory is per Minecraft version. Naming follows `ChooseNaming` (corrected history reader). On success every derived file is named after it. On an exception the versions and the derived file names are unchanged. The stack itself is unchanged. |
| MappingsProviderFiles.TinyBaseOfTiny | src/main/java/net/fabricmc/loom/providers/MappingsProvider.java:627-628 | The base file is the tiny file with `.tiny` replaced by `-base.tiny`. |
| MappingsProviderFiles.DerivedFilesDistinct | src/main/java/net/fabricmc/loom/providers/MappingsProvider.java:627-629 | The tiny, base and parameter files are three different files, all in the mappings directory. |
| AlphaMcpConverter.RowEntry | src/main/java/net/fabricmc/loom/AlphaMcpConverter.java:85-88 | A CSV row gives an entry only when it has the name column, and a `*` name is never taken. |
| AlphaMcpConverter.TableOf | src/main/java/net/fabricmc/loom/AlphaMcpConverter.java:85-88 | No name in a table is `*`. |
| AlphaMcpConverter.TableLastWins | src/main/java/net/fabricmc/loom/AlphaMcpConverter.java:88 | The last row for a key gives its value, as repeated `HashMap.put` does. |
| AlphaMcpConverter.TableFromRows | src/main/java/net/fabricmc/loom/AlphaMcpConverter.java:85-88 | Every table entry comes from some row. |
| AlphaMcpConverter.ReadFieldNames | src/main/java/net/fabricmc/loom/AlphaMcpConverter.java:79-89 | The field table skips 3 lines and maps column 2 to column 6. A missing entry gives an empty table. |
| AlphaMcpConverter.ReadMethodNames | src/main/java/net/fabricmc/loom/AlphaMcpConverter.java:90-100 | The method table skips 4 lines and maps column 1 to column 4. A missing entry gives an empty table. |
| AlphaMcpConverter.ClassTarget | src/main/java/net/fabricmc/loom/AlphaMcpConverter.java:108 | A target with a '/' is kept. A bare one is put into `net/minecraft/src/`. Either way the result is qualified. |
| AlphaMcpConverter.AddMember | src/main/java/net/fabricmc/loom/AlphaMcpConverter.java:118-125 | `computeIfAbsent` creates a record named after its key, and the member is appended to its list. Other records and the other lists are unchanged. |
| AlphaMcpConverter.ClassMapStep | src/main/java/net/fabricmc/loom/AlphaMcpConverter.java:106-110 | A short line throws ArrayIndexOutOfBounds, and an invalid class is skipped. |
| AlphaMcpConverter.SplitKey | src/main/java/net/fabricmc/loom/AlphaMcpConverter.java:112-114 | A key splits at its last '/' into owner and name, and re-joins to the key. A key without a '/' throws StringIndexOutOfBounds. |
| AlphaMcpConverter.SplitKeyOfJoin | src/main/java/net/fabricmc/loom/AlphaMcpConverter.java:112-114 | Splitting `owner/name` gives back owner and name. |
| AlphaMcpConverter.FieldMapStep | src/main/java/net/fabricmc/loom/AlphaMcpConverter.java:111-119 | A short line or a key without '/' throws. A field with no scanned descriptor, or of an invalid owner, is skipped. Otherwise a line with a srg name appends the field, with its scanned descriptor and looked-up name, to the owner's record, creating the record if needed. |
| AlphaMcpConverter.MethodMapStep | src/main/java/net/fabricmc/loom/AlphaMcpConverter.java:120-126 | Any other directive is read as a method line. A short line or a key without '/' throws. A method of an invalid owner is skipped. Otherwise the method, with its looked-up name, is appended to the owner's record, creating the record if needed. |
| AlphaMcpConverter.DirectiveWords | src/main/java/net/fabricmc/loom/AlphaMcpConverter.java:104 | `split(" ")` gives back the words a directive line was made of. |
| AlphaMcpConverter.ClassMapReplaces | src/main/java/net/fabricmc/loom/AlphaMcpConverter.java:106-110 | A valid `.class_map` line replaces any earlier record of the class with an empty one under the qualified target. |
| AlphaMcpConverter.MemberOfUnseenClass | src/main/java/net/fabricmc/loom/AlphaMcpConverter.java:120-126 | A method of a class with no record creates a record named after the class itself, holding just that method with its looked-up name. |
| AlphaMcpConverter.FieldOfClass | src/main/java/net/fabricmc/loom/AlphaMcpConverter.java:111-119 | A `.field_map` line for a valid class with a scanned descriptor appends the field to that class's record, existing or new, and changes no other record. |
| AlphaMcpConverter.MethodOfClass | src/main/java/net/fabricmc/loom/AlphaMcpConverter.java:120-126 | A `.method_map` line for a valid class appends the method to that class's record, existing or new, and changes no other record. |
| AlphaMcpConverter.ReadRgs | src/main/java/net/fabricmc/loom/AlphaMcpConverter.java:101-128 | The directive loop gives the records `RgsFrom` gives, or the first exception a line throws. |
| AlphaMcpConverter.AddMemberGood | src/main/java/net/fabricmc/loom/AlphaMcpConverter.java:116-125 | Adding a checked member keeps every record well formed. |
| AlphaMcpConverter.DirectiveStepGood | src/main/java/net/fabricmc/loom/AlphaMcpConverter.java:105-127 | Every directive keeps every record well formed. |
| AlphaMcpConverter.RgsGood | src/main/java/net/fabricmc/loom/AlphaMcpConverter.java:101-128 | Every record after the RGS file is well formed. Its key is a valid class and its notch name. Its target is qualified or the key itself. Each field has its scanned descriptor, and names come from the tables. |
| AlphaMcpConverter.MemberRows | src/main/java/net/fabricmc/loom/AlphaMcpConverter.java:134-139 | There is one row per member, in order, under the class's notch name. |
| AlphaMcpConverter.WriteMembers | src/main/java/net/fabricmc/loom/AlphaMcpConverter.java:134-139 | The member loop emits `MemberRows`. |
| AlphaMcpConverter.ClassNamesOfEmitted | src/main/java/net/fabricmc/loom/AlphaMcpConverter.java:132-133 | The class rows emitted name the records in iteration order, each once. |
| AlphaMcpConverter.WriteRows | src/main/java/net/fabricmc/loom/AlphaMcpConverter.java:131-140 | The writer loop emits each record's class row, then its fields, then its methods, in iteration order. |
| AlphaMcpConverter.Convert | src/main/java/net/fabricmc/loom/AlphaMcpConverter.java:29-144 | Fails iff the RGS replay throws. On success all records are well formed, and the rows are their blocks in some enumeration of the keys, with one class row per record. |
| McpClass.McpClass.constructor | src/main/java/net/fabricmc/loom/mcp/beta/McpClass.java:20-24 | A bean starts with empty member lists. |
| McpClass.McpClass.AddMethod | src/main/java/net/fabricmc/loom/mcp/beta/McpClass.java:26-28 | Through the live method list, a method is appended and nothing else changes. |
| McpClass.McpClass.AddField | src/main/java/net/fabricmc/loom/mcp/beta/McpClass.java:30-32 | Through the live field list, a field is appended and nothing else changes. |
| McpClass.McpClass.SetName | src/main/java/net/fabricmc/loom/mcp/beta/McpClass.java:38-40 | The getter returns what was set, and only that field changes. |
| McpClass.McpClass.SetNotch | src/main/java/net/fabricmc/loom/mcp/beta/McpClass.java:50-52 | The getter returns what was set, and only that field changes. |
| McpClass.McpClass.SetSupername | src/main/java/net/fabricmc/loom/mcp/beta/McpClass.java:58-60 | The getter returns what was set, and only that field changes. |
| McpClass.McpClass.SetPackageName | src/main/java/net/fabricmc/loom/mcp/beta/McpClass.java:66-68 | The getter returns what was set, and only that field changes. |
| McpClass.McpClass.SetSide | src/main/java/net/fabricmc/loom/mcp/beta/McpClass.java:74-76 | The getter returns what was set, and only that field changes. |
| McpClass.McpClass.GetFullNotch | src/main/java/net/fabricmc/loom/mcp/beta/McpClass.java:46-48 | The full name is the bare notch name iff the package is `net/minecraft/src`. It always ends with the notch name, and otherwise starts with the package and '/'. |
| McpClass.FullNotchSplits | src/main/java/net/fabricmc/loom/mcp/beta/McpClass.java:46-48 | Outside `net/minecraft/src`, the full name splits at its last '/' back into package and notch name. |
| BetaMcpConverter.KeptWellFormed | src/main/java/net/fabricmc/loom/mcp/beta/BetaMcpConverter.java:33-38 | Every kept class is an input bean, client-side, and filed under its own notch name. |
| BetaMcpConverter.KeptIsLastSideZero | src/main/java/net/fabricmc/loom/mcp/beta/BetaMcpConverter.java:33-38 | The bean kept for a name is the last client-side bean with that name. Every client-side name is kept. |
| BetaMcpConverter.GroupClasses | src/main/java/net/fabricmc/loom/mcp/beta/BetaMcpConverter.java:33-38 | The grouping loop builds exactly the kept map. |
| BetaMcpConverter.MembersOfExactly | src/main/java/net/fabricmc/loom/mcp/beta/BetaMcpConverter.java:43-60 | The members attached to a class are exactly the client-side members naming it. |
| BetaMcpConverter.AttachFields | src/main/java/net/fabricmc/loom/mcp/beta/BetaMcpConverter.java:43-49 | Succeeds iff every client-side field's class is known. Then each class's list gains its client-side fields, in order. |
| BetaMcpConverter.AttachMethods | src/main/java/net/fabricmc/loom/mcp/beta/BetaMcpConverter.java:54-60 | Succeeds iff every client-side method's class is known. Then each class's list gains its client-side methods, in order. |
| BetaMcpConverter.Collect | src/main/java/net/fabricmc/loom/mcp/beta/BetaMcpConverter.java:29-61 | Reading the archive fails iff some client-side member names an unknown class. Otherwise the kept classes hold their own client-side members after what they had. |
| BetaMcpConverter.ComposedName | src/main/java/net/fabricmc/loom/mcp/beta/BetaMcpConverter.java:65 | A name with a '/' is kept, and a bare one is put under its package. The result is always qualified. |
| BetaMcpConverter.OutputName | src/main/java/net/fabricmc/loom/mcp/beta/BetaMcpConverter.java:65-66 | The extra mappings remap the composed name when they have it; otherwise it is used as is. |
| BetaMcpConverter.FieldRows | src/main/java/net/fabricmc/loom/mcp/beta/BetaMcpConverter.java:69-71 | There is one field row per field, in order, with its signature, notch, searge and name. |
| BetaMcpConverter.MethodRows | src/main/java/net/fabricmc/loom/mcp/beta/BetaMcpConverter.java:72-74 | There is one method row per method, in order. |
| BetaMcpConverter.WriteClass | src/main/java/net/fabricmc/loom/mcp/beta/BetaMcpConverter.java:65-74 | Emits the class row under the output name, then its field rows, then its method rows. |
| BetaMcpConverter.ClassNamesOfEmitted | src/main/java/net/fabricmc/loom/mcp/beta/BetaMcpConverter.java:64-67 | The class rows emitted name the classes in iteration order, each once. |
| BetaMcpConverter.OwnersVisited | src/main/java/net/fabricmc/loom/mcp/beta/BetaMcpConverter.java:64-75 | Every member row belongs to a class that was emitted. |
| BetaMcpConverter.WriteRows | src/main/java/net/fabricmc/loom/mcp/beta/BetaMcpConverter.java:63-77 | The writer loop emits every class's block in iteration order. |
| BetaMcpConverter.Convert | src/main/java/net/fabricmc/loom/mcp/beta/BetaMcpConverter.java:26-78 | Fails iff a client-side member names an unknown class. Otherwise each kept bean's field and method lists gain exactly the client-side members of its class, in row order. The rows are the kept classes' blocks in some enumeration of their names. |
| BetaMcpConverter.ConvertAttachesField | src/main/java/net/fabricmc/loom/mcp/beta/BetaMcpConverter.java:43-49 | A bean for class "a" and one client-side field of "a": the conversion succeeds and the bean's own field list holds that field. |
| JavaStrings.SplitOfJoin | src/main/java/net/fabricmc/loom/AlphaMcpConverter.java:104 | `split` undoes joining two or more words that lack the separator, when the last word is not empty. |
| JavaIntegers.ParseIntOfIntToString | src/main/java/net/fabricmc/loom/providers/MappingsProvider.java:426 | `Integer.parseInt` reads back any printed 32-bit int. |

## Left out

- File and archive I/O: the readers take their files as lines or bytes. The writers return
  their text, rows or bytes. Only the optional inputs can be missing, as `None`: the alpha
  converter's two CSV files and the stack history.
- AlphaMcpConverter.Convert: it assumes the archive has `conf/minecraft.rgs`. Without it Java
  passes `null` to `getInputStream` and throws `NullPointerException`, which is not modelled.
- BetaMcpConverter.Convert: it assumes the archive has `conf/classes.csv`, `conf/fields.csv`
  and `conf/methods.csv`. A missing one throws `NullPointerException` in Java, which is not
  modelled.
- The jar scan of the alpha converter (ASM `ClassReader` over every class entry) is taken as
  its result, the map `fieldDescs` from `owner/name` to descriptor.
- CSV bean parsing in the beta converter (`CsvClientImpl`) is taken as its result, the lists
  of `McpClass` beans and `McpMember` values it reads.
- `MappingBlob` internals are not part of this model. Only the calls the merge loop makes are
  modelled: `get`, `method`, `field`, `tryMapName` and the `accept` calls. The descriptors and
  owner names those calls pass are not modelled.
- MappingBlob.MappingBlob.GetClass: the model assumes that `get`, `method` and `field` insert
  an empty entry on a miss and return it, rather than returning a detached sentinel. The merged
  key set (`MappingMerge.Merge`) and the skipping result (`MappingMergeProperties.MergeSkips`)
  depend on this.
- MappingBlob.MappingBlob.AcceptClass: the model assumes that the `accept` calls set the name
  unconditionally. The merge loop's own `null` tests are what make the earliest file win.
- What happens to a file's gains before the merge is not part of this model: tiny and Enigma
  reading, `rename` and `invert`. The gains and the inversion are inputs.
- Also not part of this model: building and writing the combined mappings (`MappingSplat`,
  `TinyWriter`), field-name proposal, and the remapping factory.
- A named argument is taken as its `index: name` text line. The side file is written with "\n"
  line terminators in place of the platform's `newLine`.
- MappingSources.InterProvider: it requires every file to be worked out already (no `Tiny`
  kind left), because the `enlighten` step that guarantees this is not part of this model.
- MappingsProviderFiles.MappingsProvider.InitFiles: it names a stack with the corrected
  history reader `StackHistory.Read`. The as-written reader is modelled beside it as
  `StackHistory.ReadAsWritten` and `StackHistory.ReadStackHistory`. The as-written naming is
  `MappingsProviderFiles.ChooseNamingAsWritten`.
- MappingsProviderFiles.MappingsProvider.Name: it names a stack with the corrected history
  reader, as `InitFiles` does.
- MappingsProviderFiles.ChooseNaming: it uses the corrected history reader. Its as-written
  partner is `ChooseNamingAsWritten`.
- MappingsProviderFiles.StackNaming: it holds for the corrected history reader only.
- MappingsProviderFiles.StackSetUpAgain: it holds for the corrected history reader only. As
  written it fails for a history holding only the new block
  (`MappingsProviderFiles.StackForgottenAsWritten`).
- StackHistory.ReadAsWritten: Java `assert`s are not modelled. This matches running with
  assertions disabled, the default.
- StackHistoryWrite.WriteStackHistory: reads and writes are taken to transfer as much as
  possible, so partial transfers are not modelled. The history is taken as bytes, with no
  UTF-8 decoding. An exception halfway through, which could leave the file half rewritten, is
  not modelled.
- JavaNio.ByteBuffer.Put: overflowing the buffer is excluded by a precondition, not modelled
  as `BufferOverflowException`. The source never overflows it.
- File paths are joined as plain strings with '/', with no path normalisation.
- Logging, URL escaping, the download itself and `UncheckedIOException` wrapping are left
  out, because they are I/O.
- `OutOfMemoryError` is not modelled. A huge first argument index is taken to allocate its
  array.
- Concurrency is not modelled.
- McpClass.McpClass.constructor: a bean's string fields start as "", where a Java bean starts
  with `null`. The converter reads beans whose fields the CSV reader has already set.
- JavaIntegers.ParseInt: it accepts only ASCII digits. `Character.digit` also accepts other
  Unicode decimal digits.
- JavaStrings.GetBytesUtf8: strings are sequences of Unicode characters, not UTF-16 code
  units, so an unpaired surrogate (which Java encodes as '?') cannot occur.

## Findings

| source | as written | input that shows it | evidently intended | confidence | as-written member | corrected member |
|---|---|---|---|---|---|---|
| src/main/java/net/fabricmc/loom/providers/MappingsProvider.java:502-517 | An extra entry after a full match sets the version to null but leaves the position at the stack size, so the next header returns null as a known version. | history `2`, `\ta-1 1.15`, `\tb-2 1.15`, `\tc-3 1.15`, `1`, `\ta-1 1.15`, with stack `a-1 1.15`, `b-2 1.15` | a block matches only if its entries are exactly the stack; otherwise the next version is handed out | not executed | StackHistory.LongerBlockGivesNull | StackHistory.ReadFindsStack |
| src/main/java/net/fabricmc/loom/providers/MappingsProvider.java:513 | `regionMatches` compares only the line's own length, so a truncated entry matches. | history `2`, `\ta-1 1.1`, `\t`, `1`, with stack `a-1 1.15`, `b-2 1.15` | an entry line matches only the whole expected entry | not executed | StackHistory.PrefixEntryMatches | StackHistory.ReadFindsStack |
| src/main/java/net/fabricmc/loom/providers/MappingsProvider.java:498-521 | A match is only checked at the next header, so a matching last block is missed. | history `1`, `\ta-1 1.15`, `\tb-2 1.15`, with stack `a-1 1.15`, `b-2 1.15` (gives new version `2`) | a matching last block gives its version `1`, known | not executed | StackHistory.LastBlockMissed | StackHistory.LastBlockFound |
| src/main/java/net/fabricmc/loom/providers/MappingsProvider.java:297 | The download address uses the project's Minecraft version instead of the file's, so the file's cache file gets the wrong intermediaries. | a 1.14.4 file with official names in a 1.15 project | download the intermediaries of the file's own version | not executed | MappingSources.RenamerAsWrittenMismatch | MappingSources.RenamerFor |
