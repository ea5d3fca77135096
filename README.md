# OpenMDAO test-model builder and documentation-build kernels

This project models two pieces of OpenMDAO 1.x in Dafny and proves properties of the models.

**The test-model builder** (`openmdao/test/test_builder.py`) is modelled in `test_builder.dfy`, module `TestBuilder`. It covers:
- `DynComp`, a leaf component that declares numbered parameters `p<i>`, outputs `o<i>` and states `s<i>`;
- `_child_name`, which names a child `G<i>` or `C<i>` by its kind and position;
- `build_sequence`, which adds positionally named children to a parent `Group` and connects each child to the one created just before it;
- `create_dyncomps`, the same chain built from `DynComp`s wired output `o<j>` to parameter `p<j>`.

The parent `Group` is a class that records, in call order, the children added to it and the connections declared on it. `DynComp` is a class whose constructor loops over `add_param`, `add_output` and `add_state`.

**The documentation build kernels** (`openmdao/docs/conf.py`) are in three files:
- `tag_index.dfy`, module `TagIndex`: the tag pre-processor `make_tagfiles`. It models `re.findall(".. tags::.*$")` without `MULTILINE`, the tag-list extraction as written (`lstrip` of a character set) next to the intended one, and the accumulation of one file per tag (a header once, then one link per occurrence) in a tag directory modelled as a map from file name to contents.
- `docstring_sections.dfy`, module `DocstringSections`: the patched numpydoc `_parse`. It covers word-by-word `capitalize` of section titles, dispatch on the normalised title, the eighteen keys the patched `__init__` sets up, and the loop storing each section under its key when that key is one of them.
- `source_docs.dfy`, module `SourceDocs`: `generate_docs`. It covers the package list (preferred packages first, then new directories, no duplicates), the sub-package filter as written next to the intended one, heading underlines, the reference-sheet layout, and the `srcdocs` tree written, modelled as a map from `DocPath` to contents.

`py_str.dfy`, module `PyStr`, holds the Python string operations these rely on: `"%d" % n`, `str.split(sep)`, `sep.join`, `str.lstrip(chars)`, `startswith` and `endswith`, and `c * n`.

The following are inputs to the model rather than effects:
- file contents;
- directory listings, taken as already sorted where the source sorts them;
- which paths are directories;
- the child factory of `build_sequence`, given as the function from call number to the child that call returns.

## Model

| member | source | states |
|---|---|---|
| PyStr.Dec | openmdao/test/test_builder.py:35 | `"%d" % n` is a non-empty string of decimal digits with no leading zero |
| PyStr.ParseDecDec | openmdao/test/test_builder.py:35 | reading the digits of `"%d" % n` back gives `n` |
| PyStr.DecInjective | openmdao/test/test_builder.py:62-65 | two numbers print alike exactly when they are equal |
| PyStr.FindFrom | openmdao/docs/conf.py:59 | the scan `split` relies on finds the leftmost occurrence of the separator at or after a position, or reports that none exists |
| PyStr.Split | openmdao/docs/conf.py:59 | `split(sep)` always gives at least one piece |
| PyStr.JoinSplit | openmdao/docs/conf.py:59 | joining the pieces of a split with the separator gives back the input |
| PyStr.SplitPiecesFree | openmdao/docs/conf.py:59 | no piece of a split contains the separator |
| PyStr.SplitFirstPrefix | openmdao/docs/conf.py:59 | the first piece of a split is a prefix of the input |
| PyStr.SplitNoSep | openmdao/docs/conf.py:59 | a text without the separator's first character splits into itself alone |
| PyStr.LStrip | openmdao/docs/conf.py:58 | `lstrip(chars)` leaves a suffix whose removed head is made only of characters of the set, and which does not itself start with one |
| PyStr.LStripUnique | openmdao/docs/conf.py:58 | any split of the text into a head of strippable characters and a rest not starting with one is the split `lstrip` makes |
| PyStr.Repeat | openmdao/docs/conf.py:255 | `c * n`, the underline text; `SourceDocs.HeadingLines` and `SourceDocs.RefSheetLines` state that an underline is as long as the line above it |
| PyStr.Join | openmdao/docs/conf.py:298 | `sep.join(parts)`: the parts with the separator between consecutive ones; `JoinSplit` states that it undoes `split` |
| PyStr.StartsWith | openmdao/docs/conf.py:297-302 | `str.startswith`, the test of the `..` and `.. index::` titles (and of `_` at line 235); `DocstringSections.NormalizeOfDots` and `DocstringSections.IndexOnRawTitle` state how it meets normalisation |
| PyStr.EndsWith | openmdao/docs/conf.py:235 | `str.endswith`, the `.py` test of a sub-listing entry; `SourceDocs.BaseNameOfModule` states the name such an entry gives |
| TestBuilder.Path | openmdao/test/test_builder.py:78-79 | `'.'.join((owner, name))`; `OwnerOfPath` states that the owner can be read back from it |
| TestBuilder.Range | openmdao/test/test_builder.py:34-41 | the length of `range(n)`: no iterations for a count of zero or less; the `DynComp` constructor's `ensures` states the resulting declarations |
| TestBuilder.Owner | openmdao/test/test_builder.py:78-79 | the first dotted segment of a connection endpoint; `OwnerOfPath` states that it is the child the path was built from |
| TestBuilder.OwnerOfPath | openmdao/test/test_builder.py:78-79 | the first dotted segment of `owner.name` is the owner, when the owner holds no dot |
| TestBuilder.VarNames | openmdao/test/test_builder.py:34-41 | the `i`-th declared name of a kind is its prefix followed by `"%d" % i`, and there are exactly as many as requested |
| TestBuilder.PrefixedDistinct | openmdao/test/test_builder.py:35 | two different indices give two different names under the same prefix |
| TestBuilder.DynCompNamesDistinct | openmdao/test/test_builder.py:34-41 | names are distinct within each kind, and no parameter, output or state shares a name with another kind |
| TestBuilder.DynComp.constructor | openmdao/test/test_builder.py:26-41 | declares exactly `nparams` parameters `p0…`, `noutputs` outputs `o0…` and `nstates` states `s0…` in order, or none for a count of zero or less, and keeps the two delays |
| TestBuilder.DynComp.AddParam | openmdao/test/test_builder.py:35 | appends one parameter name and changes nothing else |
| TestBuilder.DynComp.AddOutput | openmdao/test/test_builder.py:38 | appends one output name and changes nothing else |
| TestBuilder.DynComp.AddState | openmdao/test/test_builder.py:41 | appends one state name and changes nothing else |
| TestBuilder.Group.constructor | openmdao/test/test_builder.py:68-69 | a new group has no children and no connections |
| TestBuilder.Group.Add | openmdao/test/test_builder.py:75 | appends one child after the existing ones and leaves the connections alone |
| TestBuilder.Group.Connect | openmdao/test/test_builder.py:78-79 | appends one connection after the existing ones and leaves the children alone |
| TestBuilder.ChildName | openmdao/test/test_builder.py:62-65 | `_child_name`: `G<i>` for a group, `C<i>` for any other child; `ChildNameDistinct` states its properties |
| TestBuilder.ConnectPairs | openmdao/test/test_builder.py:77-79 | appends one connection `prev.u → cur.v` per pair, in pair order, and leaves the children alone |
| TestBuilder.AddNext | openmdao/test/test_builder.py:72-79 | adds the i-th child under `_child_name(child, i)` and, for `i > 0`, wires the previous child to it |
| TestBuilder.ChildNameDistinct | openmdao/test/test_builder.py:62-65 | two generated child names are equal iff kind (`G` group or `C` other) and position agree; a name is its one-letter prefix followed by the position's digits and holds no dot |
| TestBuilder.Wiring | openmdao/test/test_builder.py:76-80 | the connections of a chain of children: the pairs' wiring of each child to the next, in chain order; `WiringLength`, `WiringAt` and `WiringSource` state its properties |
| TestBuilder.Wire | openmdao/test/test_builder.py:77-79 | the connections between two consecutive children, one per pair; `WiringAt` and `WiringSource` state which connection joins which children on which pair |
| TestBuilder.WiringLength | openmdao/test/test_builder.py:72-79 | a chain of `n ≥ 1` children gets `(n-1)·|conns|` connections, and no children get none |
| TestBuilder.WiringAt | openmdao/test/test_builder.py:72-79 | connection number `i·|conns|+k` is pair `k` from child `i` to child `i+1` |
| TestBuilder.WiringAdjacent | openmdao/test/test_builder.py:76-80 | every connection joins some child to the one right after it |
| TestBuilder.WiringSource | openmdao/test/test_builder.py:76-80 | gives, for any connection of a chain, the child position `i` it leaves and the pair `k` it comes from: it is pair `k` from child `i` to child `i+1` |
| TestBuilder.SequenceChildren | openmdao/test/test_builder.py:71-75 | the children one `build_sequence` call adds: the i-th is the factory's i-th result, named `_child_name(child, i)` |
| TestBuilder.SequenceConnOwners | openmdao/test/test_builder.py:76-80 | every connection of a sequence leaves the child of position `j-1` and ends at the child of position `j`, for some `1 ≤ j < n`, read from the endpoints' first segments |
| TestBuilder.BuildSequence | openmdao/test/test_builder.py:67-82 | returns the given parent, or a fresh group when none is given. Its children are the old ones followed by the `num_children` new ones, the i-th named `_child_name(child_i, i)`. Its connections are the old ones followed by the chain wiring of the new children; with zero children nothing changes |
| TestBuilder.SequenceWiringAdjacent | openmdao/test/test_builder.py:76-80 | every connection of a sequence runs from child `i-1` to child `i` for some `i ≥ 1`, so none skips, goes backwards or ends at child 0 |
| TestBuilder.SequenceNamesDistinct | openmdao/test/test_builder.py:71-75 | the children of one call get pairwise distinct names |
| TestBuilder.DynLeaf | openmdao/test/test_builder.py:54-56 | `DynComp(nvars//2, nvars//2)` as its parent records it; the `DynComp` constructor's `ensures` states the same declarations |
| TestBuilder.DynNames | openmdao/test/test_builder.py:56 | the names `"C%d" % i`; `DynNamesOf` states that they are the names of `DynChildren` |
| TestBuilder.DynChildren | openmdao/test/test_builder.py:53-56 | the children `create_dyncomps` adds; `CreateDynComps` and `DynCompsAsSequence` state that they are `C0…` with `nvars//2` parameters and outputs each |
| TestBuilder.DynPairs | openmdao/test/test_builder.py:59-60 | the pairs `create_dyncomps` wires; `DynConnAt` states that pair `j` is the connection `C<i-1>.o<j> → C<i>.p<j>` of the source's format strings |
| TestBuilder.DynConnAt | openmdao/test/test_builder.py:60 | the connection text `"C%d.o%d" % (i-1, j)` → `"C%d.p%d" % (i, j)` is pair `j` of the chain wiring between `C<i-1>` and `C<i>` |
| TestBuilder.ConnectToPrevious | openmdao/test/test_builder.py:58-60 | for `i ≥ 1`, appends the `nconns` connections `C<i-1>.o<j> → C<i>.p<j>` in order |
| TestBuilder.AddDynComp | openmdao/test/test_builder.py:53-60 | adds `C<i>` with `nvars//2` parameters and outputs, then wires it to `C<i-1>` when `i > 0` |
| TestBuilder.CreateDynComps | openmdao/test/test_builder.py:49-60 | appends the `ncomps` children `C0…` and the chain wiring `C(i-1).o<j> → C<i>.p<j>` for every `i ≥ 1` and `j < nconns` |
| TestBuilder.DynCompsAsSequence | openmdao/test/test_builder.py:49-60 | `create_dyncomps` adds the same children as `build_sequence` with a factory of identical leaves |
| TestBuilder.ThreeLeafChain | openmdao/test/test_builder.py:67-82 | three leaves chained on `("out", "in")` are named `C0, C1, C2` and get exactly `C0.out → C1.in` and `C1.out → C2.in` |
| TagIndex.LineEnd | openmdao/docs/conf.py:54 | `.*` reaches the first newline at or after its start, or the end of the text |
| TagIndex.MatchEnd | openmdao/docs/conf.py:54 | a match starting at a position ends at least nine characters later and inside the text |
| TagIndex.FindAllFrom | openmdao/docs/conf.py:54 | every match found is at least nine characters long |
| TagIndex.FindAll | openmdao/docs/conf.py:54 | `re.findall(".. tags::.*$", filetext)`: the scan from the text's start; `FindAllFromFirst` and `AtMostOneDirective` state what it returns |
| TagIndex.FirstMatch | openmdao/docs/conf.py:54 | finds the leftmost position where the pattern matches, or reports that none exists |
| TagIndex.FindAllFromFirst | openmdao/docs/conf.py:54 | `findall` returns the leftmost match and nothing else |
| TagIndex.AtMostOneDirective | openmdao/docs/conf.py:54 | a file yields at most one directive, and none exactly when the pattern matches nowhere; the directive starts with the pattern's head, holds no newline and ends the file, possibly before a final newline |
| TagIndex.DirectiveShape | openmdao/docs/conf.py:54 | a match is a single line that ends the file or stops just before its final newline |
| TagIndex.TagListAsWritten | openmdao/docs/conf.py:58-59 | the tags as the source cuts them: the character-set `lstrip(".. tags::")`, then `split(", ")`; `TagListAsWrittenShape` and `StripEatsTag` state its properties |
| TagIndex.TagList | openmdao/docs/conf.py:58-59 | the tags as evidently intended: drop the nine-character head and its blanks, then `split(", ")`; `TagListShape` and `TagListAgrees` state its properties |
| TagIndex.TagListAsWrittenShape | openmdao/docs/conf.py:57-59 | the tags as written join back to the directive with every leading `. t a g s :` or blank removed; no tag holds `", "`; the first tag never starts with one of those characters |
| TagIndex.TagListShape | openmdao/docs/conf.py:57-59 | the intended tags join back to the text after `.. tags::` and its blanks, and no tag holds `", "` |
| TagIndex.StripSolvers | openmdao/docs/conf.py:58 | the character-set strip turns `.. tags:: solvers` into `olvers` |
| TagIndex.StripEatsTag | openmdao/docs/conf.py:58 | `.. tags:: solvers` is tagged `olvers` as written and `solvers` as intended |
| TagIndex.TagListAgrees | openmdao/docs/conf.py:58 | the two tag lists agree on a clean directive: its head is made of strip-set characters and its first tag does not start with one |
| TagIndex.MatchOccurrencesAgree | openmdao/docs/conf.py:57-61 | for a file whose directives are all clean, the occurrences as written are the intended ones |
| TagIndex.OccurrencesAgree | openmdao/docs/conf.py:39-61 | for a scan whose directives are all clean, every tag of every file is the one the intended cut gives, in the same order |
| TagIndex.TagFile | openmdao/docs/conf.py:62 | the tag file `tag + ".rst"` inside the tag directory; `TagFileInjective` states that distinct tags get distinct files |
| TagIndex.TagFileInjective | openmdao/docs/conf.py:62 | distinct tags get distinct keys in the directory map |
| TagIndex.TagOccurrences | openmdao/docs/conf.py:59-61 | the occurrences of one directive's tags; `TagFileContents` states that each gives one link in its tag's file, in order, and `OccurrencesAgree` states that the tags are the intended ones on clean input |
| TagIndex.MatchOccurrences | openmdao/docs/conf.py:57-61 | the occurrences of every directive of one file, tags cut as written; `MatchOccurrencesAgree` states when they are the intended ones |
| TagIndex.Occurrences | openmdao/docs/conf.py:39-61 | the occurrences of the whole scan, file by file; `TagDir.MakeTagFiles` states that the directory records them, and `OccurrencesAgree` states when they are the intended ones |
| TagIndex.IntendedMatchOccurrences | openmdao/docs/conf.py:57-61 | the occurrences of one file's directives with the intended cut `TagList`; `MatchOccurrencesAgree` relates it to the as-written one |
| TagIndex.IntendedOccurrences | openmdao/docs/conf.py:39-61 | the occurrences of the whole scan with the intended cut; `OccurrencesAgree` and `TagDir.MakeTagFiles` relate it to the as-written one |
| TagIndex.Header | openmdao/docs/conf.py:66-74 | the header text of a new tag file; `TagFileContents` states that it is written once, before the first link |
| TagIndex.Link | openmdao/docs/conf.py:81 | the line `"     ../<sourcefile>\n"`; `TagFileContents` states that a tag's file holds one per occurrence, in scan order |
| TagIndex.Record | openmdao/docs/conf.py:62-81 | one tag occurrence: a new tag file gets the header, then the link line to the scanned file is appended |
| TagIndex.TagFiles | openmdao/docs/conf.py:59-81 | the occurrences recorded one after another in scan order; `TagFileExists`, `TagFileContents` and `TagFilesKeys` state what the directory then holds |
| TagIndex.Links | openmdao/docs/conf.py:80-81 | the link lines of one tag's occurrences, in order; `LinksNone` and `TagFileContents` state its properties |
| TagIndex.LinksNone | openmdao/docs/conf.py:80-81 | a tag that never occurs gets no link lines |
| TagIndex.TagFileExists | openmdao/docs/conf.py:61-76 | a tag's file exists afterwards exactly when it existed before or the tag occurs |
| TagIndex.TagFileContents | openmdao/docs/conf.py:61-81 | a tag's file holds its old contents, or else the header written once on the first occurrence, followed by one `"     ../<sourcefile>\n"` line per occurrence, in scan order |
| TagIndex.TagFilesKeys | openmdao/docs/conf.py:62 | every file in the tag directory existed before or is the file of some occurring tag |
| TagIndex.TagFilesAppend | openmdao/docs/conf.py:39-81 | recording two runs of occurrences in turn is recording their concatenation |
| TagIndex.TagDir.constructor | openmdao/docs/conf.py:24-34 | the tag directory starts empty |
| TagIndex.TagDir.RecordTag | openmdao/docs/conf.py:62-81 | writes the header if the tag's file is new, then appends the link line |
| TagIndex.TagDir.RecordTags | openmdao/docs/conf.py:61-81 | records the tags of one directive in order |
| TagIndex.TagDir.RecordMatches | openmdao/docs/conf.py:57-81 | records every directive of one file in order, its tags cut by `lstrip` as written |
| TagIndex.TagDir.MakeTagFiles | openmdao/docs/conf.py:36-81 | leaves the directory holding exactly what recording every tag (cut as written) of every directive of every file, in scan order, produces; when every directive is clean, that is what the intended cut gives |
| DocstringSections.Capitalize | openmdao/docs/conf.py:298 | `capitalize` of one word; `CapitalizeWordsIsTitleCase` states what it does to each word of a title: the first character upper case, the others lower case |
| DocstringSections.CapitalizeAll | openmdao/docs/conf.py:298 | `[s.capitalize() for s in words]`: as many words as given, each capitalised |
| DocstringSections.CapitalizeWords | openmdao/docs/conf.py:298 | `' '.join([s.capitalize() for s in section.split(' ')])`; `CapitalizeWordsIsTitleCase` states what it computes |
| DocstringSections.NormalizeTitle | openmdao/docs/conf.py:297-298 | a title starting with `..` is kept, any other capitalized word by word; the `Normalize…` lemmas state its properties |
| DocstringSections.CapitalizeWordsIsTitleCase | openmdao/docs/conf.py:298 | the split/capitalize/join of a title is its character-wise title case: every blank stays in place, a character opening the title or following a blank is upper-cased, every other is lower-cased |
| DocstringSections.NormalizeKeepsShape | openmdao/docs/conf.py:297-298 | normalising keeps the title's length and exactly its blanks |
| DocstringSections.NormalizeIdempotent | openmdao/docs/conf.py:297-298 | normalising a normalised title changes nothing |
| DocstringSections.NormalizeCaseInsensitive | openmdao/docs/conf.py:297-298 | titles not starting with `..` that differ only in letter case normalise alike |
| DocstringSections.NormalizeOfDots | openmdao/docs/conf.py:297-298 | a normalised title starts with `..` exactly when the raw one does |
| DocstringSections.IndexOnRawTitle | openmdao/docs/conf.py:297-302 | a normalised title starts with `.. index::` exactly when the raw one does |
| DocstringSections.ParamSectionsPlain | openmdao/docs/conf.py:299-300 | none of the nine parameter-list titles starts with a dot or is `See Also` |
| DocstringSections.Classify | openmdao/docs/conf.py:299-307 | the dispatch chain: the key a section is stored under and the parser that reads it; `ClassifyCases` states each outcome and its condition |
| DocstringSections.ClassifyCases | openmdao/docs/conf.py:297-307 | each condition selects its own outcome: a title in the nine-name set gives a parameter list, a `.. index::` title gives an index stored under `index`, `See Also` gives see-also, anything else is stored raw; the cases are exclusive, and every section but an index is stored under its normalised title |
| DocstringSections.SeeAlsoAnyCase | openmdao/docs/conf.py:298-305 | a title reading "see also" in any letter case goes to the see-also parser |
| DocstringSections.SeeAlsoNormal | openmdao/docs/conf.py:298 | `See Also` is already normal |
| DocstringSections.InitialDataShape | openmdao/docs/conf.py:337-356 | the set-up data holds exactly the eighteen keys of `__init__`, each with no parsed value yet |
| DocstringSections.DispatchKeysKnown | openmdao/docs/conf.py:337-355 | the nine parameter-list titles, `index` and `See Also` are all among the eighteen keys `__init__` sets up |
| DocstringSections.Key | openmdao/docs/conf.py:299-307 | the key of the dispatch chain a section is stored under; `ClassifyCases` states each key |
| DocstringSections.Stored | openmdao/docs/conf.py:296-307 | the parsed data after a run of sections: each stored under its key when the key is present, in order; `StoredKeys`, `StoredLastWins` and `StoredUntouched` state its properties |
| DocstringSections.StoredKeys | openmdao/docs/conf.py:296-307 | parsing never adds or removes a key, so a section under any other title is dropped |
| DocstringSections.StoredLastWins | openmdao/docs/conf.py:296-307 | a key the data holds ends with the last section stored under it |
| DocstringSections.StoredUntouched | openmdao/docs/conf.py:296-307 | a key no section is stored under keeps its old data |
| DocstringSections.DocString.constructor | openmdao/docs/conf.py:332-358 | starts from the eighteen keys with their empty values and parses the sections into them |
| DocstringSections.DocString.Parse | openmdao/docs/conf.py:296-307 | leaves the parsed data as storing every section under its key, in order, where the key is already present; a store under any other key is dropped |
| SourceDocs.ListPackages | openmdao/docs/conf.py:205-215 | builds the package list the fold `PackageList` describes |
| SourceDocs.Candidate | openmdao/docs/conf.py:213-214 | a top-level entry is a package candidate when it is a directory one level up and not ignored; `PackageListMembers` and `NewPackagesMembers` state how candidates enter the list |
| SourceDocs.Up | openmdao/docs/conf.py:213 | `os.path.join("..", name)`, as `isdir` and `listdir` see an entry of the level above the documentation directory |
| SourceDocs.PackageList | openmdao/docs/conf.py:205-215 | the preferred packages, then each directory of the listing that is neither ignored nor already listed; the `PackageList…` lemmas state its properties |
| SourceDocs.NewPackages | openmdao/docs/conf.py:212-215 | the candidates appended after the preferred packages; `NewPackagesMembers` and `PackageListOrder` state which and in what order |
| SourceDocs.PackageListPrefix | openmdao/docs/conf.py:209-210 | the list starts with the eight preferred packages in their order |
| SourceDocs.PreferredDistinct | openmdao/docs/conf.py:209-210 | the preferred packages are pairwise distinct |
| SourceDocs.PackageListMembers | openmdao/docs/conf.py:205-215 | a name is listed exactly when it is preferred, or a directory entry of the listing that is not ignored |
| SourceDocs.PackageListDistinct | openmdao/docs/conf.py:205-215 | the package list never holds a name twice |
| SourceDocs.NewPackagesMembers | openmdao/docs/conf.py:212-215 | the appended candidates are exactly the directory entries that are neither ignored nor preferred |
| SourceDocs.PackageListOrder | openmdao/docs/conf.py:212-215 | for a listing without repeats, the list is the preferred packages followed by the other candidates in listing order |
| SourceDocs.BaseName | openmdao/docs/conf.py:237 | `rsplit('.')[0]` with no limit: the text before the first dot; `BaseNameNoDot` and `BaseNameOfModule` state its properties |
| SourceDocs.Kept | openmdao/docs/conf.py:234-235 | an entry is kept when it is a directory other than `test`, or a `.py` file not starting with `_`; `NotAModule` shows both halves |
| SourceDocs.NotAModule | openmdao/docs/conf.py:234-235 | the entry `nn_interpolators` is kept exactly when the directory test holds for it, since it is no `.py` file |
| SourceDocs.BaseNameNoDot | openmdao/docs/conf.py:237 | `rsplit('.')[0]` holds no dot |
| SourceDocs.BaseNameOfModule | openmdao/docs/conf.py:237 | a file name `x.py` with no other dot is named `x` |
| SourceDocs.SubDirectoryDropped | openmdao/docs/conf.py:234 | as written, the directory `surrogate_models/nn_interpolators` is not kept; as intended, it is |
| SourceDocs.SubPackagesWith | openmdao/docs/conf.py:232-237 | the sub-package loop under a given directory test: the base name of each kept entry, in listing order |
| SourceDocs.SubPackagesAsWritten | openmdao/docs/conf.py:232-237 | that loop with the bare-name `isdir` test of the source; `SubPackagesAsWrittenMembers` states its members |
| SourceDocs.SubPackages | openmdao/docs/conf.py:232-237 | that loop with the entry looked up inside the package directory, as intended; `SubPackagesMembers` states its members |
| SourceDocs.Subs | openmdao/docs/conf.py:232-237 | a package's sub-packages as the source collects them from the sorted listing of its directory |
| SourceDocs.SubPackagesWithMembers | openmdao/docs/conf.py:232-237 | under any directory test, a name is collected exactly when some entry is a directory other than `test` or a `.py` file not starting with `_`, and has that name before its first dot |
| SourceDocs.SubPackagesAsWrittenMembers | openmdao/docs/conf.py:232-237 | as written, a name is a sub-package exactly when some entry is, under its bare name, a directory of the documentation directory other than `test`, or is a `.py` file not starting with `_`, and has that name before its first dot |
| SourceDocs.SubPackagesMembers | openmdao/docs/conf.py:232-237 | as intended, the same with the directory looked up inside the package directory |
| SourceDocs.SubPackagesAgree | openmdao/docs/conf.py:234 | the two collections agree on a listing where both directory tests agree on every entry |
| SourceDocs.SubPackagesBound | openmdao/docs/conf.py:232-237 | there are never more sub-packages than entries |
| SourceDocs.ListSubPackages | openmdao/docs/conf.py:226-237 | builds the sub-package list as written, testing each bare entry name for being a directory, as the fold `SubPackagesAsWritten` describes |
| SourceDocs.Heading | openmdao/docs/conf.py:254-255 | a title line and an underline line of `c`; `HeadingLines` states its lines |
| SourceDocs.HeadingLines | openmdao/docs/conf.py:254-255 | a heading is exactly two lines: the title, then `c` repeated as many times as the title has characters |
| SourceDocs.FirstLine | openmdao/docs/conf.py:254-255 | splitting a line followed by a newline cuts right after the line |
| SourceDocs.SubLine | openmdao/docs/conf.py:265 | the line `"    <package>/<sub>\n"` naming one sub-package |
| SourceDocs.SubLines | openmdao/docs/conf.py:258-265 | one `SubLine` per sub-package not skipped, in order; `PackageFilePresent` states that the package file holds them |
| SourceDocs.PackageText | openmdao/docs/conf.py:254-283 | a package file: its heading, the toctree head, one line per non-skipped sub-package, the footer |
| SourceDocs.PackageTextLines | openmdao/docs/conf.py:254-255 | a package file opens with `openmdao.<package>` and a `-` underline exactly as long as it |
| SourceDocs.RefSheetText | openmdao/docs/conf.py:272-278 | a reference sheet: its six writes in order; `RefSheetLines` states its lines |
| SourceDocs.IndexLine | openmdao/docs/conf.py:246 | the index line `"   packages/openmdao.<package>\n"`; `DocumentedMembers` and `IndexMatchesPackageFiles` state which packages get one |
| SourceDocs.Documented | openmdao/docs/conf.py:239-246 | the packages with sub-packages, in package order; `DocumentedMembers` states which |
| SourceDocs.IndexEntry | openmdao/docs/conf.py:239-246 | the line one package adds to the index: its `IndexLine` when it has sub-packages, else nothing |
| SourceDocs.IndexLines | openmdao/docs/conf.py:239-246 | the index lines of the documented packages, in order; `SrcTree` puts them after `index_top`, and `SrcDocs.GenerateDocs` writes that tree |
| SourceDocs.RefSheets | openmdao/docs/conf.py:258-279 | the reference sheets of one package; `RefSheetsKeys` states which sheets are written and that nothing else changes |
| SourceDocs.AddPackage | openmdao/docs/conf.py:223-283 | what one package adds to the tree: nothing without sub-packages, else its sheets and package file; `PackageFilePresent` and `RefSheetPresent` state the files |
| SourceDocs.PackageFiles | openmdao/docs/conf.py:223-286 | the files of every listed package in turn; `PackageFilePresent`, `RefSheetPresent` and `RefSheetValue` state what it holds |
| SourceDocs.SrcTree | openmdao/docs/conf.py:218-286 | the whole `srcdocs` tree: every listed package's files, and the index naming each package with sub-packages; the tree lemmas state what it holds |
| SourceDocs.DocumentedMembers | openmdao/docs/conf.py:239-246 | the index names a package exactly when it is listed and has sub-packages |
| SourceDocs.RefSheetsKeys | openmdao/docs/conf.py:258-279 | one package writes exactly the reference sheets of its non-skipped sub-packages, and changes no other file |
| SourceDocs.PackageFilePresent | openmdao/docs/conf.py:239-283 | a package file is written exactly for a listed package with sub-packages, and it holds the package's heading and lines |
| SourceDocs.RefSheetPresent | openmdao/docs/conf.py:258-279 | a reference sheet exists exactly for a listed package's sub-package that is not skipped; `nn_interpolators` never gets one |
| SourceDocs.RefSheetValue | openmdao/docs/conf.py:267-279 | every reference sheet holds the text written for its sub-package |
| SourceDocs.IndexMatchesPackageFiles | openmdao/docs/conf.py:239-253 | the index names a package exactly when the tree holds its package file |
| SourceDocs.SrcDocs.constructor | openmdao/docs/conf.py:192-198 | the `srcdocs` tree starts empty |
| SourceDocs.RefSheetLines | openmdao/docs/conf.py:267-279 | a reference sheet opens with the index entry, a blank, the label `.. _openmdao.<package>.<sub>.py:`, a blank, the file name, a `+` underline exactly as long as the file name, a blank, and the `automodule` line |
| SourceDocs.SrcDocs.WriteRefSheet | openmdao/docs/conf.py:267-279 | its six writes, appended in order, give the sheet whose lines `RefSheetLines` states |
| SourceDocs.SrcDocs.WritePackage | openmdao/docs/conf.py:249-283 | writes the package file (heading with its `-` underline, one line per non-skipped sub-package, footer) and the package's reference sheets |
| SourceDocs.SrcDocs.DocumentPackage | openmdao/docs/conf.py:223-283 | lists a package's sub-packages as the source collects them and, if there are any, writes its package file and reference sheets and returns its index line; otherwise changes nothing and returns no line |
| SourceDocs.SrcDocs.GenerateDocs | openmdao/docs/conf.py:153-286 | writes exactly the tree `SrcTree` describes: the index naming each package with sub-packages (collected as written), its package file and its reference sheets |

## Left out

- File-system effects are left out: `os.walk`, `shutil.rmtree`, `os.mkdir`, `open`/`write`/`close`, `os.path.exists` and `os.listdir`. Listings and file texts are inputs; the written trees are maps. The srcdocs sub-directories created with `mkdir` are not modelled (openmdao/docs/conf.py:24-34, 192-198, 250).
- `make_tagindex` and the `tag()` driver only write a fixed index text and wire the steps together (openmdao/docs/conf.py:83-106).
- N2 diagram generation calls into the framework and writes HTML (openmdao/docs/conf.py:119-143).
- Mock module injection into `sys.modules` is interpreter set-up (openmdao/docs/conf.py:113-115).
- Sphinx configuration constants are data, with no logic (openmdao/docs/conf.py:386-652).
- Left out of `_parse`: numpydoc rendering `__str__` and `_str_options`, the `textwrap.dedent` and `Reader` set-up of `__init__`, plus `reset`, `_parse_summary`, `_read_sections`, `_parse_param_list`, `_parse_index` and `_parse_see_also`. These belong to numpydoc, which is not part of this model. Sections are given as input, and a parsed section keeps its raw lines tagged with the parser that would read them (openmdao/docs/conf.py:292-381).
- `DynComp.solve_nonlinear` and `solve_linear` only sleep, and `time` is never imported (openmdao/test/test_builder.py:43-47).
- `ABCDArrayComp` evaluates expressions over numpy arrays (openmdao/test/test_builder.py:14-23).
- The `__main__` driver script runs the external framework (openmdao/test/test_builder.py:85-131).
- Variable values, `var_factory` and `vf_args` are not modelled: only variable names are (openmdao/test/test_builder.py:35-41).
- Framework validation of names and connection endpoints happens in `Group`, which is not part of this model. So do exceptions raised by a child factory.
- DocstringSections.DocString.Parse: numpydoc's `__setitem__` is modelled as dropping a store under an unknown key; the warning it issues is not modelled.
- DocstringSections.Capitalize: ASCII case mapping only; Python's Unicode case mapping is not modelled.
- TagIndex.TagFile: a tag's file name is a flat key `tag + ".rst"` in the directory map. Path separators in a tag (and the `open` that fails on a missing sub-directory), a tag starting with `/` that escapes the directory, aliases such as `./x` and `x`, case folding on a case-insensitive file system, and a tag named `index` sharing the file `make_tagindex` appends to are not modelled.
- TagIndex.TagDir.MakeTagFiles: file texts are given as character strings, taken as they are after `open` and `read`. The Python 2/3 branch of lines 45-52 changes how that text is obtained, which is not modelled: under Python 3 the file is decoded as latin-1 and read with universal newlines, so `\r\n` and `\r` become `\n`; under Python 2 on a POSIX system neither happens, so a file ending `.. tags:: b\r\n` gives the tag `b\r` there and `b` under Python 3.
- SourceDocs.SrcDocs.GenerateDocs: `sorted(os.listdir(...))` is taken as an input already in sorted order. `os.listdir` on a missing package directory raises; the model's listing function is total, so that error and the partly written tree it leaves are not modelled.
- SourceDocs.SrcDocs.GenerateDocs: assumes the build runs with the documentation directory as the working directory, which the top-level `isdir` check relies on.
- TestBuilder.CreateDynComps: its loop body is written as the two methods `AddDynComp` and `ConnectToPrevious`, with the same calls in the same order.
- TestBuilder.BuildSequence: its loop body is written as the methods `AddNext` and `ConnectPairs`, with the same calls in the same order.

## Findings

| source | as written | input that shows it | evidently intended | confidence | as-written member | corrected member |
|---|---|---|---|---|---|---|
| openmdao/docs/conf.py:58 | `match.lstrip(".. tags::")` strips every leading character of the set `{. space t a g s :}`, so it also eats the start of a first tag beginning with one of them | `.. tags:: solvers` is tagged `olvers` | remove the nine-character `.. tags::` head and the blanks after it | high, not executed | TagIndex.TagListAsWritten, TagIndex.StripEatsTag | TagIndex.TagList, TagIndex.TagListShape, TagIndex.OccurrencesAgree |
| openmdao/docs/conf.py:234 | `os.path.isdir(sub_listing)` looks the bare entry up in the working directory, not in the package directory | the directory `surrogate_models/nn_interpolators` is not kept as a sub-package | test `os.path.join("..", package, sub_listing)`, as the skip list naming the directory `nn_interpolators` expects | medium, not executed | SourceDocs.SubPackagesAsWritten, SourceDocs.SubDirectoryDropped | SourceDocs.SubPackages, SourceDocs.SubPackagesMembers, SourceDocs.SubPackagesAgree |

The tag directory and the `srcdocs` tree follow the source as written. The intended definitions sit beside them, with lemmas stating the inputs on which both give the same result: `TagIndex.OccurrencesAgree` and `SourceDocs.SubPackagesAgree`.
