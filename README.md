# XCOrphans analysis core, modelled in Dafny

XCOrphans reads the object table of an Xcode project file (`project.pbxproj`).
It reports two kinds of finding:

- **unbuilt source files**: file references that no build file of any
  sources build phase points at, and whose extension is a source
  extension (`m`, `mm`, `swift` by default);
- **dangling build entries**: identifiers listed in the `files` of a
  sources build phase that name no record of the table.

It can also rebuild the project-relative path of a file reference by
walking up the PBXGroup hierarchy.

The model follows the structure of `xcorphans.py`:

- `ObjectGraph` (object_graph.dfy): the table is an ordered sequence of
  `(identifier, record)` pairs, read in `objects.items()` order. Every field
  a record may lack is an `Option`, as `dict.get` sees it. `Lookup` and
  `FirstOfIsa` are the "first match of a list comprehension" lookups the
  source repeats at every query.
- `IdentifierSets` (identifier_sets.dfy): each `@lazyprop` property as a
  function of the table, together with the lemmas that say what the
  property means:
  - ordered filters;
  - membership in both directions;
  - the split of build entries into resolving and dangling;
  - the unbuilt-reference set and the records enumerated from it.
- `PathNames` (path_names.dfy): `os.path.splitext(p)[1][1:]` and
  `os.path.join` with POSIX rules.
- `PathResolver` (path_resolver.dfy): `path()`. It is a method with the
  source's while loop, proved equal to `PathOf`. The lemmas give the path
  through a chain of groups, the edge cases, and divergence of a cyclic
  hierarchy.
- `Orphans` (orphans.dfy): the `XCOrphans` class. `lazyprop` becomes one
  `Lazy<T>` field per property (`Unset`, then `Cached(value)`).
  - Each property is a method that returns the cached value when there
    is one. Otherwise it runs the source's loop, stores the result and
    returns it.
  - Each loop is a separate method proved to compute the property's
    function.
  - `Valid()` states that every cached value is the value its property
    denotes.
- `Scenarios` (scenarios.dfy): small concrete tables and what the
  analysis reports for each:
  - an unbuilt `Foo.swift`;
  - an unbuilt `Readme.txt`;
  - a dangling build entry;
  - a nested file;
  - a self-enclosing group.

Where the source can raise, the model does one of two things:

- **`path()`** models the exception as an outcome (`Raised(KeyError(..))`,
  `Raised(TypeError)`).
- **The chain of cached properties** turns the exception into a
  precondition. These are `TargetsResolve`, `PhasesResolve`, `FilesPresent`
  and `UnbuiltHavePaths`, each defined so that the property raises nothing
  exactly when it holds.
  - All four cover the `[0]` lookups and `extend(None)`.
  - `UnbuiltHavePaths` also covers `file['path']`.
  - The `[0]` lookup in `not_build_files` is not a precondition: it is
    proved never to fail (`UnbuiltRefsAreFileReferences`).

## Model

| member | source | states |
|---|---|---|
| ObjectGraph.Lookup | xcorphans.py:57 | the comprehension over `objects.items()` matching `f[0] == id` has a first element exactly when some entry is named `id`; that element is the first such entry |
| ObjectGraph.LookupEntry | xcorphans.py:66 | in a table with distinct keys, looking up an entry's own identifier finds that entry's record |
| ObjectGraph.FirstOfIsa | xcorphans.py:154 | the first record whose `isa` is the given tag, present exactly when some record has that tag, with no such record before it |
| IdentifierSets.TargetRefs | xcorphans.py:152-155 | `target_refs` is the `targets` field of the first PBXProject record in table order |
| IdentifierSets.PhasesOfAppend | xcorphans.py:146-150 | extending by the phases of each target in turn: the phases of consecutive target lists concatenate |
| IdentifierSets.PhasesOfMembers | xcorphans.py:144-150 | a phase id is in `build_phase_refs` exactly when it is in the `buildPhases` of some target |
| IdentifierSets.RecordsOf | xcorphans.py:139 | one record per identifier, each the first table entry of that identifier |
| IdentifierSets.SourcePhasesOfSpec | xcorphans.py:135-142 | `source_build_phases` holds only PBXSourcesBuildPhase records, keeps the order of `build_phase_refs`, and includes every sources phase listed there |
| IdentifierSets.SourcePhasesOfAppend | xcorphans.py:138-141 | the filter distributes over concatenation of phase lists |
| IdentifierSets.FilesOfAppend | xcorphans.py:130-132 | extending by each phase's `files`: the files of consecutive phase lists concatenate |
| IdentifierSets.FilesOfMembers | xcorphans.py:127-133 | an id is in `build_file_refs` exactly when it is in the `files` of some sources phase |
| IdentifierSets.ResolvingOf | xcorphans.py:120-121 | the entries kept by the `len(matches) > 0` branch all name a record |
| IdentifierSets.DanglingOf | xcorphans.py:57-59 | the entries kept by the `len(matches) == 0` branch name no record |
| IdentifierSets.FileRefsOfResolving | xcorphans.py:119-124 | `build_file_ref_refs` has one `fileRef` (or None) per resolving build entry |
| IdentifierSets.ResolvingOfAppend | xcorphans.py:119-124 | the resolving entries of consecutive lists concatenate |
| IdentifierSets.DanglingOfAppend | xcorphans.py:56-59 | the dangling entries of consecutive lists concatenate |
| IdentifierSets.FileRefsOfAppend | xcorphans.py:119-124 | the collected `fileRef`s of consecutive lists concatenate |
| IdentifierSets.BuildFileOutcomes | xcorphans.py:116-125 | each build entry goes to exactly one of `build_file_ref_refs` (it resolves) and `build_not_project_source_files` (it dangles), and both keep the order of `build_file_refs` |
| IdentifierSets.BuildFileCounts | xcorphans.py:53-60 | the two outcome lists together are as long as `build_file_refs`; both are order-keeping sublists of it; an entry is dangling exactly when it does not resolve |
| IdentifierSets.FileRefsOfMembers | xcorphans.py:116-125 | `Some(x)` is in `build_file_ref_refs` exactly when some resolving build entry's record has `fileRef` x |
| IdentifierSets.AllFileRefs | xcorphans.py:112-114 | `all_file_refs` contains x exactly when some record named x is a PBXFileReference, and keeps table order |
| IdentifierSets.AllFileRefsAppend | xcorphans.py:114 | the file references of consecutive tables concatenate |
| IdentifierSets.AllFileRefsDistinct | xcorphans.py:114 | with distinct keys no file reference is listed twice |
| IdentifierSets.NotBuildFileRefsPartition | xcorphans.py:70-74 | `not_build_file_refs` is the part of `all_file_refs` that `build_file_ref_refs` does not name, and the two together cover `all_file_refs` |
| IdentifierSets.NotBuildFileRefsMeaning | xcorphans.py:70-74 | x is unbuilt exactly when it names a PBXFileReference and no resolving entry of a sources phase has `fileRef` x |
| IdentifierSets.UnbuiltRefsAreFileReferences | xcorphans.py:66 | every unbuilt reference resolves, so the `[0]` lookup never fails, and its record is a PBXFileReference |
| IdentifierSets.EnumerationSize | xcorphans.py:65-67 | iterating the set once per member gives one record per member |
| IdentifierSets.EnumerationMembers | xcorphans.py:65-67 | the records gathered by iterating the set are exactly the records of its members |
| IdentifierSets.UnbuiltFilesAreFileReferences | xcorphans.py:62-68 | in any iteration order `not_build_files` has one record per unbuilt reference, and each is a PBXFileReference |
| IdentifierSets.SourceFilesOfSpec | xcorphans.py:43-51 | the filter keeps exactly the files whose extension is a source extension, in order |
| IdentifierSets.SourceFilesOfAppend | xcorphans.py:46-50 | the filter distributes over concatenation of file lists |
| IdentifierSets.UnbuiltSourceFilesMeaning | xcorphans.py:43-51 | in any iteration order the result holds exactly the records of unbuilt references whose path has a source extension |
| PathNames.ExtensionSpec | xcorphans.py:48 | an extension contains no dot and no separator; a non-empty one is the text after the final dot of the path |
| PathNames.ExtensionOfName | xcorphans.py:48 | round trip: `stem.ext`, where the stem does not end in a dot or separator, has extension `ext` |
| PathNames.HiddenFileHasNoExtension | xcorphans.py:48 | a final component whose only dot is its first character (`.gitignore`) has no extension |
| PathNames.JoinPlainSegments | xcorphans.py:110 | `os.path.join` of non-empty segments without '/' is their '/'-separated concatenation |
| Seqs.ReverseSnoc | xcorphans.py:109 | reversing a list with one more element at the end puts that element first |
| PathResolver.ParentGroupSpec | xcorphans.py:94-97 | the enclosing-group search raises when some group lacks `children`; finds nothing only when no group lists the ref; otherwise finds the first group in table order that lists it |
| PathResolver.WalkFuelMonotone | xcorphans.py:93-107 | a walk that finishes within some number of turns finishes the same way with more |
| PathResolver.WalkDivergesIff | xcorphans.py:93-107 | the walk is still running after n turns exactly when the loop can take n turns |
| PathResolver.CycleContinues | xcorphans.py:93-107 | a walk that returns to a group it visited can go on for any number of turns |
| PathResolver.LongWalkNeverStops | xcorphans.py:93-107 | a loop that takes one more turn than the table has entries never stops |
| PathResolver.PathOfIsTheLimit | xcorphans.py:84-110 | any number of turns after which `path()` returns gives the result `PathOf` reports; when `PathOf` reports Diverges, no number of turns ends the loop |
| PathResolver.WalkStep | xcorphans.py:102-105 | at a `<group>` parent with a path, the loop moves to the parent and appends its path |
| PathResolver.WalkRoot | xcorphans.py:99-101 | at a SOURCE_ROOT parent the loop appends its path and stops with the reversed, joined path |
| PathResolver.WalkRootChain | xcorphans.py:99-110 | a chain of one root group yields the root's path followed by the collected segments |
| PathResolver.WalkUpChain | xcorphans.py:93-110 | walking up a chain of groups ending in a SOURCE_ROOT group yields the root-to-leaf join of their paths |
| PathResolver.PathThroughGroups | xcorphans.py:84-110 | round trip: a file inside a chain of named groups under a SOURCE_ROOT group resolves to the join of the groups' paths and its own; for plain segments that is their '/'-separated concatenation |
| PathResolver.PathEdgeCases | xcorphans.py:85-107 | an unknown ref and an unlisted `<group>` file give None; a non-root parent without `path` ends the walk without adding a segment |
| PathResolver.WalkWithoutParent | xcorphans.py:94-96 | at any `<group>` node of the walk, when no group lists it, `path()` returns None |
| PathResolver.WalkStopsAtPathlessGroup | xcorphans.py:102-107 | at any node of the walk, a non-root enclosing group without `path` stops it with the segments gathered so far |
| PathResolver.SelfEnclosedGroupDiverges | xcorphans.py:93-107 | below a group that lists itself as a child the loop never stops, for any number of turns |
| PathResolver.Path | xcorphans.py:84-110 | the loop of `path()` computes `PathOf` |
| Orphans.XCOrphans.constructor | xcorphans.py:19-22 | a new analyser over a loaded table holds the extensions and has no cached property |
| Orphans.XCOrphans.TargetRefs | xcorphans.py:152-155 | returns `target_refs`, caches it, and returns the cached value on later reads |
| Orphans.XCOrphans.BuildPhaseRefs | xcorphans.py:144-150 | returns `build_phase_refs`, caches it, and returns the cached value on later reads; leaves `target_refs` cached as well |
| Orphans.XCOrphans.SourceBuildPhases | xcorphans.py:135-142 | returns `source_build_phases`, caches it, and returns the cached value on later reads; leaves `build_phase_refs` cached as well |
| Orphans.XCOrphans.BuildFileRefs | xcorphans.py:127-133 | returns `build_file_refs`, caches it, and returns the cached value on later reads; leaves `source_build_phases` cached as well |
| Orphans.XCOrphans.BuildFileRefRefs | xcorphans.py:116-125 | returns `build_file_ref_refs`, caches it, and returns the cached value on later reads; leaves `build_file_refs` cached as well |
| Orphans.XCOrphans.BuildNotProjectSourceFiles | xcorphans.py:53-60 | returns `build_not_project_source_files`, caches it, and returns the cached value on later reads; leaves `build_file_refs` cached as well |
| Orphans.XCOrphans.AllFileRefs | xcorphans.py:112-114 | returns `all_file_refs`, caches it, and returns the cached value on later reads |
| Orphans.XCOrphans.NotBuildFileRefs | xcorphans.py:70-74 | returns `not_build_file_refs`, caches it, and returns the cached value on later reads; leaves `build_file_ref_refs` and `all_file_refs` cached as well |
| Orphans.XCOrphans.NotBuildFiles | xcorphans.py:62-68 | returns an enumeration of the unbuilt set's records (one per reference, each a PBXFileReference) and caches it; a list cached earlier, with its order, is returned and kept unchanged; leaves `not_build_file_refs` cached as well |
| Orphans.XCOrphans.NotBuildSourceFiles | xcorphans.py:43-51 | returns exactly the unbuilt file references whose extension is a source extension, filtered from the cached `not_build_files`; a `not_build_files` cached earlier is the one it filters and stays unchanged; returns the cached value on later reads |
| Orphans.XCOrphans.Analyse | xcorphans.py:24-29 | the two reported lists are the unbuilt source files and the dangling build entries; a `not_build_files` cached earlier stays unchanged |
| Orphans.CollectBuildPhases | xcorphans.py:146-150 | the loop computes the concatenated `buildPhases` of the targets |
| Orphans.CollectSourcePhases | xcorphans.py:137-142 | the loop computes the sources phases among the phase refs |
| Orphans.CollectFiles | xcorphans.py:129-133 | the loop computes the concatenated `files` of the phases |
| Orphans.CollectFileRefRefs | xcorphans.py:118-125 | the loop computes the `fileRef`s of the resolving entries |
| Orphans.CollectDangling | xcorphans.py:55-60 | the loop computes the entries that name no record |
| Orphans.CollectUnbuiltFiles | xcorphans.py:64-67 | over the unbuilt set every lookup finds a record and each is a PBXFileReference, one per member |
| Orphans.CollectRecords | xcorphans.py:64-68 | iterating a set looks up every member exactly once, in some order |
| Orphans.CollectSourceFiles | xcorphans.py:45-51 | the loop computes the files with a source extension |
| Orphans.AnalyseTwice | xcorphans.py:8-15 | thanks to the cache, a second analysis reports what the first did |
| Scenarios.OneFileBuildsNothing | xcorphans.py:127-133 | a project whose one target has no phases lists no build files |
| Scenarios.OneFileLookups | xcorphans.py:112-114 | its one file reference is its `all_file_refs` |
| Scenarios.OneFileUnbuiltSet | xcorphans.py:70-74 | its one file reference is unbuilt, and no entry dangles |
| Scenarios.OneFileUnbuilt | xcorphans.py:62-68 | every enumeration of the unbuilt set lists that file's record |
| Scenarios.OneFileIsADictionary | xcorphans.py:57 | the one-file project has distinct keys |
| Scenarios.OneFileHasPath | xcorphans.py:47 | its unbuilt file reference has a `path`, so `not_build_source_files` raises nothing |
| Scenarios.OneFileIsAnalysable | xcorphans.py:24-29 | the one-file project meets what the analyser asks of its input |
| Scenarios.AnalyseMinimalProject | xcorphans.py:24-29 | the analyser run on an unbuilt `Foo.swift` reports that file and no dangling entry |
| Scenarios.MinimalOrphanFindings | xcorphans.py:43-51 | an unbuilt `Foo.swift` is reported as an unbuilt source file under the default extensions |
| Scenarios.ExcludedExtensionFindings | xcorphans.py:49 | an unbuilt `Readme.txt` is unbuilt but not reported |
| Scenarios.NamedFileFilter | xcorphans.py:48-49 | a file `stem.ext` passes the filter exactly when `ext` is one of the extensions |
| Scenarios.SwiftIsSource | xcorphans.py:19 | `swift` is a default source extension |
| Scenarios.TextIsNotSource | xcorphans.py:19 | `txt` is not |
| Scenarios.DanglingEntryIsADictionary | xcorphans.py:57 | the dangling-entry project has distinct keys and no record `GONE` |
| Scenarios.DanglingEntryLookups | xcorphans.py:57 | each of its entries is what the lookup of its identifier finds |
| Scenarios.DanglingEntryPhases | xcorphans.py:144-155 | its one target lists its one phase |
| Scenarios.DanglingEntryPhaseLookup | xcorphans.py:139 | the phase ref resolves to the phase record |
| Scenarios.DanglingEntrySourcePhases | xcorphans.py:135-142 | that phase is its one sources phase |
| Scenarios.DanglingEntryBuildFiles | xcorphans.py:127-133 | the build entries are `BUILT` and `GONE` |
| Scenarios.DanglingEntryOutcomes | xcorphans.py:116-125 | `BUILT` resolves to file reference `FOO` and `GONE` dangles |
| Scenarios.DanglingEntryFileRefs | xcorphans.py:112-114 | `FOO` is its one file reference |
| Scenarios.DanglingEntryFindings | xcorphans.py:53-60 | exactly one dangling-entry finding, for `GONE`, and no unbuilt reference |
| Scenarios.NestedFileChain | xcorphans.py:94-97 | `Foo.swift` is in `Sources`, which is in the root group `App` |
| Scenarios.NestedFileLookup | xcorphans.py:85-92 | the file's record is found |
| Scenarios.NestedFileJoin | xcorphans.py:110 | the segments join to `App/Sources/Foo.swift` |
| Scenarios.NestedFilePath | xcorphans.py:84-110 | the nested file's path is `App/Sources/Foo.swift` |
| Scenarios.SelfEnclosedPath | xcorphans.py:93-107 | a file below a self-enclosing group never gets a path: the loop does not stop |

## Left out

- Loading the project file (`loadProjectFile`, xcorphans.py:36-41) is not modelled. The analyser receives the parsed table, and parse errors are not modelled.
- The command line (xcorphans.py:158-183) and the printing in `analyse` are left out because they are I/O. `Analyse` returns the two reported lists instead.
- `all_filesystem_files` (xcorphans.py:76-82) walks a hard-coded directory of the machine it was written on. It is filesystem I/O and nothing else uses it.
- Precondition where the source raises: the chain of properties from `target_refs` to `build_not_project_source_files` raises
  - on a table with no PBXProject;
  - on a missing `targets` list;
  - on a target or phase that names no record;
  - on a target without `buildPhases`;
  - on a sources phase without `files`.

  The model makes these preconditions (`TargetsResolve`, `PhasesResolve`, `FilesPresent`). A failed read is not cached, so these `requires` rule out only inputs on which the source raises.
- Precondition where the source raises: `not_build_source_files` raises a KeyError for an unbuilt file reference without `path`. The model requires `UnbuiltHavePaths` instead.
- The loop of `path()` has no cycle detection. The method stops it after |table| + 1 turns and reports `Diverges`. `PathOfIsTheLimit` and `LongWalkNeverStops` prove that the loop then never stops, so `Diverges` is a "never returns" outcome, not a behaviour of the source.
- `os.path.join` and `os.path.splitext` follow POSIX rules. Windows separators and drive letters are not modelled.
- `Seqs.Reverse`: its own contract states only the length. What the path walk needs from it is `ReverseSnoc`.
- `IdentifierSets.FileRefsOfResolving`: states only that there is one `fileRef` per resolving entry. Which `fileRef` each one is comes from `FileRefsOfMembers`.
- Python set iteration order is not determined. `not_build_files` is modelled with an arbitrary choice and a ghost record of the order taken. Every property of the result is proved for all orders.
- The `_lazy_` attribute names built from `fn.__name__` are not modelled. Each property has its own cache field instead.
- `AllFileRefs` and `NotBuildFileRefs` are comprehensions in the source, not loops. Their methods evaluate the comprehension directly.

Behaviour of the code that a reader might not expect, which the model keeps:

- A group hierarchy with a cycle is not detected. The loop of `path()` then runs for ever (`SelfEnclosedGroupDiverges`).
- A table with several PBXProject records is not rejected. The first one in table order is taken (`TargetRefs`).
- A target identifier that names no record is not skipped. The `[0]` lookup raises an IndexError, so here it is a precondition.
- A build entry that names no record is reported, and it contributes nothing to `build_file_ref_refs` (`BuildFileOutcomes`).
- A group without `children` raises a TypeError in the search for any node's parent, even when an earlier group matches. `path()` returns this as `Raised(TypeError)`.
