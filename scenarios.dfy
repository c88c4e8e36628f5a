/** Small concrete projects and what the analysis reports for each: an
    unbuilt source file, a build entry that names no record, a file whose
    extension is not a source extension, a file nested in groups, and a
    group that encloses itself. */
module Scenarios {
  import opened Wrappers
  import opened ObjectGraph
  import opened PathNames
  import opened PathResolver
  import S = IdentifierSets
  import O = Orphans

  /** A record of kind `isa` with no other field. */
  function Blank(isa: string): Record {
    Record(Some(isa), None, None, None, None, None, None, None)
  }

  const NativeTargetIsa: string := "PBXNativeTarget"
  const BuildFileIsa: string := "PBXBuildFile"

  /** A file reference laid out relative to its enclosing group. */
  function FileIn(path: string): Record {
    Blank(FileReferenceIsa).(path := Some(path), sourceTree := Some(GroupTree))
  }

  // ---------------------------------------------------------------------
  // A file no build file points at

  /** One file reference no build file points at, one target without
      build phases. */
  function OneFileProject(path: string): Objects {
    [
      ("PROJECT", Blank(ProjectIsa).(targets := Some(["TARGET"]))),
      ("TARGET", Blank(NativeTargetIsa).(buildPhases := Some([]))),
      ("FILE", FileIn(path))
    ]
  }

  /** The analysis raises nothing on this project, and no build file is
      listed. */
  lemma OneFileBuildsNothing(path: string)
    ensures S.FilesPresent(OneFileProject(path)) && S.BuildFileRefs(OneFileProject(path)) == []
  {
    var g := OneFileProject(path);
    assert g[0].0 == "PROJECT" && g[1].0 == "TARGET";
    assert S.TargetRefs(g) == Some(["TARGET"]);
    assert Lookup(g, "TARGET") == Some(g[1].1);
    assert S.PhasesOf(g, ["TARGET"]) == [];
    assert S.BuildPhaseRefs(g) == [];
    assert S.SourceBuildPhases(g) == S.SourcePhasesOf(g, []) == [];
  }

  lemma OneFileLookups(path: string)
    ensures S.AllFileRefs(OneFileProject(path)) == ["FILE"]
    ensures Lookup(OneFileProject(path), "FILE") == Some(FileIn(path))
  {
    var g := OneFileProject(path);
    assert g[0].0 != "FILE" && g[1].0 != "FILE" && g[2].0 == "FILE";
    assert g[1..][1..][1..] == [];
    assert S.AllFileRefs(g[1..][1..]) == ["FILE"];
    assert S.AllFileRefs(g[1..]) == ["FILE"];
    assert Lookup(g[1..][1..], "FILE") == Some(g[2].1);
    assert Lookup(g[1..], "FILE") == Some(g[2].1);
  }

  /** The one file reference is unbuilt, and no build entry dangles. */
  lemma OneFileUnbuiltSet(path: string)
    ensures S.FilesPresent(OneFileProject(path))
    ensures S.NotBuildFileRefs(OneFileProject(path)) == {"FILE"}
    ensures S.BuildNotProjectSourceFiles(OneFileProject(path)) == []
  {
    OneFileBuildsNothing(path);
    OneFileLookups(path);
    assert S.BuildFileRefRefs(OneFileProject(path)) == [];
  }

  /** Every enumeration of the unbuilt set lists the file's record. */
  lemma OneFileUnbuilt(path: string, order: seq<Id>, files: seq<Record>)
    requires S.FilesPresent(OneFileProject(path))
    requires S.Enumerates(OneFileProject(path), S.NotBuildFileRefs(OneFileProject(path)), order, files)
    ensures S.NotBuildFileRefs(OneFileProject(path)) == {"FILE"}
    ensures files == [FileIn(path)]
    ensures S.BuildNotProjectSourceFiles(OneFileProject(path)) == []
  {
    OneFileUnbuiltSet(path);
    OneFileLookups(path);
    S.EnumerationSize(OneFileProject(path), {"FILE"}, order, files);
    assert order[0] in {"FILE"};
  }

  lemma OneFileIsADictionary(path: string)
    ensures DistinctIds(OneFileProject(path))
  {
    var g := OneFileProject(path);
    assert g[0].0 == "PROJECT" && g[1].0 == "TARGET" && g[2].0 == "FILE";
  }

  /** The one unbuilt file reference has a path. */
  lemma OneFileHasPath(path: string)
    ensures S.UnbuiltHavePaths(OneFileProject(path))
  {
    OneFileUnbuiltSet(path);
    OneFileLookups(path);
  }

  /** The one-file project meets what the analyser asks of its input. */
  lemma OneFileIsAnalysable(path: string)
    ensures DistinctIds(OneFileProject(path)) && S.UnbuiltHavePaths(OneFileProject(path))
  {
    OneFileIsADictionary(path);
    OneFileHasPath(path);
  }

  /** The analyser itself, run on an unbuilt `Foo.swift`: it reports that
      file and no dangling entry. */
  method AnalyseMinimalProject() returns (unbuilt: seq<Record>, dangling: seq<Id>)
    ensures unbuilt == [FileIn("Foo.swift")] && dangling == []
  {
    OneFileIsAnalysable("Foo.swift");
    var analyser := new O.XCOrphans(OneFileProject("Foo.swift"), O.DefaultSourceExtensions);
    unbuilt, dangling := analyser.Analyse();
    MinimalOrphanFindings(analyser.notBuildFilesOrder, analyser.notBuildFilesCache.value);
  }

  /** An unbuilt `Foo.swift` is reported as an unbuilt source file,
      whatever order the set is enumerated in, and no build entry
      dangles. */
  lemma MinimalOrphanFindings(order: seq<Id>, files: seq<Record>)
    requires S.FilesPresent(OneFileProject("Foo.swift"))
    requires S.Enumerates(OneFileProject("Foo.swift"), S.NotBuildFileRefs(OneFileProject("Foo.swift")), order, files)
    ensures S.HasPaths(files) && S.SourceFilesOf(files, O.DefaultSourceExtensions) == [FileIn("Foo.swift")]
    ensures S.BuildNotProjectSourceFiles(OneFileProject("Foo.swift")) == []
  {
    OneFileUnbuilt("Foo.swift", order, files);
    SwiftIsSource();
  }

  /** An unbuilt `Readme.txt` is unbuilt but not a source file under the
      default extensions: nothing is reported for it. */
  lemma ExcludedExtensionFindings(order: seq<Id>, files: seq<Record>)
    requires S.FilesPresent(OneFileProject("Readme.txt"))
    requires S.Enumerates(OneFileProject("Readme.txt"), S.NotBuildFileRefs(OneFileProject("Readme.txt")), order, files)
    ensures S.NotBuildFileRefs(OneFileProject("Readme.txt")) == {"FILE"}
    ensures S.HasPaths(files) && S.SourceFilesOf(files, O.DefaultSourceExtensions) == []
  {
    OneFileUnbuilt("Readme.txt", order, files);
    TextIsNotSource();
  }

  /** A file named `stem.ext` is a source file exactly when `ext` is one
      of the extensions. */
  lemma NamedFileFilter(stem: string, ext: string, extensions: seq<string>)
    requires stem != [] && stem[|stem| - 1] != '.' && stem[|stem| - 1] != '/'
    requires '.' !in ext && '/' !in ext
    ensures S.SourceFilesOf([FileIn(stem + "." + ext)], extensions)
         == if ext in extensions then [FileIn(stem + "." + ext)] else []
  {
    ExtensionOfName(stem, ext);
  }

  /** `Foo.swift` has a default source extension. */
  lemma SwiftIsSource()
    ensures S.SourceFilesOf([FileIn("Foo.swift")], O.DefaultSourceExtensions) == [FileIn("Foo.swift")]
  {
    var stem, ext := "Foo", "swift";
    assert stem + "." + ext == "Foo.swift";
    ExtensionOfName(stem, ext);
    assert ext in O.DefaultSourceExtensions;
    var files := [FileIn("Foo.swift")];
    assert files[1..] == [];
  }

  /** `Readme.txt` does not. */
  lemma TextIsNotSource()
    ensures S.SourceFilesOf([FileIn("Readme.txt")], O.DefaultSourceExtensions) == []
  {
    NamedFileFilter("Readme", "txt", O.DefaultSourceExtensions);
    assert "Readme" + "." + "txt" == "Readme.txt";
    assert "txt" !in O.DefaultSourceExtensions;
  }

  // ---------------------------------------------------------------------
  // A build entry that names no record

  /** The sources phase lists a build file for the file at `path` and an entry
      `GONE` that no record carries. */
  function DanglingEntry(path: string): Objects {
    [
      ("PROJECT", Blank(ProjectIsa).(targets := Some(["TARGET"]))),
      ("TARGET", Blank(NativeTargetIsa).(buildPhases := Some(["PHASE"]))),
      ("PHASE", Blank(SourcesBuildPhaseIsa).(files := Some(["BUILT", "GONE"]))),
      ("BUILT", Blank(BuildFileIsa).(fileRef := Some("FOO"))),
      ("FOO", FileIn(path))
    ]
  }

  lemma DanglingEntryIsADictionary(path: string)
    ensures DistinctIds(DanglingEntry(path))
    ensures !Resolves(DanglingEntry(path), "GONE")
  {
    var g := DanglingEntry(path);
    assert g[0].0 == "PROJECT" && g[1].0 == "TARGET" && g[2].0 == "PHASE" && g[3].0 == "BUILT" && g[4].0 == "FOO";
  }

  lemma DanglingEntryLookups(path: string)
    ensures forall i :: 0 <= i < |DanglingEntry(path)| ==> Lookup(DanglingEntry(path), DanglingEntry(path)[i].0) == Some(DanglingEntry(path)[i].1)
    ensures !Resolves(DanglingEntry(path), "GONE")
  {
    DanglingEntryIsADictionary(path);
    forall i | 0 <= i < |DanglingEntry(path)|
      ensures Lookup(DanglingEntry(path), DanglingEntry(path)[i].0) == Some(DanglingEntry(path)[i].1)
    {
      LookupEntry(DanglingEntry(path), i);
    }
  }

  /** The project's one target lists the one phase. */
  lemma DanglingEntryPhases(path: string)
    ensures S.TargetsResolve(DanglingEntry(path)) && S.BuildPhaseRefs(DanglingEntry(path)) == ["PHASE"]
  {
    var g := DanglingEntry(path);
    DanglingEntryLookups(path);
    assert g[0].0 == "PROJECT" && g[1].0 == "TARGET";
    assert S.TargetRefs(g) == Some(["TARGET"]);
    assert S.PhasesOf(g, ["TARGET"]) == ["PHASE"];
  }

  /** The build chain of this project raises nothing: it yields the two
      entries of the one sources phase. */
  lemma DanglingEntryBuildFiles(path: string)
    ensures S.FilesPresent(DanglingEntry(path)) && S.BuildFileRefs(DanglingEntry(path)) == ["BUILT", "GONE"]
  {
    DanglingEntryPhases(path);
    DanglingEntrySourcePhases(path);
    assert S.FilesOf([DanglingEntry(path)[2].1]) == ["BUILT", "GONE"];
  }

  lemma DanglingEntryPhaseLookup(path: string)
    ensures Lookup(DanglingEntry(path), "PHASE") == Some(DanglingEntry(path)[2].1)
  {
    DanglingEntryIsADictionary(path);
    LookupEntry(DanglingEntry(path), 2);
  }

  /** The one phase is a sources phase. */
  lemma DanglingEntrySourcePhases(path: string)
    ensures S.PhasesResolve(DanglingEntry(path)) && S.SourceBuildPhases(DanglingEntry(path)) == [DanglingEntry(path)[2].1]
  {
    var g := DanglingEntry(path);
    DanglingEntryPhases(path);
    DanglingEntryPhaseLookup(path);
    assert ["PHASE"][1..] == [];
    assert S.SourcePhasesOf(g, ["PHASE"]) == [g[2].1] + S.SourcePhasesOf(g, []);
  }

  /** Exactly one dangling-entry finding, for `GONE`; the build file that
      resolves contributes the file's reference, which is therefore not
      unbuilt. */
  lemma DanglingEntryFindings(path: string)
    ensures S.FilesPresent(DanglingEntry(path))
    ensures S.BuildNotProjectSourceFiles(DanglingEntry(path)) == ["GONE"]
    ensures S.BuildFileRefRefs(DanglingEntry(path)) == [Some("FOO")]
    ensures S.NotBuildFileRefs(DanglingEntry(path)) == {}
  {
    DanglingEntryBuildFiles(path);
    DanglingEntryOutcomes(path);
    DanglingEntryFileRefs(path);
  }

  /** Of the two entries, `BUILT` resolves and `GONE` does not. */
  lemma DanglingEntryOutcomes(path: string)
    ensures S.DanglingOf(DanglingEntry(path), ["BUILT", "GONE"]) == ["GONE"]
    ensures S.FileRefsOf(DanglingEntry(path), ["BUILT", "GONE"]) == [Some("FOO")]
  {
    var g := DanglingEntry(path);
    DanglingEntryLookups(path);
    assert g[3].0 == "BUILT";
    assert Lookup(g, "BUILT") == Some(g[3].1);
    assert ["BUILT", "GONE"][1..] == ["GONE"];
    assert S.DanglingOf(g, ["GONE"]) == ["GONE"];
    assert S.FileRefsOf(g, ["GONE"]) == [];
  }

  lemma DanglingEntryFileRefs(path: string)
    ensures S.AllFileRefs(DanglingEntry(path)) == ["FOO"]
  {
    var g := DanglingEntry(path);
    assert g[1..][1..][1..][1..][1..] == [];
    assert S.AllFileRefs(g[1..][1..][1..][1..]) == ["FOO"];
    assert S.AllFileRefs(g[1..][1..][1..]) == ["FOO"];
    assert S.AllFileRefs(g[1..][1..]) == ["FOO"];
    assert S.AllFileRefs(g[1..]) == ["FOO"];
  }

  // ---------------------------------------------------------------------
  // A file nested in groups

  /** `Foo.swift` in group `Sources`, inside the root group `App`. */
  const NestedFile: Objects := [
    ("ROOT", Blank(GroupIsa).(path := Some("App"), sourceTree := Some(SourceRootTree), children := Some(["SOURCES"]))),
    ("SOURCES", Blank(GroupIsa).(path := Some("Sources"), sourceTree := Some(GroupTree), children := Some(["FILE"]))),
    ("FILE", FileIn("Foo.swift"))
  ]

  lemma NestedFileChain()
    ensures GroupChain(NestedFile, "FILE", ["ROOT", "SOURCES"], ["App", "Sources"])
  {
    var g := NestedFile;
    assert "FILE" !in ["SOURCES"] && "SOURCES" !in ["FILE"];
    assert ParentGroup(g[1..][1..], "FILE") == NoParent;
    assert ParentGroup(g[1..], "FILE") == Parent("SOURCES", g[1].1);
    assert ParentGroup(g, "FILE") == Parent("SOURCES", g[1].1);
    assert ParentGroup(g[1..][1..], "SOURCES") == NoParent;
    assert ParentGroup(g[1..], "SOURCES") == NoParent;
    assert ParentGroup(g, "SOURCES") == Parent("ROOT", g[0].1);
  }

  lemma NestedFileLookup()
    ensures Lookup(NestedFile, "FILE") == Some(FileIn("Foo.swift"))
  {
    var g := NestedFile;
    assert g[0].0 != "FILE" && g[1].0 != "FILE";
    assert Lookup(g[1..][1..], "FILE") == Some(g[2].1);
    assert Lookup(g[1..], "FILE") == Some(g[2].1);
  }

  lemma NestedFileJoin()
    ensures SlashJoin(["App", "Sources"] + ["Foo.swift"]) == "App/Sources/Foo.swift"
  {
    var segs: seq<string> := ["App", "Sources", "Foo.swift"];
    assert ["App", "Sources"] + ["Foo.swift"] == segs;
    assert segs[..2] == ["App", "Sources"] && segs[..2][..1] == ["App"];
  }

  /** The path is the root-to-leaf join of the segments. */
  lemma NestedFilePath()
    ensures PathOf(NestedFile, "FILE") == Joined("App/Sources/Foo.swift")
  {
    NestedFileLookup();
    NestedFileChain();
    assert forall k :: 0 <= k < 2 ==> PlainSegment(["App", "Sources"][k]);
    PathThroughGroups(NestedFile, "FILE", "Foo.swift", ["ROOT", "SOURCES"], ["App", "Sources"]);
    NestedFileJoin();
  }

  // ---------------------------------------------------------------------
  // A group that encloses itself

  const SelfEnclosed: Objects := [
    ("LOOP", Blank(GroupIsa).(path := Some("Loop"), sourceTree := Some(GroupTree), children := Some(["LOOP", "FILE"]))),
    ("FILE", FileIn("Foo.swift"))
  ]

  /** The walk never reaches a root: no fuel suffices, and PathOf reports
      that. */
  lemma SelfEnclosedPath()
    ensures PathOf(SelfEnclosed, "FILE") == Diverges
  {
    var g := SelfEnclosed;
    assert g[0].0 != "FILE";
    assert Lookup(g[1..], "FILE") == Some(g[1].1);
    assert "LOOP" in ["LOOP", "FILE"] && "FILE" in ["LOOP", "FILE"];
    assert ParentGroup(g[1..], "FILE") == NoParent;
    assert ParentGroup(g[1..], "LOOP") == NoParent;
    SelfEnclosedGroupDiverges(g, "FILE", "LOOP", "Loop");
  }
}
