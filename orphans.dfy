/** The `XCOrphans` analyser (xcorphans.py) as a class over a loaded object
    graph. Each `@lazyprop` property is a field holding `Unset` until the
    property is first read and `Cached(value)` afterwards; reading it again
    returns the stored value and changes nothing. Each method computes its
    property with the loop of the source and is proved to return the
    function of module IdentifierSets that states what the property is. */
module Orphans {
  import opened Wrappers
  import opened ObjectGraph
  import opened Seqs
  import PathNames
  import S = IdentifierSets

  /** The slot `_lazy_<name>` that `lazyprop` adds to the object: absent
      until the first read, then the value computed by that read. */
  datatype Lazy<T> = Unset | Cached(value: T)

  /** The extensions counted as source files when none are given. */
  const DefaultSourceExtensions: seq<string> := ["m", "mm", "swift"]

  class XCOrphans {
    /** `project_document.objects`, as loaded. */
    const objects: Objects
    const sourceExtensions: seq<string>

    var targetRefsCache: Lazy<Option<seq<Id>>>
    var buildPhaseRefsCache: Lazy<seq<Id>>
    var sourceBuildPhasesCache: Lazy<seq<Record>>
    var buildFileRefsCache: Lazy<seq<Id>>
    var buildFileRefRefsCache: Lazy<seq<Option<Id>>>
    var buildNotProjectSourceFilesCache: Lazy<seq<Id>>
    var allFileRefsCache: Lazy<seq<Id>>
    var notBuildFileRefsCache: Lazy<set<Id>>
    var notBuildFilesCache: Lazy<seq<Record>>
    /** The order in which the set `not_build_file_refs` was iterated when
        `not_build_files` was computed. */
    ghost var notBuildFilesOrder: seq<Id>
    var notBuildSourceFilesCache: Lazy<seq<Record>>

    /** The object table is a dictionary, and every cached value is the
        value its property denotes. */
    ghost predicate Valid()
      reads this
    {
      && DistinctIds(objects)
      && TargetRefsOk() && BuildPhaseRefsOk() && SourceBuildPhasesOk()
      && BuildFileRefsOk() && BuildFileRefRefsOk() && BuildNotProjectSourceFilesOk()
      && AllFileRefsOk() && NotBuildFileRefsOk() && NotBuildFilesOk() && NotBuildSourceFilesOk()
      && CachedInOrder()
    }

    /** A property is cached only after every property it reads: reading
        it caches those too, as `lazyprop` does for each nested read. */
    ghost predicate CachedInOrder()
      reads this`targetRefsCache, this`buildPhaseRefsCache, this`sourceBuildPhasesCache,
            this`buildFileRefsCache, this`buildFileRefRefsCache, this`buildNotProjectSourceFilesCache,
            this`allFileRefsCache, this`notBuildFileRefsCache, this`notBuildFilesCache
    {
      && (buildPhaseRefsCache.Cached? ==> targetRefsCache.Cached?)
      && (sourceBuildPhasesCache.Cached? ==> buildPhaseRefsCache.Cached?)
      && (buildFileRefsCache.Cached? ==> sourceBuildPhasesCache.Cached?)
      && (buildFileRefRefsCache.Cached? ==> buildFileRefsCache.Cached?)
      && (buildNotProjectSourceFilesCache.Cached? ==> buildFileRefsCache.Cached?)
      && (notBuildFileRefsCache.Cached? ==> buildFileRefRefsCache.Cached? && allFileRefsCache.Cached?)
      && (notBuildFilesCache.Cached? ==> notBuildFileRefsCache.Cached?)
    }

    ghost predicate TargetRefsOk()
      reads this`targetRefsCache
    {
      targetRefsCache.Cached? ==> S.HasProject(objects) && targetRefsCache.value == S.TargetRefs(objects)
    }

    ghost predicate BuildPhaseRefsOk()
      reads this`buildPhaseRefsCache
    {
      buildPhaseRefsCache.Cached? ==>
        S.TargetsResolve(objects) && buildPhaseRefsCache.value == S.BuildPhaseRefs(objects)
    }

    ghost predicate SourceBuildPhasesOk()
      reads this`sourceBuildPhasesCache
    {
      sourceBuildPhasesCache.Cached? ==>
        S.PhasesResolve(objects) && sourceBuildPhasesCache.value == S.SourceBuildPhases(objects)
    }

    ghost predicate BuildFileRefsOk()
      reads this`buildFileRefsCache
    {
      buildFileRefsCache.Cached? ==>
        S.FilesPresent(objects) && buildFileRefsCache.value == S.BuildFileRefs(objects)
    }

    ghost predicate BuildFileRefRefsOk()
      reads this`buildFileRefRefsCache
    {
      buildFileRefRefsCache.Cached? ==>
        S.FilesPresent(objects) && buildFileRefRefsCache.value == S.BuildFileRefRefs(objects)
    }

    ghost predicate BuildNotProjectSourceFilesOk()
      reads this`buildNotProjectSourceFilesCache
    {
      buildNotProjectSourceFilesCache.Cached? ==>
        S.FilesPresent(objects) && buildNotProjectSourceFilesCache.value == S.BuildNotProjectSourceFiles(objects)
    }

    ghost predicate AllFileRefsOk()
      reads this`allFileRefsCache
    {
      allFileRefsCache.Cached? ==> allFileRefsCache.value == S.AllFileRefs(objects)
    }

    ghost predicate NotBuildFileRefsOk()
      reads this`notBuildFileRefsCache
    {
      notBuildFileRefsCache.Cached? ==>
        S.FilesPresent(objects) && notBuildFileRefsCache.value == S.NotBuildFileRefs(objects)
    }

    /** The cached files are one record per unbuilt reference, listed in
        the order `notBuildFilesOrder` enumerates the set. */
    ghost predicate NotBuildFilesOk()
      reads this`notBuildFilesCache, this`notBuildFilesOrder
    {
      notBuildFilesCache.Cached? ==>
        && S.FilesPresent(objects)
        && S.Enumerates(objects, S.NotBuildFileRefs(objects), notBuildFilesOrder, notBuildFilesCache.value)
    }

    ghost predicate NotBuildSourceFilesOk()
      reads this`notBuildFilesCache, this`notBuildSourceFilesCache
    {
      notBuildSourceFilesCache.Cached? ==>
        && notBuildFilesCache.Cached?
        && S.HasPaths(notBuildFilesCache.value)
        && notBuildSourceFilesCache.value == S.SourceFilesOf(notBuildFilesCache.value, sourceExtensions)
    }

    /** `__init__` with the project already loaded: nothing is computed yet. */
    constructor (objects: Objects, sourceExtensions: seq<string>)
      requires DistinctIds(objects)
      ensures this.objects == objects && this.sourceExtensions == sourceExtensions
      ensures && targetRefsCache == Unset && buildPhaseRefsCache == Unset
              && sourceBuildPhasesCache == Unset && buildFileRefsCache == Unset
              && buildFileRefRefsCache == Unset && buildNotProjectSourceFilesCache == Unset
              && allFileRefsCache == Unset && notBuildFileRefsCache == Unset
              && notBuildFilesCache == Unset && notBuildSourceFilesCache == Unset
      ensures Valid()
    {
      this.objects := objects;
      this.sourceExtensions := sourceExtensions;
      targetRefsCache := Unset;
      buildPhaseRefsCache := Unset;
      sourceBuildPhasesCache := Unset;
      buildFileRefsCache := Unset;
      buildFileRefRefsCache := Unset;
      buildNotProjectSourceFilesCache := Unset;
      allFileRefsCache := Unset;
      notBuildFileRefsCache := Unset;
      notBuildFilesCache := Unset;
      notBuildFilesOrder := [];
      notBuildSourceFilesCache := Unset;
    }

    /** `target_refs`, computed on first read: the `targets` of the first
        PBXProject record. */
    method TargetRefs() returns (r: Option<seq<Id>>)
      requires Valid() && S.HasProject(objects)
      modifies this`targetRefsCache
      ensures Valid()
      ensures r == S.TargetRefs(objects) && targetRefsCache == Cached(r)
      ensures old(targetRefsCache).Cached? ==> r == old(targetRefsCache).value
    {
      if targetRefsCache.Cached? {
        return targetRefsCache.value;
      }
      var project := FirstOfIsa(objects, ProjectIsa).value;
      r := project.targets;
      targetRefsCache := Cached(r);
    }

    /** `build_phase_refs`, computed on first read. */
    method BuildPhaseRefs() returns (r: seq<Id>)
      requires Valid() && S.TargetsResolve(objects)
      modifies this`targetRefsCache, this`buildPhaseRefsCache
      ensures Valid()
      ensures r == S.BuildPhaseRefs(objects) && buildPhaseRefsCache == Cached(r)
      ensures old(buildPhaseRefsCache).Cached? ==> r == old(buildPhaseRefsCache).value
      ensures targetRefsCache.Cached?
    {
      if buildPhaseRefsCache.Cached? {
        return buildPhaseRefsCache.value;
      }
      var targets := TargetRefs();
      r := CollectBuildPhases(objects, targets.value);
      buildPhaseRefsCache := Cached(r);
    }

    /** `source_build_phases`, computed on first read. */
    method SourceBuildPhases() returns (r: seq<Record>)
      requires Valid() && S.PhasesResolve(objects)
      modifies this`targetRefsCache, this`buildPhaseRefsCache, this`sourceBuildPhasesCache
      ensures Valid()
      ensures r == S.SourceBuildPhases(objects) && sourceBuildPhasesCache == Cached(r)
      ensures old(sourceBuildPhasesCache).Cached? ==> r == old(sourceBuildPhasesCache).value
      ensures buildPhaseRefsCache.Cached?
    {
      if sourceBuildPhasesCache.Cached? {
        return sourceBuildPhasesCache.value;
      }
      var phaseRefs := BuildPhaseRefs();
      r := CollectSourcePhases(objects, phaseRefs);
      sourceBuildPhasesCache := Cached(r);
    }

    /** `build_file_refs`, computed on first read. */
    method BuildFileRefs() returns (r: seq<Id>)
      requires Valid() && S.FilesPresent(objects)
      modifies this`targetRefsCache, this`buildPhaseRefsCache, this`sourceBuildPhasesCache,
               this`buildFileRefsCache
      ensures Valid()
      ensures r == S.BuildFileRefs(objects) && buildFileRefsCache == Cached(r)
      ensures old(buildFileRefsCache).Cached? ==> r == old(buildFileRefsCache).value
      ensures sourceBuildPhasesCache.Cached?
    {
      if buildFileRefsCache.Cached? {
        return buildFileRefsCache.value;
      }
      var phases := SourceBuildPhases();
      r := CollectFiles(phases);
      buildFileRefsCache := Cached(r);
    }

    /** `build_file_ref_refs`, computed on first read. */
    method BuildFileRefRefs() returns (r: seq<Option<Id>>)
      requires Valid() && S.FilesPresent(objects)
      modifies this`targetRefsCache, this`buildPhaseRefsCache, this`sourceBuildPhasesCache,
               this`buildFileRefsCache, this`buildFileRefRefsCache
      ensures Valid()
      ensures r == S.BuildFileRefRefs(objects) && buildFileRefRefsCache == Cached(r)
      ensures old(buildFileRefRefsCache).Cached? ==> r == old(buildFileRefRefsCache).value
      ensures buildFileRefsCache.Cached?
    {
      if buildFileRefRefsCache.Cached? {
        return buildFileRefRefsCache.value;
      }
      var refs := BuildFileRefs();
      r := CollectFileRefRefs(objects, refs);
      buildFileRefRefsCache := Cached(r);
    }

    /** `build_not_project_source_files`, computed on first read. */
    method BuildNotProjectSourceFiles() returns (r: seq<Id>)
      requires Valid() && S.FilesPresent(objects)
      modifies this`targetRefsCache, this`buildPhaseRefsCache, this`sourceBuildPhasesCache,
               this`buildFileRefsCache, this`buildNotProjectSourceFilesCache
      ensures Valid()
      ensures r == S.BuildNotProjectSourceFiles(objects) && buildNotProjectSourceFilesCache == Cached(r)
      ensures old(buildNotProjectSourceFilesCache).Cached? ==> r == old(buildNotProjectSourceFilesCache).value
      ensures buildFileRefsCache.Cached?
    {
      if buildNotProjectSourceFilesCache.Cached? {
        return buildNotProjectSourceFilesCache.value;
      }
      var refs := BuildFileRefs();
      r := CollectDangling(objects, refs);
      buildNotProjectSourceFilesCache := Cached(r);
    }

    /** `all_file_refs`, computed on first read. */
    method AllFileRefs() returns (r: seq<Id>)
      requires Valid()
      modifies this`allFileRefsCache
      ensures Valid()
      ensures r == S.AllFileRefs(objects) && allFileRefsCache == Cached(r)
      ensures old(allFileRefsCache).Cached? ==> r == old(allFileRefsCache).value
    {
      if allFileRefsCache.Cached? {
        return allFileRefsCache.value;
      }
      r := S.AllFileRefs(objects);
      allFileRefsCache := Cached(r);
    }

    /** `not_build_file_refs`, computed on first read: the file references
        no build-file entry points at. */
    method NotBuildFileRefs() returns (r: set<Id>)
      requires Valid() && S.FilesPresent(objects)
      modifies this`targetRefsCache, this`buildPhaseRefsCache, this`sourceBuildPhasesCache,
               this`buildFileRefsCache, this`buildFileRefRefsCache, this`allFileRefsCache,
               this`notBuildFileRefsCache
      ensures Valid()
      ensures r == S.NotBuildFileRefs(objects) && notBuildFileRefsCache == Cached(r)
      ensures old(notBuildFileRefsCache).Cached? ==> r == old(notBuildFileRefsCache).value
      ensures buildFileRefRefsCache.Cached? && allFileRefsCache.Cached?
    {
      if notBuildFileRefsCache.Cached? {
        return notBuildFileRefsCache.value;
      }
      var built := BuildFileRefRefs();
      var all := AllFileRefs();
      r := set x | x in all && Some(x) !in built;
      notBuildFileRefsCache := Cached(r);
    }

    /** `not_build_files`, computed on first read: the record of every
        unbuilt file reference, in the order the set is iterated; each is
        a PBXFileReference, and there is one per unbuilt reference. */
    method NotBuildFiles() returns (r: seq<Record>)
      requires Valid() && S.FilesPresent(objects)
      modifies this`targetRefsCache, this`buildPhaseRefsCache, this`sourceBuildPhasesCache,
               this`buildFileRefsCache, this`buildFileRefRefsCache, this`allFileRefsCache,
               this`notBuildFileRefsCache, this`notBuildFilesCache, this`notBuildFilesOrder
      ensures Valid()
      ensures S.Enumerates(objects, S.NotBuildFileRefs(objects), notBuildFilesOrder, r)
      ensures notBuildFilesCache == Cached(r)
      ensures |r| == |S.NotBuildFileRefs(objects)|
      ensures forall k :: 0 <= k < |r| ==> HasIsa(r[k], FileReferenceIsa)
      ensures old(notBuildFilesCache).Cached? ==> r == old(notBuildFilesCache).value
      ensures old(notBuildFilesCache).Cached?
              ==> notBuildFilesCache == old(notBuildFilesCache) && notBuildFilesOrder == old(notBuildFilesOrder)
      ensures notBuildFileRefsCache.Cached?
    {
      if notBuildFilesCache.Cached? {
        r := notBuildFilesCache.value;
        S.UnbuiltFilesAreFileReferences(objects, notBuildFilesOrder, r);
        return;
      }
      var refs := NotBuildFileRefs();
      ghost var order;
      r, order := CollectUnbuiltFiles(objects, refs);
      assert notBuildSourceFilesCache == Unset;
      notBuildFilesCache := Cached(r);
      notBuildFilesOrder := order;
      assert NotBuildFilesOk() && NotBuildSourceFilesOk() && CachedInOrder();
    }

    /** `not_build_source_files`, computed on first read: the unbuilt files
        whose extension is one of `sourceExtensions`, in the order of
        `not_build_files`. */
    method NotBuildSourceFiles() returns (r: seq<Record>)
      requires Valid() && S.UnbuiltHavePaths(objects)
      modifies this`targetRefsCache, this`buildPhaseRefsCache, this`sourceBuildPhasesCache,
               this`buildFileRefsCache, this`buildFileRefRefsCache, this`allFileRefsCache,
               this`notBuildFileRefsCache, this`notBuildFilesCache, this`notBuildFilesOrder,
               this`notBuildSourceFilesCache
      ensures Valid()
      ensures notBuildFilesCache.Cached? && S.HasPaths(notBuildFilesCache.value)
      ensures r == S.SourceFilesOf(notBuildFilesCache.value, sourceExtensions)
      ensures notBuildSourceFilesCache == Cached(r)
      ensures forall f :: f in r ==> exists x :: x in S.NotBuildFileRefs(objects) && Lookup(objects, x) == Some(f)
                                            && S.IsSourceFile(f, sourceExtensions)
      ensures forall x :: x in S.NotBuildFileRefs(objects) && S.IsSourceFile(Lookup(objects, x).value, sourceExtensions)
                      ==> Lookup(objects, x).value in r
      ensures old(notBuildSourceFilesCache).Cached? ==> r == old(notBuildSourceFilesCache).value
      ensures old(notBuildFilesCache).Cached?
              ==> notBuildFilesCache == old(notBuildFilesCache) && notBuildFilesOrder == old(notBuildFilesOrder)
    {
      if notBuildSourceFilesCache.Cached? {
        r := notBuildSourceFilesCache.value;
        S.UnbuiltSourceFilesMeaning(objects, notBuildFilesOrder, notBuildFilesCache.value, sourceExtensions);
        return;
      }
      var files := NotBuildFiles();
      S.UnbuiltSourceFilesMeaning(objects, notBuildFilesOrder, files, sourceExtensions);
      r := CollectSourceFiles(files, sourceExtensions);
      notBuildSourceFilesCache := Cached(r);
    }

    /** `analyse` without the printing: the unbuilt source files, then the
        build entries that name no record, as the two loops report them. */
    method Analyse() returns (unbuilt: seq<Record>, dangling: seq<Id>)
      requires Valid() && S.UnbuiltHavePaths(objects)
      modifies this`targetRefsCache, this`buildPhaseRefsCache, this`sourceBuildPhasesCache,
               this`buildFileRefsCache, this`buildFileRefRefsCache, this`allFileRefsCache,
               this`notBuildFileRefsCache, this`notBuildFilesCache, this`notBuildFilesOrder,
               this`notBuildSourceFilesCache, this`buildNotProjectSourceFilesCache
      ensures Valid()
      ensures notBuildSourceFilesCache == Cached(unbuilt)
      ensures buildNotProjectSourceFilesCache == Cached(dangling)
      ensures forall f :: f in unbuilt ==> exists x :: x in S.NotBuildFileRefs(objects) && Lookup(objects, x) == Some(f)
                                                  && S.IsSourceFile(f, sourceExtensions)
      ensures forall x :: x in S.NotBuildFileRefs(objects) && S.IsSourceFile(Lookup(objects, x).value, sourceExtensions)
                      ==> Lookup(objects, x).value in unbuilt
      ensures dangling == S.BuildNotProjectSourceFiles(objects)
      ensures old(notBuildSourceFilesCache).Cached? ==> unbuilt == old(notBuildSourceFilesCache).value
      ensures old(notBuildFilesCache).Cached?
              ==> notBuildFilesCache == old(notBuildFilesCache) && notBuildFilesOrder == old(notBuildFilesOrder)
    {
      unbuilt := NotBuildSourceFiles();
      dangling := BuildNotProjectSourceFiles();
    }
  }

  // ---------------------------------------------------------------------
  // The loops of the properties, each proved to compute its specification

  /** The loop of `build_phase_refs`: extend by each target's `buildPhases`. */
  method CollectBuildPhases(g: Objects, targetRefs: seq<Id>) returns (r: seq<Id>)
    requires S.AllHavePhases(g, targetRefs)
    ensures r == S.PhasesOf(g, targetRefs)
  {
    r := [];
    for i := 0 to |targetRefs|
      invariant S.AllHavePhases(g, targetRefs[..i])
      invariant r == S.PhasesOf(g, targetRefs[..i])
    {
      var target := Lookup(g, targetRefs[i]).value;
      assert targetRefs[..i + 1] == targetRefs[..i] + [targetRefs[i]];
      S.PhasesOfAppend(g, targetRefs[..i], [targetRefs[i]]);
      r := r + target.buildPhases.value;
    }
    assert targetRefs[..|targetRefs|] == targetRefs;
  }

  /** The loop of `source_build_phases`: keep the phases whose `isa` is
      PBXSourcesBuildPhase. */
  method CollectSourcePhases(g: Objects, phaseRefs: seq<Id>) returns (r: seq<Record>)
    requires S.AllResolve(g, phaseRefs)
    ensures r == S.SourcePhasesOf(g, phaseRefs)
  {
    r := [];
    for i := 0 to |phaseRefs|
      invariant S.AllResolve(g, phaseRefs[..i])
      invariant r == S.SourcePhasesOf(g, phaseRefs[..i])
    {
      var phase := Lookup(g, phaseRefs[i]).value;
      assert phaseRefs[..i + 1] == phaseRefs[..i] + [phaseRefs[i]];
      S.SourcePhasesOfAppend(g, phaseRefs[..i], [phaseRefs[i]]);
      if HasIsa(phase, SourcesBuildPhaseIsa) {
        r := r + [phase];
      }
    }
    assert phaseRefs[..|phaseRefs|] == phaseRefs;
  }

  /** The loop of `build_file_refs`: extend by each phase's `files`. */
  method CollectFiles(phases: seq<Record>) returns (r: seq<Id>)
    requires S.AllHaveFiles(phases)
    ensures r == S.FilesOf(phases)
  {
    r := [];
    for i := 0 to |phases|
      invariant S.AllHaveFiles(phases[..i])
      invariant r == S.FilesOf(phases[..i])
    {
      var fileRefs := phases[i].files.value;
      assert phases[..i + 1] == phases[..i] + [phases[i]];
      S.FilesOfAppend(phases[..i], [phases[i]]);
      r := r + fileRefs;
    }
    assert phases[..|phases|] == phases;
  }

  /** The loop of `build_file_ref_refs`: the `fileRef` of each entry that
      names a record. */
  method CollectFileRefRefs(g: Objects, refs: seq<Id>) returns (r: seq<Option<Id>>)
    ensures r == S.FileRefsOf(g, refs)
  {
    r := [];
    for i := 0 to |refs|
      invariant r == S.FileRefsOf(g, refs[..i])
    {
      var matches := Lookup(g, refs[i]);
      assert refs[..i + 1] == refs[..i] + [refs[i]];
      S.FileRefsOfAppend(g, refs[..i], [refs[i]]);
      if matches.Some? {
        r := r + [matches.value.fileRef];
      }
    }
    assert refs[..|refs|] == refs;
  }

  /** The loop of `build_not_project_source_files`: the entries that name
      no record. */
  method CollectDangling(g: Objects, refs: seq<Id>) returns (r: seq<Id>)
    ensures r == S.DanglingOf(g, refs)
  {
    r := [];
    for i := 0 to |refs|
      invariant r == S.DanglingOf(g, refs[..i])
    {
      var matches := Lookup(g, refs[i]);
      assert refs[..i + 1] == refs[..i] + [refs[i]];
      S.DanglingOfAppend(g, refs[..i], [refs[i]]);
      if matches.None? {
        r := r + [refs[i]];
      }
    }
    assert refs[..|refs|] == refs;
  }

  /** The loop of `not_build_files`: iterate the set in some order and
      look each member up; `order` records the order taken. */
  method CollectRecords(g: Objects, refs: set<Id>) returns (r: seq<Record>, ghost order: seq<Id>)
    requires forall x :: x in refs ==> Resolves(g, x)
    ensures S.Enumerates(g, refs, order, r)
  {
    var rest := refs;
    order := [];
    r := [];
    while rest != {}
      invariant rest <= refs
      invariant S.Enumerates(g, refs - rest, order, r)
      decreases |rest|
    {
      var ref :| ref in rest;
      var file := Lookup(g, ref).value;
      r := r + [file];
      order := order + [ref];
      rest := rest - {ref};
    }
    assert refs - rest == refs;
  }

  /** `not_build_files` over the unbuilt set: every member resolves, so
      each lookup of the loop finds a record, and each record found is a
      PBXFileReference. */
  method CollectUnbuiltFiles(g: Objects, refs: set<Id>) returns (r: seq<Record>, ghost order: seq<Id>)
    requires DistinctIds(g) && S.FilesPresent(g) && refs == S.NotBuildFileRefs(g)
    ensures S.Enumerates(g, refs, order, r)
    ensures |r| == |refs|
    ensures forall k :: 0 <= k < |r| ==> HasIsa(r[k], FileReferenceIsa)
  {
    forall x | x in refs
      ensures Resolves(g, x)
    {
      S.UnbuiltRefsAreFileReferences(g, x);
    }
    r, order := CollectRecords(g, refs);
    S.UnbuiltFilesAreFileReferences(g, order, r);
  }

  /** The loop of `not_build_source_files`: keep the files whose
      extension is one of `extensions`. */
  method CollectSourceFiles(files: seq<Record>, extensions: seq<string>) returns (r: seq<Record>)
    requires S.HasPaths(files)
    ensures r == S.SourceFilesOf(files, extensions)
  {
    r := [];
    for i := 0 to |files|
      invariant S.HasPaths(files[..i])
      invariant r == S.SourceFilesOf(files[..i], extensions)
    {
      var file := files[i];
      var path := file.path.value;
      var extension := PathNames.Extension(path);
      assert files[..i + 1] == files[..i] + [file];
      assert S.SourceFilesOf([file], extensions) == if extension in extensions then [file] else [];
      S.SourceFilesOfAppend(files[..i], [file], extensions);
      if extension in extensions {
        r := r + [file];
      }
    }
    assert files[..|files|] == files;
  }

  /** Idempotence: analysing the same project twice reports the same
      findings, the second time from the cache. */
  method AnalyseTwice(objects: Objects, extensions: seq<string>)
      returns (first: (seq<Record>, seq<Id>), second: (seq<Record>, seq<Id>))
    requires DistinctIds(objects) && S.UnbuiltHavePaths(objects)
    ensures first == second
    ensures first.1 == S.BuildNotProjectSourceFiles(objects)
  {
    var analyser := new XCOrphans(objects, extensions);
    var unbuilt, dangling := analyser.Analyse();
    first := (unbuilt, dangling);
    unbuilt, dangling := analyser.Analyse();
    second := (unbuilt, dangling);
  }
}
