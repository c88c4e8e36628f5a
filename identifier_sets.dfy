/** The derived identifier lists and sets of `XCOrphans` (xcorphans.py),
    each a function of the object graph. The loops that compute them, and
    the cache that holds them, are in module Orphans; this module states
    what each result is and proves what the analysis relies on. */
module IdentifierSets {
  import opened Wrappers
  import opened ObjectGraph
  import opened Seqs
  import opened PathNames

  // ---------------------------------------------------------------------
  // target_refs

  predicate HasProject(g: Objects) {
    exists i :: 0 <= i < |g| && HasIsa(g[i].1, ProjectIsa)
  }

  /** The `targets` field of the first PBXProject record (None if that
      record has no such field). */
  function TargetRefs(g: Objects): (r: Option<seq<Id>>)
    requires HasProject(g)
    ensures exists i :: 0 <= i < |g| && HasIsa(g[i].1, ProjectIsa) && r == g[i].1.targets
                     && forall j :: 0 <= j < i ==> !HasIsa(g[j].1, ProjectIsa)
  {
    FirstOfIsa(g, ProjectIsa).value.targets
  }

  // ---------------------------------------------------------------------
  // build_phase_refs

  /** Target `t` resolves and carries a `buildPhases` list. */
  predicate HasPhases(g: Objects, t: Id) {
    Lookup(g, t).Some? && Lookup(g, t).value.buildPhases.Some?
  }

  predicate AllHavePhases(g: Objects, targets: seq<Id>) {
    forall k :: 0 <= k < |targets| ==> HasPhases(g, targets[k])
  }

  /** The conditions under which `build_phase_refs` raises nothing: a
      project record with a `targets` list whose every target resolves
      and has `buildPhases`. */
  predicate TargetsResolve(g: Objects) {
    && HasProject(g)
    && TargetRefs(g).Some?
    && AllHavePhases(g, TargetRefs(g).value)
  }

  function PhasesOf(g: Objects, targets: seq<Id>): seq<Id>
    requires AllHavePhases(g, targets)
  {
    if targets == [] then []
    else Lookup(g, targets[0]).value.buildPhases.value + PhasesOf(g, targets[1..])
  }

  /** The phases of consecutive target lists are the phases of the first
      followed by those of the second. */
  lemma {:induction false} PhasesOfAppend(g: Objects, a: seq<Id>, b: seq<Id>)
    requires AllHavePhases(g, a) && AllHavePhases(g, b) && AllHavePhases(g, a + b)
    ensures PhasesOf(g, a + b) == PhasesOf(g, a) + PhasesOf(g, b)
  {
    if a == [] {
      assert a + b == b;
    } else {
      assert (a + b)[0] == a[0];
      assert (a + b)[1..] == a[1..] + b;
      PhasesOfAppend(g, a[1..], b);
    }
  }

  /** A phase id occurs in the result exactly when it occurs in the
      `buildPhases` of one of the targets. */
  lemma {:induction false} PhasesOfMembers(g: Objects, targets: seq<Id>, p: Id)
    requires AllHavePhases(g, targets)
    ensures p in PhasesOf(g, targets)
        <==> exists k :: 0 <= k < |targets| && p in Lookup(g, targets[k]).value.buildPhases.value
  {
    if targets != [] {
      PhasesOfMembers(g, targets[1..], p);
      assert forall k :: 1 <= k < |targets| ==> targets[k] == targets[1..][k - 1];
      if p in Lookup(g, targets[0]).value.buildPhases.value {
      } else if exists k :: 0 <= k < |targets| && p in Lookup(g, targets[k]).value.buildPhases.value {
        var k :| 0 <= k < |targets| && p in Lookup(g, targets[k]).value.buildPhases.value;
        assert k > 0;
        assert p in Lookup(g, targets[1..][k - 1]).value.buildPhases.value;
      }
    }
  }

  function BuildPhaseRefs(g: Objects): seq<Id>
    requires TargetsResolve(g)
  {
    PhasesOf(g, TargetRefs(g).value)
  }

  // ---------------------------------------------------------------------
  // source_build_phases

  predicate AllResolve(g: Objects, ids: seq<Id>) {
    forall k :: 0 <= k < |ids| ==> Resolves(g, ids[k])
  }

  /** The records the identifiers name, one per identifier. */
  function RecordsOf(g: Objects, ids: seq<Id>): (r: seq<Record>)
    requires AllResolve(g, ids)
    ensures |r| == |ids|
    ensures forall k :: 0 <= k < |ids| ==> Some(r[k]) == Lookup(g, ids[k])
  {
    if ids == [] then [] else [Lookup(g, ids[0]).value] + RecordsOf(g, ids[1..])
  }

  /** The PBXSourcesBuildPhase records among those `phaseRefs` names, in
      the order of `phaseRefs`. */
  function SourcePhasesOf(g: Objects, phaseRefs: seq<Id>): seq<Record>
    requires AllResolve(g, phaseRefs)
  {
    if phaseRefs == [] then []
    else
      var ph := Lookup(g, phaseRefs[0]).value;
      var rest := SourcePhasesOf(g, phaseRefs[1..]);
      if HasIsa(ph, SourcesBuildPhaseIsa) then [ph] + rest else rest
  }

  /** The filter keeps every sources phase and nothing else, without
      reordering. */
  lemma {:induction false} SourcePhasesOfSpec(g: Objects, phaseRefs: seq<Id>)
    requires AllResolve(g, phaseRefs)
    ensures forall ph :: ph in SourcePhasesOf(g, phaseRefs) ==> HasIsa(ph, SourcesBuildPhaseIsa)
    ensures Sublist(SourcePhasesOf(g, phaseRefs), RecordsOf(g, phaseRefs))
    ensures forall k :: 0 <= k < |phaseRefs| && HasIsa(Lookup(g, phaseRefs[k]).value, SourcesBuildPhaseIsa)
                    ==> Lookup(g, phaseRefs[k]).value in SourcePhasesOf(g, phaseRefs)
  {
    if phaseRefs != [] {
      var ph := Lookup(g, phaseRefs[0]).value;
      var r, rest := SourcePhasesOf(g, phaseRefs), SourcePhasesOf(g, phaseRefs[1..]);
      SourcePhasesOfSpec(g, phaseRefs[1..]);
      assert RecordsOf(g, phaseRefs) == [ph] + RecordsOf(g, phaseRefs[1..]);
      assert forall k :: 1 <= k < |phaseRefs| ==> phaseRefs[k] == phaseRefs[1..][k - 1];
      if HasIsa(ph, SourcesBuildPhaseIsa) {
        assert r == [ph] + rest && r[1..] == rest;
      }
    }
  }

  lemma {:induction false} SourcePhasesOfAppend(g: Objects, a: seq<Id>, b: seq<Id>)
    requires AllResolve(g, a) && AllResolve(g, b) && AllResolve(g, a + b)
    ensures SourcePhasesOf(g, a + b) == SourcePhasesOf(g, a) + SourcePhasesOf(g, b)
  {
    if a == [] {
      assert a + b == b;
    } else {
      assert (a + b)[0] == a[0];
      assert (a + b)[1..] == a[1..] + b;
      SourcePhasesOfAppend(g, a[1..], b);
    }
  }

  predicate PhasesResolve(g: Objects) {
    TargetsResolve(g) && AllResolve(g, BuildPhaseRefs(g))
  }

  function SourceBuildPhases(g: Objects): seq<Record>
    requires PhasesResolve(g)
  {
    SourcePhasesOf(g, BuildPhaseRefs(g))
  }

  // ---------------------------------------------------------------------
  // build_file_refs

  predicate AllHaveFiles(phases: seq<Record>) {
    forall k :: 0 <= k < |phases| ==> phases[k].files.Some?
  }

  function FilesOf(phases: seq<Record>): seq<Id>
    requires AllHaveFiles(phases)
  {
    if phases == [] then [] else phases[0].files.value + FilesOf(phases[1..])
  }

  lemma {:induction false} FilesOfAppend(a: seq<Record>, b: seq<Record>)
    requires AllHaveFiles(a) && AllHaveFiles(b) && AllHaveFiles(a + b)
    ensures FilesOf(a + b) == FilesOf(a) + FilesOf(b)
  {
    if a == [] {
      assert a + b == b;
    } else {
      assert (a + b)[0] == a[0];
      assert (a + b)[1..] == a[1..] + b;
      FilesOfAppend(a[1..], b);
    }
  }

  lemma {:induction false} FilesOfMembers(phases: seq<Record>, f: Id)
    requires AllHaveFiles(phases)
    ensures f in FilesOf(phases) <==> exists k :: 0 <= k < |phases| && f in phases[k].files.value
  {
    if phases != [] {
      FilesOfMembers(phases[1..], f);
      assert forall k :: 1 <= k < |phases| ==> phases[k] == phases[1..][k - 1];
      if f !in phases[0].files.value && exists k :: 0 <= k < |phases| && f in phases[k].files.value {
        var k :| 0 <= k < |phases| && f in phases[k].files.value;
        assert f in phases[1..][k - 1].files.value;
      }
    }
  }

  /** The conditions under which `build_file_refs` raises nothing. */
  predicate FilesPresent(g: Objects) {
    PhasesResolve(g) && AllHaveFiles(SourceBuildPhases(g))
  }

  function BuildFileRefs(g: Objects): seq<Id>
    requires FilesPresent(g)
  {
    FilesOf(SourceBuildPhases(g))
  }

  // ---------------------------------------------------------------------
  // build_file_ref_refs and build_not_project_source_files

  /** The entries of `refs` that name a record, in order. */
  function ResolvingOf(g: Objects, refs: seq<Id>): (r: seq<Id>)
    ensures AllResolve(g, r)
  {
    if refs == [] then []
    else if Resolves(g, refs[0]) then [refs[0]] + ResolvingOf(g, refs[1..])
    else ResolvingOf(g, refs[1..])
  }

  /** The entries of `refs` that name no record, in order. */
  function DanglingOf(g: Objects, refs: seq<Id>): (r: seq<Id>)
    ensures forall x :: x in r ==> !Resolves(g, x)
  {
    if refs == [] then []
    else if Resolves(g, refs[0]) then DanglingOf(g, refs[1..])
    else [refs[0]] + DanglingOf(g, refs[1..])
  }

  /** The `fileRef` field (None where missing) of the record of each
      resolving entry. */
  function FileRefsOf(g: Objects, refs: seq<Id>): seq<Option<Id>> {
    if refs == [] then []
    else if Resolves(g, refs[0]) then [Lookup(g, refs[0]).value.fileRef] + FileRefsOf(g, refs[1..])
    else FileRefsOf(g, refs[1..])
  }

  /** One `fileRef` per resolving entry. */
  lemma {:induction false} FileRefsOfResolving(g: Objects, refs: seq<Id>)
    ensures |FileRefsOf(g, refs)| == |ResolvingOf(g, refs)|
  {
    if refs != [] {
      FileRefsOfResolving(g, refs[1..]);
    }
  }

  lemma {:induction false} ResolvingOfAppend(g: Objects, a: seq<Id>, b: seq<Id>)
    ensures ResolvingOf(g, a + b) == ResolvingOf(g, a) + ResolvingOf(g, b)
  {
    if a == [] {
      assert a + b == b;
    } else {
      assert (a + b)[0] == a[0];
      assert (a + b)[1..] == a[1..] + b;
      ResolvingOfAppend(g, a[1..], b);
    }
  }

  lemma {:induction false} DanglingOfAppend(g: Objects, a: seq<Id>, b: seq<Id>)
    ensures DanglingOf(g, a + b) == DanglingOf(g, a) + DanglingOf(g, b)
  {
    if a == [] {
      assert a + b == b;
    } else {
      assert (a + b)[0] == a[0];
      assert (a + b)[1..] == a[1..] + b;
      DanglingOfAppend(g, a[1..], b);
    }
  }

  lemma {:induction false} FileRefsOfAppend(g: Objects, a: seq<Id>, b: seq<Id>)
    ensures FileRefsOf(g, a + b) == FileRefsOf(g, a) + FileRefsOf(g, b)
  {
    if a == [] {
      assert a + b == b;
    } else {
      assert (a + b)[0] == a[0];
      assert (a + b)[1..] == a[1..] + b;
      FileRefsOfAppend(g, a[1..], b);
    }
  }

  /** Every build-file entry has exactly one of the two outcomes: it
      resolves (and contributes its `fileRef`) or it dangles (and is
      reported); the two lists split `refs` without reordering it. */
  lemma {:induction false} BuildFileOutcomes(g: Objects, refs: seq<Id>)
    ensures Interleaving(refs, ResolvingOf(g, refs), DanglingOf(g, refs))
  {
    if refs != [] {
      BuildFileOutcomes(g, refs[1..]);
      if Resolves(g, refs[0]) {
        assert ResolvingOf(g, refs)[1..] == ResolvingOf(g, refs[1..]);
      } else {
        assert DanglingOf(g, refs)[1..] == DanglingOf(g, refs[1..]);
      }
    }
  }

  /** `|build_file_ref_refs| + |build_not_project_source_files| == |build_file_refs|`,
      with both lists keeping the order of `build_file_refs`. */
  lemma BuildFileCounts(g: Objects, refs: seq<Id>)
    ensures |FileRefsOf(g, refs)| + |DanglingOf(g, refs)| == |refs|
    ensures Sublist(ResolvingOf(g, refs), refs) && Sublist(DanglingOf(g, refs), refs)
    ensures forall x :: x in refs ==> (x in ResolvingOf(g, refs) <==> Resolves(g, x))
    ensures forall x :: x in refs ==> (x in DanglingOf(g, refs) <==> !Resolves(g, x))
  {
    FileRefsOfResolving(g, refs);
    BuildFileOutcomes(g, refs);
    InterleavingProperties(refs, ResolvingOf(g, refs), DanglingOf(g, refs));
  }

  /** `Some(x)` is among the collected `fileRef`s exactly when some
      resolving entry's record has `fileRef` x. */
  lemma {:induction false} FileRefsOfMembers(g: Objects, refs: seq<Id>, x: Id)
    ensures Some(x) in FileRefsOf(g, refs)
        <==> exists k :: 0 <= k < |refs| && Resolves(g, refs[k]) && Lookup(g, refs[k]).value.fileRef == Some(x)
  {
    if refs != [] {
      FileRefsOfMembers(g, refs[1..], x);
      assert forall k :: 1 <= k < |refs| ==> refs[k] == refs[1..][k - 1];
      var here := Resolves(g, refs[0]) && Lookup(g, refs[0]).value.fileRef == Some(x);
      if !here && exists k :: 0 <= k < |refs| && Resolves(g, refs[k]) && Lookup(g, refs[k]).value.fileRef == Some(x) {
        var k :| 0 <= k < |refs| && Resolves(g, refs[k]) && Lookup(g, refs[k]).value.fileRef == Some(x);
        assert k > 0 && refs[1..][k - 1] == refs[k];
      }
    }
  }

  function BuildFileRefRefs(g: Objects): seq<Option<Id>>
    requires FilesPresent(g)
  {
    FileRefsOf(g, BuildFileRefs(g))
  }

  function BuildNotProjectSourceFiles(g: Objects): seq<Id>
    requires FilesPresent(g)
  {
    DanglingOf(g, BuildFileRefs(g))
  }

  // ---------------------------------------------------------------------
  // all_file_refs

  /** The identifiers of the PBXFileReference records, in table order. */
  function AllFileRefs(g: Objects): (r: seq<Id>)
    ensures forall x :: x in r <==> exists i :: 0 <= i < |g| && g[i].0 == x && HasIsa(g[i].1, FileReferenceIsa)
    ensures Sublist(r, Ids(g))
  {
    if g == [] then []
    else
      var rest := AllFileRefs(g[1..]);
      assert Ids(g) == [g[0].0] + Ids(g[1..]);
      assert forall i :: 1 <= i < |g| ==> g[i] == g[1..][i - 1];
      if HasIsa(g[0].1, FileReferenceIsa) then
        assert ([g[0].0] + rest)[1..] == rest;
        [g[0].0] + rest
      else
        assert rest == [] || Sublist(rest, Ids(g)[1..]);
        rest
  }

  /** The file references of consecutive tables are those of the first
      followed by those of the second: the result follows table order. */
  lemma {:induction false} AllFileRefsAppend(g1: Objects, g2: Objects)
    ensures AllFileRefs(g1 + g2) == AllFileRefs(g1) + AllFileRefs(g2)
  {
    if g1 == [] {
      assert g1 + g2 == g2;
    } else {
      assert (g1 + g2)[0] == g1[0];
      assert (g1 + g2)[1..] == g1[1..] + g2;
      AllFileRefsAppend(g1[1..], g2);
    }
  }

  /** With distinct identifiers no file reference is listed twice. */
  lemma {:induction false} AllFileRefsDistinct(g: Objects)
    requires DistinctIds(g)
    ensures Distinct(AllFileRefs(g))
  {
    if g != [] {
      AllFileRefsDistinct(g[1..]);
      if HasIsa(g[0].1, FileReferenceIsa) {
        var rest := AllFileRefs(g[1..]);
        assert g[0].0 !in rest;
        assert AllFileRefs(g) == [g[0].0] + rest;
      }
    }
  }

  // ---------------------------------------------------------------------
  // not_build_file_refs

  /** `set(all_file_refs).difference(set(build_file_ref_refs))`; a None
      among the collected `fileRef`s never equals an identifier. */
  function NotBuildFileRefs(g: Objects): set<Id>
    requires FilesPresent(g)
  {
    set x | x in AllFileRefs(g) && Some(x) !in BuildFileRefRefs(g)
  }

  /** `not_build_file_refs` is a subset of `all_file_refs`, disjoint from
      `build_file_ref_refs`, and together with it covers `all_file_refs`. */
  lemma NotBuildFileRefsPartition(g: Objects)
    requires FilesPresent(g)
    ensures forall x :: x in NotBuildFileRefs(g) ==> x in AllFileRefs(g)
    ensures forall x :: x in NotBuildFileRefs(g) ==> Some(x) !in BuildFileRefRefs(g)
    ensures forall x :: x in AllFileRefs(g) ==> x in NotBuildFileRefs(g) || Some(x) in BuildFileRefRefs(g)
  {
  }

  /** What membership means in terms of the graph: x is unbuilt exactly
      when it names a PBXFileReference and no resolving entry of a
      sources build phase has `fileRef` x. */
  lemma NotBuildFileRefsMeaning(g: Objects, x: Id)
    requires FilesPresent(g) && DistinctIds(g)
    ensures x in NotBuildFileRefs(g)
        <==> && Lookup(g, x).Some? && HasIsa(Lookup(g, x).value, FileReferenceIsa)
             && forall b :: b in BuildFileRefs(g) && Resolves(g, b) ==> Lookup(g, b).value.fileRef != Some(x)
  {
    var refs := BuildFileRefs(g);
    FileRefsOfMembers(g, refs, x);
    if x in AllFileRefs(g) {
      var i :| 0 <= i < |g| && g[i].0 == x && HasIsa(g[i].1, FileReferenceIsa);
      LookupEntry(g, i);
    }
    if Lookup(g, x).Some? && HasIsa(Lookup(g, x).value, FileReferenceIsa) {
      var i :| 0 <= i < |g| && g[i] == (x, Lookup(g, x).value);
      assert x in AllFileRefs(g);
    }
    if Some(x) in BuildFileRefRefs(g) {
      var k :| 0 <= k < |refs| && Resolves(g, refs[k]) && Lookup(g, refs[k]).value.fileRef == Some(x);
      assert refs[k] in refs;
    }
  }

  /** Every unbuilt reference resolves, so the `[0]` lookup of
      `not_build_files` never fails, and it names a PBXFileReference. */
  lemma UnbuiltRefsAreFileReferences(g: Objects, x: Id)
    requires FilesPresent(g) && DistinctIds(g)
    requires x in NotBuildFileRefs(g)
    ensures Resolves(g, x)
    ensures HasIsa(Lookup(g, x).value, FileReferenceIsa)
  {
    NotBuildFileRefsMeaning(g, x);
  }

  // ---------------------------------------------------------------------
  // not_build_files and not_build_source_files

  /** `order` lists the set `refs` once each, in some order, and `files`
      holds the record of each, position by position: what iterating a
      Python set and looking each member up produces. */
  predicate Enumerates(g: Objects, refs: set<Id>, order: seq<Id>, files: seq<Record>) {
    && |order| == |files|
    && Distinct(order)
    && (forall x :: x in refs ==> x in order)
    && (forall k :: 0 <= k < |order| ==> order[k] in refs)
    && forall k :: 0 <= k < |order| ==> Lookup(g, order[k]) == Some(files[k])
  }

  /** An enumeration has one record per member of the set. */
  lemma EnumerationSize(g: Objects, refs: set<Id>, order: seq<Id>, files: seq<Record>)
    requires Enumerates(g, refs, order, files)
    ensures |files| == |refs|
  {
    DistinctCard(order);
    assert (set x | x in order) == refs;
  }

  /** An enumeration holds the record of every member of the set and
      nothing else. */
  lemma EnumerationMembers(g: Objects, refs: set<Id>, order: seq<Id>, files: seq<Record>)
    requires Enumerates(g, refs, order, files)
    ensures forall f :: f in files ==> exists x :: x in refs && Lookup(g, x) == Some(f)
    ensures forall x :: x in refs ==> Lookup(g, x).Some? && Lookup(g, x).value in files
  {
    forall f | f in files
      ensures exists x :: x in refs && Lookup(g, x) == Some(f)
    {
      var k :| 0 <= k < |files| && files[k] == f;
      assert order[k] in refs;
    }
    forall x | x in refs
      ensures Lookup(g, x).Some? && Lookup(g, x).value in files
    {
      var k :| 0 <= k < |order| && order[k] == x;
      assert files[k] in files;
    }
  }

  /** The records of an enumeration of the unbuilt references are file
      references, one per reference. */
  lemma UnbuiltFilesAreFileReferences(g: Objects, order: seq<Id>, files: seq<Record>)
    requires DistinctIds(g) && FilesPresent(g)
    requires Enumerates(g, NotBuildFileRefs(g), order, files)
    ensures |files| == |NotBuildFileRefs(g)|
    ensures forall k :: 0 <= k < |files| ==> HasIsa(files[k], FileReferenceIsa)
  {
    EnumerationSize(g, NotBuildFileRefs(g), order, files);
    forall k | 0 <= k < |files|
      ensures HasIsa(files[k], FileReferenceIsa)
    {
      UnbuiltRefsAreFileReferences(g, order[k]);
    }
  }

  /** The conditions under which `not_build_source_files` raises nothing:
      every unbuilt file reference carries a `path`. */
  predicate UnbuiltHavePaths(g: Objects) {
    && FilesPresent(g)
    && forall x :: x in NotBuildFileRefs(g) ==> Lookup(g, x).Some? && Lookup(g, x).value.path.Some?
  }

  predicate HasPaths(files: seq<Record>) {
    forall k :: 0 <= k < |files| ==> files[k].path.Some?
  }

  predicate IsSourceFile(file: Record, extensions: seq<string>)
    requires file.path.Some?
  {
    Extension(file.path.value) in extensions
  }

  /** The records among `files` whose path has one of the extensions, in
      the order of `files`. */
  function SourceFilesOf(files: seq<Record>, extensions: seq<string>): seq<Record>
    requires HasPaths(files)
  {
    if files == [] then []
    else
      var rest := SourceFilesOf(files[1..], extensions);
      if IsSourceFile(files[0], extensions) then [files[0]] + rest else rest
  }

  /** The filter keeps every source file and nothing else, without
      reordering. */
  lemma {:induction false} SourceFilesOfSpec(files: seq<Record>, extensions: seq<string>)
    requires HasPaths(files)
    ensures forall f :: f in SourceFilesOf(files, extensions) ==> f.path.Some? && IsSourceFile(f, extensions)
    ensures Sublist(SourceFilesOf(files, extensions), files)
    ensures forall k :: 0 <= k < |files| && IsSourceFile(files[k], extensions)
                    ==> files[k] in SourceFilesOf(files, extensions)
  {
    if files != [] {
      var r, rest := SourceFilesOf(files, extensions), SourceFilesOf(files[1..], extensions);
      SourceFilesOfSpec(files[1..], extensions);
      assert forall k :: 1 <= k < |files| ==> files[k] == files[1..][k - 1];
      if IsSourceFile(files[0], extensions) {
        assert r == [files[0]] + rest && r[1..] == rest;
      }
    }
  }

  lemma {:induction false} SourceFilesOfAppend(a: seq<Record>, b: seq<Record>, extensions: seq<string>)
    requires HasPaths(a) && HasPaths(b) && HasPaths(a + b)
    ensures SourceFilesOf(a + b, extensions) == SourceFilesOf(a, extensions) + SourceFilesOf(b, extensions)
  {
    if a == [] {
      assert a + b == b;
    } else {
      assert (a + b)[0] == a[0];
      assert (a + b)[1..] == a[1..] + b;
      SourceFilesOfAppend(a[1..], b, extensions);
    }
  }

  /** Whatever order the set was enumerated in, the unbuilt source files
      are exactly the records of the unbuilt file references whose path
      has a source extension. */
  lemma UnbuiltSourceFilesMeaning(g: Objects, order: seq<Id>, files: seq<Record>, extensions: seq<string>)
    requires UnbuiltHavePaths(g)
    requires Enumerates(g, NotBuildFileRefs(g), order, files)
    ensures HasPaths(files)
    ensures forall f :: f in SourceFilesOf(files, extensions)
                    ==> exists x :: x in NotBuildFileRefs(g) && Lookup(g, x) == Some(f) && IsSourceFile(f, extensions)
    ensures forall x :: x in NotBuildFileRefs(g) && IsSourceFile(Lookup(g, x).value, extensions)
                    ==> Lookup(g, x).value in SourceFilesOf(files, extensions)
  {
    var refs := NotBuildFileRefs(g);
    assert forall k :: 0 <= k < |files| ==> order[k] in refs;
    var r := SourceFilesOf(files, extensions);
    SourceFilesOfSpec(files, extensions);
    SublistProperties(r, files);
    forall f | f in r
      ensures exists x :: x in refs && Lookup(g, x) == Some(f) && IsSourceFile(f, extensions)
    {
      var k :| 0 <= k < |files| && files[k] == f;
      assert order[k] in refs && Lookup(g, order[k]) == Some(f);
    }
    forall x | x in refs && IsSourceFile(Lookup(g, x).value, extensions)
      ensures Lookup(g, x).value in r
    {
      var k :| 0 <= k < |order| && order[k] == x;
    }
  }
}
