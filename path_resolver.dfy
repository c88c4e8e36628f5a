/** `XCOrphans.path` (xcorphans.py): rebuild the project-relative path of a
    file reference by walking up through the PBXGroup records that list it
    among their `children`. */
module PathResolver {
  import opened Wrappers
  import opened ObjectGraph
  import opened Seqs
  import opened PathNames

  const GroupTree: string := "<group>"
  const SourceRootTree: string := "SOURCE_ROOT"

  /** The exceptions the walk can raise: a missing key read with `[]`, or
      `ref in None` on a group without `children`. */
  datatype PyError = KeyError(key: string) | TypeError

  /** What `path()` does: returns a path, returns None, raises, or never
      returns (the walk has no cycle detection). */
  datatype PathOutcome = Joined(path: string) | NoPath | Raised(error: PyError) | Diverges

  predicate ContainsChild(r: Record, ref: Id) {
    HasIsa(r, GroupIsa) && r.children.Some? && ref in r.children.value
  }

  predicate LacksChildren(r: Record) {
    HasIsa(r, GroupIsa) && r.children.None?
  }

  /** The value of the comprehension that looks for the enclosing group. */
  datatype ParentSearch = NoParent | Parent(id: Id, group: Record) | ChildrenMissing

  /** `[f for f in objects.items() if f[1].get('isa') == 'PBXGroup' and ref in f[1].get('children')]`,
      taking the first match. The comprehension scans the whole table, so
      a single group without `children` makes it raise whatever else it
      would find. */
  function ParentGroup(g: Objects, ref: Id): ParentSearch {
    if g == [] then NoParent
    else
      var rest := ParentGroup(g[1..], ref);
      if LacksChildren(g[0].1) || rest.ChildrenMissing? then ChildrenMissing
      else if ContainsChild(g[0].1, ref) then Parent(g[0].0, g[0].1)
      else rest
  }

  /** The search raises exactly when some group lacks `children`; finds
      nothing only when no group lists `ref`; and otherwise finds the
      first group in table order that lists it. */
  lemma {:induction false} ParentGroupSpec(g: Objects, ref: Id)
    ensures ParentGroup(g, ref).ChildrenMissing? <==> exists i :: 0 <= i < |g| && LacksChildren(g[i].1)
    ensures ParentGroup(g, ref).NoParent? ==> forall i :: 0 <= i < |g| ==> !ContainsChild(g[i].1, ref)
    ensures var r := ParentGroup(g, ref);
            r.Parent? ==> exists i :: 0 <= i < |g| && g[i] == (r.id, r.group) && ContainsChild(r.group, ref)
                                   && forall j :: 0 <= j < i ==> !ContainsChild(g[j].1, ref)
  {
    if g != [] {
      var rest := ParentGroup(g[1..], ref);
      ParentGroupSpec(g[1..], ref);
      assert forall i :: 1 <= i < |g| ==> g[i] == g[1..][i - 1];
      if !LacksChildren(g[0].1) && !ContainsChild(g[0].1, ref) && rest.Parent? {
        var i :| 0 <= i < |g[1..]| && g[1..][i] == (rest.id, rest.group)
                 && forall j :: 0 <= j < i ==> !ContainsChild(g[1..][j].1, ref);
        assert g[i + 1] == (rest.id, rest.group);
      }
    }
  }

  /** The walk from `ref`, whose `sourceTree` is `sourceTree`, with the
      segments gathered so far (innermost first) and at most `fuel` more
      turns of the loop; Diverges here means the loop is still running
      when the fuel is spent. */
  function Walk(g: Objects, ref: Id, sourceTree: string, segs: seq<string>, fuel: nat): PathOutcome
    requires |segs| > 0
    decreases fuel
  {
    if sourceTree != GroupTree then Joined(JoinPaths(Reverse(segs)))
    else if fuel == 0 then Diverges
    else
      match ParentGroup(g, ref)
      case ChildrenMissing => Raised(TypeError)
      case NoParent => NoPath
      case Parent(id, grp) =>
        if grp.sourceTree.None? then Raised(KeyError("sourceTree"))
        else if grp.sourceTree.value == SourceRootTree then
          if grp.path.None? then Raised(KeyError("path"))
          else Joined(JoinPaths(Reverse(segs + [grp.path.value])))
        else if grp.path.None? then Joined(JoinPaths(Reverse(segs)))
        else Walk(g, id, grp.sourceTree.value, segs + [grp.path.value], fuel - 1)
  }

  /** `path(fileRef)` allowing at most `fuel` turns of the loop. */
  function PathWithFuel(g: Objects, fileRef: Id, fuel: nat): PathOutcome {
    match Lookup(g, fileRef)
    case None => NoPath
    case Some(file) =>
      if file.sourceTree.None? then Raised(KeyError("sourceTree"))
      else if file.path.None? then Raised(KeyError("path"))
      else Walk(g, fileRef, file.sourceTree.value, [file.path.value], fuel)
  }

  /** `path(fileRef)`. One more turn than the table has entries suffices:
      see PathOfIsTheLimit. */
  function PathOf(g: Objects, fileRef: Id): PathOutcome {
    PathWithFuel(g, fileRef, |g| + 1)
  }

  // ---------------------------------------------------------------------
  // Fuel

  /** A walk that finishes within some fuel finishes the same way with more. */
  lemma {:induction false} WalkFuelMonotone(g: Objects, ref: Id, sourceTree: string, segs: seq<string>, n: nat, m: nat)
    requires |segs| > 0
    requires n <= m
    requires Walk(g, ref, sourceTree, segs, n) != Diverges
    ensures Walk(g, ref, sourceTree, segs, m) == Walk(g, ref, sourceTree, segs, n)
    decreases n
  {
    if sourceTree == GroupTree && n > 0 {
      match ParentGroup(g, ref)
      case ChildrenMissing =>
      case NoParent =>
      case Parent(id, grp) =>
        if grp.sourceTree.Some? && grp.sourceTree.value != SourceRootTree && grp.path.Some? {
          WalkFuelMonotone(g, id, grp.sourceTree.value, segs + [grp.path.value], n - 1, m - 1);
        }
    }
  }

  /** The group the loop moves to from `ref` and then keeps looping at:
      the enclosing group, when it is a `<group>` node that has a path. */
  function Next(g: Objects, ref: Id): Option<Id> {
    match ParentGroup(g, ref)
    case Parent(id, grp) =>
      if grp.sourceTree == Some(GroupTree) && grp.path.Some? then Some(id) else None
    case _ => None
  }

  /** The loop can take `n` further turns from `ref`. */
  predicate Continues(g: Objects, ref: Id, n: nat)
    decreases n
  {
    n == 0 || (Next(g, ref).Some? && Continues(g, Next(g, ref).value, n - 1))
  }

  /** The group reached after `n` turns. */
  function Iter(g: Objects, ref: Id, n: nat): Id
    requires Continues(g, ref, n)
    decreases n
  {
    if n == 0 then ref else Iter(g, Next(g, ref).value, n - 1)
  }

  /** At a `<group>` node the walk runs out of fuel exactly when the loop
      can take that many turns. */
  lemma {:induction false} WalkDivergesIff(g: Objects, ref: Id, segs: seq<string>, n: nat)
    requires |segs| > 0
    ensures Walk(g, ref, GroupTree, segs, n) == Diverges <==> Continues(g, ref, n)
    decreases n
  {
    if n > 0 {
      match ParentGroup(g, ref)
      case ChildrenMissing =>
      case NoParent =>
      case Parent(id, grp) =>
        if grp.sourceTree.Some? && grp.sourceTree.value != SourceRootTree && grp.path.Some? {
          WalkDivergesIff(g, id, segs + [grp.path.value], n - 1);
        }
    }
  }

  lemma {:induction false} ContinuesSplit(g: Objects, ref: Id, a: nat, b: nat)
    requires Continues(g, ref, a + b)
    ensures Continues(g, ref, a) && Continues(g, Iter(g, ref, a), b)
    ensures Iter(g, ref, a + b) == Iter(g, Iter(g, ref, a), b)
    decreases a
  {
    if a > 0 {
      ContinuesSplit(g, Next(g, ref).value, a - 1, b);
    }
  }

  lemma {:induction false} ContinuesJoin(g: Objects, ref: Id, a: nat, b: nat)
    requires Continues(g, ref, a) && Continues(g, Iter(g, ref, a), b)
    ensures Continues(g, ref, a + b)
    ensures Iter(g, ref, a + b) == Iter(g, Iter(g, ref, a), b)
    decreases a
  {
    if a > 0 {
      ContinuesJoin(g, Next(g, ref).value, a - 1, b);
    }
  }

  /** Every group reached after at least one turn is in the table. */
  lemma {:induction false} IterInTable(g: Objects, ref: Id, n: nat)
    requires n > 0 && Continues(g, ref, n)
    ensures Iter(g, ref, n) in Ids(g)
    decreases n
  {
    if n > 1 {
      IterInTable(g, Next(g, ref).value, n - 1);
    } else {
      var p := ParentGroup(g, ref);
      ParentGroupSpec(g, ref);
      var i :| 0 <= i < |g| && g[i] == (p.id, p.group);
      assert Ids(g)[i] == p.id;
    }
  }

  /** A walk that comes back to where it was loops for ever. */
  lemma {:induction false} CycleContinues(g: Objects, x: Id, p: nat, m: nat)
    requires p > 0 && Continues(g, x, p) && Iter(g, x, p) == x
    ensures Continues(g, x, m)
    decreases m
  {
    if m <= p {
      ContinuesSplit(g, x, m, p - m);
    } else {
      CycleContinues(g, x, p, m - p);
      ContinuesJoin(g, x, p, m - p);
    }
  }

  /** The groups visited in `n` turns from `ref`, in order. */
  function Trail(g: Objects, ref: Id, n: nat): (t: seq<Id>)
    requires Continues(g, ref, n)
    ensures |t| == n
    decreases n
  {
    if n == 0 then [] else [Next(g, ref).value] + Trail(g, Next(g, ref).value, n - 1)
  }

  lemma {:induction false} TrailAt(g: Objects, ref: Id, n: nat, k: nat)
    requires Continues(g, ref, n) && k < n
    ensures Continues(g, ref, k + 1) && Trail(g, ref, n)[k] == Iter(g, ref, k + 1)
    decreases k
  {
    var y := Next(g, ref).value;
    if k > 0 {
      TrailAt(g, y, n - 1, k - 1);
    }
  }

  lemma {:induction false} TrailInTable(g: Objects, ref: Id, n: nat)
    requires Continues(g, ref, n)
    ensures forall x :: x in Trail(g, ref, n) ==> x in Ids(g)
    decreases n
  {
    if n > 0 {
      var y := Next(g, ref).value;
      TrailInTable(g, y, n - 1);
      IterInTable(g, ref, 1);
      assert Trail(g, ref, n) == [y] + Trail(g, y, n - 1);
    }
  }

  /** Pigeonhole: a loop that can take one more turn than the table has
      entries visits some group twice, and therefore never stops. */
  lemma {:induction false} LongWalkNeverStops(g: Objects, ref: Id, m: nat)
    requires Continues(g, ref, |g| + 1)
    ensures Continues(g, ref, m)
  {
    var n := |g| + 1;
    var t := Trail(g, ref, n);
    TrailInTable(g, ref, n);
    Pigeonhole(t, Ids(g));
    var a, b :| 0 <= a < b < n && t[a] == t[b];
    TrailAt(g, ref, n, a);
    TrailAt(g, ref, n, b);
    assert Continues(g, ref, a + 1 + (b - a));
    ContinuesSplit(g, ref, a + 1, b - a);
    var x := Iter(g, ref, a + 1);
    assert Iter(g, x, b - a) == x;
    CycleContinues(g, x, b - a, m);
    ContinuesJoin(g, ref, a + 1, m);
    assert Continues(g, ref, m + (a + 1));
    ContinuesSplit(g, ref, m, a + 1);
    assert Continues(g, ref, m);
  }

  /** The bounded walk captures the unbounded loop: if `path()` returns
      after any number of turns it returns what PathOf reports, and when
      PathOf reports Diverges no number of turns is enough. */
  lemma PathOfIsTheLimit(g: Objects, fileRef: Id, n: nat)
    ensures PathWithFuel(g, fileRef, n) != Diverges ==> PathOf(g, fileRef) == PathWithFuel(g, fileRef, n)
    ensures PathOf(g, fileRef) == Diverges ==> PathWithFuel(g, fileRef, n) == Diverges
  {
    var bound := |g| + 1;
    var found := Lookup(g, fileRef);
    if found.Some? && found.value.sourceTree.Some? && found.value.path.Some? {
      var tree := found.value.sourceTree.value;
      var segs := [found.value.path.value];
      if tree == GroupTree {
        WalkDivergesIff(g, fileRef, segs, bound);
        WalkDivergesIff(g, fileRef, segs, n);
        if Continues(g, fileRef, bound) {
          LongWalkNeverStops(g, fileRef, n);
        } else if n <= bound {
          if Walk(g, fileRef, tree, segs, n) != Diverges {
            WalkFuelMonotone(g, fileRef, tree, segs, n, bound);
          }
        } else {
          WalkFuelMonotone(g, fileRef, tree, segs, bound, n);
        }
      }
    }
  }

  // ---------------------------------------------------------------------
  // What the walk computes

  /** `child`'s enclosing group is `id`, whose `path` is `seg` and whose
      `sourceTree` is `tree`. */
  predicate EnclosedBy(g: Objects, child: Id, id: Id, seg: string, tree: string) {
    var p := ParentGroup(g, child);
    p.Parent? && p.id == id && p.group.path == Some(seg) && p.group.sourceTree == Some(tree)
  }

  /** The `sourceTree` of the k-th group of a chain listed root first. */
  function ChainTree(k: nat): string {
    if k == 0 then SourceRootTree else GroupTree
  }

  /** `chain` (root first) lists the groups above `ref`: each encloses the
      next, the last encloses `ref`, the first is the SOURCE_ROOT group and
      the others are `<group>` nodes; `segs` are their paths. */
  predicate GroupChain(g: Objects, ref: Id, chain: seq<Id>, segs: seq<string>) {
    && |chain| > 0 && |segs| == |chain|
    && (forall k :: 0 <= k < |chain| - 1 ==> EnclosedBy(g, chain[k + 1], chain[k], segs[k], ChainTree(k)))
    && EnclosedBy(g, ref, chain[|chain| - 1], segs[|chain| - 1], ChainTree(|chain| - 1))
  }

  lemma WalkStep(g: Objects, ref: Id, id: Id, seg: string, acc: seq<string>, fuel: nat)
    requires EnclosedBy(g, ref, id, seg, GroupTree)
    requires |acc| > 0 && fuel > 0
    ensures Walk(g, ref, GroupTree, acc, fuel) == Walk(g, id, GroupTree, acc + [seg], fuel - 1)
  {
  }

  lemma WalkRoot(g: Objects, ref: Id, id: Id, seg: string, acc: seq<string>, fuel: nat)
    requires EnclosedBy(g, ref, id, seg, SourceRootTree)
    requires |acc| > 0 && fuel > 0
    ensures Walk(g, ref, GroupTree, acc, fuel) == Joined(JoinPaths(Reverse(acc + [seg])))
  {
  }

  lemma WalkRootChain(g: Objects, ref: Id, chain: seq<Id>, segs: seq<string>, acc: seq<string>, fuel: nat)
    requires GroupChain(g, ref, chain, segs) && |chain| == 1
    requires |acc| > 0 && fuel > 0
    ensures Walk(g, ref, GroupTree, acc, fuel) == Joined(JoinPaths(segs + Reverse(acc)))
  {
    var seg := segs[0];
    assert EnclosedBy(g, ref, chain[0], seg, SourceRootTree);
    WalkRoot(g, ref, chain[0], seg, acc, fuel);
    ReverseSnoc(acc, seg);
    assert segs == [seg];
  }

  lemma GroupChainPrefix(g: Objects, ref: Id, chain: seq<Id>, segs: seq<string>)
    requires GroupChain(g, ref, chain, segs) && |chain| > 1
    ensures GroupChain(g, chain[|chain| - 1], chain[..|chain| - 1], segs[..|chain| - 1])
  {
    var last := |chain| - 1;
    var chain', segs' := chain[..last], segs[..last];
    forall k | 0 <= k < |chain'| - 1
      ensures EnclosedBy(g, chain'[k + 1], chain'[k], segs'[k], ChainTree(k))
    {
      assert chain'[k + 1] == chain[k + 1];
    }
  }

  lemma {:induction false} WalkUpChain(g: Objects, ref: Id, chain: seq<Id>, segs: seq<string>, acc: seq<string>, fuel: nat)
    requires GroupChain(g, ref, chain, segs)
    requires |acc| > 0 && fuel >= |chain|
    ensures Walk(g, ref, GroupTree, acc, fuel) == Joined(JoinPaths(segs + Reverse(acc)))
    decreases |chain|
  {
    var last := |chain| - 1;
    ReverseSnoc(acc, segs[last]);
    if last == 0 {
      WalkRootChain(g, ref, chain, segs, acc, fuel);
    } else {
      var seg, segs', acc' := segs[last], segs[..last], acc + [segs[last]];
      WalkStep(g, ref, chain[last], seg, acc, fuel);
      GroupChainPrefix(g, ref, chain, segs);
      WalkUpChain(g, chain[last], chain[..last], segs', acc', fuel - 1);
      assert segs == segs' + [seg];
      assert Reverse(acc') == [seg] + Reverse(acc);
      assert segs' + Reverse(acc') == segs + Reverse(acc);
    }
  }

  /** Round trip: a file reference inside a chain of named groups ending at
      a SOURCE_ROOT group resolves to the root-to-leaf join of the groups'
      paths and its own, and for plain segments that is the '/'-separated
      concatenation. */
  lemma PathThroughGroups(g: Objects, fileRef: Id, leaf: string, chain: seq<Id>, segs: seq<string>)
    requires Lookup(g, fileRef).Some?
    requires Lookup(g, fileRef).value.sourceTree == Some(GroupTree)
    requires Lookup(g, fileRef).value.path == Some(leaf)
    requires GroupChain(g, fileRef, chain, segs)
    ensures PathOf(g, fileRef) == Joined(JoinPaths(segs + [leaf]))
    ensures (forall k :: 0 <= k < |segs| ==> PlainSegment(segs[k])) && PlainSegment(leaf)
        ==> PathOf(g, fileRef) == Joined(SlashJoin(segs + [leaf]))
  {
    WalkUpChain(g, fileRef, chain, segs, [leaf], |chain|);
    assert Reverse([leaf]) == [leaf];
    PathOfIsTheLimit(g, fileRef, |chain|);
    if (forall k :: 0 <= k < |segs| ==> PlainSegment(segs[k])) && PlainSegment(leaf) {
      JoinPlainSegments(segs + [leaf]);
    }
  }

  /** The edge cases: an unknown identifier and a `<group>` file that no
      group lists give None; a non-root group without `path` ends the walk
      without contributing a segment. */
  lemma PathEdgeCases(g: Objects, fileRef: Id)
    ensures !Resolves(g, fileRef) ==> PathOf(g, fileRef) == NoPath
    ensures var file := Lookup(g, fileRef);
            file.Some? && file.value.sourceTree == Some(GroupTree) && file.value.path.Some?
            ==> && (ParentGroup(g, fileRef).NoParent? ==> PathOf(g, fileRef) == NoPath)
                && (&& ParentGroup(g, fileRef).Parent?
                    && ParentGroup(g, fileRef).group.sourceTree.Some?
                    && ParentGroup(g, fileRef).group.sourceTree != Some(SourceRootTree)
                    && ParentGroup(g, fileRef).group.path.None?
                    ==> PathOf(g, fileRef) == Joined(file.value.path.value))
  {
  }

  /** At any `<group>` node of the walk, not only the file's own: when no
      group lists the node the walk returns None. */
  lemma WalkWithoutParent(g: Objects, ref: Id, acc: seq<string>, fuel: nat)
    requires |acc| > 0 && fuel > 0
    requires ParentGroup(g, ref).NoParent?
    ensures Walk(g, ref, GroupTree, acc, fuel) == NoPath
  {
  }

  /** At any `<group>` node of the walk, an enclosing group that is not a
      root and has no `path` stops the walk with the segments gathered so
      far, adding none. */
  lemma WalkStopsAtPathlessGroup(g: Objects, ref: Id, acc: seq<string>, fuel: nat)
    requires |acc| > 0 && fuel > 0
    requires ParentGroup(g, ref).Parent?
    requires ParentGroup(g, ref).group.sourceTree.Some?
    requires ParentGroup(g, ref).group.sourceTree != Some(SourceRootTree)
    requires ParentGroup(g, ref).group.path.None?
    ensures Walk(g, ref, GroupTree, acc, fuel) == Joined(JoinPaths(Reverse(acc)))
  {
  }

  /** The walk makes no attempt to detect cycles: below a group that
      encloses itself the loop never stops, and PathOf says so. */
  lemma SelfEnclosedGroupDiverges(g: Objects, fileRef: Id, group: Id, seg: string)
    requires Lookup(g, fileRef).Some?
    requires Lookup(g, fileRef).value.sourceTree == Some(GroupTree)
    requires Lookup(g, fileRef).value.path.Some?
    requires EnclosedBy(g, fileRef, group, seg, GroupTree)
    requires EnclosedBy(g, group, group, seg, GroupTree)
    ensures PathOf(g, fileRef) == Diverges
    ensures forall n :: PathWithFuel(g, fileRef, n) == Diverges
  {
    assert Next(g, group) == Some(group);
    assert Continues(g, group, 1);
    assert Iter(g, group, 1) == group;
    CycleContinues(g, group, 1, |g|);
    assert Continues(g, fileRef, |g| + 1);
    WalkDivergesIff(g, fileRef, [Lookup(g, fileRef).value.path.value], |g| + 1);
    forall n: nat
      ensures PathWithFuel(g, fileRef, n) == Diverges
    {
      PathOfIsTheLimit(g, fileRef, n);
    }
  }

  // ---------------------------------------------------------------------
  // The method

  /** `path(fileRef)`: the while loop of the source, stopped after |g| + 1
      turns, by which time PathOfIsTheLimit shows it can never stop. */
  method Path(g: Objects, fileRef: Id) returns (r: PathOutcome)
    ensures r == PathOf(g, fileRef)
  {
    var found := Lookup(g, fileRef);
    if found.None? {
      return NoPath;
    }
    var file := found.value;
    if file.sourceTree.None? {
      return Raised(KeyError("sourceTree"));
    }
    var sourceTree := file.sourceTree.value;
    var ref := fileRef;
    if file.path.None? {
      return Raised(KeyError("path"));
    }
    var path := [file.path.value];
    var turns := 0;
    while sourceTree == GroupTree
      invariant |path| > 0 && turns <= |g| + 1
      invariant Walk(g, ref, sourceTree, path, |g| + 1 - turns) == PathOf(g, fileRef)
      decreases |g| + 1 - turns
    {
      if turns == |g| + 1 {
        return Diverges;
      }
      var parent := ParentGroup(g, ref);
      if parent.ChildrenMissing? {
        return Raised(TypeError);
      }
      if parent.NoParent? {
        return NoPath;
      }
      var group := parent.group;
      if group.sourceTree.None? {
        return Raised(KeyError("sourceTree"));
      }
      sourceTree := group.sourceTree.value;
      if sourceTree == SourceRootTree {
        if group.path.None? {
          return Raised(KeyError("path"));
        }
        path := path + [group.path.value];
        break;
      }
      ref := parent.id;
      if group.path.Some? {
        path := path + [group.path.value];
      } else {
        break;
      }
      turns := turns + 1;
    }
    path := Reverse(path);
    r := Joined(JoinPaths(path));
  }
}
