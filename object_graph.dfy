/** The project descriptor's object graph: the `objects` table of an Xcode
    project file, an ordered mapping from identifier to record. Only the
    fields the analysis reads are modelled; every one may be missing. */
module ObjectGraph {
  import opened Wrappers

  /** An opaque object identifier (the 24-character keys of the table). */
  type Id = string

  /** One record of the table. `isa` names its kind; a field the record
      does not carry is None, as `dict.get` reports it. */
  datatype Record = Record(
    isa: Option<string>,
    path: Option<string>,
    sourceTree: Option<string>,
    children: Option<seq<Id>>,
    files: Option<seq<Id>>,
    fileRef: Option<Id>,
    buildPhases: Option<seq<Id>>,
    targets: Option<seq<Id>>)

  /** The table in its enumeration order (`objects.items()`). */
  type Objects = seq<(Id, Record)>

  const FileReferenceIsa: string := "PBXFileReference"
  const GroupIsa: string := "PBXGroup"
  const SourcesBuildPhaseIsa: string := "PBXSourcesBuildPhase"
  const ProjectIsa: string := "PBXProject"

  /** The table is a dictionary: no identifier occurs twice. */
  predicate DistinctIds(g: Objects) {
    forall i, j :: 0 <= i < j < |g| ==> g[i].0 != g[j].0
  }

  predicate Resolves(g: Objects, id: Id) {
    exists i :: 0 <= i < |g| && g[i].0 == id
  }

  predicate HasIsa(r: Record, tag: string) {
    r.isa == Some(tag)
  }

  /** The identifiers of the table, in its order. */
  function Ids(g: Objects): (r: seq<Id>)
    ensures |r| == |g|
    ensures forall i :: 0 <= i < |g| ==> r[i] == g[i].0
  {
    if g == [] then [] else [g[0].0] + Ids(g[1..])
  }

  /** `[f for f in objects.items() if f[0] == id]`, taking the first match:
      the record of the first entry named `id`, or None if there is none. */
  function Lookup(g: Objects, id: Id): (r: Option<Record>)
    ensures r.Some? <==> Resolves(g, id)
    ensures r.Some? ==> exists i :: 0 <= i < |g| && g[i] == (id, r.value)
                                 && forall j :: 0 <= j < i ==> g[j].0 != id
  {
    if g == [] then None
    else if g[0].0 == id then Some(g[0].1)
    else
      var r := Lookup(g[1..], id);
      assert r.Some? ==> exists i :: 1 <= i < |g| && g[i] == (id, r.value)
                                 && forall j :: 0 <= j < i ==> g[j].0 != id by {
        if r.Some? {
          var i :| 0 <= i < |g[1..]| && g[1..][i] == (id, r.value)
                   && forall j :: 0 <= j < i ==> g[1..][j].0 != id;
          assert g[i + 1] == (id, r.value);
          assert forall j :: 1 <= j < i + 1 ==> g[j].0 == g[1..][j - 1].0;
        }
      }
      r
  }

  /** In a table with distinct identifiers every entry is what the lookup
      of its own identifier finds. */
  lemma {:induction false} LookupEntry(g: Objects, i: nat)
    requires DistinctIds(g)
    requires i < |g|
    ensures Lookup(g, g[i].0) == Some(g[i].1)
  {
    var r := Lookup(g, g[i].0);
    var k :| 0 <= k < |g| && g[k] == (g[i].0, r.value)
             && forall j :: 0 <= j < k ==> g[j].0 != g[i].0;
    assert k == i;
  }

  /** `[f for f in objects.items() if f[1].get('isa') == tag][0][1]`:
      the first record of kind `tag`, or None if there is none. */
  function FirstOfIsa(g: Objects, tag: string): (r: Option<Record>)
    ensures r.Some? <==> exists i :: 0 <= i < |g| && HasIsa(g[i].1, tag)
    ensures r.Some? ==> exists i :: 0 <= i < |g| && g[i].1 == r.value && HasIsa(r.value, tag)
                                 && forall j :: 0 <= j < i ==> !HasIsa(g[j].1, tag)
  {
    if g == [] then None
    else if HasIsa(g[0].1, tag) then Some(g[0].1)
    else
      var r := FirstOfIsa(g[1..], tag);
      assert r.Some? ==> exists i :: 1 <= i < |g| && g[i].1 == r.value && HasIsa(r.value, tag)
                                 && forall j :: 0 <= j < i ==> !HasIsa(g[j].1, tag) by {
        if r.Some? {
          var i :| 0 <= i < |g[1..]| && g[1..][i].1 == r.value && HasIsa(r.value, tag)
                   && forall j :: 0 <= j < i ==> !HasIsa(g[1..][j].1, tag);
          assert g[i + 1].1 == r.value;
          assert forall j :: 1 <= j < i + 1 ==> g[j].1 == g[1..][j - 1].1;
        }
      }
      assert (exists i :: 0 <= i < |g| && HasIsa(g[i].1, tag))
         ==> exists i :: 0 <= i < |g[1..]| && HasIsa(g[1..][i].1, tag) by {
        if exists i :: 0 <= i < |g| && HasIsa(g[i].1, tag) {
          var i :| 0 <= i < |g| && HasIsa(g[i].1, tag);
          assert g[1..][i - 1] == g[i];
        }
      }
      r
  }
}
