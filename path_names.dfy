/** The two POSIX path helpers the analysis calls: the extension part of
    `os.path.splitext` and `os.path.join`. */
module PathNames {

  /** `s.rfind(c)`: the index of the last `c` in `s`, or -1. */
  function LastIndexOf(s: string, c: char): (i: int)
    ensures -1 <= i < |s|
    ensures i >= 0 ==> s[i] == c
    ensures forall k :: i < k < |s| ==> s[k] != c
  {
    if s == [] then -1
    else if s[|s| - 1] == c then |s| - 1
    else LastIndexOf(s[..|s| - 1], c)
  }

  /** The last `c` of `s` is the one at `i` when none follows it. */
  lemma LastIndexAt(s: string, c: char, i: int)
    requires -1 <= i < |s|
    requires i >= 0 ==> s[i] == c
    requires forall k :: i < k < |s| ==> s[k] != c
    ensures LastIndexOf(s, c) == i
  {
  }

  predicate HasNonDot(s: string) {
    exists k :: 0 <= k < |s| && s[k] != '.'
  }

  /** `os.path.splitext(p)[1][1:]`: the text after the last dot of the
      final component, provided that dot is preceded in the component by
      something other than dots (so `.gitignore` has no extension). */
  function Extension(p: string): string {
    var sep := LastIndexOf(p, '/');
    var dot := LastIndexOf(p, '.');
    if dot > sep && HasNonDot(p[sep + 1..dot]) then p[dot + 1..] else ""
  }

  /** An extension holds no dot and no separator, and a non-empty one is
      what follows the final dot of the path. */
  lemma ExtensionSpec(p: string)
    ensures '.' !in Extension(p) && '/' !in Extension(p)
    ensures var ext := Extension(p);
            ext != "" ==> |ext| < |p| && p[|p| - |ext| - 1] == '.' && p[|p| - |ext|..] == ext
  {
    var sep := LastIndexOf(p, '/');
    var dot := LastIndexOf(p, '.');
    if dot > sep && HasNonDot(p[sep + 1..dot]) {
      var ext := p[dot + 1..];
      assert forall k :: 0 <= k < |ext| ==> ext[k] == p[dot + 1 + k] && ext[k] != '.' && ext[k] != '/';
    }
  }

  /** Round trip: a name whose last component ends in something other than
      a dot, followed by `.ext`, has extension `ext`. */
  lemma ExtensionOfName(stem: string, ext: string)
    requires stem != [] && stem[|stem| - 1] != '.' && stem[|stem| - 1] != '/'
    requires '.' !in ext && '/' !in ext
    ensures Extension(stem + "." + ext) == ext
  {
    var p := stem + "." + ext;
    var n := |stem|;
    assert p[n] == '.';
    assert p[n - 1] == stem[n - 1];
    assert p[n + 1..] == ext;
    forall k | n < k < |p|
      ensures p[k] != '.' && p[k] != '/'
    {
      assert p[k] == ext[k - n - 1];
    }
    LastIndexAt(p, '.', n);
    var sep := LastIndexOf(p, '/');
    assert sep < n - 1;
    var name := p[sep + 1..n];
    assert name[n - 1 - (sep + 1)] == stem[n - 1];
    assert HasNonDot(name);
  }

  /** A final component that starts with its only dot (a hidden file such
      as `.gitignore`) has no extension. */
  lemma HiddenFileHasNoExtension(dir: string, name: string)
    requires dir == [] || dir[|dir| - 1] == '/'
    requires '.' !in name && '/' !in name
    ensures Extension(dir + "." + name) == ""
  {
    var p := dir + "." + name;
    var n := |dir|;
    assert p[n] == '.';
    forall k | n < k < |p|
      ensures p[k] != '.' && p[k] != '/'
    {
      assert p[k] == name[k - n - 1];
    }
    LastIndexAt(p, '.', n);
    if n > 0 {
      assert p[n - 1] == '/';
      LastIndexAt(p, '/', n - 1);
    } else {
      LastIndexAt(p, '/', -1);
    }
    assert p[LastIndexOf(p, '/') + 1..n] == [];
  }

  /** One step of `posixpath.join`: an absolute piece replaces what came
      before; otherwise a '/' is inserted unless the path is empty or
      already ends with one. */
  function JoinTwo(a: string, b: string): string {
    if |b| > 0 && b[0] == '/' then b
    else if a == [] || a[|a| - 1] == '/' then a + b
    else a + "/" + b
  }

  /** `os.path.join(*parts)`. */
  function JoinPaths(parts: seq<string>): string
    requires |parts| > 0
  {
    if |parts| == 1 then parts[0]
    else JoinTwo(JoinPaths(parts[..|parts| - 1]), parts[|parts| - 1])
  }

  /** The pieces separated by single slashes. */
  function SlashJoin(parts: seq<string>): string
    requires |parts| > 0
  {
    if |parts| == 1 then parts[0]
    else SlashJoin(parts[..|parts| - 1]) + "/" + parts[|parts| - 1]
  }

  /** A path segment that `os.path.join` passes through unchanged. */
  predicate PlainSegment(s: string) {
    s != [] && '/' !in s
  }

  /** For plain segments `os.path.join` is their '/'-separated
      concatenation, whose last character is that of the last segment. */
  lemma {:induction false} JoinPlainSegments(parts: seq<string>)
    requires |parts| > 0
    requires forall k :: 0 <= k < |parts| ==> PlainSegment(parts[k])
    ensures JoinPaths(parts) == SlashJoin(parts)
    ensures |SlashJoin(parts)| > 0 && SlashJoin(parts)[|SlashJoin(parts)| - 1] != '/'
  {
    if |parts| > 1 {
      var init := parts[..|parts| - 1];
      JoinPlainSegments(init);
      var last := parts[|parts| - 1];
      assert PlainSegment(last);
      assert last[0] in last && last[|last| - 1] in last;
    }
  }
}
