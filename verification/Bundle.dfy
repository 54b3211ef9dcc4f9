/** Deterministic bundles: an archive of a directory tree, and its extraction. */
module Bundles {
  import opened Keys
  import opened BundleTrees

  const BUNDLE_PREFIX := "artifact"
  const MAX_BUNDLE_MEMBERS: nat := 100_000
  const MAX_EXTRACTED_BYTES: nat := 64 * 1024 * 1024 * 1024

  datatype Kind = Directory | Plain | Forbidden | Unknown

  datatype Member = Member(name: string, kind: Kind, data: Bytes)

  // ------------------------------------------------------------ member names

  function Slashed(path: Path): string
  {
    if path == [] then "" else "/" + path[0] + Slashed(path[1..])
  }

  function Keep(part: string): seq<string>
  {
    if part == "" || part == "." then [] else [part]
  }

  /** The components of a slash-separated name, `part` being the one under way.
      Empty and dot components disappear. */
  function Parts(name: string, part: string): seq<string>
    decreases |name|
  {
    if name == "" then Keep(part)
    else if name[0] == '/' then Keep(part) + Parts(name[1..], "")
    else Parts(name[1..], part + [name[0]])
  }

  /** What a file system accepts as a name. */
  predicate ProperName(n: string)
  {
    n != "" && n != "." && n != ".." && '/' !in n && '\0' !in n
  }

  lemma {:induction false} PartsSwallow(word: string, rest: string, part: string)
    requires '/' !in word
    ensures Parts(word + rest, part) == Parts(rest, part + word)
    decreases |word|
  {
    if word == "" {
      assert word + rest == rest && part + word == part;
    } else {
      assert (word + rest)[1..] == word[1..] + rest;
      assert part + [word[0]] + word[1..] == part + word;
      PartsSwallow(word[1..], rest, part + [word[0]]);
    }
  }

  lemma {:induction false} PartsOfSlashed(path: Path, part: string)
    requires forall i :: 0 <= i < |path| ==> ProperName(path[i])
    ensures Parts(Slashed(path), part) == Keep(part) + path
    decreases |path|
  {
    if path != [] {
      var word, rest := path[0], Slashed(path[1..]);
      assert Slashed(path)[1..] == word + rest;
      PartsSwallow(word, rest, "");
      PartsOfSlashed(path[1..], word);
      assert "" + word == word;
      assert path == [word] + path[1..];
    }
  }

  /** A member's name gives back the path it was made from. */
  lemma NameRoundTrip(root: string, path: Path)
    requires ProperName(root) && forall i :: 0 <= i < |path| ==> ProperName(path[i])
    ensures Parts(root + Slashed(path), "") == [root] + path
  {
    PartsSwallow(root, Slashed(path), "");
    PartsOfSlashed(path, root);
    assert "" + root == root;
  }

  // ---------------------------------------------------------------- creation

  function Size(f: Found): nat
  {
    if f.item.IsFile? then |f.item.data| else 0
  }

  function Total(fs: seq<Found>): nat
  {
    if fs == [] then 0 else Total(fs[..|fs| - 1]) + Size(fs[|fs| - 1])
  }

  lemma {:induction false} TotalGrows(fs: seq<Found>, k: nat)
    requires k <= |fs|
    ensures Total(fs[..k]) <= Total(fs)
    decreases |fs| - k
  {
    if k == |fs| {
      assert fs[..k] == fs;
    } else {
      assert fs[..k + 1][..k] == fs[..k];
      TotalGrows(fs, k + 1);
    }
  }

  function MemberFor(f: Found): Member
  {
    Member(BUNDLE_PREFIX + Slashed(f.path), if f.item.IsFile? then Plain else Directory,
           if f.item.IsFile? then f.item.data else [])
  }

  const ROOT := Found([], IsDir)

  function MembersFor(fs: seq<Found>): seq<Member>
  {
    seq(|fs|, i requires 0 <= i < |fs| => MemberFor(fs[i]))
  }

  /** The members of the bundle of a tree; none when it holds a link or a special
      file, too many entries or too many bytes. */
  function Bundle(dir: Node): Option<seq<Member>>
    requires dir.Dir?
  {
    match FlattenDir(dir, [])
    case None => None
    case Some(entries) =>
      if |entries| <= MAX_BUNDLE_MEMBERS && Total(entries) <= MAX_EXTRACTED_BYTES
      then Some(MembersFor([ROOT] + entries)) else None
  }

  /** Whatever order the directories are scanned in, the bundle is the same. */
  method CreateBundle(dir: Node, scan: Path -> seq<string>) returns (r: Option<seq<Member>>)
    requires dir.Dir? && IsScan(dir, scan, [])
    ensures r == Bundle(dir)
  {
    ScanOrderIsIrrelevant(dir, scan, []);
    var entries := Visit(dir, scan, []);
    if entries.None? || |entries.value| > MAX_BUNDLE_MEMBERS { return None; }
    r := Archive(entries.value);
  }

  method Archive(entries: seq<Found>) returns (r: Option<seq<Member>>)
    ensures r == if Total(entries) <= MAX_EXTRACTED_BYTES then Some(MembersFor([ROOT] + entries)) else None
  {
    var members := [MemberFor(ROOT)];
    var total := 0;
    for k := 0 to |entries|
      invariant total == Total(entries[..k]) <= MAX_EXTRACTED_BYTES
      invariant members == MembersFor([ROOT] + entries[..k])
    {
      assert entries[..k + 1][..k] == entries[..k];
      total := total + Size(entries[k]);
      if total > MAX_EXTRACTED_BYTES {
        TotalGrows(entries, k + 1);
        return None;
      }
      assert [ROOT] + entries[..k + 1] == [ROOT] + entries[..k] + [entries[k]];
      members := members + [MemberFor(entries[k])];
    }
    assert entries[..|entries|] == entries;
    return Some(members);
  }

  // --------------------------------------------------- the file tree on disk

  type Files = map<Path, Item>

  /** Creates a directory and whatever is missing above it; fails at a file. */
  function MakeDirs(fs: Files, path: Path): Option<Files>
    decreases |path|
  {
    if path in fs then (if fs[path] == IsDir then Some(fs) else None)
    else if path == [] then None
    else
      match MakeDirs(fs, path[..|path| - 1])
      case None => None
      case Some(above) => Some(above[path := IsDir])
  }

  /** Puts one entry on disk without overwriting anything. */
  function Place(fs: Files, f: Found): Option<Files>
  {
    match f.item
    case IsDir => MakeDirs(fs, f.path)
    case Irregular => None
    case IsFile(_) =>
      if f.path == [] then None else
        match MakeDirs(fs, f.path[..|f.path| - 1])
        case None => None
        case Some(above) => if f.path in above then None else Some(above[f.path := f.item])
  }

  /** A tree: it has a root, and every path runs through directories. */
  ghost predicate TreeShaped(fs: Files)
  {
    && [] in fs && fs[[]] == IsDir
    && forall p, k :: p in fs && 0 <= k < |p| ==> p[..k] in fs && fs[p[..k]] == IsDir
  }

  ghost predicate Above(p: Path, path: Path)
  {
    p <= path
  }

  /** No file stands on the way to `path`. */
  ghost predicate Open(fs: Files, path: Path)
  {
    forall k :: 0 <= k <= |path| && path[..k] in fs ==> fs[path[..k]] == IsDir
  }

  lemma {:induction false} MakeDirsExact(fs: Files, path: Path)
    requires TreeShaped(fs)
    ensures MakeDirs(fs, path).Some? <==> Open(fs, path)
    ensures MakeDirs(fs, path).Some? ==>
      var g := MakeDirs(fs, path).value;
      && TreeShaped(g)
      && (forall p :: p in g <==> p in fs || Above(p, path))
      && (forall p :: p in fs ==> g[p] == fs[p])
      && (forall p :: p in g && p !in fs ==> g[p] == IsDir)
    decreases |path|
  {
    assert path[..|path|] == path;
    if path in fs {
      forall p | Above(p, path)
        ensures p in fs
      {
        assert p == path[..|p|];
      }
    } else {
      var n := |path| - 1;
      MakeDirsExact(fs, path[..n]);
      OpenAbove(fs, path);
      AboveParent(path);
      if MakeDirs(fs, path).Some? { AddLeaf(MakeDirs(fs, path[..n]).value, path, IsDir); }
    }
  }

  lemma OpenAbove(fs: Files, path: Path)
    requires path != [] && path !in fs
    ensures Open(fs, path) <==> Open(fs, path[..|path| - 1])
  {
    var n := |path| - 1;
    assert path[..|path|] == path;
    forall k | 0 <= k <= n
      ensures path[..n][..k] == path[..k]
    {
    }
  }

  lemma AboveParent(path: Path)
    requires path != []
    ensures forall p :: Above(p, path) <==> p == path || Above(p, path[..|path| - 1])
    ensures !Above(path, path[..|path| - 1])
  {
    var n := |path| - 1;
    forall p: Path
      ensures Above(p, path) <==> p == path || Above(p, path[..n])
    {
      if p <= path && |p| <= n { assert p == path[..n][..|p|]; }
    }
  }

  lemma AddLeaf(fs: Files, path: Path, item: Item)
    requires TreeShaped(fs) && path != [] && path !in fs && path[..|path| - 1] in fs && fs[path[..|path| - 1]] == IsDir
    ensures TreeShaped(fs[path := item])
  {
    var n := |path| - 1;
    var g := fs[path := item];
    forall p, k | p in g && 0 <= k < |p|
      ensures p[..k] in g && g[p[..k]] == IsDir
    {
      if p == path {
        assert path[..n][..k] == path[..k];
        assert path[..n][..n] == path[..n];
      }
    }
  }
}
