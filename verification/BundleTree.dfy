/** Directory trees and their flattening into a deterministic list of entries. */
module BundleTrees {
  import opened Keys

  type Path = seq<string>
  type Bytes = seq<bv8>

  /** A directory maps names to nodes; the order in which it lists them is not
      part of it. */
  datatype Node = File(data: Bytes) | Dir(children: map<string, Node>) | Link | Special

  datatype Item = IsDir | IsFile(data: Bytes) | Irregular

  datatype Found = Found(path: Path, item: Item)

  function ItemOf(n: Node): Item
  {
    match n
    case File(data) => IsFile(data)
    case Dir(_) => IsDir
    case _ => Irregular
  }

  /** What a path below a directory leads to. */
  ghost function Find(dir: Node, path: Path): Option<Item>
    decreases |path|
  {
    if !dir.Dir? || path == [] || path[0] !in dir.children then None
    else if |path| == 1 then Some(ItemOf(dir.children[path[0]]))
    else Find(dir.children[path[0]], path[1..])
  }

  // --------------------------------------------------------------- the listing

  function InsertName(x: string, xs: seq<string>): (ys: seq<string>)
  {
    if xs == [] || Less(x, xs[0]) then [x] + xs else [xs[0]] + InsertName(x, xs[1..])
  }

  /** The names of a scan, sorted. */
  function SortNames(xs: seq<string>): (ys: seq<string>)
  {
    if xs == [] then [] else InsertName(xs[0], SortNames(xs[1..]))
  }

  lemma {:induction false} InsertAscends(x: string, xs: seq<string>)
    requires Ascending(xs) && x !in xs
    ensures Ascending(InsertName(x, xs)) && Elements(InsertName(x, xs)) == Elements(xs) + {x}
  {
    if xs == [] {
    } else if Less(x, xs[0]) {
      forall j | 0 <= j < |xs|
        ensures Less(x, xs[j])
      {
        if j > 0 { LessTransitive(x, xs[0], xs[j]); }
      }
      ElementsCons(x, xs);
    } else {
      LessTotal(x, xs[0]);
      InsertAscends(x, xs[1..]);
      var rest := InsertName(x, xs[1..]);
      assert xs == [xs[0]] + xs[1..];
      ElementsCons(xs[0], xs[1..]);
      ElementsCons(xs[0], rest);
      forall j | 0 <= j < |rest|
        ensures Less(xs[0], rest[j])
      {
        assert rest[j] in Elements(rest);
        assert rest[j] == x || rest[j] in xs[1..];
      }
    }
  }

  lemma {:induction false} SortAscends(xs: seq<string>)
    requires NoDuplicates(xs)
    ensures Ascending(SortNames(xs)) && Elements(SortNames(xs)) == Elements(xs)
  {
    if xs != [] {
      SortAscends(xs[1..]);
      assert xs == [xs[0]] + xs[1..];
      ElementsCons(xs[0], xs[1..]);
      assert xs[0] !in Elements(SortNames(xs[1..]));
      InsertAscends(xs[0], SortNames(xs[1..]));
    }
  }

  /** Sorting forgets the order of the scan. */
  lemma SortedScan(xs: seq<string>, names: set<string>)
    requires NoDuplicates(xs) && Elements(xs) == names
    ensures SortNames(xs) == Enumerate(names)
  {
    SortAscends(xs);
    EnumerateAscends(names);
    AscendingUnique(SortNames(xs), Enumerate(names));
  }

  // ------------------------------------------------------------ the flattening

  /** The entries of the named children, each directory followed by its contents;
      nothing when there is a link or a special file among them. */
  function Flatten(dir: Node, names: seq<string>, prefix: Path): Option<seq<Found>>
    requires dir.Dir? && forall i :: 0 <= i < |names| ==> names[i] in dir.children
    decreases dir, 0, |names|
  {
    if names == [] then Some([]) else
      var child, here := dir.children[names[0]], prefix + [names[0]];
      Joined(Single(child, here), Flatten(dir, names[1..], prefix))
  }

  function Single(n: Node, here: Path): Option<seq<Found>>
    decreases n, 2, 0
  {
    match n
    case File(data) => Some([Found(here, IsFile(data))])
    case Dir(_) => Joined(Some([Found(here, IsDir)]), FlattenDir(n, here))
    case _ => None
  }

  function FlattenDir(dir: Node, prefix: Path): Option<seq<Found>>
    requires dir.Dir?
    decreases dir, 1, 0
  {
    EnumerateMembers(dir.children.Keys);
    Flatten(dir, Enumerate(dir.children.Keys), prefix)
  }

  function Joined(a: Option<seq<Found>>, b: Option<seq<Found>>): Option<seq<Found>>
  {
    if a.Some? && b.Some? then Some(a.value + b.value) else None
  }

  lemma EnumerateMembers(s: set<string>)
    ensures forall k :: k in s <==> k in Enumerate(s)
    ensures forall i :: 0 <= i < |Enumerate(s)| ==> Enumerate(s)[i] in s
  {
    forall k
      ensures k in s <==> k in Enumerate(s)
    {
      assert k in Elements(Enumerate(s)) <==> k in Enumerate(s);
    }
  }

  /** One possible run of the recursive listing: `scan` says in which order each
      directory happens to list its children. */
  function Visit(dir: Node, scan: Path -> seq<string>, prefix: Path): Option<seq<Found>>
    requires dir.Dir?
    decreases dir, 1, 0
  {
    VisitNames(dir, scan, SortNames(scan(prefix)), prefix)
  }

  function VisitNames(dir: Node, scan: Path -> seq<string>, names: seq<string>, prefix: Path): Option<seq<Found>>
    requires dir.Dir?
    decreases dir, 0, |names|
  {
    if names == [] then Some([])
    else if names[0] !in dir.children then None
    else
      var child, here := dir.children[names[0]], prefix + [names[0]];
      var first := if child.Dir? then Joined(Some([Found(here, IsDir)]), Visit(child, scan, here))
                   else if child.File? then Some([Found(here, IsFile(child.data))]) else None;
      Joined(first, VisitNames(dir, scan, names[1..], prefix))
  }

  /** Every directory lists each of its children once, in some order. */
  ghost predicate IsScan(dir: Node, scan: Path -> seq<string>, prefix: Path)
    requires dir.Dir?
    decreases dir
  {
    && NoDuplicates(scan(prefix)) && Elements(scan(prefix)) == dir.children.Keys
    && forall k :: k in dir.children && dir.children[k].Dir? ==> IsScan(dir.children[k], scan, prefix + [k])
  }

  /** The listing never depends on the order in which directories are scanned. */
  lemma {:induction false} ScanOrderIsIrrelevant(dir: Node, scan: Path -> seq<string>, prefix: Path)
    requires dir.Dir? && IsScan(dir, scan, prefix)
    ensures Visit(dir, scan, prefix) == FlattenDir(dir, prefix)
    decreases dir, 1, 0
  {
    EnumerateMembers(dir.children.Keys);
    SortedScan(scan(prefix), dir.children.Keys);
    VisitIsFlatten(dir, scan, Enumerate(dir.children.Keys), prefix);
  }

  lemma {:induction false} VisitIsFlatten(dir: Node, scan: Path -> seq<string>, names: seq<string>, prefix: Path)
    requires dir.Dir? && IsScan(dir, scan, prefix)
    requires forall i :: 0 <= i < |names| ==> names[i] in dir.children
    ensures VisitNames(dir, scan, names, prefix) == Flatten(dir, names, prefix)
    decreases dir, 0, |names|
  {
    if names != [] {
      var child, here := dir.children[names[0]], prefix + [names[0]];
      VisitIsFlatten(dir, scan, names[1..], prefix);
      if child.Dir? { ScanOrderIsIrrelevant(child, scan, here); }
    }
  }

  // ------------------------------------------------- what the flattening holds

  /** The entry is the one below `prefix`, starting with one of `names`, that the
      tree has there. */
  ghost predicate Below(dir: Node, names: seq<string>, prefix: Path, f: Found)
  {
    && prefix <= f.path && |prefix| < |f.path|
    && f.path[|prefix|] in names
    && Find(dir, f.path[|prefix|..]) == Some(f.item)
  }

  ghost predicate Exactly(dir: Node, names: seq<string>, prefix: Path, fs: seq<Found>)
  {
    && (forall f :: f in fs <==> Below(dir, names, prefix, f))
    && (forall i, j :: 0 <= i < j < |fs| ==> fs[i].path != fs[j].path)
  }

  lemma PrefixSnoc(prefix: Path, k: string, path: Path)
    ensures prefix + [k] <= path <==> prefix <= path && |prefix| < |path| && path[|prefix|] == k
  {
    if prefix <= path && |prefix| < |path| && path[|prefix|] == k {
      assert path[..|prefix| + 1] == prefix + [k];
    }
    if prefix + [k] <= path {
      assert path[..|prefix|] == (prefix + [k])[..|prefix|] == prefix;
      assert path[|prefix|] == (prefix + [k])[|prefix|];
    }
  }

  /** Below one child: the child itself and whatever it contains. */
  lemma BelowOne(dir: Node, k: string, prefix: Path, f: Found)
    requires dir.Dir? && k in dir.children
    ensures Below(dir, [k], prefix, f)
       <==> f == Found(prefix + [k], ItemOf(dir.children[k]))
            || (dir.children[k].Dir?
                && Below(dir.children[k], Enumerate(dir.children[k].children.Keys), prefix + [k], f))
  {
    var child := dir.children[k];
    if child.Dir? { EnumerateMembers(child.children.Keys); }
    PrefixSnoc(prefix, k, f.path);
    if prefix + [k] <= f.path {
      var tail := f.path[|prefix|..];
      assert tail[0] == k && tail[1..] == f.path[|prefix + [k]|..];
      if |tail| == 1 {
        assert f.path == prefix + [k];
      } else if child.Dir? {
        assert f.path[|prefix + [k]|] == tail[1..][0];
        assert Find(child, tail[1..]).Some? ==> tail[1..][0] in child.children.Keys;
        assert Find(dir, tail) == Find(child, tail[1..]);
      } else {
        assert Find(child, tail[1..]).None?;
      }
    }
  }

  lemma BelowCons(dir: Node, names: seq<string>, prefix: Path, f: Found)
    requires names != []
    ensures Below(dir, names, prefix, f) <==> Below(dir, [names[0]], prefix, f) || Below(dir, names[1..], prefix, f)
  {
    assert names == [names[0]] + names[1..];
  }

  lemma JoinExactly(dir: Node, names: seq<string>, prefix: Path, a: seq<Found>, b: seq<Found>)
    requires names != [] && NoDuplicates(names)
    requires Exactly(dir, [names[0]], prefix, a) && Exactly(dir, names[1..], prefix, b)
    ensures Exactly(dir, names, prefix, a + b)
  {
    forall f
      ensures f in a + b <==> Below(dir, names, prefix, f)
    {
      BelowCons(dir, names, prefix, f);
    }
    forall i, j | 0 <= i < j < |a + b|
      ensures (a + b)[i].path != (a + b)[j].path
    {
      if i < |a| && |a| <= j {
        assert a[i] in a && b[j - |a|] in b;
        assert names[0] !in names[1..];
      }
    }
  }

  lemma ConsExactly(dir: Node, k: string, prefix: Path, inner: seq<Found>)
    requires dir.Dir? && k in dir.children && dir.children[k].Dir?
    requires Exactly(dir.children[k], Enumerate(dir.children[k].children.Keys), prefix + [k], inner)
    ensures Exactly(dir, [k], prefix, [Found(prefix + [k], IsDir)] + inner)
  {
    var all := [Found(prefix + [k], IsDir)] + inner;
    forall f
      ensures f in all <==> Below(dir, [k], prefix, f)
    {
      BelowOne(dir, k, prefix, f);
    }
    forall i, j | 0 <= i < j < |all|
      ensures all[i].path != all[j].path
    {
      assert inner[j - 1] in inner;
    }
  }

  lemma FileExactly(dir: Node, k: string, prefix: Path)
    requires dir.Dir? && k in dir.children && dir.children[k].File?
    ensures Exactly(dir, [k], prefix, [Found(prefix + [k], IsFile(dir.children[k].data))])
  {
    forall f
      ensures f == Found(prefix + [k], IsFile(dir.children[k].data)) <==> Below(dir, [k], prefix, f)
    {
      BelowOne(dir, k, prefix, f);
    }
  }

  /** The flattening lists every path of the tree exactly once, with what is there. */
  lemma {:induction false} FlattenExact(dir: Node, names: seq<string>, prefix: Path)
    requires dir.Dir? && NoDuplicates(names) && forall i :: 0 <= i < |names| ==> names[i] in dir.children
    requires Flatten(dir, names, prefix).Some?
    ensures Exactly(dir, names, prefix, Flatten(dir, names, prefix).value)
    decreases dir, 0, |names|
  {
    if names != [] {
      var k := names[0];
      var child, here := dir.children[k], prefix + [k];
      FlattenExact(dir, names[1..], prefix);
      if child.Dir? {
        FlattenDirExact(child, here);
        ConsExactly(dir, k, prefix, FlattenDir(child, here).value);
      } else {
        FileExactly(dir, k, prefix);
      }
      JoinExactly(dir, names, prefix, Single(child, here).value, Flatten(dir, names[1..], prefix).value);
    }
  }

  lemma {:induction false} FlattenDirExact(dir: Node, prefix: Path)
    requires dir.Dir? && FlattenDir(dir, prefix).Some?
    ensures Exactly(dir, Enumerate(dir.children.Keys), prefix, FlattenDir(dir, prefix).value)
    decreases dir, 1, 0
  {
    EnumerateMembers(dir.children.Keys);
    EnumerateDistinct(dir.children.Keys);
    FlattenExact(dir, Enumerate(dir.children.Keys), prefix);
  }

  lemma EnumerateDistinct(s: set<string>)
    ensures NoDuplicates(Enumerate(s))
  {
    EnumerateAscends(s);
    var xs := Enumerate(s);
    forall i, j | 0 <= i < j < |xs|
      ensures xs[i] != xs[j]
    {
      LessAsymmetric(xs[i], xs[j]);
    }
  }

  /** The tree holds no link and no special file. */
  ghost predicate Regular(dir: Node)
  {
    forall path :: Find(dir, path) != Some(Irregular)
  }

  lemma {:induction false} FlattenIffRegular(dir: Node, names: seq<string>, prefix: Path)
    requires dir.Dir? && forall i :: 0 <= i < |names| ==> names[i] in dir.children
    ensures Flatten(dir, names, prefix).Some?
       <==> forall path: Path :: path != [] && path[0] in names ==> Find(dir, path) != Some(Irregular)
    decreases dir, 0, |names|
  {
    if names != [] {
      var k := names[0];
      FlattenIffRegular(dir, names[1..], prefix);
      SingleIffRegular(dir, k, prefix + [k]);
      forall path: Path | path != []
        ensures path[0] in names <==> path[0] == k || path[0] in names[1..]
      {
        assert names == [k] + names[1..];
      }
    }
  }

  lemma {:induction false} SingleIffRegular(dir: Node, k: string, here: Path)
    requires dir.Dir? && k in dir.children
    ensures Single(dir.children[k], here).Some?
       <==> forall path: Path :: path != [] && path[0] == k ==> Find(dir, path) != Some(Irregular)
    decreases dir.children[k], 2, 0
  {
    var child := dir.children[k];
    assert Find(dir, [k]) == Some(ItemOf(child));
    if child.Dir? {
      FlattenDirIffRegular(child, here);
      forall path: Path | path != [] && path[0] == k && |path| > 1
        ensures Find(dir, path) == Find(child, path[1..])
      {
      }
      forall path: Path
        ensures path != [] ==> Find(dir, [k] + path) == Find(child, path)
      {
        assert ([k] + path)[1..] == path;
      }
    }
  }

  lemma {:induction false} FlattenDirIffRegular(dir: Node, prefix: Path)
    requires dir.Dir?
    ensures FlattenDir(dir, prefix).Some? <==> Regular(dir)
    decreases dir, 1, 0
  {
    EnumerateMembers(dir.children.Keys);
    FlattenIffRegular(dir, Enumerate(dir.children.Keys), prefix);
  }

  /** A file has nothing below it and every path runs through directories. */
  lemma {:induction false} FindRunsThroughDirs(dir: Node, path: Path, k: nat)
    requires 0 < k < |path| && Find(dir, path).Some?
    ensures Find(dir, path[..k]) == Some(IsDir)
    decreases k
  {
    if k > 1 {
      FindRunsThroughDirs(dir.children[path[0]], path[1..], k - 1);
      assert path[..k][1..] == path[1..][..k - 1];
    }
  }
}
