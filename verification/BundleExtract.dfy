/** Extraction of a bundle: exactly which archives it accepts, what it leaves on
    disk, and that it undoes creation. */
module BundleExtraction {
  import opened Keys
  import opened BundleTrees
  import opened Bundles

  // --------------------------------------------------- placing entries on disk

  /** Entries that can stand together: no file at the root and none on the way to,
      or in the place of, another entry. */
  ghost predicate Compatible(fs: seq<Found>)
  {
    && (forall i :: 0 <= i < |fs| ==> fs[i].item != Irregular && (fs[i].item.IsFile? ==> fs[i].path != []))
    && (forall i, j :: 0 <= i < |fs| && 0 <= j < |fs| && i != j && fs[i].item.IsFile? ==>
          !Above(fs[i].path, fs[j].path))
  }

  /** The path is that of an entry or leads to one. */
  ghost predicate OnTheWay(fs: seq<Found>, p: Path)
  {
    p == [] || exists j :: 0 <= j < |fs| && Above(p, fs[j].path)
  }

  /** On disk are exactly the entries and the directories leading to them. */
  ghost predicate Rebuilt(fs: seq<Found>, disk: Files)
  {
    && TreeShaped(disk)
    && (forall p :: p in disk <==> OnTheWay(fs, p))
    && (forall j :: 0 <= j < |fs| ==> disk[fs[j].path] == fs[j].item)
    && (forall p :: p in disk && disk[p] != IsDir ==> Found(p, disk[p]) in fs)
  }

  lemma OnTheWaySnoc(fs: seq<Found>, f: Found, p: Path)
    ensures OnTheWay(fs + [f], p) <==> OnTheWay(fs, p) || Above(p, f.path)
  {
    if Above(p, f.path) { assert (fs + [f])[|fs|] == f; }
    if p != [] && OnTheWay(fs, p) {
      var j :| 0 <= j < |fs| && Above(p, fs[j].path);
      assert (fs + [f])[j] == fs[j];
    }
  }

  lemma CompatibleSnoc(fs: seq<Found>, f: Found)
    requires Compatible(fs)
    ensures Compatible(fs + [f])
       <==> && f.item != Irregular && (f.item.IsFile? ==> f.path != [])
            && (forall i :: 0 <= i < |fs| && fs[i].item.IsFile? ==> !Above(fs[i].path, f.path))
            && (f.item.IsFile? ==> forall j :: 0 <= j < |fs| ==> !Above(f.path, fs[j].path))
  {
    var all := fs + [f];
    assert all[|fs|] == f && forall i :: 0 <= i < |fs| ==> all[i] == fs[i];
  }

  /** A directory can be made exactly when none of the files placed so far is on
      the way. */
  lemma OpenIff(fs: seq<Found>, disk: Files, path: Path)
    requires Rebuilt(fs, disk)
    ensures Open(disk, path) <==> forall i :: 0 <= i < |fs| && fs[i].item != IsDir ==> !Above(fs[i].path, path)
  {
    forall i | 0 <= i < |fs| && fs[i].item != IsDir && Above(fs[i].path, path)
      ensures !Open(disk, path)
    {
      assert path[..|fs[i].path|] == fs[i].path;
      assert Above(fs[i].path, fs[i].path);
    }
    if !Open(disk, path) {
      var k :| 0 <= k <= |path| && path[..k] in disk && disk[path[..k]] != IsDir;
      var i :| 0 <= i < |fs| && fs[i] == Found(path[..k], disk[path[..k]]);
      assert Above(fs[i].path, path);
    }
  }

  lemma PlaceDir(fs: seq<Found>, disk: Files, f: Found)
    requires Rebuilt(fs, disk) && Compatible(fs) && f.item == IsDir
    ensures Place(disk, f).Some? <==> Compatible(fs + [f])
    ensures Place(disk, f).Some? ==> Rebuilt(fs + [f], Place(disk, f).value)
  {
    MakeDirsExact(disk, f.path);
    OpenIff(fs, disk, f.path);
    CompatibleSnoc(fs, f);
    if Place(disk, f).Some? { PlacedDir(fs, disk, f, Place(disk, f).value); }
  }

  lemma PlacedDir(fs: seq<Found>, disk: Files, f: Found, g: Files)
    requires Rebuilt(fs, disk) && f.item == IsDir && TreeShaped(g) && Open(disk, f.path)
    requires forall p :: p in g <==> p in disk || Above(p, f.path)
    requires forall p :: p in disk ==> g[p] == disk[p]
    requires forall p :: p in g && p !in disk ==> g[p] == IsDir
    ensures Rebuilt(fs + [f], g)
  {
    var all := fs + [f];
    forall p: Path
      ensures p in g <==> OnTheWay(all, p)
    {
      OnTheWaySnoc(fs, f, p);
    }
    forall j | 0 <= j < |all|
      ensures all[j].path in g && g[all[j].path] == all[j].item
    {
      assert Above(all[j].path, all[j].path);
      assert OnTheWay(all, all[j].path);
      if j < |fs| {
        assert all[j] == fs[j];
        assert OnTheWay(fs, fs[j].path);
      } else {
        assert f.path[..|f.path|] == f.path;
      }
    }
  }

  lemma PlaceFile(fs: seq<Found>, disk: Files, f: Found)
    requires Rebuilt(fs, disk) && Compatible(fs) && f.item.IsFile?
    ensures Place(disk, f).Some? <==> Compatible(fs + [f])
    ensures Place(disk, f).Some? ==> Rebuilt(fs + [f], Place(disk, f).value)
  {
    CompatibleSnoc(fs, f);
    if f.path != [] {
      var up := f.path[..|f.path| - 1];
      MakeDirsExact(disk, up);
      OpenIff(fs, disk, up);
      AboveParent(f.path);
      FreeIff(fs, disk, f.path);
      if Place(disk, f).Some? {
        var above := MakeDirs(disk, up).value;
        assert Above(up, up);
        assert up[..|up|] == up;
        AddLeaf(above, f.path, f.item);
        PlacedFile(fs, disk, f, above, above[f.path := f.item]);
      }
    }
  }

  lemma FreeIff(fs: seq<Found>, disk: Files, path: Path)
    requires Rebuilt(fs, disk) && path != []
    ensures path !in disk <==> forall j :: 0 <= j < |fs| ==> !Above(path, fs[j].path)
  {
    assert path in disk <==> OnTheWay(fs, path);
  }

  lemma PlacedFile(fs: seq<Found>, disk: Files, f: Found, above: Files, g: Files)
    requires Rebuilt(fs, disk) && f.item.IsFile? && f.path != [] && f.path !in above
    requires TreeShaped(g) && g == above[f.path := f.item]
    requires forall p :: p in above <==> p in disk || Above(p, f.path[..|f.path| - 1])
    requires forall p :: p in disk ==> above[p] == disk[p]
    requires forall p :: p in above && p !in disk ==> above[p] == IsDir
    ensures Rebuilt(fs + [f], g)
  {
    var all := fs + [f];
    AboveParent(f.path);
    forall p: Path
      ensures p in g <==> OnTheWay(all, p)
    {
      OnTheWaySnoc(fs, f, p);
    }
    forall j | 0 <= j < |all|
      ensures all[j].path in g && g[all[j].path] == all[j].item
    {
      if j < |fs| {
        assert all[j] == fs[j] && Above(fs[j].path, fs[j].path);
        assert OnTheWay(fs, fs[j].path);
      }
    }
    forall p | p in g && g[p] != IsDir
      ensures Found(p, g[p]) in all
    {
      if p == f.path { assert all[|fs|] == Found(p, g[p]); }
    }
  }

  /** One more entry can be placed exactly when it is compatible with those before. */
  lemma PlaceExact(fs: seq<Found>, disk: Files, f: Found)
    requires Rebuilt(fs, disk) && Compatible(fs)
    ensures Place(disk, f).Some? <==> Compatible(fs + [f])
    ensures Place(disk, f).Some? ==> Rebuilt(fs + [f], Place(disk, f).value)
  {
    match f.item
    case IsDir => PlaceDir(fs, disk, f);
    case IsFile(_) => PlaceFile(fs, disk, f);
    case Irregular => CompatibleSnoc(fs, f);
  }

  // ------------------------------------------------------- reading an archive

  /** Where a member goes and what it is; none for a name outside the bundle or a
      type that is not allowed. */
  function Located(m: Member): Option<Found>
  {
    var parts := Parts(m.name, "");
    if (m.name != "" && m.name[0] == '/') || parts == [] || parts[0] != BUNDLE_PREFIX || ".." in parts then None
    else match m.kind
         case Directory => Some(Found(parts[1..], IsDir))
         case Plain => Some(Found(parts[1..], IsFile(m.data)))
         case _ => None
  }

  datatype Extraction = Extraction(disk: Files, seen: set<Path>, total: nat, count: nat)

  const EMPTY := Extraction(map[[] := IsDir], {}, 0, 0)

  function Step(st: Extraction, m: Member): Option<Extraction>
  {
    if st.count + 1 > MAX_BUNDLE_MEMBERS then None
    else match Located(m)
         case None => None
         case Some(f) =>
           if f.path in st.seen || st.total + Size(f) > MAX_EXTRACTED_BYTES then None
           else match Place(st.disk, f)
                case None => None
                case Some(disk) => Some(Extraction(disk, st.seen + {f.path}, st.total + Size(f), st.count + 1))
  }

  function Steps(members: seq<Member>): Option<Extraction>
  {
    if members == [] then Some(EMPTY) else
      match Steps(members[..|members| - 1])
      case None => None
      case Some(st) => Step(st, members[|members| - 1])
  }

  function Extract(members: seq<Member>): Option<Files>
  {
    match Steps(members)
    case None => None
    case Some(st) => Some(st.disk)
  }

  lemma {:induction false} StepsFail(members: seq<Member>, k: nat)
    requires k <= |members| && Steps(members[..k]).None?
    ensures Steps(members).None?
    decreases |members| - k
  {
    if k == |members| {
      assert members[..k] == members;
    } else {
      assert members[..k + 1][..k] == members[..k];
      StepsFail(members, k + 1);
    }
  }

  lemma StepsNext(members: seq<Member>, k: nat, st: Extraction)
    requires k < |members| && Steps(members[..k]) == Some(st)
    ensures Steps(members[..k + 1]) == Step(st, members[k])
  {
    var taken := members[..k + 1];
    assert taken[..|taken| - 1] == members[..k];
  }

  method ExtractBundle(members: seq<Member>) returns (r: Option<Files>)
    ensures r == Extract(members)
  {
    var disk: Files := map[[] := IsDir];
    var seen: set<Path> := {};
    var total: nat, count: nat := 0, 0;
    for k := 0 to |members|
      invariant Steps(members[..k]) == Some(Extraction(disk, seen, total, count))
    {
      StepsNext(members, k, Extraction(disk, seen, total, count));
      if Steps(members[..k + 1]).None? { StepsFail(members, k + 1); }
      count := count + 1;
      if count > MAX_BUNDLE_MEMBERS { return None; }
      var located := Located(members[k]);
      if located.None? || located.value.path in seen { return None; }
      seen := seen + {located.value.path};
      total := total + Size(located.value);
      if total > MAX_EXTRACTED_BYTES { return None; }
      var placed := Place(disk, located.value);
      if placed.None? { return None; }
      disk := placed.value;
    }
    assert members[..|members|] == members;
    return Some(disk);
  }

  ghost predicate AllLocated(members: seq<Member>)
  {
    forall i :: 0 <= i < |members| ==> Located(members[i]).Some?
  }

  ghost function Entries(members: seq<Member>): seq<Found>
    requires AllLocated(members)
  {
    seq(|members|, i requires 0 <= i < |members| => Located(members[i]).value)
  }

  ghost predicate DistinctPaths(fs: seq<Found>)
  {
    forall i, j :: 0 <= i < j < |fs| ==> fs[i].path != fs[j].path
  }

  /** Which archives are accepted, said without running the extraction. */
  ghost predicate Acceptable(members: seq<Member>)
  {
    && |members| <= MAX_BUNDLE_MEMBERS
    && AllLocated(members)
    && DistinctPaths(Entries(members))
    && Total(Entries(members)) <= MAX_EXTRACTED_BYTES
    && Compatible(Entries(members))
  }

  /** The counters and the set of seen paths agree with the entries so far. */
  ghost predicate Counted(fs: seq<Found>, st: Extraction)
  {
    && st.count == |fs| && st.total == Total(fs)
    && (forall p :: p in st.seen <==> exists i :: 0 <= i < |fs| && fs[i].path == p)
  }

  lemma EntriesSnoc(members: seq<Member>)
    requires members != []
    ensures var n := |members| - 1;
      && (AllLocated(members) <==> AllLocated(members[..n]) && Located(members[n]).Some?)
      && (AllLocated(members) ==> Entries(members) == Entries(members[..n]) + [Located(members[n]).value])
  {
    var n := |members| - 1;
    assert members == members[..n] + [members[n]];
  }

  /** What the counters and the set of seen paths decide about one more entry. */
  ghost predicate Admits(st: Extraction, f: Found)
  {
    st.count < MAX_BUNDLE_MEMBERS && f.path !in st.seen && st.total + Size(f) <= MAX_EXTRACTED_BYTES
  }

  lemma StepIs(st: Extraction, m: Member, f: Found)
    requires Located(m) == Some(f)
    ensures Step(st, m).Some? <==> Admits(st, f) && Place(st.disk, f).Some?
    ensures Step(st, m).Some? ==>
      Step(st, m).value == Extraction(Place(st.disk, f).value, st.seen + {f.path}, st.total + Size(f), st.count + 1)
  {
  }

  lemma TotalSnoc(fs: seq<Found>, f: Found)
    ensures Total(fs + [f]) == Total(fs) + Size(f)
  {
    assert (fs + [f])[..|fs|] == fs;
  }

  lemma StepCounts(fs: seq<Found>, st: Extraction, m: Member, f: Found)
    requires Counted(fs, st) && DistinctPaths(fs) && Located(m) == Some(f)
    ensures Step(st, m).Some? <==> |fs| < MAX_BUNDLE_MEMBERS && Total(fs + [f]) <= MAX_EXTRACTED_BYTES
                                   && DistinctPaths(fs + [f]) && Place(st.disk, f).Some?
    ensures Step(st, m).Some? ==>
      Counted(fs + [f], Step(st, m).value) && Place(st.disk, f) == Some(Step(st, m).value.disk)
  {
    StepIs(st, m, f);
    TotalSnoc(fs, f);
    DistinctSnoc(fs, f);
    SeenSnoc(fs, f, st.seen);
  }

  lemma DistinctSnoc(fs: seq<Found>, f: Found)
    requires DistinctPaths(fs)
    ensures DistinctPaths(fs + [f]) <==> !exists i :: 0 <= i < |fs| && fs[i].path == f.path
  {
    var all := fs + [f];
    assert all[|fs|] == f && forall i :: 0 <= i < |fs| ==> all[i] == fs[i];
  }

  lemma SeenSnoc(fs: seq<Found>, f: Found, seen: set<Path>)
    requires forall p :: p in seen <==> exists i :: 0 <= i < |fs| && fs[i].path == p
    ensures forall p :: p in seen + {f.path} <==> exists i :: 0 <= i < |fs + [f]| && (fs + [f])[i].path == p
  {
    var all := fs + [f];
    assert all[|fs|] == f;
    forall p | p in seen
      ensures exists i :: 0 <= i < |all| && all[i].path == p
    {
      var i :| 0 <= i < |fs| && fs[i].path == p;
      assert all[i].path == p;
    }
  }

  /** Extraction succeeds on exactly the acceptable archives, whoever made them, and
      then leaves on disk exactly their entries and the directories above them. */
  lemma {:induction false} ExtractExact(members: seq<Member>)
    ensures Steps(members).Some? <==> Acceptable(members)
    ensures Acceptable(members) ==>
      Counted(Entries(members), Steps(members).value) && Rebuilt(Entries(members), Steps(members).value.disk)
    decreases |members|
  {
    if members != [] {
      var n := |members| - 1;
      ExtractExact(members[..n]);
      EntriesSnoc(members);
      if AllLocated(members) {
        var fs, f := Entries(members[..n]), Located(members[n]).value;
        AcceptableSnoc(members, fs, f);
        if Acceptable(members[..n]) {
          StepCounts(fs, Steps(members[..n]).value, members[n], f);
          PlaceExact(fs, Steps(members[..n]).value.disk, f);
        }
      }
    }
  }

  lemma AcceptableSnoc(members: seq<Member>, fs: seq<Found>, f: Found)
    requires members != [] && AllLocated(members)
    requires AllLocated(members[..|members| - 1]) && Entries(members[..|members| - 1]) == fs
      && Entries(members) == fs + [f]
    ensures Acceptable(members) ==> Acceptable(members[..|members| - 1])
  {
    var all := fs + [f];
    assert forall i :: 0 <= i < |fs| ==> all[i] == fs[i];
    assert all[..|fs|] == fs;
    if Acceptable(members) { TotalGrows(all, |fs|); }
  }

  lemma {:induction false} PartsAreClean(name: string, part: string)
    requires '/' !in part
    ensures forall i :: 0 <= i < |Parts(name, part)| ==>
      var x := Parts(name, part)[i]; x != "" && x != "." && '/' !in x
    decreases |name|
  {
    if name != "" {
      if name[0] == '/' { PartsAreClean(name[1..], ""); } else { PartsAreClean(name[1..], part + [name[0]]); }
    }
  }

  /** Whatever archive is extracted, everything lands below the destination: no
      component of a written path is empty, a dot, a double dot or has a slash. */
  lemma ExtractionStaysInside(members: seq<Member>, p: Path, i: nat)
    requires Extract(members).Some? && p in Extract(members).value && i < |p|
    ensures p[i] != "" && p[i] != "." && p[i] != ".." && '/' !in p[i]
  {
    ExtractExact(members);
    var fs := Entries(members);
    assert OnTheWay(fs, p);
    var j :| 0 <= j < |fs| && Above(p, fs[j].path);
    LocatedIsInside(members[j], i);
    assert p[i] == fs[j].path[i];
  }

  lemma LocatedIsInside(m: Member, i: nat)
    requires Located(m).Some? && i < |Located(m).value.path|
    ensures var x := Located(m).value.path[i]; x != "" && x != "." && x != ".." && '/' !in x
  {
    var parts := Parts(m.name, "");
    PartsAreClean(m.name, "");
    assert Located(m).value.path[i] == parts[1 + i];
  }

  // ------------------------------------------------------------ the round trip

  /** Every name in the tree is one a file system accepts. */
  ghost predicate Proper(dir: Node)
  {
    forall path, i :: Find(dir, path).Some? && 0 <= i < |path| ==> ProperName(path[i])
  }

  lemma BelowRoot(dir: Node, f: Found)
    requires dir.Dir?
    ensures Below(dir, Enumerate(dir.children.Keys), [], f) <==> Find(dir, f.path) == Some(f.item)
  {
    EnumerateMembers(dir.children.Keys);
    assert f.path[0..] == f.path;
  }

  /** The listing of a tree: each of its paths once, with what is there. */
  lemma ListingExact(dir: Node)
    requires dir.Dir? && FlattenDir(dir, []).Some?
    ensures DistinctPaths(FlattenDir(dir, []).value)
    ensures forall f :: f in FlattenDir(dir, []).value <==> Find(dir, f.path) == Some(f.item)
  {
    FlattenDirExact(dir, []);
    forall f: Found
      ensures f in FlattenDir(dir, []).value <==> Find(dir, f.path) == Some(f.item)
    {
      BelowRoot(dir, f);
    }
  }

  /** The listing of `dir`, the root in front. */
  ghost predicate IsListing(dir: Node, all: seq<Found>)
  {
    && |all| > 0 && all[0] == ROOT
    && DistinctPaths(all)
    && (forall i :: 1 <= i < |all| ==> Find(dir, all[i].path) == Some(all[i].item))
    && (forall f: Found :: Find(dir, f.path) == Some(f.item) ==> f in all)
  }

  lemma RootedListing(dir: Node)
    requires dir.Dir? && FlattenDir(dir, []).Some?
    ensures IsListing(dir, [ROOT] + FlattenDir(dir, []).value)
  {
    ListingExact(dir);
    var entries := FlattenDir(dir, []).value;
    var all := [ROOT] + entries;
    forall i | 1 <= i < |all|
      ensures Find(dir, all[i].path) == Some(all[i].item)
    {
      assert all[i] == entries[i - 1] && entries[i - 1] in entries;
    }
    forall i, j | 0 <= i < j < |all|
      ensures all[i].path != all[j].path
    {
      assert i > 0 ==> all[i] == entries[i - 1] && all[j] == entries[j - 1];
    }
  }

  lemma ListingCompatible(dir: Node, all: seq<Found>)
    requires IsListing(dir, all) && Regular(dir)
    ensures Compatible(all)
  {
    forall i, j | 0 <= i < |all| && 0 <= j < |all| && i != j && all[i].item.IsFile?
      ensures !Above(all[i].path, all[j].path)
    {
      NothingBelowFile(dir, all[i].path, all[j].path);
    }
  }

  lemma NothingBelowFile(dir: Node, p: Path, q: Path)
    requires Find(dir, p).Some? && Find(dir, p).value.IsFile? && p != q && (q == [] || Find(dir, q).Some?)
    ensures !Above(p, q)
  {
    if Above(p, q) && |p| < |q| {
      assert q[..|p|] == p;
      FindRunsThroughDirs(dir, q, |p|);
    }
  }

  /** Reading a member back gives the entry it was made from. */
  lemma MemberRoundTrip(f: Found)
    requires f.item != Irregular && forall i :: 0 <= i < |f.path| ==> ProperName(f.path[i])
    ensures Located(MemberFor(f)) == Some(f)
  {
    var name := BUNDLE_PREFIX + Slashed(f.path);
    NameRoundTrip(BUNDLE_PREFIX, f.path);
    var parts := [BUNDLE_PREFIX] + f.path;
    assert Parts(name, "") == parts && parts[1..] == f.path;
    assert ".." !in parts;
    assert name[0] == BUNDLE_PREFIX[0];
  }

  lemma ListingLocated(dir: Node, all: seq<Found>)
    requires IsListing(dir, all) && Regular(dir) && Proper(dir)
    ensures AllLocated(MembersFor(all)) && Entries(MembersFor(all)) == all
  {
    forall i | 0 <= i < |all|
      ensures Located(MembersFor(all)[i]) == Some(all[i])
    {
      MemberRoundTrip(all[i]);
    }
  }

  /** On disk is what the tree holds, and nothing else. */
  ghost predicate SameTree(dir: Node, disk: Files)
  {
    forall p :: (if p in disk then Some(disk[p]) else None) == if p == [] then Some(IsDir) else Find(dir, p)
  }

  lemma RebuiltIsSame(dir: Node, all: seq<Found>, disk: Files)
    requires IsListing(dir, all) && Rebuilt(all, disk)
    ensures SameTree(dir, disk)
  {
    forall p: Path
      ensures (if p in disk then Some(disk[p]) else None) == if p == [] then Some(IsDir) else Find(dir, p)
    {
      if p != [] && Find(dir, p).Some? {
        var f := Found(p, Find(dir, p).value);
        var j :| 0 <= j < |all| && all[j] == f;
        assert Above(p, all[j].path);
        assert OnTheWay(all, p);
      } else if p != [] {
        OffTheWay(dir, all, p);
      }
    }
  }

  lemma OffTheWay(dir: Node, all: seq<Found>, p: Path)
    requires IsListing(dir, all) && p != [] && Find(dir, p).None?
    ensures !OnTheWay(all, p)
  {
    forall j | 0 <= j < |all|
      ensures !Above(p, all[j].path)
    {
      var q := all[j].path;
      if p != q && Above(p, q) {
        assert q[..|p|] == p;
        FindRunsThroughDirs(dir, q, |p|);
      }
      assert j > 0 ==> Find(dir, q).Some?;
    }
  }

  /** A created bundle extracts exactly when the tree has fewer than the maximal
      number of entries: creation does not count the root, extraction does.  What
      is extracted is then the very tree that was bundled. */
  lemma RoundTripIff(dir: Node)
    requires dir.Dir? && Proper(dir) && Bundle(dir).Some?
    ensures Extract(Bundle(dir).value).Some? <==> |FlattenDir(dir, []).value| < MAX_BUNDLE_MEMBERS
    ensures Extract(Bundle(dir).value).Some? ==> SameTree(dir, Extract(Bundle(dir).value).value)
  {
    var all := [ROOT] + FlattenDir(dir, []).value;
    RootedListing(dir);
    FlattenDirIffRegular(dir, []);
    ListingCompatible(dir, all);
    ListingLocated(dir, all);
    RootIsFree(FlattenDir(dir, []).value);
    ExtractExact(MembersFor(all));
    if Extract(Bundle(dir).value).Some? { RebuiltIsSame(dir, all, Extract(Bundle(dir).value).value); }
  }

  lemma {:induction false} RootIsFree(fs: seq<Found>)
    ensures Total([ROOT] + fs) == Total(fs)
  {
    if fs != [] {
      var n := |fs| - 1;
      RootIsFree(fs[..n]);
      assert ([ROOT] + fs)[..|fs|] == [ROOT] + fs[..n];
    } else {
      assert [ROOT] + fs == [ROOT];
      assert [ROOT][..0] == [];
    }
  }

  // --------------------------------------------------- the tree in between

  const WIDTH: nat := 6
  const LONGEST_NAME: nat := 255

  /** The last `width` decimal digits of a number. */
  function Numeral(i: nat, width: nat): (s: string)
    ensures |s| == width
  {
    if width == 0 then "" else Numeral(i / 10, width - 1) + [('0' as int + i % 10) as char]
  }

  function Power(width: nat): nat
  {
    if width == 0 then 1 else 10 * Power(width - 1)
  }

  lemma {:induction false} NumeralsDiffer(i: nat, j: nat, width: nat)
    requires i < Power(width) && j < Power(width) && i != j
    ensures Numeral(i, width) != Numeral(j, width)
    decreases width
  {
    if width > 0 {
      var a, b := Numeral(i, width), Numeral(j, width);
      if i % 10 != j % 10 {
        assert a[width - 1] != b[width - 1];
      } else {
        NumeralsDiffer(i / 10, j / 10, width - 1);
        assert Numeral(i / 10, width - 1) == a[..width - 1] && Numeral(j / 10, width - 1) == b[..width - 1];
      }
    }
  }

  predicate Digits(s: string)
  {
    forall i :: 0 <= i < |s| ==> '0' <= s[i] <= '9'
  }

  lemma {:induction false} NumeralIsDigits(i: nat, width: nat)
    ensures Digits(Numeral(i, width))
    decreases width
  {
    if width > 0 { NumeralIsDigits(i / 10, width - 1); }
  }

  /** A directory of `n` empty files, named by numerals. */
  function Crowd(n: nat, width: nat): map<string, Node>
  {
    if n == 0 then map[] else Crowd(n - 1, width)[Numeral(n - 1, width) := File([])]
  }

  ghost predicate NamedBelow(name: string, n: nat, width: nat)
  {
    exists i :: 0 <= i < n && name == Numeral(i, width)
  }

  lemma NamedBelowGrows(name: string, n: nat, width: nat)
    requires NamedBelow(name, n, width)
    ensures NamedBelow(name, n + 1, width)
  {
  }

  lemma {:induction false} CrowdNames(n: nat, width: nat, k: string)
    requires k in Crowd(n, width)
    ensures Crowd(n, width)[k] == File([]) && NamedBelow(k, n, width)
    decreases n
  {
    if k != Numeral(n - 1, width) {
      CrowdNames(n - 1, width, k);
      NamedBelowGrows(k, n - 1, width);
    }
  }

  lemma {:induction false} CrowdSize(n: nat, width: nat)
    requires n <= Power(width)
    ensures |Crowd(n, width).Keys| == n
    decreases n
  {
    if n > 0 {
      var name := Numeral(n - 1, width);
      CrowdSize(n - 1, width);
      NewNumeral(n - 1, width);
      if name in Crowd(n - 1, width) { CrowdNames(n - 1, width, name); }
      OneMore(Crowd(n - 1, width), name, File([]));
    }
  }

  lemma OneMore(m: map<string, Node>, name: string, v: Node)
    requires name !in m
    ensures |m[name := v].Keys| == |m.Keys| + 1
  {
    assert m[name := v].Keys == m.Keys + {name};
  }

  lemma NewNumeral(n: nat, width: nat)
    requires n < Power(width)
    ensures !NamedBelow(Numeral(n, width), n, width)
  {
    forall i | 0 <= i < n
      ensures Numeral(i, width) != Numeral(n, width)
    {
      NumeralsDiffer(i, n, width);
    }
  }

  lemma {:induction false} FlattenFiles(dir: Node, names: seq<string>, prefix: Path)
    requires dir.Dir? && forall k :: k in dir.children ==> dir.children[k] == File([])
    requires forall i :: 0 <= i < |names| ==> names[i] in dir.children
    ensures Flatten(dir, names, prefix).Some? && |Flatten(dir, names, prefix).value| == |names|
    ensures forall i :: 0 <= i < |names| ==> Size(Flatten(dir, names, prefix).value[i]) == 0
    decreases |names|
  {
    if names != [] { FlattenFiles(dir, names[1..], prefix); }
  }

  lemma {:induction false} ZeroTotal(fs: seq<Found>)
    requires forall i :: 0 <= i < |fs| ==> Size(fs[i]) == 0
    ensures Total(fs) == 0
  {
    if fs != [] { ZeroTotal(fs[..|fs| - 1]); }
  }

  /** Every name in the tree is short enough for a file system. */
  ghost predicate ShortNames(dir: Node)
  {
    forall path, i :: Find(dir, path).Some? && 0 <= i < |path| ==> Utf8Length(path[i]) <= LONGEST_NAME
  }

  /** A directory of exactly the maximal number of empty files, named by six-digit
      numerals, is bundled, and its bundle cannot be extracted. */
  lemma FullBundleIsStuck()
    ensures var dir := Dir(Crowd(MAX_BUNDLE_MEMBERS, WIDTH));
      Proper(dir) && ShortNames(dir) && Bundle(dir).Some? && Extract(Bundle(dir).value).None?
  {
    PowerOfWidth();
    CrowdIsStuck(MAX_BUNDLE_MEMBERS, WIDTH);
  }

  lemma PowerOfWidth()
    ensures MAX_BUNDLE_MEMBERS <= Power(WIDTH)
  {
    assert Power(0) == 1 && Power(1) == 10 && Power(2) == 100 && Power(3) == 1000;
    assert Power(4) == 10000 && Power(5) == 100000 && Power(6) == 1000000;
  }

  lemma CrowdListing(n: nat, width: nat)
    requires n <= Power(width)
    ensures var listed := FlattenDir(Dir(Crowd(n, width)), []);
      listed.Some? && |listed.value| == n && Total(listed.value) == 0
  {
    CrowdSize(n, width);
    var dir := Dir(Crowd(n, width));
    forall k | k in dir.children
      ensures dir.children[k] == File([])
    {
      CrowdNames(n, width, k);
    }
    EnumerateMembers(dir.children.Keys);
    EnumerateDistinct(dir.children.Keys);
    DistinctLength(Enumerate(dir.children.Keys));
    FlattenFiles(dir, Enumerate(dir.children.Keys), []);
    ZeroTotal(FlattenDir(dir, []).value);
  }

  lemma CrowdIsStuck(n: nat, width: nat)
    requires n == MAX_BUNDLE_MEMBERS <= Power(width) && 2 < width <= LONGEST_NAME
    ensures var dir := Dir(Crowd(n, width));
      Proper(dir) && ShortNames(dir) && Bundle(dir).Some? && Extract(Bundle(dir).value).None?
  {
    CrowdListing(n, width);
    CrowdIsProper(Dir(Crowd(n, width)), n, width);
    RoundTripIff(Dir(Crowd(n, width)));
  }

  lemma {:induction false} DigitsAreBytes(s: string)
    requires Digits(s)
    ensures Utf8Length(s) == |s|
    decreases |s|
  {
    if s != "" { DigitsAreBytes(s[1..]); }
  }

  lemma NumeralIsProper(i: nat, width: nat)
    requires 2 < width <= LONGEST_NAME
    ensures ProperName(Numeral(i, width)) && Utf8Length(Numeral(i, width)) <= LONGEST_NAME
  {
    NumeralIsDigits(i, width);
    DigitsAreBytes(Numeral(i, width));
  }

  lemma CrowdIsProper(dir: Node, n: nat, width: nat)
    requires dir == Dir(Crowd(n, width)) && 2 < width <= LONGEST_NAME
    ensures Proper(dir) && ShortNames(dir)
  {
    forall path, i | Find(dir, path).Some? && 0 <= i < |path|
      ensures ProperName(path[i]) && Utf8Length(path[i]) <= LONGEST_NAME
    {
      CrowdNames(n, width, path[0]);
      assert |path| > 1 ==> Find(dir, path) == Find(File([]), path[1..]);
      var j :| 0 <= j < n && path[0] == Numeral(j, width);
      NumeralIsProper(j, width);
    }
  }
}
