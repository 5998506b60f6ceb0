/** What the server starts with. `seed` makes the folders that are missing and never looks
    at what is in their place; the tree it builds at start-up satisfies everything the
    requests rely on. */
module Seeds {
  import opened Options
  import opened Paths
  import opened Naming
  import opened FileTree
  import opened Requests
  import opened RequestFacts
  import opened Effects
  import opened Runs
  import opened Stores
  import opened Storage

  // -------------------------------------------------------------------------- one seed

  lemma {:induction false} ParentOfRender(segs: seq<string>)
    requires AreSegments(segs) && segs != []
    ensures AreSegments(segs[..|segs| - 1])
    ensures IsKey(Render(segs)) && ParentOf(Render(segs)) == Absolute(segs[..|segs| - 1])
  {
    var front, name := segs[..|segs| - 1], segs[|segs| - 1];
    assert AreSegments(front);
    AbsoluteIsCanonical(front);
    JoinIsRender(Absolute(front), name);
    ParentAndNameOfJoin(Absolute(front), name);
    assert front + [name] == segs;
  }

  lemma {:induction false} FrontIsAbove(segs: seq<string>)
    requires |segs| > 1
    ensures Under(Absolute(segs[..|segs| - 1]), Render(segs))
  {
  }

  /** Whatever is there stays; what is new is a folder on the way to `segs`. */
  lemma {:induction false} FoldersAdd(m: FlatTree, segs: seq<string>, k: string)
    ensures var m' := WithFolders(m, segs);
      && (k in m ==> k in m' && m'[k] == m[k])
      && (k in m' && k !in m ==> m'[k].Folder? && segs != [] && Under(k, Render(segs)))
  {
    if segs != [] {
      var front := segs[..|segs| - 1];
      FoldersAdd(m, front, k);
      if k in WithFolders(m, front) && k !in m {
        FrontIsAbove(segs);
        UnderTransitive(k, Render(front), Render(segs));
      }
    }
  }

  ghost predicate OnlyFoldersAt(m: FlatTree, segs: seq<string>) {
    forall a :: a in m && segs != [] && Under(a, Render(segs)) ==> m[a].Folder?
  }

  lemma {:induction false} OnlyFoldersAbove(m: FlatTree, segs: seq<string>)
    requires OnlyFoldersAt(m, segs) && segs != []
    ensures OnlyFoldersAt(m, segs[..|segs| - 1])
    ensures Render(segs) in m ==> m[Render(segs)].Folder?
  {
  }

  lemma {:induction false} FoldersKeep(m: FlatTree, segs: seq<string>)
    requires WellFormed(m) && AreSegments(segs) && OnlyFoldersAt(m, segs)
    ensures WellFormed(WithFolders(m, segs)) && IsDir(WithFolders(m, segs), Absolute(segs))
  {
    hide IsKey, ParentOf, AreSegments, Render, Under, OnlyFoldersAt, WellFormed;
    if segs != [] {
      var front, p := segs[..|segs| - 1], Render(segs);
      OnlyFoldersAbove(m, segs);
      ParentOfRender(segs);
      FoldersKeep(m, front);
      FoldersAdd(m, front, p);
      var above := WithFolders(m, front);
      if p !in above {
        FolderAdded(above, p);
      }
    }
  }

  lemma {:induction false} FolderAdded(m: FlatTree, p: string)
    requires WellFormed(m) && IsKey(p) && IsDir(m, ParentOf(p)) && p !in m
    ensures WellFormed(m[p := Folder])
  {
    hide IsKey, ParentOf;
  }

  /** A seed may be put at `p`: no file stands above it, and a file is not put where
      something lies below. */
  ghost predicate Fits(m: FlatTree, p: string, node: Node) {
    && (forall a :: a in m && a != p && Under(a, p) ==> m[a].Folder?)
    && (node.File? ==> forall k :: k in m && k != p ==> !Under(p, k))
  }

  lemma {:induction false} UnderParent(a: string, p: string)
    requires IsKey(p) && ParentOf(p) != "/" && Under(a, ParentOf(p))
    ensures Under(a, p) && a != p
  {
  }

  /** The segments above a key. */
  function Front(p: string): seq<string> {
    if Segments(p) == [] then [] else Segments(p)[..|Segments(p)| - 1]
  }

  lemma {:induction false} FrontOfKey(p: string)
    requires IsKey(p)
    ensures AreSegments(Front(p)) && Absolute(Front(p)) == ParentOf(p)
    ensures Front(p) == [] <==> ParentOf(p) == "/"
  {
    ParentOfRender(Segments(p));
    AbsoluteIsCanonical(Front(p));
    CanonicalIsAbsolute(ParentOf(p));
  }

  lemma {:induction false} GroundKeeps(m: FlatTree, p: string, node: Node)
    requires WellFormed(m) && IsKey(p) && Fits(m, p, node)
    ensures WellFormed(WithFolders(m, Front(p))) && IsDir(WithFolders(m, Front(p)), ParentOf(p))
  {
    FrontOfKey(p);
    hide IsKey, ParentOf, AreSegments, Render, Segments, WithFolders, Front, Under;
    var front := Front(p);
    forall a | a in m && front != [] && Under(a, Render(front))
      ensures m[a].Folder?
    {
      UnderParent(a, p);
    }
    FoldersKeep(m, front);
  }

  lemma {:induction false} NoFileUnderKeys(m: FlatTree, p: string, node: Node, k: string)
    requires WellFormed(m) && IsKey(p) && Fits(m, p, node)
    requires k in WithFolders(m, Front(p)) && IsKey(k) && ParentOf(k) == p
    ensures node.Folder?
  {
    FrontOfKey(p);
    FoldersAdd(m, Front(p), k);
    RootIsNotAKey(p);
    ParentIsAbove(k);
    if k !in m {
      UnderParent(k, p);
      UnderBothWays(k, p);
    }
  }

  lemma {:induction false} UnderBothWays(a: string, b: string)
    requires Under(a, b) && Under(b, a)
    ensures a == b
  {
  }

  lemma {:induction false} SeedKeeps(m: FlatTree, p: string, node: Node)
    requires WellFormed(m) && IsKey(p) && Fits(m, p, node)
    ensures WellFormed(Seeded(m, p, node))
  {
    hide IsKey, ParentOf, WithFolders, Front, Seeded, Fits;
    GroundKeeps(m, p, node);
    SeededOnGround(m, p, node);
    var ground := WithFolders(m, Front(p));
    forall k | k in ground && ParentOf(k) == p
      ensures node.Folder?
    {
      NoFileUnderKeys(m, p, node, k);
    }
    KeyPut(ground, p, node);
  }

  lemma {:induction false} SeededOnGround(m: FlatTree, p: string, node: Node)
    ensures Seeded(m, p, node) == WithFolders(m, Front(p))[p := node]
  {
    hide WithFolders, Segments;
  }

  lemma {:induction false} KeyPut(m: FlatTree, p: string, node: Node)
    requires WellFormed(m) && IsKey(p) && IsDir(m, ParentOf(p))
    requires node.File? ==> forall k :: k in m ==> ParentOf(k) != p
    ensures WellFormed(m[p := node])
  {
    hide IsKey, ParentOf;
  }

  /** A seed keeps the tree well-formed exactly when it fits. */
  lemma {:induction false} SeedKeepsExactly(m: FlatTree, p: string, node: Node)
    requires WellFormed(m) && IsKey(p)
    ensures WellFormed(Seeded(m, p, node)) <==> Fits(m, p, node)
  {
    hide IsKey, ParentOf, Under, Front, WithFolders;
    if Fits(m, p, node) {
      SeedKeeps(m, p, node);
    }
    var after := Seeded(m, p, node);
    if WellFormed(after) {
      forall a | a in m && a != p && Under(a, p)
        ensures m[a].Folder?
      {
        SeedLeaves(m, p, node, a);
        AncestorsAreFolders(after, a, p);
      }
      forall k | node.File? && k in m && k != p
        ensures !Under(p, k)
      {
        SeedLeaves(m, p, node, k);
        if Under(p, k) {
          AncestorsAreFolders(after, p, k);
        }
      }
    }
  }

  lemma {:induction false} SeedLeaves(m: FlatTree, p: string, node: Node, k: string)
    requires k in m && k != p
    ensures var after := Seeded(m, p, node); k in after && after[k] == m[k] && p in after && after[p] == node
  {
    var parts := Segments(p);
    FoldersAdd(m, if parts == [] then [] else parts[..|parts| - 1], k);
  }

  lemma {:induction false} ParentIsAbove(k: string)
    requires IsKey(k) && ParentOf(k) != "/"
    ensures Under(ParentOf(k), k) && ParentOf(k) != k
  {
  }

  // ------------------------------------------------------------------------- many seeds

  datatype Seed = Seed(path: string, node: Node)

  function Planted(seeds: seq<Seed>): FlatTree {
    if seeds == [] then map[]
    else
      var last := seeds[|seeds| - 1];
      Seeded(Planted(seeds[..|seeds| - 1]), last.path, last.node)
  }

  /** Every seed is a key, and no file among them stands above another one. */
  ghost predicate Compatible(seeds: seq<Seed>) {
    && (forall i :: 0 <= i < |seeds| ==> IsKey(seeds[i].path))
    && (forall i, j :: 0 <= i < |seeds| && 0 <= j < |seeds| ==>
          seeds[i].node.File? && Under(seeds[i].path, seeds[j].path) ==> seeds[i].path == seeds[j].path)
  }

  /** Every key was made on the way to a seed, and a file is a seed itself. */
  ghost predicate Explained(m: FlatTree, seeds: seq<Seed>) {
    forall k :: k in m ==> exists i :: 0 <= i < |seeds| && Explains(k, m[k], seeds[i])
  }

  predicate Explains(k: string, node: Node, s: Seed) {
    Under(k, s.path) && (node.File? ==> k == s.path && s.node.File?)
  }

  lemma {:induction false} SeedExplained(m: FlatTree, s: Seed, k: string)
    requires IsKey(s.path) && k in Seeded(m, s.path, s.node)
    ensures (k in m && Seeded(m, s.path, s.node)[k] == m[k]) || Explains(k, Seeded(m, s.path, s.node)[k], s)
  {
    hide WithFolders, Front, IsKey;
    SeededOnGround(m, s.path, s.node);
    FoldersAdd(m, Front(s.path), k);
    FrontOfKey(s.path);
    hide ParentOf;
    if k != s.path && k !in m {
      UnderParent(k, s.path);
    }
  }

  lemma {:induction false} AllExplained(seeds: seq<Seed>)
    requires forall i :: 0 <= i < |seeds| ==> IsKey(seeds[i].path)
    ensures Explained(Planted(seeds), seeds)
  {
    hide IsKey, Seeded, Explains;
    if seeds != [] {
      var n := |seeds| - 1;
      var before, after := Planted(seeds[..n]), Planted(seeds);
      AllExplained(seeds[..n]);
      forall k | k in after
        ensures exists i :: 0 <= i < |seeds| && Explains(k, after[k], seeds[i])
      {
        SeedExplained(before, seeds[n], k);
        if k in before && after[k] == before[k] {
          var i :| 0 <= i < n && Explains(k, before[k], seeds[..n][i]);
          assert seeds[..n][i] == seeds[i];
        }
      }
    }
  }

  lemma {:induction false} NextFits(seeds: seq<Seed>, n: nat)
    requires Compatible(seeds) && n < |seeds|
    ensures Fits(Planted(seeds[..n]), seeds[n].path, seeds[n].node)
  {
    hide IsKey, Under, Planted;
    var m, p, node := Planted(seeds[..n]), seeds[n].path, seeds[n].node;
    AllExplained(seeds[..n]);
    forall a | a in m && a != p && Under(a, p)
      ensures m[a].Folder?
    {
      var i :| 0 <= i < n && Explains(a, m[a], seeds[..n][i]);
      assert seeds[..n][i] == seeds[i];
    }
    forall k | node.File? && k in m && k != p
      ensures !Under(p, k)
    {
      var i :| 0 <= i < n && Explains(k, m[k], seeds[..n][i]);
      assert seeds[..n][i] == seeds[i];
      if Under(p, k) {
        UnderTransitive(p, k, seeds[i].path);
        UnderBothWays(p, k);
      }
    }
  }

  /** Seeds of which no file stands above another give a well-formed tree, in any order. */
  lemma {:induction false} PlantedIsWellFormed(seeds: seq<Seed>)
    requires Compatible(seeds)
    ensures WellFormed(Planted(seeds))
  {
    if seeds != [] {
      hide IsKey, Under, Seeded, WellFormed, Fits;
      var n := |seeds| - 1;
      assert Compatible(seeds[..n]);
      PlantedIsWellFormed(seeds[..n]);
      NextFits(seeds, n);
      SeedKeeps(Planted(seeds[..n]), seeds[n].path, seeds[n].node);
    }
  }

  lemma {:induction false} SeedIsPlanted(seeds: seq<Seed>, i: nat)
    requires Compatible(seeds) && i < |seeds|
    ensures seeds[i].path in Planted(seeds)
  {
    hide IsKey, Under, Seeded;
    var n := |seeds| - 1;
    if i < n {
      assert Compatible(seeds[..n]);
      SeedIsPlanted(seeds[..n], i);
    }
    SeedStays(Planted(seeds[..n]), seeds[n], seeds[i].path);
  }

  lemma {:induction false} SeedStays(m: FlatTree, s: Seed, k: string)
    requires k in m || k == s.path
    ensures k in Seeded(m, s.path, s.node)
  {
    var parts := Segments(s.path);
    FoldersAdd(m, if parts == [] then [] else parts[..|parts| - 1], k);
  }

  // ------------------------------------------------------------------------ at start-up

  /** `s.padStart(n, "0")`. */
  function PadStart(s: string, n: nat): (r: string)
    ensures AllDigits(s) ==> AllDigits(r)
    decreases n - |s|
  {
    if |s| >= n then s else PadStart("0" + s, n)
  }

  function ManyFile(i: nat): string {
    "file-" + PadStart(Decimal(i), 3) + ".txt"
  }

  function TopFolder(name: string): Seed {
    Seed("/" + name, Folder)
  }

  function TopFile(contents: string -> Bytes, name: string): Seed {
    Seed("/" + name, File(contents("/" + name)))
  }

  function FileIn(contents: string -> Bytes, dir: string, name: string): Seed {
    Seed("/" + dir + "/" + name, File(contents("/" + dir + "/" + name)))
  }

  /** The first seeds of the server; what is in the files does not matter here. */
  function FirstSeeds(contents: string -> Bytes): seq<Seed> {
    [TopFolder("Documents"), FileIn(contents, "Documents", "notes.txt"), FileIn(contents, "Documents", "readme.md"),
     TopFolder("Photos"), FileIn(contents, "Photos", "pixel.png"),
     TopFolder("Music"), TopFile(contents, "big.bin"), TopFile(contents, "100% real.txt")]
  }

  function ManySeeds(contents: string -> Bytes, n: nat): seq<Seed> {
    seq(n, i requires 0 <= i < n => FileIn(contents, "many", ManyFile(i + 1)))
  }

  function HiddenSeed(contents: string -> Bytes): Seed {
    var path := RECYCLE + "hidden.txt";
    Seed(path, File(contents(path)))
  }

  function StartSeeds(contents: string -> Bytes): seq<Seed> {
    FirstSeeds(contents) + ManySeeds(contents, 260) + [HiddenSeed(contents)]
  }

  const FOLDER_NAMES := {"Documents", "Photos", "Music", "many"}

  const FILE_NAMES := {"big.bin", "100% real.txt"}

  /** Each seed is a folder or a file at the top, a file in one of those folders, or the file
      in the bin. */
  predicate IsStartSeed(s: Seed) {
    var segs := Segments(s.path);
    && IsKey(s.path)
    && (|| (|segs| == 1 && segs[0] in FOLDER_NAMES && s.node.Folder?)
        || (|segs| == 1 && segs[0] in FILE_NAMES && s.node.File?)
        || (|segs| == 2 && segs[0] in FOLDER_NAMES && s.node.File?)
        || (segs == [".vaultbox", "recycle", "hidden.txt"] && s.node.File?))
  }

  lemma {:induction false} StartFilesStandApart(a: Seed, b: Seed)
    requires IsStartSeed(a) && IsStartSeed(b) && a.node.File? && Under(a.path, b.path)
    ensures a.path == b.path
  {
    UnderIsSegmentPrefix(a.path, b.path);
    var p, k := Segments(a.path), Segments(b.path);
    hide IsKey, Segments, Render, Under;
    assert p[0] == k[0];
  }

  lemma {:induction false} TopFolderIsStart(name: string)
    requires IsSegment(name) && name in FOLDER_NAMES
    ensures IsStartSeed(TopFolder(name))
  {
    TopKey(name);
    hide IsKey, Segments;
  }

  lemma {:induction false} TopFileIsStart(contents: string -> Bytes, name: string)
    requires IsSegment(name) && name in FILE_NAMES
    ensures IsStartSeed(TopFile(contents, name))
  {
    TopKey(name);
    hide IsKey, Segments;
  }

  lemma {:induction false} FileInIsStart(contents: string -> Bytes, dir: string, name: string)
    requires dir in FOLDER_NAMES && IsSegment(dir) && IsSegment(name)
    ensures IsStartSeed(FileIn(contents, dir, name))
  {
    TopKey(dir);
    KeyBelow("/" + dir, name);
    hide IsKey, Segments;
  }

  lemma {:induction false} TopNamesAreSegments()
    ensures IsSegment("Documents") && IsSegment("Photos") && IsSegment("Music")
    ensures IsSegment("big.bin") && IsSegment("100% real.txt")
  {
  }

  lemma {:induction false} FileNamesAreSegments()
    ensures IsSegment("notes.txt") && IsSegment("readme.md") && IsSegment("pixel.png")
  {
  }

  lemma {:induction false} FirstSeedsAreStart(contents: string -> Bytes)
    ensures forall s :: s in FirstSeeds(contents) ==> IsStartSeed(s)
  {
    hide IsStartSeed, TopFolder, TopFile, FileIn, IsSegment;
    TopNamesAreSegments();
    FileNamesAreSegments();
    TopFolderIsStart("Documents");
    TopFolderIsStart("Photos");
    TopFolderIsStart("Music");
    TopFileIsStart(contents, "big.bin");
    TopFileIsStart(contents, "100% real.txt");
    FileInIsStart(contents, "Documents", "notes.txt");
    FileInIsStart(contents, "Documents", "readme.md");
    FileInIsStart(contents, "Photos", "pixel.png");
  }

  /** "file-001.txt" to "file-260.txt". */
  lemma {:induction false} ManyFileIs(i: nat)
    requires 1 <= i <= 260
    ensures var name := ManyFile(i);
      |name| == 12 && name[..5] == "file-" && name[8..] == ".txt"
      && AllDigits(name[5..8]) && Number(name[5..8]) == i
  {
    DecimalLength(i);
    var d := Decimal(i);
    hide Decimal;
    PaddedIs(d);
  }

  lemma {:induction false} DecimalLength(i: nat)
    requires 1 <= i <= 260
    ensures 1 <= |Decimal(i)| <= 3 && AllDigits(Decimal(i)) && Number(Decimal(i)) == i
  {
    NumberOfDecimal(i);
    if i >= 10 {
      assert |Decimal(i)| == |Decimal(i / 10)| + 1;
      if i >= 100 {
        assert |Decimal(i / 10)| == |Decimal(i / 10 / 10)| + 1 && i / 10 / 10 < 10;
      }
    }
  }

  lemma {:induction false} PaddedIs(d: string)
    requires 1 <= |d| <= 3 && AllDigits(d)
    ensures var r := PadStart(d, 3); |r| == 3 && AllDigits(r) && Number(r) == Number(d)
    decreases 3 - |d|
  {
    if |d| < 3 {
      ZeroInFront(d);
      PaddedIs("0" + d);
    }
  }

  lemma {:induction false} ZeroInFront(d: string)
    requires AllDigits(d)
    ensures Number("0" + d) == Number(d)
  {
    var s := "0" + d;
    if d == "" {
      assert s[..0] == "";
    } else {
      ZeroInFront(d[..|d| - 1]);
      assert s[..|s| - 1] == "0" + d[..|d| - 1];
    }
  }

  lemma {:induction false} ManyFileIsSegment(i: nat)
    ensures IsSegment(ManyFile(i))
  {
  }

  lemma {:induction false} ManySeedsAreStart(contents: string -> Bytes, n: nat)
    ensures forall s :: s in ManySeeds(contents, n) ==> IsStartSeed(s)
  {
    hide IsStartSeed, FileIn, ManyFile;
    forall i | 0 <= i < n
      ensures IsStartSeed(ManySeeds(contents, n)[i])
    {
      ManyFileIsSegment(i + 1);
      FileInIsStart(contents, "many", ManyFile(i + 1));
    }
  }

  lemma {:induction false} HiddenSeedIsStart(contents: string -> Bytes)
    ensures IsStartSeed(HiddenSeed(contents))
    ensures Under(BIN, HiddenSeed(contents).path) && BIN != HiddenSeed(contents).path
  {
    BinIsKey();
    hide BIN;
    KeyBelow(BIN, "hidden.txt");
    assert RECYCLE == BIN + "/";
    hide IsKey, Segments;
  }

  lemma {:induction false} StartSeedIs(contents: string -> Bytes, s: Seed)
    requires s in StartSeeds(contents)
    ensures s in FirstSeeds(contents) || s in ManySeeds(contents, 260) || s == HiddenSeed(contents)
  {
    hide FirstSeeds, ManySeeds, HiddenSeed;
  }

  lemma {:induction false} StartSeedsAreStart(contents: string -> Bytes)
    ensures forall s :: s in StartSeeds(contents) ==> IsStartSeed(s)
  {
    hide *;
    FirstSeedsAreStart(contents);
    ManySeedsAreStart(contents, 260);
    HiddenSeedIsStart(contents);
    forall s | s in StartSeeds(contents)
      ensures IsStartSeed(s)
    {
      StartSeedIs(contents, s);
    }
  }

  lemma {:induction false} StartSeedsAreCompatible(seeds: seq<Seed>)
    requires forall s :: s in seeds ==> IsStartSeed(s)
    ensures Compatible(seeds)
  {
    hide IsKey, Under, Segments, FOLDER_NAMES, FILE_NAMES;
    forall i | 0 <= i < |seeds|
      ensures IsKey(seeds[i].path)
    {
      assert seeds[i] in seeds;
    }
    forall i, j | 0 <= i < |seeds| && 0 <= j < |seeds| && seeds[i].node.File? && Under(seeds[i].path, seeds[j].path)
      ensures seeds[i].path == seeds[j].path
    {
      StartFilesStandApart(seeds[i], seeds[j]);
    }
  }

  /** The server starts with a well-formed tree that has the bin. */
  lemma {:induction false} StartIsSound(contents: string -> Bytes)
    ensures Sound(Planted(StartSeeds(contents)))
  {
    var seeds := StartSeeds(contents);
    var n := |seeds| - 1;
    assert seeds[n] == HiddenSeed(contents) by { hide HiddenSeed; }
    hide IsKey, Planted, Under, StartSeeds, Segments, BIN, IsStartSeed, HiddenSeed, Compatible;
    HiddenSeedIsStart(contents);
    StartSeedsAreStart(contents);
    StartSeedsAreCompatible(seeds);
    BinIsKey();
    PlantedIsWellFormed(seeds);
    SeedIsPlanted(seeds, n);
    AncestorsAreFolders(Planted(seeds), BIN, seeds[n].path);
  }

  lemma {:induction false} BelowFolder(dir: string, name: string)
    ensures Under(dir, dir + "/" + name) && dir != dir + "/" + name
  {
  }

  lemma {:induction false} FirstOfMany(contents: string -> Bytes) returns (i: nat)
    ensures i < |StartSeeds(contents)| && StartSeeds(contents)[i].path == "/many" + "/" + ManyFile(1)
  {
    hide ManyFile, FirstSeeds, HiddenSeed;
    i := |FirstSeeds(contents)|;
    assert StartSeeds(contents)[i] == ManySeeds(contents, 260)[0];
  }

  lemma {:induction false} ManyIsThere(contents: string -> Bytes)
    ensures "/many" in Planted(StartSeeds(contents)) && IsKey("/many")
  {
    hide *;
    ManyIsKey();
    var seeds := StartSeeds(contents);
    var i := FirstOfMany(contents);
    StartSeedsAreStart(contents);
    StartSeedsAreCompatible(seeds);
    PlantedIsWellFormed(seeds);
    SeedIsPlanted(seeds, i);
    BelowFolder("/many", ManyFile(1));
    AncestorsAreFolders(Planted(seeds), "/many", seeds[i].path);
  }

  lemma {:induction false} ManyIsKey()
    ensures IsKey("/many") && Segments("/many") == ["many"]
  {
    TopKey("many");
    assert "/" + "many" == "/many";
    hide IsKey, Segments;
  }

  /** So whatever guarded requests follow the start-up, in any order and number, the tree stays
      well-formed and the bin keeps everything. */
  lemma {:induction false} SoundFromTheStart(contents: string -> Bytes, calls: seq<Call>)
    requires GuardedRun(Planted(StartSeeds(contents)), calls)
    ensures var m := Planted(StartSeeds(contents));
      && RunIn(Sown(StartSeeds(contents)), calls).nodes == After(m, calls) && Sound(After(m, calls))
      && forall i :: 0 <= i <= |calls| ==> HiddenKept(After(m, calls[..i]), After(m, calls))
  {
    var seeds := StartSeeds(contents);
    assert forall c :: c in calls ==> HasIds(c.request);
    hide *;
    StartIsSound(contents);
    SownIs(seeds);
    RunKeeps(Planted(seeds), calls);
    GuardedIsUntangled(Planted(seeds), calls);
    RunIs(Sown(seeds), calls);
  }

  // -------------------------------------------------------------------- the program's head

  /** What the seeds make, with the order of the keys. */
  function Sown(seeds: seq<Seed>): Store {
    if seeds == [] then Store(map[], [])
    else
      var last := seeds[|seeds| - 1];
      SeededIn(Sown(seeds[..|seeds| - 1]), last.path, last.node)
  }

  lemma {:induction false} SownIs(seeds: seq<Seed>)
    ensures IsStore(Sown(seeds)) && Sown(seeds).nodes == Planted(seeds)
  {
    hide IsStore, SeededIn, Seeded;
    if seeds == [] {
      EmptyIsStore();
    } else {
      var n := |seeds| - 1;
      SownIs(seeds[..n]);
      SeededIs(Sown(seeds[..n]), seeds[n].path, seeds[n].node);
    }
  }

  lemma {:induction false} SownOneMore(seeds: seq<Seed>, s: Seed)
    ensures Sown(seeds + [s]) == SeededIn(Sown(seeds), s.path, s.node)
  {
    hide SeededIn;
    assert (seeds + [s])[..|seeds|] == seeds;
  }

  /** The calls of `seed` at the head of the program. */
  method Start(contents: string -> Bytes) returns (server: Server)
    ensures fresh(server) && server.Valid() && server.State() == Sown(StartSeeds(contents))
    ensures server.nodes == Planted(StartSeeds(contents)) && Sound(server.nodes)
  {
    hide *;
    server := new Server();
    var first := FirstSeeds(contents);
    SownNone();
    assert first[..0] == [];
    for i := 0 to |first|
      invariant fresh(server) && server.Valid() && server.State() == Sown(first[..i])
    {
      server.Seed(first[i].path, first[i].node);
      SownOneMore(first[..i], first[i]);
      assert first[..i + 1] == first[..i] + [first[i]];
    }
    assert first[..|first|] == first;
    ManyNone(contents);
    assert first + [] == first;
    for i := 1 to 261
      invariant fresh(server) && server.Valid() && server.State() == Sown(first + ManySeeds(contents, i - 1))
    {
      var file := FileIn(contents, "many", ManyFile(i));
      server.Seed(file.path, file.node);
      ManyOneMore(contents, i - 1);
      SownOneMore(first + ManySeeds(contents, i - 1), file);
      assert first + (ManySeeds(contents, i - 1) + [file]) == first + ManySeeds(contents, i - 1) + [file];
    }
    var hidden := HiddenSeed(contents);
    server.Seed(hidden.path, hidden.node);
    SownOneMore(first + ManySeeds(contents, 260), hidden);
    StartSeedsAre(contents);
    StartIsSound(contents);
    SownIs(StartSeeds(contents));
    StateIs(server);
  }

  lemma {:induction false} SownNone()
    ensures Sown([]) == Store(map[], [])
  {
  }

  lemma {:induction false} StartSeedsAre(contents: string -> Bytes)
    ensures StartSeeds(contents) == FirstSeeds(contents) + ManySeeds(contents, 260) + [HiddenSeed(contents)]
  {
  }

  lemma {:induction false} ManyNone(contents: string -> Bytes)
    ensures ManySeeds(contents, 0) == []
  {
  }

  lemma {:induction false} ManyOneMore(contents: string -> Bytes, n: nat)
    ensures ManySeeds(contents, n + 1) == ManySeeds(contents, n) + [FileIn(contents, "many", ManyFile(n + 1))]
  {
    hide ManyFile, FileIn;
  }
}
