/** From a V1 tree one Run takes every profile's data to its V4 place, unchanged, through all three stages. */
module MigratorCompleteness {
  import opened Wrappers
  import opened FileTree
  import opened LayoutMigrator
  import opened MigratorPaths

  ghost predicate Distinct(names: seq<string>) {
    forall i, j | 0 <= i < j < |names| :: names[i] != names[j]
  }

  /** No path at or under dir has changed. */
  ghost predicate Untouched(t: Tree, t': Tree, dir: Path) {
    SameSubtree(t, dir, t', dir)
  }

  lemma SubtreesCompose(t: Tree, p: Path, t': Tree, p': Path, t'': Tree, p'': Path)
    requires SameSubtree(t, p, t', p') && SameSubtree(t', p', t'', p'')
    ensures SameSubtree(t, p, t'', p'')
  {
    forall q: Path
      ensures Get(t'', p'' + q) == Get(t, p + q)
    {
      assert Get(t', p' + q) == Get(t, p + q);
    }
  }

  lemma SubtreesNarrow(t: Tree, p: Path, t': Tree, p': Path, x: Path)
    requires SameSubtree(t, p, t', p')
    ensures SameSubtree(t, p + x, t', p' + x)
  {
    forall q: Path
      ensures Get(t', p' + x + q) == Get(t, p + x + q)
    {
      assert p' + x + q == p' + (x + q) && p + x + q == p + (x + q);
    }
  }

  /** A guarded move to a free name in a directory brings the subtree over; an absent source leaves the
      destination absent. */
  lemma MoveBrings(t: Tree, src: Path, dst: Path, onlyDir: bool)
    requires WellFormed(t) && src != [] && dst != [] && Apart(src, dst)
    requires dst !in t && IsDir(t, Parent(dst)) && (onlyDir ==> !IsFile(t, src))
    ensures WellFormed(GuardedMove(t, src, dst, onlyDir))
    ensures SameSubtree(t, src, GuardedMove(t, src, dst, onlyDir), dst)
  {
    var t' := GuardedMove(t, src, dst, onlyDir);
    assert !(src <= dst);
    GuardedMoveAt(t, src, dst, onlyDir, []);
    forall q: Path
      ensures Get(t', dst + q) == Get(t, src + q)
    {
      GuardedMoveAt(t, src, dst, onlyDir, dst + q);
      assert (dst + q)[|dst|..] == q;
      if src !in t {
        BelowAbsent(t, src, src + q);
        BelowAbsent(t, dst, dst + q);
      }
    }
  }

  lemma BelowAbsent(t: Tree, p: Path, q: Path)
    requires WellFormed(t) && p !in t && p <= q
    ensures q !in t
  {
    if p != q {
      NothingUnder(t, q, p);
    }
  }

  /** A move leaves alone every subtree that meets neither its source nor its destination. */
  lemma MoveSpares(t: Tree, src: Path, dst: Path, onlyDir: bool, dir: Path)
    requires WellFormed(t) && src != [] && dst != []
    requires Apart(src, dir) && Apart(dst, dir)
    ensures Untouched(t, GuardedMove(t, src, dst, onlyDir), dir)
  {
    var t' := GuardedMove(t, src, dst, onlyDir);
    forall q: Path
      ensures Get(t', dir + q) == Get(t, dir + q)
    {
      GuardedMoveAt(t, src, dst, onlyDir, dir + q);
      NotUnder(src, dir, q);
      NotUnder(dst, dir, q);
    }
  }

  /** The two paths part at some name. */
  ghost predicate Apart(p: Path, q: Path) {
    exists i: nat | i < |p| && i < |q| :: p[i] != q[i]
  }

  lemma NotUnder(p: Path, dir: Path, q: Path)
    requires Apart(p, dir)
    ensures !(p <= dir + q)
  {
    var i: nat :| i < |p| && i < |dir| && p[i] != dir[i];
    assert (dir + q)[i] == dir[i];
  }

  lemma NotAbove(p: Path, dir: Path, q: Path)
    requires Apart(p, dir)
    ensures !(dir + q <= p)
  {
    var i: nat :| i < |p| && i < |dir| && p[i] != dir[i];
    assert (dir + q)[i] == dir[i];
  }

  lemma ItemsDiffer()
    ensures SNAPSHOT != "memory" && SNAPSHOT != "workspaces" && "memory" != "workspaces"
    ensures "runtime" != "runtimes"
  {
    assert |SNAPSHOT| == 18 && |"memory"| == 6 && |"workspaces"| == 10 && |"runtime"| == 7 && |"runtimes"| == 8;
  }

  // ---------------------------------------------------------------- V1 to V2

  /** A directory, or nothing, at src has come to dst with all it holds; of a file nothing comes. */
  ghost predicate DirArrives(t: Tree, src: Path, t': Tree, dst: Path) {
    if IsFile(t, src) then forall q: Path :: dst + q !in t' else SameSubtree(t, src, t', dst)
  }

  lemma ArrivesOn(t: Tree, p: Path, t': Tree, p': Path, t'': Tree, p'': Path)
    requires DirArrives(t, p, t', p') && SameSubtree(t', p', t'', p'')
    ensures DirArrives(t, p, t'', p'')
  {
    if IsFile(t, p) {
      forall q: Path
        ensures p'' + q !in t''
      {
        assert Get(t'', p'' + q) == Get(t', p' + q);
      }
    } else {
      SubtreesCompose(t, p, t', p', t'', p'');
    }
  }

  lemma ArrivesFrom(t: Tree, p: Path, t1: Tree, t': Tree, p': Path)
    requires Untouched(t, t1, p) && DirArrives(t1, p, t', p')
    ensures DirArrives(t, p, t', p')
  {
    UntouchedRoot(t, t1, p);
    if !IsFile(t, p) {
      SubtreesCompose(t, p, t1, p, t', p');
    }
  }

  /** What the migration of one profile must bring over. */
  ghost predicate Brought(t: Tree, src: Path, t': Tree, dst: Path) {
    && SameSubtree(t, src + [SNAPSHOT], t', dst + [SNAPSHOT])
    && DirArrives(t, src + ["memory"], t', dst + ["memory"])
    && DirArrives(t, src + ["workspaces"], t', dst + ["workspaces"])
  }

  lemma MakeDirsSpares(t: Tree, dir: Path, p: Path)
    requires WellFormed(t) && (Apart(dir, p) || |p| > |dir|)
    ensures Untouched(t, MakeDirs(t, dir), p)
  {
    forall q: Path
      ensures Get(MakeDirs(t, dir), p + q) == Get(t, p + q)
    {
      MakeDirsAt(t, dir, p + q);
      if Apart(dir, p) {
        NotAbove(dir, p, q);
      }
    }
  }

  /** Moving one item of a profile: it arrives, and the other items stay as they are on both sides. */
  lemma ItemBrought(t: Tree, src: Path, dst: Path, x: string, onlyDir: bool)
    requires WellFormed(t) && src != [] && dst != [] && src[0] != dst[0] && IsDir(t, dst) && dst + [x] !in t
    ensures var t' := GuardedMove(t, src + [x], dst + [x], onlyDir);
      && WellFormed(t') && IsDir(t', dst)
      && (if onlyDir then DirArrives(t, src + [x], t', dst + [x]) else SameSubtree(t, src + [x], t', dst + [x]))
      && (forall y | y != x :: ItemKept(t, t', src, dst, y))
  {
    hide GuardedMove, SameSubtree, DirArrives, WellFormed;
    var from, to := src + [x], dst + [x];
    assert from[0] != to[0] && Parent(to) == dst;
    var t' := GuardedMove(t, from, to, onlyDir);
    if onlyDir && IsFile(t, from) {
      FileStays(t, from, to);
    } else {
      MoveBrings(t, from, to, onlyDir);
      AllArrives(t, from, t', to);
    }
    StillReady(t, from, to, onlyDir, dst);
    forall y | y != x
      ensures ItemKept(t, t', src, dst, y)
    {
      assert from[|src|] != (src + [y])[|src|] && to[0] != (src + [y])[0];
      assert to[|dst|] != (dst + [y])[|dst|] && from[0] != (dst + [y])[0];
      MoveSpares(t, from, to, onlyDir, src + [y]);
      MoveSpares(t, from, to, onlyDir, dst + [y]);
      UntouchedRoot(t, t', src + [y]);
      UntouchedRoot(t, t', dst + [y]);
    }
  }

  lemma AllArrives(t: Tree, from: Path, t': Tree, to: Path)
    requires SameSubtree(t, from, t', to)
    ensures !IsFile(t, from) ==> DirArrives(t, from, t', to)
  {
  }

  lemma FileStays(t: Tree, from: Path, to: Path)
    requires WellFormed(t) && from != [] && to != [] && IsFile(t, from) && to !in t
    ensures DirArrives(t, from, GuardedMove(t, from, to, true), to)
  {
    forall q: Path
      ensures to + q !in t
    {
      BelowAbsent(t, to, to + q);
    }
  }

  ghost predicate ItemKept(t: Tree, t': Tree, src: Path, dst: Path, y: string) {
    && Untouched(t, t', src + [y]) && Untouched(t, t', dst + [y])
    && Get(t', src + [y]) == Get(t, src + [y]) && Get(t', dst + [y]) == Get(t, dst + [y])
  }

  lemma ProfileBrought(t: Tree, src: Path, id: string)
    requires WellFormed(t) && src != [] && src[0] == "runtime" && RUNTIMES + [id] !in t && !IsFile(t, RUNTIMES)
    ensures var t' := MigrateProfile(t, src, RUNTIMES + [id]);
      && WellFormed(t') && IsDir(t', RUNTIMES + [id]) && Brought(t, src, t', RUNTIMES + [id])
  {
    hide GuardedMove, MakeDirs, SameSubtree, DirArrives, WellFormed;
    ItemsDiffer();
    var dst := RUNTIMES + [id];
    assert dst[0] == "runtimes";
    DestinationReady(t, src, id);
    var t0 := MakeDirs(t, dst);
    var t1 := GuardedMove(t0, src + [SNAPSHOT], dst + [SNAPSHOT], false);
    var t2 := GuardedMove(t1, src + ["memory"], dst + ["memory"], true);
    var t3 := GuardedMove(t2, src + ["workspaces"], dst + ["workspaces"], true);
    ItemBrought(t0, src, dst, SNAPSHOT, false);
    assert ItemKept(t0, t1, src, dst, "memory") && ItemKept(t0, t1, src, dst, "workspaces");
    ItemBrought(t1, src, dst, "memory", true);
    assert ItemKept(t1, t2, src, dst, SNAPSHOT) && ItemKept(t1, t2, src, dst, "workspaces");
    ItemBrought(t2, src, dst, "workspaces", true);
    assert ItemKept(t2, t3, src, dst, SNAPSHOT) && ItemKept(t2, t3, src, dst, "memory");
    AllBrought(t, t0, t1, t2, t3, src, dst);
  }

  lemma AllBrought(t: Tree, t0: Tree, t1: Tree, t2: Tree, t3: Tree, src: Path, dst: Path)
    requires forall x :: Untouched(t, t0, src + [x])
    requires SameSubtree(t0, src + [SNAPSHOT], t1, dst + [SNAPSHOT])
    requires DirArrives(t1, src + ["memory"], t2, dst + ["memory"])
    requires DirArrives(t2, src + ["workspaces"], t3, dst + ["workspaces"])
    requires ItemKept(t0, t1, src, dst, "memory") && ItemKept(t0, t1, src, dst, "workspaces")
    requires ItemKept(t1, t2, src, dst, SNAPSHOT) && ItemKept(t1, t2, src, dst, "workspaces")
    requires ItemKept(t2, t3, src, dst, SNAPSHOT) && ItemKept(t2, t3, src, dst, "memory")
    ensures Brought(t, src, t3, dst)
  {
    hide SameSubtree, DirArrives;
    var a, b, c := dst + [SNAPSHOT], dst + ["memory"], dst + ["workspaces"];
    var a', b', c' := src + [SNAPSHOT], src + ["memory"], src + ["workspaces"];
    assert Untouched(t, t0, a') && Untouched(t, t0, b') && Untouched(t, t0, c');
    SubtreesCompose(t, a', t0, a', t1, a);
    SubtreesCompose(t, a', t1, a, t2, a);
    SubtreesCompose(t, a', t2, a, t3, a);
    SubtreesCompose(t, b', t0, b', t1, b');
    ArrivesFrom(t, b', t1, t2, b);
    ArrivesOn(t, b', t2, b, t3, b);
    SubtreesCompose(t, c', t0, c', t1, c');
    SubtreesCompose(t, c', t1, c', t2, c');
    ArrivesFrom(t, c', t2, t3, c);
  }

  lemma UntouchedRoot(t: Tree, t': Tree, p: Path)
    requires Untouched(t, t', p)
    ensures Get(t', p) == Get(t, p)
  {
    assert p + [] == p;
    assert Get(t', p + []) == Get(t, p + []);
  }

  lemma StillReady(t: Tree, src: Path, dst: Path, onlyDir: bool, dir: Path)
    requires WellFormed(t) && src != [] && dst != [] && src[0] != dst[0] && IsDir(t, dir) && dir != [] && dir[0] == dst[0]
    requires |dst| > |dir|
    ensures WellFormed(GuardedMove(t, src, dst, onlyDir)) && IsDir(GuardedMove(t, src, dst, onlyDir), dir)
  {
    GuardedMoveAt(t, src, dst, onlyDir, dir);
  }

  lemma DestinationReady(t: Tree, src: Path, id: string)
    requires WellFormed(t) && src != [] && src[0] == "runtime" && RUNTIMES + [id] !in t && !IsFile(t, RUNTIMES)
    ensures var dst := RUNTIMES + [id]; var t0 := MakeDirs(t, dst);
      && WellFormed(t0) && IsDir(t0, dst)
      && (forall x :: dst + [x] !in t0)
      && (forall x :: Untouched(t, t0, src + [x]) && (IsFile(t0, src + [x]) <==> IsFile(t, src + [x])))
  {
    ItemsDiffer();
    var dst := RUNTIMES + [id];
    var t0 := MakeDirs(t, dst);
    assert Parent(dst) == RUNTIMES && Parent(RUNTIMES) == [];
    assert Clear(t, []) && Clear(t, RUNTIMES) && Clear(t, dst);
    MakeDirsAt(t, dst, dst);
    forall x
      ensures dst + [x] !in t0
    {
      MakeDirsAt(t, dst, dst + [x]);
      BelowAbsent(t, dst, dst + [x]);
    }
    forall x
      ensures Untouched(t, t0, src + [x]) && (IsFile(t0, src + [x]) <==> IsFile(t, src + [x]))
    {
      assert dst[0] != (src + [x])[0];
      MakeDirsSpares(t, dst, src + [x]);
      UntouchedRoot(t, t0, src + [x]);
    }
  }

  lemma ProfileSpares(t: Tree, src: Path, dst: Path, p: Path)
    requires WellFormed(t) && src != [] && dst != [] && Apart(src, p) && Apart(dst, p)
    ensures WellFormed(MigrateProfile(t, src, dst)) && Untouched(t, MigrateProfile(t, src, dst), p)
  {
    hide GuardedMove, MakeDirs, SameSubtree, WellFormed;
    var t0 := MakeDirs(t, dst);
    var t1 := GuardedMove(t0, src + [SNAPSHOT], dst + [SNAPSHOT], false);
    var t2 := GuardedMove(t1, src + ["memory"], dst + ["memory"], true);
    var t3 := GuardedMove(t2, src + ["workspaces"], dst + ["workspaces"], true);
    MakeDirsAt(t, dst, p);
    MakeDirsSpares(t, dst, p);
    ItemSpares(t0, src, dst, SNAPSHOT, false, p);
    ItemSpares(t1, src, dst, "memory", true, p);
    ItemSpares(t2, src, dst, "workspaces", true, p);
    SubtreesCompose(t, p, t0, p, t1, p);
    SubtreesCompose(t, p, t1, p, t2, p);
    SubtreesCompose(t, p, t2, p, t3, p);
  }

  lemma ItemSpares(t: Tree, src: Path, dst: Path, x: string, onlyDir: bool, p: Path)
    requires WellFormed(t) && src != [] && dst != [] && Apart(src, p) && Apart(dst, p)
    ensures WellFormed(GuardedMove(t, src + [x], dst + [x], onlyDir))
    ensures Untouched(t, GuardedMove(t, src + [x], dst + [x], onlyDir), p)
  {
    var i: nat :| i < |src| && i < |p| && src[i] != p[i];
    assert (src + [x])[i] == src[i];
    var j: nat :| j < |dst| && j < |p| && dst[j] != p[j];
    assert (dst + [x])[j] == dst[j];
    MoveSpares(t, src + [x], dst + [x], onlyDir, p);
    GuardedMoveAt(t, src + [x], dst + [x], onlyDir, p);
  }

  /** No listed profile has a place under runtimes yet. */
  ghost predicate NonePlaced(t: Tree, names: seq<string>) {
    !IsFile(t, RUNTIMES) && forall n | n in names :: RUNTIMES + [n] !in t
  }

  /** The profile loop, for one of the profiles it lists and for one it does not. */
  lemma {:induction false} ProfilesBrought(t: Tree, dir: Path, names: seq<string>, id: string)
    requires dir != [] && dir[0] == "runtime"
    requires WellFormed(t) && Distinct(names) && NonePlaced(t, names) && IsDir(t, dir + [id])
    ensures var t' := MigrateProfiles(t, dir, names);
      && WellFormed(t')
      && (id in names ==> IsDir(t', RUNTIMES + [id]) && Brought(t, dir + [id], t', RUNTIMES + [id]))
      && (id !in names ==> Untouched(t, t', dir + [id]) && Untouched(t, t', RUNTIMES + [id]))
    decreases names
  {
    hide MigrateProfile, WellFormed, SameSubtree;
    var src, dst := dir + [id], RUNTIMES + [id];
    if names == [] {
      SubtreeOfItself(t, src);
      SubtreeOfItself(t, dst);
    } else {
      var n, rest := names[0], names[1..];
      var t1 := if IsDir(t, dir + [n]) && RUNTIMES + [n, SNAPSHOT] !in t
                then MigrateProfile(t, dir + [n], RUNTIMES + [n]) else t;
      assert forall m :: m in names <==> m == n || m in rest;
      assert n !in rest;
      FirstProfile(t, dir, n, rest);
      assert MigrateProfiles(t, dir, names) == MigrateProfiles(t1, dir, rest);
      if id == n {
        NothingPlacedUnder(t, id);
        ProfileBrought(t, src, id);
        ProfilesSpared(t1, dir, rest, id);
        BroughtStays(t, src, t1, MigrateProfiles(t, dir, names), dst);
      } else {
        OtherProfile(t, dir, n, id);
        ProfilesBrought(t1, dir, rest, id);
        var t' := MigrateProfiles(t1, dir, rest);
        if id in rest {
          BroughtFrom(t, t1, src, t', dst);
        } else {
          SubtreesCompose(t, src, t1, src, t', src);
          SubtreesCompose(t, dst, t1, dst, t', dst);
        }
      }
    }
  }

  lemma SubtreeOfItself(t: Tree, p: Path)
    ensures SameSubtree(t, p, t, p)
  {
  }

  lemma NothingPlacedUnder(t: Tree, id: string)
    requires WellFormed(t) && RUNTIMES + [id] !in t
    ensures RUNTIMES + [id, SNAPSHOT] !in t
  {
    BelowAbsent(t, RUNTIMES + [id], RUNTIMES + [id, SNAPSHOT]);
  }

  /** Migrating profile n leaves the places of the others free. */
  lemma FirstProfile(t: Tree, dir: Path, n: string, rest: seq<string>)
    requires dir != [] && dir[0] == "runtime"
    requires WellFormed(t) && NonePlaced(t, [n] + rest) && n !in rest
    ensures var t1 := MigrateProfile(t, dir + [n], RUNTIMES + [n]);
      WellFormed(t1) && NonePlaced(t1, rest)
    ensures NonePlaced(t, rest)
  {
    hide MigrateProfile, WellFormed;
    var t1 := MigrateProfile(t, dir + [n], RUNTIMES + [n]);
    ProfileOut(t, dir + [n], n);
    assert Get(t1, RUNTIMES) == Get(t, RUNTIMES) || Get(t1, RUNTIMES) == Some(Dir);
    forall m | m in rest
      ensures RUNTIMES + [m] !in t1 && RUNTIMES + [m] !in t
    {
      assert m in [n] + rest;
      ItemsDiffer();
      assert (RUNTIMES + [n])[1] != (RUNTIMES + [m])[1] && (dir + [n])[0] != (RUNTIMES + [m])[0];
      ProfileSpares(t, dir + [n], RUNTIMES + [n], RUNTIMES + [m]);
      UntouchedRoot(t, t1, RUNTIMES + [m]);
    }
  }

  lemma OtherProfile(t: Tree, dir: Path, n: string, id: string)
    requires dir != [] && dir[0] == "runtime" && WellFormed(t) && n != id
    ensures var t1 := MigrateProfile(t, dir + [n], RUNTIMES + [n]);
      && Untouched(t, t1, dir + [id]) && Untouched(t, t1, RUNTIMES + [id])
      && Get(t1, dir + [id]) == Get(t, dir + [id])
    ensures Untouched(t, t, dir + [id]) && Untouched(t, t, RUNTIMES + [id])
  {
    hide MigrateProfile, WellFormed;
    ItemsDiffer();
    var src, dst := dir + [n], RUNTIMES + [n];
    var src', dst' := dir + [id], RUNTIMES + [id];
    assert src[|dir|] != src'[|dir|] && dst[0] != src'[0] && src[0] != dst'[0] && dst[1] != dst'[1];
    ProfileSpares(t, src, dst, src');
    ProfileSpares(t, src, dst, dst');
    UntouchedRoot(t, MigrateProfile(t, src, dst), src');
  }

  /** Profiles migrated later leave an already migrated one alone. */
  lemma {:induction false} ProfilesSpared(t: Tree, dir: Path, names: seq<string>, id: string)
    requires dir != [] && dir[0] == "runtime" && WellFormed(t) && id !in names
    ensures var t' := MigrateProfiles(t, dir, names);
      WellFormed(t') && Untouched(t, t', RUNTIMES + [id])
    decreases names
  {
    hide MigrateProfile, WellFormed, SameSubtree;
    var dst := RUNTIMES + [id];
    SubtreeOfItself(t, dst);
    if names != [] {
      var n := names[0];
      var t1 := if IsDir(t, dir + [n]) && RUNTIMES + [n, SNAPSHOT] !in t
                then MigrateProfile(t, dir + [n], RUNTIMES + [n]) else t;
      ItemsDiffer();
      assert (RUNTIMES + [n])[1] != dst[1] && (dir + [n])[0] != dst[0];
      ProfileSpares(t, dir + [n], RUNTIMES + [n], dst);
      ProfilesSpared(t1, dir, names[1..], id);
      SubtreesCompose(t, dst, t1, dst, MigrateProfiles(t, dir, names), dst);
    }
  }

  lemma BroughtStays(t: Tree, src: Path, t1: Tree, t': Tree, dst: Path)
    requires Brought(t, src, t1, dst) && Untouched(t1, t', dst) && IsDir(t1, dst)
    ensures Brought(t, src, t', dst) && IsDir(t', dst)
  {
    UntouchedRoot(t1, t', dst);
    hide SameSubtree, DirArrives;
    SubtreesNarrow(t1, dst, t', dst, [SNAPSHOT]);
    SubtreesNarrow(t1, dst, t', dst, ["memory"]);
    SubtreesNarrow(t1, dst, t', dst, ["workspaces"]);
    SubtreesCompose(t, src + [SNAPSHOT], t1, dst + [SNAPSHOT], t', dst + [SNAPSHOT]);
    ArrivesOn(t, src + ["memory"], t1, dst + ["memory"], t', dst + ["memory"]);
    ArrivesOn(t, src + ["workspaces"], t1, dst + ["workspaces"], t', dst + ["workspaces"]);
  }

  lemma BroughtFrom(t: Tree, t1: Tree, src: Path, t': Tree, dst: Path)
    requires Untouched(t, t1, src) && Brought(t1, src, t', dst)
    ensures Brought(t, src, t', dst)
  {
    hide SameSubtree, DirArrives;
    SubtreesNarrow(t, src, t1, src, [SNAPSHOT]);
    SubtreesNarrow(t, src, t1, src, ["memory"]);
    SubtreesNarrow(t, src, t1, src, ["workspaces"]);
    SubtreesCompose(t, src + [SNAPSHOT], t1, src + [SNAPSHOT], t', dst + [SNAPSHOT]);
    ArrivesFrom(t, src + ["memory"], t1, t', dst + ["memory"]);
    ArrivesFrom(t, src + ["workspaces"], t1, t', dst + ["workspaces"]);
  }

  // ---------------------------------------------------------------- profiles that have moved already

  /** The profile loop leaves a profile alone whose snapshot is in place, there and where it came from. */
  lemma {:induction false} PlacedSpared(t: Tree, dir: Path, names: seq<string>, id: string)
    requires dir != [] && dir[0] == "runtime" && WellFormed(t) && RUNTIMES + [id, SNAPSHOT] in t
    ensures var t' := MigrateProfiles(t, dir, names);
      WellFormed(t') && Untouched(t, t', RUNTIMES + [id]) && Untouched(t, t', dir + [id])
    decreases names
  {
    hide MigrateProfile, WellFormed, SameSubtree;
    var src, dst := dir + [id], RUNTIMES + [id];
    SubtreeOfItself(t, src);
    SubtreeOfItself(t, dst);
    if names != [] {
      var n := names[0];
      var t1 := if IsDir(t, dir + [n]) && RUNTIMES + [n, SNAPSHOT] !in t
                then MigrateProfile(t, dir + [n], RUNTIMES + [n]) else t;
      if n != id {
        OtherProfile(t, dir, n, id);
        ItemsDiffer();
        assert (RUNTIMES + [n])[1] != dst[1] && (dir + [n])[0] != dst[0];
        ProfileSpares(t, dir + [n], RUNTIMES + [n], dst);
      }
      SubtreesNarrow(t, dst, t1, dst, [SNAPSHOT]);
      assert dst + [SNAPSHOT] == RUNTIMES + [id, SNAPSHOT];
      UntouchedRoot(t, t1, dst + [SNAPSHOT]);
      PlacedSpared(t1, dir, names[1..], id);
      SubtreesCompose(t, src, t1, src, MigrateProfiles(t, dir, names), src);
      SubtreesCompose(t, dst, t1, dst, MigrateProfiles(t, dir, names), dst);
    }
  }

  /** Stage V2 leaves alone what is in its place: a profile under runtimes with a snapshot stays as it is, and so does
      what the old layout still has of it. */
  lemma PlacedStays(t: Tree, names: seq<string>, id: string)
    requires WellFormed(t) && ["runtimes", id, "runtime-state.json"] in t && id != "migrations"
    requires IsDir(t, ["runtime", "profiles"]) || (id == "default" && ["runtime", "runtime-state.json"] in t)
    ensures var t1 := StageV2(t, names);
      && SameSubtree(t, ["runtimes", id], t1, ["runtimes", id])
      && (IsDir(t, ["runtime", "profiles"]) ==>
            SameSubtree(t, ["runtime", "profiles", id], t1, ["runtime", "profiles", id]))
      && (!IsDir(t, ["runtime", "profiles"]) ==> SameSubtree(t, ["runtime"], t1, ["runtime"]))
  {
    hide MigrateProfile, MigrateProfiles, WellFormed, SameSubtree, WriteSentinel;
    var dir, src, dst := ["runtime", "profiles"], ["runtime", "profiles", id], ["runtimes", id];
    assert CANDIDATES[0] + ["profiles"] == dir && CANDIDATES[0] + [SNAPSHOT] == ["runtime", "runtime-state.json"];
    assert RUNTIMES + [id, SNAPSHOT] == ["runtimes", id, "runtime-state.json"] && RUNTIMES + [id] == dst && dir + [id] == src;
    var t0, t1 := MigrateOld(t, CANDIDATES, names), StageV2(t, names);
    PlacedSpared(t, dir, names, id);
    SubtreeOfItself(t, dst);
    SubtreeOfItself(t, src);
    SubtreeOfItself(t, ["runtime"]);
    if !AlreadyDoneV2(t) {
      SentinelSpares(t0, id);
      SentinelSparesOld(t0, src);
      SentinelSparesOld(t0, ["runtime"]);
      SubtreesCompose(t, dst, t0, dst, t1, dst);
      if IsDir(t, dir) {
        SubtreesCompose(t, src, t0, src, t1, src);
      } else {
        SubtreesCompose(t, ["runtime"], t0, ["runtime"], t1, ["runtime"]);
      }
    }
  }

  lemma SentinelSparesOld(t: Tree, p: Path)
    requires WellFormed(t) && p != [] && p[0] == "runtime"
    ensures Untouched(t, WriteSentinel(t, V2_DIR, V2_DONE), p)
  {
    hide WriteSentinel, WellFormed;
    ItemsDiffer();
    forall q: Path
      ensures Get(WriteSentinel(t, V2_DIR, V2_DONE), p + q) == Get(t, p + q)
    {
      assert (p + q)[0] == "runtime" && V2_DIR[0] == (V2_DIR + [V2_DONE])[0] == "runtimes";
      WriteSentinelAt(t, V2_DIR, V2_DONE, p + q);
    }
  }

  // ---------------------------------------------------------------- V2 to V4

  /** Stage V3 takes the whole runtimes directory of a profile under cronymax. */
  lemma PrefixBrings(t: Tree, id: string)
    requires WellFormed(t) && CRONYMAX !in t && RUNTIMES in t && id != "migrations"
    ensures var t' := StageV3(t);
      && WellFormed(t') && IsDir(t', CRONYMAX)
      && SameSubtree(t, RUNTIMES + [id], t', CRONYMAX_RUNTIMES + [id])
      && PROFILES !in t' && MEMORIES !in t' && !AlreadyDoneV4(t') && CRONYMAX_RUNTIMES in t'
  {
    hide StageV3, WellFormed;
    var t' := StageV3(t);
    BelowAbsent(t, CRONYMAX, V3_DIR + [V3_DONE]);
    BelowAbsent(t, CRONYMAX, CRONYMAX_RUNTIMES);
    BelowAbsent(t, CRONYMAX, PROFILES);
    BelowAbsent(t, CRONYMAX, MEMORIES);
    BelowAbsent(t, CRONYMAX, V4_DIR + [V4_DONE]);
    assert CRONYMAX + ["runtimes"] == CRONYMAX_RUNTIMES && "runtimes" in PREFIXED_DIRS;
    NewNames();
    forall q: Path
      ensures Get(t', CRONYMAX_RUNTIMES + [id] + q) == Get(t, RUNTIMES + [id] + q)
    {
      var p := CRONYMAX_RUNTIMES + [id] + q;
      AfterV3(t, p);
      assert p[0] == "cronymax" && p[1] == "runtimes" && p[2] == id && V3_DIR[2] == "migrations";
      assert (V3_DIR + [V3_DONE])[2] == "migrations";
      assert p[1..] == RUNTIMES + [id] + q;
    }
    AfterV3(t, PROFILES);
    AfterV3(t, MEMORIES);
    AfterV3(t, V4_DIR + [V4_DONE]);
    AfterV3(t, CRONYMAX_RUNTIMES);
    assert CRONYMAX_RUNTIMES[1..] == RUNTIMES;
    assert PROFILES[1] == "Profiles" && MEMORIES[1] == "Memories" && (V4_DIR + [V4_DONE])[1] == "profiles";
    assert V3_DIR[1] == "runtimes" && (V3_DIR + [V3_DONE])[1] == "runtimes";
  }

  lemma NewNames()
    ensures "Profiles" !in PREFIXED_DIRS && "Memories" !in PREFIXED_DIRS && "profiles" !in PREFIXED_DIRS
    ensures "cronymax" !in PREFIXED_DIRS
    ensures "Profiles" != "Memories" && "Profiles" != "webviews" && "Memories" != "webviews" && "Profiles" != "profiles"
    ensures "Memories" != "profiles"
  {
    assert "runtimes"[0] == 'r' && "webviews"[0] == 'w' && "logs"[0] == 'l' && "cache"[0] == 'c' && |"cache"| == 5;
    assert "Profiles"[0] == 'P' && "Memories"[0] == 'M' && "profiles"[0] == 'p' && |"cronymax"| == 8;
  }

  /** Renaming cronymax/runtimes to cronymax/Profiles brings each profile along. */
  lemma RenameBrings(t: Tree, id: string)
    requires WellFormed(t) && IsDir(t, CRONYMAX) && PROFILES !in t && MEMORIES !in t && CRONYMAX_RUNTIMES in t
    ensures var t' := RenameRuntimes(t);
      && WellFormed(t') && IsDir(t', CRONYMAX) && IsDir(t', MEMORIES)
      && SameSubtree(t, CRONYMAX_RUNTIMES + [id], t', PROFILES + [id])
      && (forall n :: MEMORIES + [n] !in t')
  {
    hide RenameRuntimes, WellFormed;
    var t' := RenameRuntimes(t);
    RenamedAt(t, CRONYMAX);
    forall q: Path
      ensures Get(t', PROFILES + [id] + q) == Get(t, CRONYMAX_RUNTIMES + [id] + q)
    {
      var p := PROFILES + [id] + q;
      assert PROFILES <= p && p[2..] == [id] + q;
      RenamedAt(t, p);
      assert CRONYMAX_RUNTIMES + p[2..] == CRONYMAX_RUNTIMES + [id] + q;
    }
    forall n
      ensures MEMORIES + [n] !in t'
    {
      RenamedAt(t, MEMORIES + [n]);
      BelowAbsent(t, MEMORIES, MEMORIES + [n]);
    }
  }

  lemma MemorySpares(t: Tree, n: string, id: string, x: string)
    requires WellFormed(t) && (n != id || x != "memory")
    ensures var t' := GuardedMove(t, PROFILES + [n, "memory"], MEMORIES + [n], true);
      WellFormed(t') && Untouched(t, t', PROFILES + [id, x])
  {
    hide GuardedMove;
    NewNames();
    var src, dst, p := PROFILES + [n, "memory"], MEMORIES + [n], PROFILES + [id, x];
    assert src[2] == n && p[2] == id && src[3] == "memory" && p[3] == x && dst[1] == "Memories" && p[1] == "Profiles";
    MoveSpares(t, src, dst, true, p);
    GuardedMoveAt(t, src, dst, true, p);
  }

  lemma MemorySparesPlace(t: Tree, n: string, id: string)
    requires WellFormed(t) && n != id
    ensures Untouched(t, GuardedMove(t, PROFILES + [n, "memory"], MEMORIES + [n], true), MEMORIES + [id])
  {
    hide GuardedMove;
    NewNames();
    var src, dst, p := PROFILES + [n, "memory"], MEMORIES + [n], MEMORIES + [id];
    assert src[1] == "Profiles" && p[1] == "Memories" && dst[2] == n && p[2] == id;
    MoveSpares(t, src, dst, true, p);
  }

  /** The memory loop does not disturb the other items of a profile. */
  lemma {:induction false} MemoriesSpare(t: Tree, names: seq<string>, id: string, x: string)
    requires WellFormed(t) && (id !in names || x != "memory" || id == "migrations")
    ensures var t' := SplitMemories(t, names);
      WellFormed(t') && Untouched(t, t', PROFILES + [id, x])
    decreases names
  {
    hide GuardedMove, WellFormed, SameSubtree;
    var p := PROFILES + [id, x];
    SubtreeOfItself(t, p);
    if names != [] {
      var n := names[0];
      var t1 := if IsDir(t, PROFILES + [n]) && n != "migrations"
                then GuardedMove(t, PROFILES + [n, "memory"], MEMORIES + [n], true) else t;
      if t1 != t {
        MemorySpares(t, n, id, x);
      }
      MemoriesSpare(t1, names[1..], id, x);
      SubtreesCompose(t, p, t1, p, SplitMemories(t, names), p);
    }
  }

  lemma {:induction false} MemoriesSparePlace(t: Tree, names: seq<string>, id: string)
    requires WellFormed(t) && id !in names
    ensures Untouched(t, SplitMemories(t, names), MEMORIES + [id])
    decreases names
  {
    hide GuardedMove, WellFormed, SameSubtree;
    var p := MEMORIES + [id];
    SubtreeOfItself(t, p);
    if names != [] {
      var n := names[0];
      var t1 := if IsDir(t, PROFILES + [n]) && n != "migrations"
                then GuardedMove(t, PROFILES + [n, "memory"], MEMORIES + [n], true) else t;
      MemorySpares(t, n, id, "");
      MemorySparesPlace(t, n, id);
      MemoriesSparePlace(t1, names[1..], id);
      SubtreesCompose(t, p, t1, p, SplitMemories(t, names), p);
    }
  }

  /** The memory loop takes the memory of each listed profile to its own place. */
  lemma {:induction false} MemoriesBrought(t: Tree, names: seq<string>, id: string)
    requires WellFormed(t) && Distinct(names) && id in names && id != "migrations"
    requires IsDir(t, MEMORIES) && IsDir(t, PROFILES + [id]) && MEMORIES + [id] !in t
    requires !IsFile(t, PROFILES + [id, "memory"])
    ensures SameSubtree(t, PROFILES + [id, "memory"], SplitMemories(t, names), MEMORIES + [id])
    decreases names
  {
    hide GuardedMove, WellFormed, SameSubtree;
    var n, rest := names[0], names[1..];
    var src, dst := PROFILES + [id, "memory"], MEMORIES + [id];
    var t1 := if IsDir(t, PROFILES + [n]) && n != "migrations"
              then GuardedMove(t, PROFILES + [n, "memory"], MEMORIES + [n], true) else t;
    assert forall m :: m in names <==> m == n || m in rest;
    assert n !in rest;
    NewNames();
    assert Parent(dst) == MEMORIES && src[1] == "Profiles" && dst[1] == "Memories";
    if n == id {
      MoveBrings(t, src, dst, true);
      MemoriesSparePlace(t1, rest, id);
      SubtreesCompose(t, src, t1, dst, SplitMemories(t, names), dst);
    } else {
      SubtreeOfItself(t, src);
      MemorySpares(t, n, id, "memory");
      MemorySparesPlace(t, n, id);
      MemoryReady(t, t1, n, id);
      MemoriesBrought(t1, rest, id);
      SubtreesCompose(t, src, t1, src, SplitMemories(t, names), dst);
    }
  }

  lemma MemoryReady(t: Tree, t1: Tree, n: string, id: string)
    requires WellFormed(t) && n != id && IsDir(t, MEMORIES) && IsDir(t, PROFILES + [id])
    requires t1 == t || t1 == GuardedMove(t, PROFILES + [n, "memory"], MEMORIES + [n], true)
    ensures IsDir(t1, MEMORIES) && IsDir(t1, PROFILES + [id])
    ensures Get(t1, MEMORIES + [id]) == Get(t, MEMORIES + [id])
    ensures Get(t1, PROFILES + [id, "memory"]) == Get(t, PROFILES + [id, "memory"])
  {
    hide GuardedMove;
    NewNames();
    var src, dst := PROFILES + [n, "memory"], MEMORIES + [n];
    assert src[1] == "Profiles" && src[2] == n && dst[1] == "Memories" && dst[2] == n;
    var a, b, c := PROFILES + [id], MEMORIES + [id], PROFILES + [id, "memory"];
    assert a[1] == c[1] == "Profiles" && a[2] == b[2] == c[2] == id && b[1] == "Memories";
    GuardedMoveAt(t, src, dst, true, MEMORIES);
    GuardedMoveAt(t, src, dst, true, a);
    GuardedMoveAt(t, src, dst, true, b);
    GuardedMoveAt(t, src, dst, true, c);
  }

  /** The end of stage V4 leaves Profiles and Memories as the memory loop left them. */
  lemma TailSpares(t: Tree, names: seq<string>, p: Path)
    requires WellFormed(t) && IsDir(t, CRONYMAX) && (PROFILES <= p || MEMORIES <= p)
    ensures var t' := WriteSentinel(MoveWebviews(t, names), V4_DIR, V4_DONE);
      Untouched(t, t', p)
  {
    hide RaiseWebviews, WriteSentinel, WellFormed;
    NewNames();
    var t1 := MoveWebviews(t, names);
    forall q: Path
      ensures Get(WriteSentinel(t1, V4_DIR, V4_DONE), p + q) == Get(t, p + q)
    {
      var r := p + q;
      assert r[0] == "cronymax" && (r[1] == "Profiles" || r[1] == "Memories");
      assert CRONYMAX_WEBVIEWS[1] == "webviews" && V4_DIR[1] == "profiles" && (V4_DIR + [V4_DONE])[1] == "profiles";
      assert [r[0]] == CRONYMAX;
      RaiseWebviewsAt(t, names, r);
      WriteSentinelAt(t1, V4_DIR, V4_DONE, r);
    }
  }

  /** A tree in an old layout that no later migration has touched. */
  ghost predicate IsOld(t: Tree) {
    WellFormed(t) && ["runtimes"] !in t && ["cronymax"] !in t
  }

  /** src is where the old layout keeps profile id: in the first candidate directory that has a layout at all, below its
      profiles in layout V1, or the directory itself, as the profile default, in layout V0. */
  ghost predicate OldHome(t: Tree, candidates: seq<Path>, src: Path, id: string) {
    candidates != [] &&
    var dir := candidates[0];
    if IsDir(t, dir + ["profiles"]) then src == dir + ["profiles"] + [id] && IsDir(t, src)
    else if dir + [SNAPSHOT] in t then src == dir && id == "default"
    else OldHome(t, candidates[1..], src, id)
  }

  /** Stage V2 brings the profile to its place under runtimes, from whichever candidate has it. */
  lemma {:induction false} OldBrought(t: Tree, candidates: seq<Path>, names: seq<string>, src: Path, id: string)
    requires IsOld(t) && OldHome(t, candidates, src, id)
    requires forall c | c in candidates :: c != [] && c[0] == "runtime"
    requires Listed(t, candidates).Some? ==> Lists(names, t, Listed(t, candidates).value)
    ensures var t' := MigrateOld(t, candidates, names);
      WellFormed(t') && IsDir(t', RUNTIMES + [id]) && Brought(t, src, t', RUNTIMES + [id])
  {
    hide MigrateProfiles, MigrateProfile, WellFormed, Brought, SameSubtree;
    var dir := candidates[0];
    assert dir in candidates;
    BelowAbsent(t, RUNTIMES, RUNTIMES + [id]);
    if IsDir(t, dir + ["profiles"]) {
      forall n | n in names
        ensures RUNTIMES + [n] !in t
      {
        BelowAbsent(t, RUNTIMES, RUNTIMES + [n]);
      }
      assert id in names;
      ProfilesBrought(t, dir + ["profiles"], names, id);
    } else if dir + [SNAPSHOT] in t {
      BelowAbsent(t, RUNTIMES, RUNTIMES + ["default", SNAPSHOT]);
      ProfileBrought(t, dir, "default");
    } else {
      assert forall c | c in candidates[1..] :: c in candidates;
      OldBrought(t, candidates[1..], names, src, id);
    }
  }

  lemma V2Brings(t: Tree, l: Listing, src: Path, id: string)
    requires IsOld(t) && Faithful(t, l) && OldHome(t, CANDIDATES, src, id) && id != "migrations"
    ensures var t1 := StageV2(t, l.oldProfiles);
      && WellFormed(t1) && CRONYMAX !in t1 && RUNTIMES in t1 && IsDir(t1, RUNTIMES + [id])
      && Brought(t, src, t1, RUNTIMES + [id])
  {
    hide MigrateOld, WellFormed, SameSubtree, WriteSentinel, OldHome, Listed;
    var names := l.oldProfiles;
    var t1 := StageV2(t, names);
    BelowAbsent(t, RUNTIMES, V2_DIR + [V2_DONE]);
    AfterV2(t, names);
    assert "cronymax"[0] == 'c' && "runtime"[0] == 'r' && "runtimes"[0] == 'r';
    assert Get(t1, CRONYMAX) == Get(t, CRONYMAX);
    var t0 := MigrateOld(t, CANDIDATES, names);
    OldBrought(t, CANDIDATES, names, src, id);
    SentinelSpares(t0, id);
    hide Brought;
    BroughtStays(t, src, t0, t1, RUNTIMES + [id]);
  }

  lemma SentinelSpares(t: Tree, id: string)
    requires WellFormed(t) && id != "migrations"
    ensures Untouched(t, WriteSentinel(t, V2_DIR, V2_DONE), RUNTIMES + [id])
  {
    hide WriteSentinel, WellFormed;
    forall q: Path
      ensures Get(WriteSentinel(t, V2_DIR, V2_DONE), RUNTIMES + [id] + q) == Get(t, RUNTIMES + [id] + q)
    {
      var p := RUNTIMES + [id] + q;
      assert p[1] == id && V2_DIR[1] == "migrations" && (V2_DIR + [V2_DONE])[1] == "migrations";
      WriteSentinelAt(t, V2_DIR, V2_DONE, p);
    }
  }

  /** Stage V4 takes each entry of a profile under cronymax/runtimes to Profiles, and its memory to a place of its own. */
  lemma V4Brings(t: Tree, l: Listing, id: string, x: string)
    requires WellFormed(t) && IsDir(t, CRONYMAX) && !AlreadyDoneV4(t) && FaithfulV4(t, l)
    requires PROFILES !in t && MEMORIES !in t && IsDir(t, CRONYMAX_RUNTIMES + [id])
    ensures var t' := StageV4(t, l);
      && (x != "memory" || id == "migrations" ==>
            SameSubtree(t, CRONYMAX_RUNTIMES + [id, x], t', PROFILES + [id, x]))
      && (x == "memory" && id != "migrations" && !IsFile(t, CRONYMAX_RUNTIMES + [id, x]) ==>
            SameSubtree(t, CRONYMAX_RUNTIMES + [id, x], t', MEMORIES + [id]))
  {
    hide RenameRuntimes, SplitMemories, MoveWebviews, WriteSentinel, WellFormed, SameSubtree;
    var t3 := RenameRuntimes(t);
    var t4 := SplitMemories(t3, l.profiles);
    var from, to := CRONYMAX_RUNTIMES + [id, x], PROFILES + [id, x];
    PrefixIsDir(t, CRONYMAX_RUNTIMES + [id], CRONYMAX_RUNTIMES);
    RenameBrings(t, id);
    SubtreesNarrow(t, CRONYMAX_RUNTIMES + [id], t3, PROFILES + [id], [x]);
    assert CRONYMAX_RUNTIMES + [id] + [x] == from && PROFILES + [id] + [x] == to;
    SameRoot(t, CRONYMAX_RUNTIMES + [id], t3, PROFILES + [id]);
    SameRoot(t, from, t3, to);
    SplitFrame(t3, l.profiles, CRONYMAX);
    assert Get(t4, CRONYMAX) == Get(t3, CRONYMAX) by {
      assert !(PROFILES <= CRONYMAX) && !(MEMORIES <= CRONYMAX);
    }
    if x != "memory" || id == "migrations" {
      MemoriesSpare(t3, l.profiles, id, x);
      Finish(t3, t4, l.webviews, to, to);
      SubtreesCompose(t, from, t3, to, StageV4(t, l), to);
    } else if !IsFile(t, from) {
      assert id in l.profiles;
      MemoriesBrought(t3, l.profiles, id);
      Finish(t3, t4, l.webviews, to, MEMORIES + [id]);
      SubtreesCompose(t, from, t3, to, StageV4(t, l), MEMORIES + [id]);
    }
  }

  /** From any old tree, V1 or V0, one Run brings every profile to its V4 place through all three stages: its snapshot
      and its workspaces to Profiles/<id> and its memory to Memories/<id>, each as it was. Where the old entry of the last
      two is a file nothing is there. */
  lemma RunCompletes(t: Tree, l: Listing, src: Path, id: string)
    requires IsOld(t) && Faithful(t, l) && OldHome(t, CANDIDATES, src, id) && id != "migrations"
    ensures var t' := Run(t, l);
      && SameSubtree(t, src + ["runtime-state.json"], t', ["cronymax", "Profiles", id, "runtime-state.json"])
      && DirArrives(t, src + ["workspaces"], t', ["cronymax", "Profiles", id, "workspaces"])
      && DirArrives(t, src + ["memory"], t', ["cronymax", "Memories", id])
  {
    hide StageV2, StageV3, StageV4, WellFormed, SameSubtree, DirArrives, FaithfulV4, OldHome, Listed;
    ItemsDiffer();
    var t1 := StageV2(t, l.oldProfiles);
    var t2 := StageV3(t1);
    V2Brings(t, l, src, id);
    PrefixBrings(t1, id);
    SameRoot(t1, RUNTIMES + [id], t2, CRONYMAX_RUNTIMES + [id]);
    BroughtOn(t, src, t1, t2, id);
    ArrivedIsNoFile(t, src + ["memory"], t2, CRONYMAX_RUNTIMES + [id, "memory"]);
    V4Brings(t2, l, id, SNAPSHOT);
    V4Brings(t2, l, id, "workspaces");
    V4Brings(t2, l, id, "memory");
    var t', mid := Run(t, l), CRONYMAX_RUNTIMES + [id];
    SubtreesCompose(t, src + [SNAPSHOT], t2, CRONYMAX_RUNTIMES + [id, SNAPSHOT], t', PROFILES + [id, SNAPSHOT]);
    ArrivesOn(t, src + ["workspaces"], t2, CRONYMAX_RUNTIMES + [id, "workspaces"], t', PROFILES + [id, "workspaces"]);
    ArrivesOn(t, src + ["memory"], t2, CRONYMAX_RUNTIMES + [id, "memory"], t', MEMORIES + [id]);
    assert src + [SNAPSHOT] == src + ["runtime-state.json"];
    assert PROFILES + [id, SNAPSHOT] == ["cronymax", "Profiles", id, "runtime-state.json"];
    assert PROFILES + [id, "workspaces"] == ["cronymax", "Profiles", id, "workspaces"];
    assert MEMORIES + [id] == ["cronymax", "Memories", id];
  }

  /** In particular from any V1 tree: the profiles lie under runtime/profiles, and there is no runtimes or cronymax
      directory yet. Without a layout there, runtime/runtime is looked at in its place. */
  lemma RunCompletesV1(t: Tree, l: Listing, home: Path, id: string)
    requires IsOld(t) && Faithful(t, l) && IsDir(t, home + ["profiles", id]) && id != "migrations"
    requires home == ["runtime"] || (home == ["runtime", "runtime"] && NoLayout(t, ["runtime"]))
    ensures var t', src := Run(t, l), home + ["profiles", id];
      && SameSubtree(t, src + ["runtime-state.json"], t', ["cronymax", "Profiles", id, "runtime-state.json"])
      && DirArrives(t, src + ["workspaces"], t', ["cronymax", "Profiles", id, "workspaces"])
      && DirArrives(t, src + ["memory"], t', ["cronymax", "Memories", id])
  {
    var dir := home + ["profiles"];
    assert dir + [id] == home + ["profiles", id];
    PrefixIsDir(t, home + ["profiles", id], dir);
    TheHomes(t, home + ["profiles", id], id);
    hide Run, Faithful, SameSubtree, DirArrives, OldHome;
    RunCompletes(t, l, home + ["profiles", id], id);
  }

  /** And from any V0 tree, with the profile default in the directory itself. */
  lemma RunCompletesV0(t: Tree, l: Listing, home: Path)
    requires IsOld(t) && Faithful(t, l) && home + ["runtime-state.json"] in t && !IsDir(t, home + ["profiles"])
    requires home == ["runtime"] || (home == ["runtime", "runtime"] && NoLayout(t, ["runtime"]))
    ensures var t', src, id := Run(t, l), home, "default";
      && SameSubtree(t, src + ["runtime-state.json"], t', ["cronymax", "Profiles", id, "runtime-state.json"])
      && DirArrives(t, src + ["workspaces"], t', ["cronymax", "Profiles", id, "workspaces"])
      && DirArrives(t, src + ["memory"], t', ["cronymax", "Memories", id])
  {
    assert |"default"| == 7 && |"migrations"| == 10;
    TheHomes(t, home, "default");
    hide Run, Faithful, SameSubtree, DirArrives, OldHome;
    RunCompletes(t, l, home, "default");
  }

  ghost predicate NoLayout(t: Tree, home: Path) {
    !IsDir(t, home + ["profiles"]) && home + ["runtime-state.json"] !in t
  }

  lemma TheHomes(t: Tree, src: Path, id: string)
    ensures IsDir(t, ["runtime", "profiles"]) && src == ["runtime", "profiles", id] && IsDir(t, src) ==>
      OldHome(t, CANDIDATES, src, id)
    ensures !IsDir(t, ["runtime", "profiles"]) && ["runtime", "runtime-state.json"] in t && src == ["runtime"] && id == "default" ==>
      OldHome(t, CANDIDATES, src, id)
    ensures NoLayout(t, ["runtime"]) && IsDir(t, ["runtime", "runtime", "profiles"]) &&
            src == ["runtime", "runtime", "profiles", id] && IsDir(t, src) ==>
      OldHome(t, CANDIDATES, src, id)
    ensures NoLayout(t, ["runtime"]) && !IsDir(t, ["runtime", "runtime", "profiles"]) &&
            ["runtime", "runtime", "runtime-state.json"] in t && src == ["runtime", "runtime"] && id == "default" ==>
      OldHome(t, CANDIDATES, src, id)
  {
    var one, two := ["runtime"], ["runtime", "runtime"];
    assert one + ["profiles"] == ["runtime", "profiles"] && one + [SNAPSHOT] == ["runtime", "runtime-state.json"];
    assert two + ["profiles"] == ["runtime", "runtime", "profiles"];
    assert two + [SNAPSHOT] == ["runtime", "runtime", "runtime-state.json"];
    assert CANDIDATES == [one, two] && CANDIDATES[1..] == [two];
    if NoLayout(t, one) {
      assert OldHome(t, [two], src, id) ==> OldHome(t, CANDIDATES, src, id);
    }
  }

  /** From a V2 tree each entry of a profile but its memory comes from runtimes/<id> to Profiles/<id>, and the memory, if
      it is a directory, to Memories/<id>. */
  lemma RunCompletesV2(t: Tree, l: Listing, id: string, x: string)
    requires WellFormed(t) && Faithful(t, l) && ["runtimes", "migrations", "layout-v2.done"] in t && ["cronymax"] !in t
    requires IsDir(t, ["runtimes", id]) && id != "migrations"
    ensures var t', src := Run(t, l), ["runtimes", id, x];
      && (x != "memory" ==> SameSubtree(t, src, t', ["cronymax", "Profiles", id, x]))
      && (x == "memory" && !IsFile(t, src) ==> SameSubtree(t, src, t', ["cronymax", "Memories", id]))
  {
    hide StageV3, StageV4, WellFormed, SameSubtree, FaithfulV4, Listed;
    assert V2_DIR + [V2_DONE] == ["runtimes", "migrations", "layout-v2.done"];
    assert RUNTIMES + [id] == ["runtimes", id] && RUNTIMES + [id] + [x] == ["runtimes", id, x];
    var t2, mid := StageV3(t), CRONYMAX_RUNTIMES + [id];
    PrefixIsDir(t, RUNTIMES + [id], RUNTIMES);
    PrefixBrings(t, id);
    SameRoot(t, RUNTIMES + [id], t2, mid);
    SubtreesNarrow(t, RUNTIMES + [id], t2, mid, [x]);
    assert mid + [x] == CRONYMAX_RUNTIMES + [id, x];
    SameRoot(t, RUNTIMES + [id] + [x], t2, mid + [x]);
    V4Brings(t2, l, id, x);
    assert PROFILES + [id, x] == ["cronymax", "Profiles", id, x] && MEMORIES + [id] == ["cronymax", "Memories", id];
    var to := if x == "memory" then MEMORIES + [id] else PROFILES + [id, x];
    if x != "memory" || !IsFile(t, ["runtimes", id, x]) {
      SubtreesCompose(t, RUNTIMES + [id] + [x], t2, mid + [x], Run(t, l), to);
    }
  }

  /** And from a V3 tree, from cronymax/runtimes/<id>. The directory of the sentinels is no profile and has no memory. */
  lemma RunCompletesV3(t: Tree, l: Listing, id: string, x: string)
    requires WellFormed(t) && Faithful(t, l) && ["cronymax", "runtimes", "migrations", "layout-v3.done"] in t
    requires ["cronymax", "profiles", "migrations", "layout-v4.done"] !in t
    requires ["cronymax", "Profiles"] !in t && ["cronymax", "Memories"] !in t
    requires IsDir(t, ["cronymax", "runtimes", id])
    ensures var t', src := Run(t, l), ["cronymax", "runtimes", id, x];
      && (x != "memory" || id == "migrations" ==> SameSubtree(t, src, t', ["cronymax", "Profiles", id, x]))
      && (x == "memory" && id != "migrations" && !IsFile(t, src) ==> SameSubtree(t, src, t', ["cronymax", "Memories", id]))
  {
    hide StageV2, StageV4, WellFormed, SameSubtree, FaithfulV4, Listed;
    var t1, src := StageV2(t, l.oldProfiles), ["cronymax", "runtimes", id, x];
    assert V3_DIR + [V3_DONE] == ["cronymax", "runtimes", "migrations", "layout-v3.done"];
    assert V4_DIR + [V4_DONE] == ["cronymax", "profiles", "migrations", "layout-v4.done"];
    assert CRONYMAX_RUNTIMES + [id] == ["cronymax", "runtimes", id] && CRONYMAX_RUNTIMES + [id, x] == src;
    assert PROFILES + [id, x] == ["cronymax", "Profiles", id, x] && MEMORIES + [id] == ["cronymax", "Memories", id];
    PrefixIsDir(t, CRONYMAX_RUNTIMES + [id], CRONYMAX);
    CronymaxStays(t, l.oldProfiles, src);
    assert Get(t1, CRONYMAX) == Get(t, CRONYMAX) && Get(t1, CRONYMAX_RUNTIMES + [id]) == Get(t, CRONYMAX_RUNTIMES + [id]);
    assert Get(t1, PROFILES) == Get(t, PROFILES) && Get(t1, MEMORIES) == Get(t, MEMORIES) && Get(t1, src) == Get(t, src);
    assert Get(t1, V3_DIR + [V3_DONE]) == Get(t, V3_DIR + [V3_DONE]);
    assert Get(t1, V4_DIR + [V4_DONE]) == Get(t, V4_DIR + [V4_DONE]);
    V4Brings(t1, l, id, x);
    var to := if x == "memory" && id != "migrations" then MEMORIES + [id] else PROFILES + [id, x];
    if x != "memory" || id == "migrations" || !IsFile(t, src) {
      SubtreesCompose(t, src, t1, src, Run(t, l), to);
    }
  }

  lemma CronymaxStays(t: Tree, names: seq<string>, p: Path)
    requires WellFormed(t) && p != [] && p[0] == "cronymax"
    ensures var t1 := StageV2(t, names);
      && WellFormed(t1) && Untouched(t, t1, p)
      && forall q: Path | q != [] && q[0] == "cronymax" :: Get(t1, q) == Get(t, q)
  {
    hide StageV2;
    AfterV2(t, names);
    assert "cronymax"[0] == 'c' && "runtime"[0] == 'r' && "runtimes"[0] == 'r';
  }

  lemma BroughtOn(t: Tree, src: Path, t1: Tree, t2: Tree, id: string)
    requires Brought(t, src, t1, RUNTIMES + [id]) && SameSubtree(t1, RUNTIMES + [id], t2, CRONYMAX_RUNTIMES + [id])
    ensures SameSubtree(t, src + [SNAPSHOT], t2, CRONYMAX_RUNTIMES + [id, SNAPSHOT])
    ensures DirArrives(t, src + ["workspaces"], t2, CRONYMAX_RUNTIMES + [id, "workspaces"])
    ensures DirArrives(t, src + ["memory"], t2, CRONYMAX_RUNTIMES + [id, "memory"])
  {
    hide SameSubtree, DirArrives;
    var from, to := RUNTIMES + [id], CRONYMAX_RUNTIMES + [id];
    forall x
      ensures SameSubtree(t1, from + [x], t2, CRONYMAX_RUNTIMES + [id, x])
    {
      SubtreesNarrow(t1, from, t2, to, [x]);
      assert to + [x] == CRONYMAX_RUNTIMES + [id, x];
    }
    SubtreesCompose(t, src + [SNAPSHOT], t1, from + [SNAPSHOT], t2, CRONYMAX_RUNTIMES + [id, SNAPSHOT]);
    ArrivesOn(t, src + ["workspaces"], t1, from + ["workspaces"], t2, CRONYMAX_RUNTIMES + [id, "workspaces"]);
    ArrivesOn(t, src + ["memory"], t1, from + ["memory"], t2, CRONYMAX_RUNTIMES + [id, "memory"]);
  }

  lemma ArrivedIsNoFile(t: Tree, p: Path, t': Tree, p': Path)
    requires DirArrives(t, p, t', p')
    ensures !IsFile(t', p')
  {
    assert p' + [] == p';
    if IsFile(t, p) {
      assert p' + [] !in t';
    } else {
      SameRoot(t, p, t', p');
    }
  }

  lemma SameRoot(t: Tree, p: Path, t': Tree, p': Path)
    requires SameSubtree(t, p, t', p')
    ensures Get(t', p') == Get(t, p)
  {
    assert p + [] == p && p' + [] == p';
    assert Get(t', p' + []) == Get(t, p + []);
  }

  lemma Finish(t3: Tree, t4: Tree, names: seq<string>, mid: Path, dst: Path)
    requires SameSubtree(t3, mid, t4, dst)
    requires WellFormed(t4) && IsDir(t4, CRONYMAX) && (PROFILES <= dst || MEMORIES <= dst)
    ensures SameSubtree(t3, mid, WriteSentinel(MoveWebviews(t4, names), V4_DIR, V4_DONE), dst)
  {
    hide SameSubtree, WriteSentinel, MoveWebviews;
    TailSpares(t4, names, dst);
    SubtreesCompose(t3, mid, t4, dst, WriteSentinel(MoveWebviews(t4, names), V4_DIR, V4_DONE), dst);
  }
}
