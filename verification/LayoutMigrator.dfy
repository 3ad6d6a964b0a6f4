/** The storage-layout migrations V0/V1 -> V2 -> V3 -> V4. Paths are relative to the user data directory. */
module LayoutMigrator {
  import opened Wrappers
  import opened FileTree

  const RUNTIMES: Path := ["runtimes"]
  const WEBVIEWS: Path := ["webviews"]
  const CRONYMAX: Path := ["cronymax"]
  const CRONYMAX_RUNTIMES: Path := ["cronymax", "runtimes"]
  const CRONYMAX_WEBVIEWS: Path := ["cronymax", "webviews"]
  const PROFILES: Path := ["cronymax", "Profiles"]
  const MEMORIES: Path := ["cronymax", "Memories"]

  const V2_DIR: Path := ["runtimes", "migrations"]
  const V3_DIR: Path := ["cronymax", "runtimes", "migrations"]
  const V4_DIR: Path := ["cronymax", "profiles", "migrations"]
  const V2_DONE: string := "layout-v2.done"
  const V3_DONE: string := "layout-v3.done"
  const V4_DONE: string := "layout-v4.done"

  const SNAPSHOT: string := "runtime-state.json"
  const PREFIXED_DIRS: seq<string> := ["runtimes", "webviews", "logs", "cache"]

  /** The names each directory iteration yields, in the order the file system yields them. */
  datatype Listing = Listing(oldProfiles: seq<string>, profiles: seq<string>, webviews: seq<string>)

  predicate AlreadyDoneV2(t: Tree) {
    V2_DIR + [V2_DONE] in t
  }

  predicate AlreadyDoneV3(t: Tree) {
    V3_DIR + [V3_DONE] in t
  }

  predicate AlreadyDoneV4(t: Tree) {
    V4_DIR + [V4_DONE] in t
  }

  /** Creates the directory and truncates the sentinel in it, where that is possible. */
  function WriteSentinel(t: Tree, dir: Path, name: string): Tree {
    var t1 := MakeDirs(t, dir);
    if IsDir(t1, dir) && !IsDir(t1, dir + [name]) then t1[dir + [name] := File("")] else t1
  }

  /** Every move of the migrator: the source is present (or a directory) and the destination is free. */
  function GuardedMove(t: Tree, src: Path, dst: Path, onlyDir: bool): Tree
    requires src != [] && dst != []
  {
    if (if onlyDir then IsDir(t, src) else src in t) && dst !in t then MoveEntry(t, src, dst) else t
  }

  function MigrateProfile(t: Tree, src: Path, dst: Path): Tree {
    var t0 := MakeDirs(t, dst);
    var t1 := GuardedMove(t0, src + [SNAPSHOT], dst + [SNAPSHOT], false);
    var t2 := GuardedMove(t1, src + ["memory"], dst + ["memory"], true);
    GuardedMove(t2, src + ["workspaces"], dst + ["workspaces"], true)
  }

  function MigrateProfiles(t: Tree, dir: Path, names: seq<string>): Tree
    decreases names
  {
    if names == [] then t else
    var id := names[0];
    var t1 := if IsDir(t, dir + [id]) && RUNTIMES + [id, SNAPSHOT] !in t
              then MigrateProfile(t, dir + [id], RUNTIMES + [id]) else t;
    MigrateProfiles(t1, dir, names[1..])
  }

  lemma NothingMigrated(t: Tree, dir: Path)
    ensures MigrateProfiles(t, dir, []) == t
  {
  }

  lemma MigrateNext(t: Tree, dir: Path, names: seq<string>, i: nat)
    requires i < |names|
    ensures var id := names[i];
      MigrateProfiles(t, dir, names[i..]) ==
      MigrateProfiles(if IsDir(t, dir + [id]) && RUNTIMES + [id, SNAPSHOT] !in t
                      then MigrateProfile(t, dir + [id], RUNTIMES + [id]) else t, dir, names[i + 1..])
  {
    hide MigrateProfile;
    assert names[i..][0] == names[i] && names[i..][1..] == names[i + 1..];
  }

  /** The first candidate directory that holds a V1 or a V0 layout is migrated; the rest are not looked at. */
  function MigrateOld(t: Tree, candidates: seq<Path>, names: seq<string>): Tree {
    if candidates == [] then t else
    var dir := candidates[0];
    if IsDir(t, dir + ["profiles"]) then MigrateProfiles(t, dir + ["profiles"], names)
    else if dir + [SNAPSHOT] in t then
      if RUNTIMES + ["default", SNAPSHOT] !in t then MigrateProfile(t, dir, RUNTIMES + ["default"]) else t
    else MigrateOld(t, candidates[1..], names)
  }

  const CANDIDATES: seq<Path> := [["runtime"], ["runtime", "runtime"]]

  function StageV2(t: Tree, names: seq<string>): Tree {
    if AlreadyDoneV2(t) then t
    else WriteSentinel(MigrateOld(t, CANDIDATES, names), V2_DIR, V2_DONE)
  }

  function AddPrefix(t: Tree, names: seq<string>): Tree
    decreases names
  {
    if names == [] then t
    else AddPrefix(GuardedMove(t, [names[0]], CRONYMAX + [names[0]], false), names[1..])
  }

  function StageV3(t: Tree): Tree {
    if AlreadyDoneV3(t) then t
    else WriteSentinel(AddPrefix(MakeDirs(t, CRONYMAX), PREFIXED_DIRS), V3_DIR, V3_DONE)
  }

  function SplitMemories(t: Tree, names: seq<string>): Tree
    decreases names
  {
    if names == [] then t else
    var id := names[0];
    var t1 := if IsDir(t, PROFILES + [id]) && id != "migrations"
              then GuardedMove(t, PROFILES + [id, "memory"], MEMORIES + [id], true) else t;
    SplitMemories(t1, names[1..])
  }

  lemma NothingSplit(t: Tree)
    ensures SplitMemories(t, []) == t
  {
  }

  lemma SplitNext(t: Tree, names: seq<string>, i: nat)
    requires i < |names|
    ensures var id := names[i];
      SplitMemories(t, names[i..]) ==
      SplitMemories(if IsDir(t, PROFILES + [id]) && id != "migrations"
                    then GuardedMove(t, PROFILES + [id, "memory"], MEMORIES + [id], true) else t, names[i + 1..])
  {
    hide GuardedMove;
    assert names[i..][0] == names[i] && names[i..][1..] == names[i + 1..];
  }

  function RaiseWebviews(t: Tree, names: seq<string>): Tree
    decreases names
  {
    if names == [] then t
    else RaiseWebviews(GuardedMove(t, CRONYMAX_WEBVIEWS + [names[0]], [names[0]], true), names[1..])
  }

  function RenameRuntimes(t: Tree): Tree {
    MakeDirs(MakeDirs(GuardedMove(t, CRONYMAX_RUNTIMES, PROFILES, false), PROFILES), MEMORIES)
  }

  function MoveWebviews(t: Tree, names: seq<string>): Tree {
    if IsDir(t, CRONYMAX_WEBVIEWS) then RaiseWebviews(t, names) else t
  }

  function StageV4(t: Tree, l: Listing): Tree {
    if AlreadyDoneV4(t) then t
    else WriteSentinel(MoveWebviews(SplitMemories(RenameRuntimes(t), l.profiles), l.webviews), V4_DIR, V4_DONE)
  }

  function Run(t: Tree, l: Listing): Tree {
    StageV4(StageV3(StageV2(t, l.oldProfiles)), l)
  }

  function Runs(t: Tree, ls: seq<Listing>): Tree {
    if ls == [] then t else Run(Runs(t, ls[..|ls| - 1]), ls[|ls| - 1])
  }

  // ---------------------------------------------------------------- the migrator object

  function Children(t: Tree, dir: Path): set<string> {
    set p | p in t && |p| == |dir| + 1 && dir <= p :: p[|dir|]
  }

  /** A directory iteration yields each entry once, in some order. */
  ghost predicate Lists(names: seq<string>, t: Tree, dir: Path) {
    && (forall n :: n in names <==> dir + [n] in t)
    && (forall i, j | 0 <= i < j < |names| :: names[i] != names[j])
  }

  /** The profiles directory stage V2 iterates over, if the first candidate with an old layout has one. */
  function Listed(t: Tree, candidates: seq<Path>): Option<Path> {
    if candidates == [] then None
    else if IsDir(t, candidates[0] + ["profiles"]) then Some(candidates[0] + ["profiles"])
    else if candidates[0] + [SNAPSHOT] in t then None
    else Listed(t, candidates[1..])
  }

  ghost predicate FaithfulV4(t: Tree, l: Listing) {
    && Lists(l.profiles, RenameRuntimes(t), PROFILES)
    && Lists(l.webviews, SplitMemories(RenameRuntimes(t), l.profiles), CRONYMAX_WEBVIEWS)
  }

  /** The listing is what a Run from t reads, in the directories it reads. */
  ghost predicate Faithful(t: Tree, l: Listing) {
    && (!AlreadyDoneV2(t) && Listed(t, CANDIDATES).Some? ==> Lists(l.oldProfiles, t, Listed(t, CANDIDATES).value))
    && var t3 := StageV3(StageV2(t, l.oldProfiles));
       !AlreadyDoneV4(t3) ==> FaithfulV4(t3, l)
  }

  class Migrator {
    var tree: Tree

    constructor (tree: Tree)
      ensures this.tree == tree
    {
      this.tree := tree;
    }

    method ReadDir(dir: Path) returns (names: seq<string>)
      ensures Lists(names, tree, dir)
    {
      var rest := Children(tree, dir);
      forall n
        ensures n in rest <==> dir + [n] in tree
      {
        if dir + [n] in tree {
          assert (dir + [n])[|dir|] == n;
        }
        if n in rest {
          var p :| p in tree && |p| == |dir| + 1 && dir <= p && p[|dir|] == n;
          assert p == dir + [n];
        }
      }
      names := [];
      while rest != {}
        invariant forall n :: n in names || n in rest <==> dir + [n] in tree
        invariant forall n :: !(n in names && n in rest)
        invariant forall i, j | 0 <= i < j < |names| :: names[i] != names[j]
        decreases |rest|
      {
        var n :| n in rest;
        names := names + [n];
        rest := rest - {n};
      }
    }

    method MoveGuarded(src: Path, dst: Path, onlyDir: bool)
      requires src != [] && dst != []
      modifies this
      ensures tree == GuardedMove(old(tree), src, dst, onlyDir)
    {
      if (if onlyDir then IsDir(tree, src) else src in tree) && dst !in tree {
        tree := MoveEntry(tree, src, dst);
      }
    }

    method WriteDone(dir: Path, name: string) returns (ok: bool)
      modifies this
      ensures tree == WriteSentinel(old(tree), dir, name)
      ensures ok <==> IsDir(tree, dir) && !IsDir(tree, dir + [name])
    {
      tree := MakeDirs(tree, dir);
      ok := IsDir(tree, dir) && !IsDir(tree, dir + [name]);
      if ok {
        assert dir != dir + [name];
        tree := tree[dir + [name] := File("")];
      }
    }

    method MoveProfile(src: Path, dst: Path)
      modifies this
      ensures tree == MigrateProfile(old(tree), src, dst)
    {
      tree := MakeDirs(tree, dst);
      MoveGuarded(src + [SNAPSHOT], dst + [SNAPSHOT], false);
      MoveGuarded(src + ["memory"], dst + ["memory"], true);
      MoveGuarded(src + ["workspaces"], dst + ["workspaces"], true);
    }

    method RunV2() returns (ghost names: seq<string>)
      modifies this
      ensures tree == StageV2(old(tree), names)
      ensures !AlreadyDoneV2(old(tree)) && Listed(old(tree), CANDIDATES).Some? ==>
        Lists(names, old(tree), Listed(old(tree), CANDIDATES).value)
    {
      hide MigrateProfile, MigrateProfiles, Lists, WriteSentinel, MakeDirs;
      names := [];
      if AlreadyDoneV2(tree) {
        return;
      }
      var c := 0;
      while c < |CANDIDATES|
        invariant 0 <= c <= |CANDIDATES| && tree == old(tree) && names == []
        invariant Listed(tree, CANDIDATES) == Listed(tree, CANDIDATES[c..])
        invariant forall ns :: MigrateOld(tree, CANDIDATES, ns) == MigrateOld(tree, CANDIDATES[c..], ns)
      {
        var dir := CANDIDATES[c];
        if IsDir(tree, dir + ["profiles"]) {
          names := MoveProfiles(dir + ["profiles"]);
          break;
        }
        if dir + [SNAPSHOT] in tree {
          if RUNTIMES + ["default", SNAPSHOT] !in tree {
            MoveProfile(dir, RUNTIMES + ["default"]);
          }
          break;
        }
        assert CANDIDATES[c..][1..] == CANDIDATES[c + 1..];
        c := c + 1;
      }
      assert tree == MigrateOld(old(tree), CANDIDATES, names);
      var _ := WriteDone(V2_DIR, V2_DONE);
    }

    method MoveProfiles(dir: Path) returns (ghost names: seq<string>)
      modifies this
      ensures tree == MigrateProfiles(old(tree), dir, names)
      ensures Lists(names, old(tree), dir)
    {
      hide MigrateProfiles, MigrateProfile, Lists;
      var entries := ReadDir(dir);
      names := entries;
      assert entries[0..] == entries;
      var i := 0;
      while i < |entries|
        invariant 0 <= i <= |entries|
        invariant MigrateProfiles(tree, dir, entries[i..]) == MigrateProfiles(old(tree), dir, entries)
      {
        var id := entries[i];
        MigrateNext(tree, dir, entries, i);
        if IsDir(tree, dir + [id]) && RUNTIMES + [id, SNAPSHOT] !in tree {
          MoveProfile(dir + [id], RUNTIMES + [id]);
        }
        i := i + 1;
      }
      NothingMigrated(tree, dir);
      assert entries[i..] == [];
    }

    method RunV3()
      modifies this
      ensures tree == StageV3(old(tree))
    {
      if AlreadyDoneV3(tree) {
        return;
      }
      tree := MakeDirs(tree, CRONYMAX);
      var i := 0;
      while i < |PREFIXED_DIRS|
        invariant 0 <= i <= |PREFIXED_DIRS|
        invariant AddPrefix(tree, PREFIXED_DIRS[i..]) == AddPrefix(MakeDirs(old(tree), CRONYMAX), PREFIXED_DIRS)
      {
        var name := PREFIXED_DIRS[i];
        assert PREFIXED_DIRS[i..][1..] == PREFIXED_DIRS[i + 1..];
        MoveGuarded([name], CRONYMAX + [name], false);
        i := i + 1;
      }
      var _ := WriteDone(V3_DIR, V3_DONE);
    }

    method MoveMemories() returns (ghost names: seq<string>)
      modifies this
      ensures tree == SplitMemories(old(tree), names)
      ensures Lists(names, old(tree), PROFILES)
    {
      hide SplitMemories, GuardedMove, Lists;
      var entries := ReadDir(PROFILES);
      names := entries;
      assert entries[0..] == entries;
      var i := 0;
      while i < |entries|
        invariant 0 <= i <= |entries|
        invariant SplitMemories(tree, entries[i..]) == SplitMemories(old(tree), entries)
      {
        var id := entries[i];
        SplitNext(tree, entries, i);
        if IsDir(tree, PROFILES + [id]) && id != "migrations" {
          MoveGuarded(PROFILES + [id, "memory"], MEMORIES + [id], true);
        }
        i := i + 1;
      }
      NothingSplit(tree);
      assert entries[i..] == [];
    }

    method LiftWebviews() returns (ghost names: seq<string>)
      modifies this
      ensures tree == MoveWebviews(old(tree), names)
      ensures Lists(names, old(tree), CRONYMAX_WEBVIEWS)
    {
      var entries := ReadDir(CRONYMAX_WEBVIEWS);
      names := entries;
      if !IsDir(tree, CRONYMAX_WEBVIEWS) {
        return;
      }
      var i := 0;
      while i < |entries|
        invariant 0 <= i <= |entries|
        invariant RaiseWebviews(tree, entries[i..]) == RaiseWebviews(old(tree), entries)
      {
        var id := entries[i];
        assert entries[i..][1..] == entries[i + 1..];
        MoveGuarded(CRONYMAX_WEBVIEWS + [id], [id], true);
        i := i + 1;
      }
    }

    method RunV4(ghost oldProfiles: seq<string>) returns (ghost l: Listing)
      modifies this
      ensures l.oldProfiles == oldProfiles
      ensures tree == StageV4(old(tree), l)
      ensures !AlreadyDoneV4(old(tree)) ==> FaithfulV4(old(tree), l)
    {
      l := Listing(oldProfiles, [], []);
      if AlreadyDoneV4(tree) {
        return;
      }
      MoveGuarded(CRONYMAX_RUNTIMES, PROFILES, false);
      tree := MakeDirs(tree, PROFILES);
      tree := MakeDirs(tree, MEMORIES);
      ghost var profiles := MoveMemories();
      ghost var webviews := LiftWebviews();
      l := Listing(oldProfiles, profiles, webviews);
      var _ := WriteDone(V4_DIR, V4_DONE);
    }

    method Migrate() returns (ok: bool, ghost l: Listing)
      modifies this
      ensures ok
      ensures tree == Run(old(tree), l)
      ensures Faithful(old(tree), l)
    {
      ghost var names := RunV2();
      RunV3();
      l := RunV4(names);
      ok := true;
    }
  }
}
