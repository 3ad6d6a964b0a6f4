/** What each step of the migrator leaves at a path: the moves it makes, and the paths it does not touch. */
module MigratorPaths {
  import opened Wrappers
  import opened FileTree
  import opened LayoutMigrator

  ghost predicate Moves(t: Tree, src: Path, dst: Path, onlyDir: bool)
    requires dst != []
  {
    && (if onlyDir then IsDir(t, src) else src in t)
    && dst !in t && IsDir(t, Parent(dst)) && !(src <= dst)
  }

  lemma GuardedMoveAt(t: Tree, src: Path, dst: Path, onlyDir: bool, p: Path)
    requires WellFormed(t) && src != [] && dst != []
    ensures var t' := GuardedMove(t, src, dst, onlyDir);
      && WellFormed(t')
      && Get(t', p) == (if !Moves(t, src, dst, onlyDir) then Get(t, p)
                        else if dst <= p then Get(t, src + p[|dst|..])
                        else if src <= p then None else Get(t, p))
  {
    if Moves(t, src, dst, onlyDir) {
      MovedAt(t, src, dst, p);
      MovedWellFormed(t, src, dst);
    }
  }

  lemma MakeDirsAt(t: Tree, dir: Path, p: Path)
    requires WellFormed(t)
    ensures var t' := MakeDirs(t, dir);
      && WellFormed(t')
      && (Get(t', p) == Get(t, p) || (p <= dir && Get(t, p) == None && Get(t', p) == Some(Dir)))
      && (IsDir(t', dir) <==> Clear(t, dir))
  {
    MakeDirsEffect(t, dir);
  }

  /** A sentinel appears exactly when no file stands in the way of its directory; nothing else changes but
      missing directories on the way to it. */
  lemma WriteSentinelAt(t: Tree, dir: Path, name: string, p: Path)
    requires WellFormed(t)
    ensures var t' := WriteSentinel(t, dir, name);
      && WellFormed(t')
      && (dir + [name] in t' <==> Clear(t, dir))
      && (p != dir + [name] ==>
            Get(t', p) == Get(t, p) || (p <= dir && Get(t, p) == None && Get(t', p) == Some(Dir)))
  {
    MakeDirsEffect(t, dir);
    var t1, q := MakeDirs(t, dir), dir + [name];
    assert Parent(q) == dir;
    if IsDir(t1, dir) && !IsDir(t1, q) {
      PutFile(t1, q);
    } else if q in t1 {
      assert IsDir(t1, Parent(q));
    }
  }

  lemma PutFile(t: Tree, p: Path)
    requires WellFormed(t) && p != [] && IsDir(t, Parent(p)) && !IsDir(t, p)
    ensures WellFormed(t[p := File("")])
  {
    var t' := t[p := File("")];
    forall q | q in t' && q != []
      ensures Parent(q) in t' && t'[Parent(q)] == Dir
    {
      if q != p && Parent(q) == p {
        NothingUnder(t, q, p);
      }
    }
  }

  // ---------------------------------------------------------------- stage V2

  /** Migrating old data touches nothing outside runtime and runtimes, and turns no file there into a
      directory or back at the first two levels of runtimes. */
  ghost predicate OldMigrated(t: Tree, t': Tree) {
    && WellFormed(t')
    && (forall p: Path | p != [] && p[0] != "runtime" && p[0] != "runtimes" :: Get(t', p) == Get(t, p))
    && (forall p: Path | p != [] && p[0] == "runtimes" && |p| <= 2 ::
          Get(t', p) == Get(t, p) || (Get(t, p) == None && Get(t', p) == Some(Dir)))
    && Get(t', ["runtime"]) == Get(t, ["runtime"])
  }

  lemma MoveOut(t: Tree, src: Path, dst: Path, onlyDir: bool)
    requires WellFormed(t) && |src| > 1 && src[0] == "runtime" && |dst| > 2 && dst[0] == "runtimes"
    ensures OldMigrated(t, GuardedMove(t, src, dst, onlyDir))
  {
    var t' := GuardedMove(t, src, dst, onlyDir);
    GuardedMoveAt(t, src, dst, onlyDir, []);
    assert "runtime" != "runtimes" by {
      assert |"runtime"| == 7 && |"runtimes"| == 8;
    }
    forall p: Path | p == ["runtime"] || (p != [] && (p[0] != "runtime" && (p[0] != "runtimes" || |p| <= 2)))
      ensures Get(t', p) == Get(t, p)
    {
      GuardedMoveAt(t, src, dst, onlyDir, p);
    }
  }

  lemma OldMigratedTwice(t: Tree, t': Tree, t'': Tree)
    requires OldMigrated(t, t') && OldMigrated(t', t'')
    ensures OldMigrated(t, t'')
  {
    hide WellFormed;
  }

  lemma DirsOut(t: Tree, id: string)
    requires WellFormed(t)
    ensures OldMigrated(t, MakeDirs(t, RUNTIMES + [id]))
  {
    var dst := RUNTIMES + [id];
    var t0 := MakeDirs(t, dst);
    MakeDirsAt(t, dst, []);
    hide MakeDirs, WellFormed;
    forall p: Path | p != []
      ensures Get(t0, p) == Get(t, p) || (p[0] == "runtimes" && Get(t, p) == None && Get(t0, p) == Some(Dir))
    {
      MakeDirsAt(t, dst, p);
    }
    assert |"runtime"| == 7 && |"runtimes"| == 8 && ["runtime"][0] != "runtimes";
  }

  lemma ProfileOut(t: Tree, src: Path, id: string)
    requires WellFormed(t) && |src| > 0 && src[0] == "runtime"
    ensures OldMigrated(t, MigrateProfile(t, src, RUNTIMES + [id]))
  {
    hide GuardedMove, MakeDirs, WellFormed;
    var dst := RUNTIMES + [id];
    var t0 := MakeDirs(t, dst);
    var t1 := GuardedMove(t0, src + [SNAPSHOT], dst + [SNAPSHOT], false);
    var t2 := GuardedMove(t1, src + ["memory"], dst + ["memory"], true);
    var t3 := GuardedMove(t2, src + ["workspaces"], dst + ["workspaces"], true);
    DirsOut(t, id);
    MoveOut(t0, src + [SNAPSHOT], dst + [SNAPSHOT], false);
    MoveOut(t1, src + ["memory"], dst + ["memory"], true);
    MoveOut(t2, src + ["workspaces"], dst + ["workspaces"], true);
    hide OldMigrated;
    assert t3 == MigrateProfile(t, src, dst);
    OldMigratedTwice(t, t0, t1);
    OldMigratedTwice(t, t1, t2);
    OldMigratedTwice(t, t2, t3);
  }

  lemma {:induction false} ProfilesOut(t: Tree, dir: Path, names: seq<string>)
    requires WellFormed(t) && |dir| > 0 && dir[0] == "runtime"
    ensures OldMigrated(t, MigrateProfiles(t, dir, names))
    decreases names
  {
    hide MigrateProfile, WellFormed;
    if names != [] {
      var id := names[0];
      var t1 := if IsDir(t, dir + [id]) && RUNTIMES + [id, SNAPSHOT] !in t
                then MigrateProfile(t, dir + [id], RUNTIMES + [id]) else t;
      ProfileOut(t, dir + [id], id);
      ProfilesOut(t1, dir, names[1..]);
      OldMigratedTwice(t, t1, MigrateProfiles(t, dir, names));
    }
  }

  lemma {:induction false} OldOut(t: Tree, candidates: seq<Path>, names: seq<string>)
    requires WellFormed(t)
    requires forall c | c in candidates :: |c| > 0 && c[0] == "runtime"
    ensures OldMigrated(t, MigrateOld(t, candidates, names))
  {
    hide MigrateProfile, MigrateProfiles, WellFormed;
    if candidates != [] {
      var dir := candidates[0];
      ProfilesOut(t, dir + ["profiles"], names);
      ProfileOut(t, dir, "default");
      OldOut(t, candidates[1..], names);
    }
  }

  lemma ClearTwo(t: Tree, a: string, b: string)
    requires WellFormed(t)
    ensures Clear(t, [a, b]) <==> !IsFile(t, [a]) && !IsFile(t, [a, b])
  {
    assert Parent([a, b]) == [a] && Parent([a]) == [];
    assert Clear(t, []) && (Clear(t, [a]) <==> !IsFile(t, [a]));
  }

  lemma ClearThree(t: Tree, a: string, b: string, c: string)
    requires WellFormed(t)
    ensures Clear(t, [a, b, c]) <==> !IsFile(t, [a]) && !IsFile(t, [a, b]) && !IsFile(t, [a, b, c])
  {
    assert Parent([a, b, c]) == [a, b];
    ClearTwo(t, a, b);
  }

  /** Stage V2: its sentinel is there afterwards exactly when no file blocks it, runtimes is there, and nothing
      outside runtime and runtimes has changed. */
  lemma AfterV2(t: Tree, names: seq<string>)
    requires WellFormed(t)
    ensures var t' := StageV2(t, names);
      && WellFormed(t')
      && (AlreadyDoneV2(t') <==> Clear(t, V2_DIR))
      && (Clear(t', V2_DIR) <==> Clear(t, V2_DIR))
      && RUNTIMES in t'
      && IsFile(t', RUNTIMES) == IsFile(t, RUNTIMES) && IsFile(t', V2_DIR) == IsFile(t, V2_DIR)
      && (forall p: Path | p != [] && p[0] != "runtime" && p[0] != "runtimes" :: Get(t', p) == Get(t, p))
      && Get(t', ["runtime"]) == Get(t, ["runtime"])
  {
    ClearTwo(t, "runtimes", "migrations");
    if AlreadyDoneV2(t) {
      SentinelIsClear(t, "runtimes", "migrations", V2_DONE);
    } else {
      hide MigrateOld, WriteSentinel, Clear;
      OldOut(t, CANDIDATES, names);
      WrittenV2(t, MigrateOld(t, CANDIDATES, names));
    }
  }

  lemma SentinelIsClear(t: Tree, a: string, b: string, name: string)
    requires WellFormed(t) && [a, b] + [name] in t
    ensures IsDir(t, [a]) && IsDir(t, [a, b])
  {
    PrefixIsDir(t, [a, b] + [name], [a, b]);
    PrefixIsDir(t, [a, b] + [name], [a]);
  }

  lemma WrittenV2(t: Tree, t1: Tree)
    requires WellFormed(t) && OldMigrated(t, t1)
    ensures var t' := WriteSentinel(t1, V2_DIR, V2_DONE);
      && WellFormed(t')
      && (AlreadyDoneV2(t') <==> Clear(t, V2_DIR))
      && (Clear(t', V2_DIR) <==> Clear(t, V2_DIR))
      && RUNTIMES in t'
      && IsFile(t', RUNTIMES) == IsFile(t, RUNTIMES) && IsFile(t', V2_DIR) == IsFile(t, V2_DIR)
      && (forall p: Path | p != [] && p[0] != "runtime" && p[0] != "runtimes" :: Get(t', p) == Get(t, p))
      && Get(t', ["runtime"]) == Get(t, ["runtime"])
  {
    hide WriteSentinel, Clear;
    var t' := WriteSentinel(t1, V2_DIR, V2_DONE);
    WriteSentinelAt(t1, V2_DIR, V2_DONE, RUNTIMES);
    WriteSentinelAt(t1, V2_DIR, V2_DONE, V2_DIR);
    WriteSentinelAt(t1, V2_DIR, V2_DONE, ["runtime"]);
    assert |"runtime"| == 7 && |"runtimes"| == 8;
    ClearTwo(t, "runtimes", "migrations");
    ClearTwo(t1, "runtimes", "migrations");
    ClearTwo(t', "runtimes", "migrations");
    assert Get(t1, RUNTIMES) == Get(t, RUNTIMES) || (Get(t, RUNTIMES) == None && Get(t1, RUNTIMES) == Some(Dir));
    assert Get(t1, V2_DIR) == Get(t, V2_DIR) || (Get(t, V2_DIR) == None && Get(t1, V2_DIR) == Some(Dir));
    assert V2_DIR == ["runtimes", "migrations"] && RUNTIMES == ["runtimes"];
    if AlreadyDoneV2(t') {
      SentinelIsClear(t', "runtimes", "migrations", V2_DONE);
    } else if IsFile(t, V2_DIR) {
      PrefixIsDir(t', V2_DIR, RUNTIMES);
    }
    forall p: Path | p != [] && p[0] != "runtime" && p[0] != "runtimes"
      ensures Get(t', p) == Get(t, p)
    {
      WriteSentinelAt(t1, V2_DIR, V2_DONE, p);
    }
  }

  // ---------------------------------------------------------------- stage V3

  /** What is at p once every listed entry has been offered a place under cronymax. */
  function PrefixedAt(t: Tree, names: seq<string>, p: Path): Option<Node> {
    if |p| >= 2 && p[0] == "cronymax" && p[1] in names && [p[1]] in t && CRONYMAX + [p[1]] !in t then Get(t, p[1..])
    else if |p| >= 1 && p[0] in names && [p[0]] in t && CRONYMAX + [p[0]] !in t then None
    else Get(t, p)
  }

  lemma {:induction false} AddPrefixAt(t: Tree, names: seq<string>, p: Path)
    requires WellFormed(t) && IsDir(t, CRONYMAX) && "cronymax" !in names
    ensures WellFormed(AddPrefix(t, names)) && Get(AddPrefix(t, names), p) == PrefixedAt(t, names, p)
    ensures IsDir(AddPrefix(t, names), CRONYMAX)
    decreases names
  {
    if names != [] {
      hide GuardedMove, WellFormed;
      var n := names[0];
      var t1 := GuardedMove(t, [n], CRONYMAX + [n], false);
      assert names == [n] + names[1..] && n in names;
      OfferedAt(t, n, CRONYMAX);
      hide PrefixedAt;
      PrefixedStep(t, n, names[1..], p);
      AddPrefixAt(t1, names[1..], p);
    }
  }

  /** Offering the first listed entry and then the rest is offering them all. */
  lemma PrefixedStep(t: Tree, n: string, rest: seq<string>, p: Path)
    requires WellFormed(t) && IsDir(t, CRONYMAX) && n != "cronymax" && "cronymax" !in rest
    ensures var t1 := GuardedMove(t, [n], CRONYMAX + [n], false);
      PrefixedAt(t1, rest, p) == PrefixedAt(t, [n] + rest, p)
  {
    hide GuardedMove, WellFormed;
    assert forall m :: m in [n] + rest <==> m == n || m in rest;
    OfferedAt(t, n, p);
    if |p| >= 1 {
      OfferedNames(t, n, p[0]);
    }
    if |p| >= 2 && p[0] == "cronymax" {
      OfferedNames(t, n, p[1]);
      OfferedAt(t, n, p[1..]);
    }
  }

  /** The two entries named x after one entry has been offered its place. */
  lemma OfferedNames(t: Tree, n: string, x: string)
    requires WellFormed(t) && IsDir(t, CRONYMAX) && n != "cronymax"
    ensures var t1 := GuardedMove(t, [n], CRONYMAX + [n], false);
      var moved := x == n && [n] in t && CRONYMAX + [n] !in t;
      && Get(t1, CRONYMAX + [x]) == (if moved then Get(t, [x]) else Get(t, CRONYMAX + [x]))
      && Get(t1, [x]) == (if moved then None else Get(t, [x]))
  {
    hide GuardedMove, WellFormed;
    OfferedAt(t, n, CRONYMAX + [x]);
    OfferedAt(t, n, [x]);
    assert (CRONYMAX + [x])[1..] == [x];
  }

  lemma OfferedAt(t: Tree, n: string, p: Path)
    requires WellFormed(t) && IsDir(t, CRONYMAX) && n != "cronymax"
    ensures var t1 := GuardedMove(t, [n], CRONYMAX + [n], false);
      WellFormed(t1) && Get(t1, p) == PrefixedAt(t, [n], p)
  {
    var src, dst := [n], CRONYMAX + [n];
    assert Parent(dst) == CRONYMAX && src[0] != dst[0];
    GuardedMoveAt(t, src, dst, false, p);
    if dst <= p {
      assert p[0] == dst[0] && p[1] == dst[1];
      assert src + p[|dst|..] == p[1..];
    }
    if |p| >= 2 && p[0] == "cronymax" && p[1] == n {
      assert dst <= p;
    }
    if |p| >= 1 && p[0] == n {
      assert src <= p;
    }
  }

  lemma {:induction false} BlockedPrefix(t: Tree, names: seq<string>)
    requires !IsDir(t, CRONYMAX)
    ensures AddPrefix(t, names) == t
    decreases names
  {
    if names != [] {
      assert Parent(CRONYMAX + [names[0]]) == CRONYMAX;
      BlockedPrefix(t, names[1..]);
    }
  }

  lemma PrefixedDirsDiffer()
    ensures "cronymax" !in PREFIXED_DIRS
  {
    assert |"cronymax"| == 8 && |"runtimes"| == 8 && |"webviews"| == 8 && |"logs"| == 4 && |"cache"| == 5;
    assert "cronymax"[0] == 'c' && "runtimes"[0] == 'r' && "webviews"[0] == 'w';
  }

  /** What stage V3, when it runs and cronymax is not a file, leaves at p. */
  lemma AfterV3(t: Tree, p: Path)
    requires WellFormed(t) && !AlreadyDoneV3(t) && !IsFile(t, CRONYMAX)
    ensures var t' := StageV3(t);
      && WellFormed(t') && IsDir(t', CRONYMAX)
      && (p != [] && p != V3_DIR + [V3_DONE] && !(p <= V3_DIR) ==> Get(t', p) == PrefixedAt(t, PREFIXED_DIRS, p))
      && (p != [] && p <= V3_DIR && p != CRONYMAX ==>
            var q := PrefixedAt(t, PREFIXED_DIRS, p);
            Get(t', p) == q || (q == None && Get(t', p) == Some(Dir)))
      && (AlreadyDoneV3(t') <==> PrefixedAt(t, PREFIXED_DIRS, CRONYMAX_RUNTIMES) in {None, Some(Dir)} &&
                                 PrefixedAt(t, PREFIXED_DIRS, V3_DIR) in {None, Some(Dir)})
  {
    hide WriteSentinel, AddPrefix, PREFIXED_DIRS;
    PrefixedDirsDiffer();
    var t1 := MakeDirs(t, CRONYMAX);
    assert Parent(CRONYMAX) == [] && Clear(t, CRONYMAX);
    var t2, t' := AddPrefix(t1, PREFIXED_DIRS), StageV3(t);
    MakeDirsAt(t, CRONYMAX, []);
    AddPrefixAt(t1, PREFIXED_DIRS, []);
    forall q: Path | q != [] && q != CRONYMAX
      ensures Get(t2, q) == PrefixedAt(t, PREFIXED_DIRS, q)
    {
      MakeDirsAt(t, CRONYMAX, q);
      AddPrefixAt(t1, PREFIXED_DIRS, q);
      if |q| >= 1 {
        MakeDirsAt(t, CRONYMAX, [q[0]]);
        MakeDirsAt(t, CRONYMAX, CRONYMAX + [q[0]]);
      }
      if |q| >= 2 {
        MakeDirsAt(t, CRONYMAX, [q[1]]);
        MakeDirsAt(t, CRONYMAX, CRONYMAX + [q[1]]);
        MakeDirsAt(t, CRONYMAX, q[1..]);
      }
    }
    WriteSentinelAt(t2, V3_DIR, V3_DONE, p);
    WriteSentinelAt(t2, V3_DIR, V3_DONE, CRONYMAX);
    ClearThree(t2, "cronymax", "runtimes", "migrations");
  }

  // ---------------------------------------------------------------- stage V4

  ghost predicate RuntimesRenamed(t: Tree) {
    CRONYMAX_RUNTIMES in t && PROFILES !in t
  }

  /** What is at p once cronymax/runtimes has been offered the name cronymax/Profiles and the two target
      directories exist. */
  lemma RenamedAt(t: Tree, p: Path)
    requires WellFormed(t) && IsDir(t, CRONYMAX)
    ensures var t' := RenameRuntimes(t);
      && WellFormed(t') && IsDir(t', CRONYMAX)
      && (p != [] && !(PROFILES <= p) && !(MEMORIES <= p) ==>
            Get(t', p) == if RuntimesRenamed(t) && CRONYMAX_RUNTIMES <= p then None else Get(t, p))
      && (|p| > 2 && PROFILES <= p ==>
            Get(t', p) == if RuntimesRenamed(t) then Get(t, CRONYMAX_RUNTIMES + p[2..]) else Get(t, p))
      && (|p| > 2 && MEMORIES <= p ==> Get(t', p) == Get(t, p))
      && (!IsFile(t, MEMORIES) ==> IsDir(t', MEMORIES))
      && PROFILES in t'
  {
    hide MakeDirs, GuardedMove;
    assert Parent(PROFILES) == CRONYMAX && Parent(MEMORIES) == CRONYMAX && Parent(CRONYMAX) == [];
    assert CRONYMAX_RUNTIMES[1] != PROFILES[1] && CRONYMAX_RUNTIMES[1] != MEMORIES[1] && PROFILES[1] != MEMORIES[1];
    var t1 := GuardedMove(t, CRONYMAX_RUNTIMES, PROFILES, false);
    var t2 := MakeDirs(t1, PROFILES);
    GuardedMoveAt(t, CRONYMAX_RUNTIMES, PROFILES, false, CRONYMAX);
    GuardedMoveAt(t, CRONYMAX_RUNTIMES, PROFILES, false, MEMORIES);
    GuardedMoveAt(t, CRONYMAX_RUNTIMES, PROFILES, false, PROFILES);
    GuardedMoveAt(t, CRONYMAX_RUNTIMES, PROFILES, false, p);
    MakeDirsAt(t1, PROFILES, CRONYMAX);
    MakeDirsAt(t1, PROFILES, MEMORIES);
    MakeDirsAt(t1, PROFILES, PROFILES);
    MakeDirsAt(t1, PROFILES, p);
    MakeDirsAt(t2, MEMORIES, CRONYMAX);
    MakeDirsAt(t2, MEMORIES, PROFILES);
    MakeDirsAt(t2, MEMORIES, p);
    ClearTwo(t1, "cronymax", "Profiles");
    ClearTwo(t2, "cronymax", "Memories");
    if p != [] && p <= PROFILES {
      assert p == CRONYMAX || p == PROFILES;
    }
    if p != [] && p <= MEMORIES {
      assert p == CRONYMAX || p == MEMORIES;
    }
  }

  /** Splitting off the memories touches nothing outside Profiles and Memories. */
  lemma {:induction false} SplitFrame(t: Tree, names: seq<string>, p: Path)
    requires WellFormed(t)
    ensures WellFormed(SplitMemories(t, names))
    ensures !(PROFILES <= p) && !(MEMORIES <= p) ==> Get(SplitMemories(t, names), p) == Get(t, p)
    decreases names
  {
    hide GuardedMove, WellFormed;
    if names != [] {
      var id := names[0];
      var src, dst := PROFILES + [id, "memory"], MEMORIES + [id];
      GuardedMoveAt(t, src, dst, true, p);
      assert PROFILES <= src && MEMORIES <= dst;
      if src <= p {
        assert p[..2] == src[..2];
        assert PROFILES <= p;
      }
      if dst <= p {
        assert p[..2] == dst[..2];
        assert MEMORIES <= p;
      }
      var t1 := if IsDir(t, PROFILES + [id]) && id != "migrations" then GuardedMove(t, src, dst, true) else t;
      SplitFrame(t1, names[1..], p);
    }
  }

  /** What is at p once every listed web view has been offered a place at the top. */
  function RaisedAt(t: Tree, names: seq<string>, p: Path): Option<Node> {
    if p == [] then Get(t, p)
    else if CRONYMAX_WEBVIEWS <= p then
      if |p| >= 3 && p[2] in names && IsDir(t, CRONYMAX_WEBVIEWS + [p[2]]) && [p[2]] !in t then None else Get(t, p)
    else if p[0] in names && [p[0]] !in t && IsDir(t, CRONYMAX_WEBVIEWS + [p[0]]) then Get(t, CRONYMAX_WEBVIEWS + p)
    else Get(t, p)
  }

  lemma OneRaisedAt(t: Tree, n: string, p: Path)
    requires WellFormed(t) && CRONYMAX in t
    ensures var t1 := GuardedMove(t, CRONYMAX_WEBVIEWS + [n], [n], true);
      WellFormed(t1) && Get(t1, p) == RaisedAt(t, [n], p)
  {
    var src, dst := CRONYMAX_WEBVIEWS + [n], [n];
    assert Parent(dst) == [] && src[..2] == CRONYMAX_WEBVIEWS;
    GuardedMoveAt(t, src, dst, true, p);
    assert |p| >= 3 && CRONYMAX_WEBVIEWS <= p && p[2] == n ==> src <= p;
    if Moves(t, src, dst, true) {
      assert n != "cronymax";
      if dst <= p {
        assert p[0] == n && src + p[|dst|..] == CRONYMAX_WEBVIEWS + p;
      } else if src <= p {
        assert p[..2] == src[..2] && p[2] == n;
      }
    }
  }

  /** The two entries named x after one web view has been offered its place. */
  lemma OneRaisedNames(t: Tree, n: string, x: string)
    requires WellFormed(t) && CRONYMAX in t
    ensures var t1 := GuardedMove(t, CRONYMAX_WEBVIEWS + [n], [n], true);
      var raised := x == n && [n] !in t && IsDir(t, CRONYMAX_WEBVIEWS + [n]);
      && Get(t1, CRONYMAX_WEBVIEWS + [x]) == (if raised then None else Get(t, CRONYMAX_WEBVIEWS + [x]))
      && Get(t1, [x]) == (if raised then Get(t, CRONYMAX_WEBVIEWS + [x]) else Get(t, [x]))
  {
    hide GuardedMove, WellFormed;
    var view := CRONYMAX_WEBVIEWS + [x];
    OneRaisedAt(t, n, view);
    OneRaisedAt(t, n, [x]);
    assert view[2] == x && view[..2] == CRONYMAX_WEBVIEWS && CRONYMAX_WEBVIEWS <= view;
  }

  /** Offering the first listed web view and then the rest is offering them all. */
  lemma RaisedStep(t: Tree, n: string, rest: seq<string>, p: Path)
    requires WellFormed(t) && CRONYMAX in t
    ensures var t1 := GuardedMove(t, CRONYMAX_WEBVIEWS + [n], [n], true);
      RaisedAt(t1, rest, p) == RaisedAt(t, [n] + rest, p)
  {
    hide GuardedMove, WellFormed;
    var t1 := GuardedMove(t, CRONYMAX_WEBVIEWS + [n], [n], true);
    assert forall m :: m in [n] + rest <==> m == n || m in rest;
    OneRaisedAt(t, n, p);
    if |p| >= 3 && CRONYMAX_WEBVIEWS <= p {
      OneRaisedNames(t, n, p[2]);
      hide RaisedAt;
      RaisedBelow(t, t1, n, rest, p);
    } else if p != [] {
      OneRaisedNames(t, n, p[0]);
      OneRaisedAt(t, n, CRONYMAX_WEBVIEWS + p);
      assert (CRONYMAX_WEBVIEWS + p)[2] == p[0];
      assert CRONYMAX_WEBVIEWS <= CRONYMAX_WEBVIEWS + p;
    }
  }

  lemma RaisedBelow(t: Tree, t1: Tree, n: string, rest: seq<string>, p: Path)
    requires |p| >= 3 && CRONYMAX_WEBVIEWS <= p
    requires Get(t1, p) == RaisedAt(t, [n], p)
    requires var raised := p[2] == n && [n] !in t && IsDir(t, CRONYMAX_WEBVIEWS + [n]);
      && Get(t1, CRONYMAX_WEBVIEWS + [p[2]]) == (if raised then None else Get(t, CRONYMAX_WEBVIEWS + [p[2]]))
      && Get(t1, [p[2]]) == (if raised then Get(t, CRONYMAX_WEBVIEWS + [p[2]]) else Get(t, [p[2]]))
    ensures RaisedAt(t1, rest, p) == RaisedAt(t, [n] + rest, p)
  {
  }

  lemma {:induction false} RaiseWebviewsAt(t: Tree, names: seq<string>, p: Path)
    requires WellFormed(t) && CRONYMAX in t
    ensures WellFormed(RaiseWebviews(t, names)) && Get(RaiseWebviews(t, names), p) == RaisedAt(t, names, p)
    decreases names
  {
    if names != [] {
      hide GuardedMove, WellFormed, RaisedAt;
      var n := names[0];
      var t1 := GuardedMove(t, CRONYMAX_WEBVIEWS + [n], [n], true);
      assert names == [n] + names[1..];
      OneRaisedAt(t, n, CRONYMAX);
      OneRaisedNames(t, n, "cronymax");
      RaisedStep(t, n, names[1..], p);
      RaiseWebviewsAt(t1, names[1..], p);
    }
  }
}
