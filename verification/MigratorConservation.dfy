/** No run of the migrator loses, duplicates or overwrites a file other than a sentinel, whatever the tree. */
module MigratorConservation {
  import opened Wrappers
  import opened FileTree
  import opened LayoutMigrator
  import opened MigratorPaths

  /** A V2 or V3 sentinel in runtimes/migrations, there or in a web view that may yet be raised to its place. */
  predicate Carried(p: Path) {
    |p| >= 3 && if p[0] == "webviews" then Carried(p[1..]) else p == V2_DIR + [V2_DONE] || p == V2_DIR + [V3_DONE]
  }

  /** The places a sentinel is written to, and those the moves carry it to or could bring one from. */
  predicate IsSentinel(p: Path) {
    || Carried(p)
    || (p != [] && p[0] == "cronymax" && Carried(p[1..]))
    || p == PROFILES + ["migrations", V2_DONE] || p == PROFILES + ["migrations", V3_DONE]
    || p == V4_DIR + [V4_DONE]
  }

  function DataFiles(t: Tree): set<Path> {
    set p | p in t && t[p].File? && !IsSentinel(p)
  }

  /** The data files of t that hold the given content. */
  function Holding(t: Tree, content: string): set<Path> {
    set p | p in DataFiles(t) && t[p] == File(content)
  }

  ghost predicate Onto(m: map<Path, Path>, image: set<Path>) {
    forall q | q in image :: exists p | p in m :: m[p] == q
  }

  ghost predicate Injective(m: map<Path, Path>) {
    forall p, q | p in m && q in m && p != q :: m[p] != m[q]
  }

  /** m says where each data file of t lies in t': with its content, at a place of its own, and no others are there. */
  ghost predicate Relocates(t: Tree, t': Tree, m: map<Path, Path>) {
    && m.Keys == DataFiles(t)
    && (forall p | p in m :: m[p] in DataFiles(t') && Get(t', m[p]) == Get(t, p))
    && Injective(m)
    && Onto(m, DataFiles(t'))
  }

  /** Every data file is kept: nothing lost, duplicated or overwritten. */
  ghost predicate Conserved(t: Tree, t': Tree) {
    WellFormed(t') && exists m: map<Path, Path> :: Relocates(t, t', m)
  }

  lemma SameFiles(t: Tree, t': Tree)
    requires WellFormed(t') && DataFiles(t) == DataFiles(t')
    requires forall p | p in DataFiles(t) :: t[p] == t'[p]
    ensures Conserved(t, t')
  {
    hide WellFormed, IsSentinel;
    var m := map p | p in DataFiles(t) :: p;
    forall q | q in DataFiles(t')
      ensures exists p | p in m :: m[p] == q
    {
      assert m[q] == q;
    }
    assert Relocates(t, t', m);
  }

  /** One relocation after another. */
  function Then(m: map<Path, Path>, n: map<Path, Path>): (both: map<Path, Path>)
    requires forall p | p in m :: m[p] in n
    ensures both.Keys == m.Keys && forall p | p in m :: both[p] == n[m[p]]
  {
    map p | p in m :: n[m[p]]
  }

  lemma OntoTwice(m: map<Path, Path>, n: map<Path, Path>, image: set<Path>)
    requires Onto(m, n.Keys) && Onto(n, image) && forall p | p in m :: m[p] in n
    ensures Onto(Then(m, n), image)
  {
    var both := Then(m, n);
    forall q | q in image
      ensures exists p | p in both :: both[p] == q
    {
      var mid :| mid in n && n[mid] == q;
      var p :| p in m && m[p] == mid;
      assert both[p] == q;
    }
  }

  lemma RelocatedTwice(t: Tree, t': Tree, t'': Tree, m: map<Path, Path>, n: map<Path, Path>)
    requires Relocates(t, t', m) && Relocates(t', t'', n)
    ensures (forall p | p in m :: m[p] in n) && Relocates(t, t'', Then(m, n))
  {
    hide DataFiles, Get, Onto, Injective, Then;
    assert forall p | p in m :: m[p] in n.Keys;
    OntoTwice(m, n, DataFiles(t''));
    InjectiveTwice(m, n);
  }

  lemma InjectiveTwice(m: map<Path, Path>, n: map<Path, Path>)
    requires Injective(m) && Injective(n) && forall p | p in m :: m[p] in n
    ensures Injective(Then(m, n))
  {
    hide Then;
    var both := Then(m, n);
    forall p, q | p in both && q in both && p != q
      ensures both[p] != both[q]
    {
      assert m[p] != m[q];
    }
  }

  lemma Compose(t: Tree, t': Tree, t'': Tree)
    requires Conserved(t, t') && Conserved(t', t'')
    ensures Conserved(t, t'')
  {
    hide WellFormed, Relocates, Then;
    var m :| Relocates(t, t', m);
    var n :| Relocates(t', t'', n);
    RelocatedTwice(t, t', t'', m, n);
  }

  /** So the files that hold a content are as many as before. */
  lemma CountsKept(t: Tree, t': Tree, content: string)
    requires Conserved(t, t')
    ensures |Holding(t', content)| == |Holding(t, content)|
  {
    hide WellFormed, Holding, Relocates, Between;
    var m :| Relocates(t, t', m);
    HeldStays(t, t', m, content);
    HeldBefore(t, t', m, content);
    MapsInto(t, t', m);
    SameSize(Holding(t, content), Holding(t', content), m);
  }

  /** m takes s onto image, and stays in it. */
  ghost predicate Between(m: map<Path, Path>, s: set<Path>, image: set<Path>) {
    && (forall p | p in s :: p in m && m[p] in image)
    && (forall q | q in image :: exists p | p in s && p in m :: m[p] == q)
  }

  lemma MapsInto(t: Tree, t': Tree, m: map<Path, Path>)
    requires Relocates(t, t', m)
    ensures Injective(m)
  {
    hide Onto, DataFiles, Get, Injective;
  }

  lemma HeldIn(t: Tree, content: string, p: Path)
    ensures p in Holding(t, content) <==> p in DataFiles(t) && Get(t, p) == Some(File(content))
  {
    hide IsSentinel;
  }

  lemma HeldStays(t: Tree, t': Tree, m: map<Path, Path>, content: string)
    requires Relocates(t, t', m)
    ensures forall p | p in Holding(t, content) :: p in m && m[p] in Holding(t', content)
  {
    hide Holding, DataFiles, Get, Injective, Onto;
    forall p | p in Holding(t, content)
      ensures p in m && m[p] in Holding(t', content)
    {
      HeldIn(t, content, p);
      assert p in m.Keys;
      HeldIn(t', content, m[p]);
    }
  }

  lemma HeldBefore(t: Tree, t': Tree, m: map<Path, Path>, content: string)
    requires Relocates(t, t', m)
    requires forall p | p in Holding(t, content) :: p in m && m[p] in Holding(t', content)
    ensures Between(m, Holding(t, content), Holding(t', content))
  {
    hide Holding, DataFiles, Get, Injective, Onto, Relocates;
    forall q | q in Holding(t', content)
      ensures exists p | p in Holding(t, content) && p in m :: m[p] == q
    {
      var p := CameFrom(t, t', m, content, q);
      assert m[p] == q;
    }
  }

  lemma CameFrom(t: Tree, t': Tree, m: map<Path, Path>, content: string, q: Path) returns (p: Path)
    requires Relocates(t, t', m) && q in Holding(t', content)
    ensures p in Holding(t, content) && p in m && m[p] == q
  {
    hide Holding, DataFiles, Get, Injective;
    HeldIn(t', content, q);
    p :| p in m && m[p] == q;
    hide Onto;
    HeldIn(t, content, p);
    assert p in m.Keys;
  }

  lemma {:induction false} SameSize(s: set<Path>, image: set<Path>, m: map<Path, Path>)
    requires Between(m, s, image) && Injective(m)
    ensures |s| == |image|
    decreases |s|
  {
    if s == {} {
      assert image == {};
    } else {
      var p :| p in s;
      SameSize(s - {p}, image - {m[p]}, m);
    }
  }

  lemma DirsConserve(t: Tree, p: Path)
    requires WellFormed(t)
    ensures Conserved(t, MakeDirs(t, p))
  {
    MakeDirsEffect(t, p);
    SameFiles(t, MakeDirs(t, p));
  }

  lemma SentinelConserves(t: Tree, dir: Path, name: string)
    requires WellFormed(t) && IsSentinel(dir + [name])
    ensures Conserved(t, WriteSentinel(t, dir, name))
  {
    hide MakeDirs, IsSentinel, Relocates;
    var t1, t' := MakeDirs(t, dir), WriteSentinel(t, dir, name);
    DirsConserve(t, dir);
    if t' != t1 {
      var p := dir + [name];
      assert Parent(p) == dir;
      assert t' == t1[p := File("")];
      PutFile(t1, p);
      assert DataFiles(t') == DataFiles(t1);
      SameFiles(t1, t');
      Compose(t, t1, t');
    }
  }

  /** Below src lie sentinels just where they lie below dst. */
  ghost predicate SentinelsFollow(src: Path, dst: Path) {
    forall q: Path :: IsSentinel(src + q) <==> IsSentinel(dst + q)
  }

  /** A move sends each data file to its rebased path. */
  lemma MoveConserves(t: Tree, src: Path, dst: Path)
    requires WellFormed(t) && src in t && dst !in t
    requires src != [] && dst != [] && !(src <= dst) && IsDir(t, Parent(dst))
    requires SentinelsFollow(src, dst)
    ensures Conserved(t, Moved(t, src, dst))
  {
    hide Moved, DataFiles, WellFormed, SentinelsFollow, Rebase, IsDir;
    var t' := Moved(t, src, dst);
    MovedWellFormed(t, src, dst);
    var m := map p | p in DataFiles(t) :: Rebase(p, src, dst);
    forall p | p in m
      ensures m[p] in DataFiles(t') && Get(t', m[p]) == Get(t, p) && Rebase(m[p], dst, src) == p
    {
      RebasedData(t, src, dst, p);
    }
    forall q | q in DataFiles(t')
      ensures exists p | p in m :: m[p] == q
    {
      DataBefore(t, src, dst, q);
      assert m[Rebase(q, dst, src)] == q;
    }
    assert Relocates(t, t', m);
  }

  lemma RebasedData(t: Tree, src: Path, dst: Path, p: Path)
    requires WellFormed(t) && src in t && dst !in t && p in DataFiles(t)
    requires src != [] && dst != [] && !(src <= dst) && IsDir(t, Parent(dst)) && SentinelsFollow(src, dst)
    ensures var t', q := Moved(t, src, dst), Rebase(p, src, dst);
      q in DataFiles(t') && Get(t', q) == Get(t, p) && Rebase(q, dst, src) == p
  {
    hide Moved, IsSentinel;
    MovedNode(t, src, dst, p);
    RebasedBack(t, src, dst, p);
    RebasedSentinel(src, dst, p);
  }

  lemma DataBefore(t: Tree, src: Path, dst: Path, q: Path)
    requires WellFormed(t) && src in t && dst !in t && q in DataFiles(Moved(t, src, dst))
    requires src != [] && dst != [] && !(src <= dst) && IsDir(t, Parent(dst)) && SentinelsFollow(src, dst)
    ensures var p := Rebase(q, dst, src);
      p in DataFiles(t) && Rebase(p, src, dst) == q
  {
    hide Moved, IsSentinel;
    MovedAt(t, src, dst, q);
    var p := Rebase(q, dst, src);
    assert Get(Moved(t, src, dst), q) == Get(t, p) && Rebase(p, src, dst) == q by {
      if dst <= q {
        assert (src + q[|dst|..])[|src|..] == q[|dst|..] && dst + q[|dst|..] == q;
      }
    }
    RebasedSentinel(src, dst, p);
  }

  lemma RebasedSentinel(src: Path, dst: Path, p: Path)
    requires SentinelsFollow(src, dst)
    ensures IsSentinel(Rebase(p, src, dst)) <==> IsSentinel(p)
  {
    hide IsSentinel;
    if src <= p {
      assert src + p[|src|..] == p;
    }
  }

  lemma RebasedBack(t: Tree, src: Path, dst: Path, p: Path)
    requires WellFormed(t) && dst !in t && p in t
    ensures Rebase(Rebase(p, src, dst), dst, src) == p
  {
    if src <= p {
      assert (dst + p[|src|..])[|dst|..] == p[|src|..] && src + p[|src|..] == p;
    } else {
      BelowFreePath(t, dst, p);
    }
  }

  lemma MovedNode(t: Tree, src: Path, dst: Path, p: Path)
    requires WellFormed(t) && src in t && dst !in t && p in t
    requires src != [] && dst != [] && !(src <= dst)
    ensures Get(Moved(t, src, dst), Rebase(p, src, dst)) == Some(t[p])
  {
    hide Moved;
    var q := Rebase(p, src, dst);
    MovedAt(t, src, dst, q);
    if src <= p {
      assert q[|dst|..] == p[|src|..] && src + p[|src|..] == p;
    } else {
      BelowFreePath(t, dst, p);
    }
  }

  lemma BelowFreePath(t: Tree, dst: Path, p: Path)
    requires WellFormed(t) && dst !in t && p in t
    ensures !(dst <= p)
  {
    if dst <= p && p != dst {
      NothingUnder(t, p, dst);
    }
  }

  lemma GuardedMoveConserves(t: Tree, src: Path, dst: Path, onlyDir: bool)
    requires WellFormed(t) && src != [] && dst != []
    requires SentinelsFollow(src, dst)
    ensures Conserved(t, GuardedMove(t, src, dst, onlyDir))
  {
    hide SentinelsFollow;
    var t' := GuardedMove(t, src, dst, onlyDir);
    if t' == t {
      SameFiles(t, t);
    } else {
      MoveConserves(t, src, dst);
    }
  }

  // ---------------------------------------------------------------- the stages

  lemma SentinelNames()
    ensures V2_DONE !in {SNAPSHOT, "memory", "workspaces"} && V3_DONE !in {SNAPSHOT, "memory", "workspaces"}
    ensures "runtime" !in {"runtimes", "webviews", "cronymax"}
    ensures "cronymax" !in {"runtimes", "webviews", "logs", "cache"}
    ensures "profiles" !in {"runtimes", "webviews", "logs", "cache"}
    ensures {"Profiles", "Memories"} !! {"profiles", "runtimes", "webviews", "logs", "cache"} && "Profiles" != "Memories"
  {
    assert |V2_DONE| == |V3_DONE| == 14 && |SNAPSHOT| == 18 && |"memory"| == 6 && |"workspaces"| == 10;
    assert |"runtime"| == 7 && |"runtimes"| == |"webviews"| == |"cronymax"| == |"profiles"| == |"Profiles"| == 8;
    assert "runtimes"[0] == 'r' && "webviews"[0] == 'w' && "cronymax"[0] == 'c' && "profiles"[0] == 'p';
    assert "Profiles"[0] == 'P' && "Memories"[0] == 'M' && |"logs"| == 4 && |"cache"| == 5;
  }

  /** Sentinels at the top level are those web views could bring. */
  lemma TopLevel(name: string, q: Path)
    requires name != "cronymax"
    ensures IsSentinel([name] + q) <==> Carried([name] + q)
  {
  }

  lemma UnderCronymax(name: string, q: Path)
    ensures IsSentinel(["cronymax", name] + q) <==>
      Carried([name] + q) || (name == "profiles" && q == ["migrations", V4_DONE]) ||
      (name == "Profiles" && (q == ["migrations", V2_DONE] || q == ["migrations", V3_DONE]))
  {
    var p := ["cronymax", name] + q;
    assert p[1..] == [name] + q && p[2..] == q;
    assert (V4_DIR + [V4_DONE])[2..] == ["migrations", V4_DONE];
    assert V4_DIR + [V4_DONE] == ["cronymax", "profiles"] + ["migrations", V4_DONE];
    assert PROFILES + ["migrations", V2_DONE] == ["cronymax", "Profiles"] + ["migrations", V2_DONE];
    assert PROFILES + ["migrations", V3_DONE] == ["cronymax", "Profiles"] + ["migrations", V3_DONE];
    SentinelNames();
  }

  lemma CarriedHead(name: string, q: Path)
    ensures Carried([name] + q) <==>
      (name == "runtimes" && (q == ["migrations", V2_DONE] || q == ["migrations", V3_DONE])) ||
      (name == "webviews" && Carried(q))
  {
    var p := [name] + q;
    assert p[1..] == q && V2_DIR + [V2_DONE] == ["runtimes"] + ["migrations", V2_DONE];
    assert V2_DIR + [V3_DONE] == ["runtimes"] + ["migrations", V3_DONE];
    assert (V2_DIR + [V2_DONE])[1..] == ["migrations", V2_DONE] && (V2_DIR + [V3_DONE])[1..] == ["migrations", V3_DONE];
    SentinelNames();
  }

  lemma WrittenSentinels()
    ensures IsSentinel(V2_DIR + [V2_DONE]) && IsSentinel(V3_DIR + [V3_DONE]) && IsSentinel(V4_DIR + [V4_DONE])
  {
    var p := V3_DIR + [V3_DONE];
    assert p[1..] == V2_DIR + [V3_DONE] && p[0] == "cronymax";
    SentinelNames();
  }

  lemma ItemsFollow(src: Path, id: string, x: string)
    requires src != [] && src[0] == "runtime" && x in {SNAPSHOT, "memory", "workspaces"}
    ensures SentinelsFollow(src + [x], RUNTIMES + [id] + [x])
  {
    SentinelNames();
    forall q: Path
      ensures !IsSentinel(src + [x] + q) && !IsSentinel(RUNTIMES + [id] + [x] + q)
    {
      var rest := src[1..] + [x] + q;
      assert src + [x] + q == ["runtime"] + rest;
      TopLevel("runtime", rest);
      CarriedHead("runtime", rest);
      var below := [id, x] + q;
      assert RUNTIMES + [id] + [x] + q == ["runtimes"] + below && below[1] == x;
      TopLevel("runtimes", below);
      CarriedHead("runtimes", below);
    }
  }

  lemma PrefixFollows(name: string)
    requires name !in {"cronymax", "profiles", "Profiles"}
    ensures SentinelsFollow([name], CRONYMAX + [name])
  {
    forall q: Path
      ensures IsSentinel([name] + q) <==> IsSentinel(CRONYMAX + [name] + q)
    {
      TopLevel(name, q);
      UnderCronymax(name, q);
      assert CRONYMAX + [name] + q == ["cronymax", name] + q;
    }
  }

  lemma RuntimesFollow()
    ensures SentinelsFollow(CRONYMAX_RUNTIMES, PROFILES)
  {
    SentinelNames();
    forall q: Path
      ensures IsSentinel(CRONYMAX_RUNTIMES + q) <==> IsSentinel(PROFILES + q)
    {
      UnderCronymax("runtimes", q);
      UnderCronymax("Profiles", q);
      CarriedHead("runtimes", q);
      CarriedHead("Profiles", q);
    }
  }

  lemma MemoryFollows(id: string)
    requires id != "migrations"
    ensures SentinelsFollow(PROFILES + [id, "memory"], MEMORIES + [id])
  {
    SentinelNames();
    forall q: Path
      ensures !IsSentinel(PROFILES + [id, "memory"] + q) && !IsSentinel(MEMORIES + [id] + q)
    {
      var below := [id, "memory"] + q;
      assert PROFILES + [id, "memory"] + q == ["cronymax", "Profiles"] + below && below[0] == id;
      UnderCronymax("Profiles", below);
      CarriedHead("Profiles", below);
      assert MEMORIES + [id] + q == ["cronymax", "Memories"] + ([id] + q);
      UnderCronymax("Memories", [id] + q);
      CarriedHead("Memories", [id] + q);
    }
  }

  lemma WebviewFollows(n: string)
    requires n != "cronymax"
    ensures SentinelsFollow(CRONYMAX_WEBVIEWS + [n], [n])
  {
    SentinelNames();
    forall q: Path
      ensures IsSentinel(CRONYMAX_WEBVIEWS + [n] + q) <==> IsSentinel([n] + q)
    {
      assert CRONYMAX_WEBVIEWS + [n] + q == ["cronymax", "webviews"] + ([n] + q);
      UnderCronymax("webviews", [n] + q);
      CarriedHead("webviews", [n] + q);
      TopLevel(n, q);
    }
  }

  lemma ProfileConserves(t: Tree, src: Path, id: string)
    requires WellFormed(t) && src != [] && src[0] == "runtime"
    ensures Conserved(t, MigrateProfile(t, src, RUNTIMES + [id]))
  {
    hide MakeDirs, GuardedMove, SentinelsFollow, WellFormed, Relocates;
    var dst := RUNTIMES + [id];
    ItemsFollow(src, id, SNAPSHOT);
    ItemsFollow(src, id, "memory");
    ItemsFollow(src, id, "workspaces");
    var t0 := MakeDirs(t, dst);
    DirsConserve(t, dst);
    GuardedMoveConserves(t0, src + [SNAPSHOT], dst + [SNAPSHOT], false);
    var t1 := GuardedMove(t0, src + [SNAPSHOT], dst + [SNAPSHOT], false);
    Compose(t, t0, t1);
    GuardedMoveConserves(t1, src + ["memory"], dst + ["memory"], true);
    var t2 := GuardedMove(t1, src + ["memory"], dst + ["memory"], true);
    Compose(t, t1, t2);
    GuardedMoveConserves(t2, src + ["workspaces"], dst + ["workspaces"], true);
    Compose(t, t2, MigrateProfile(t, src, dst));
  }

  lemma {:induction false} ProfilesConserve(t: Tree, dir: Path, names: seq<string>)
    requires WellFormed(t) && dir != [] && dir[0] == "runtime"
    ensures Conserved(t, MigrateProfiles(t, dir, names))
    decreases names
  {
    hide MigrateProfile, WellFormed, Relocates;
    SameFiles(t, t);
    if names != [] {
      var id := names[0];
      var t1 := if IsDir(t, dir + [id]) && RUNTIMES + [id, SNAPSHOT] !in t
                then MigrateProfile(t, dir + [id], RUNTIMES + [id]) else t;
      ProfileConserves(t, dir + [id], id);
      ProfilesConserve(t1, dir, names[1..]);
      Compose(t, t1, MigrateProfiles(t, dir, names));
    }
  }

  lemma {:induction false} OldConserves(t: Tree, candidates: seq<Path>, names: seq<string>)
    requires WellFormed(t) && forall c | c in candidates :: c != [] && c[0] == "runtime"
    ensures Conserved(t, MigrateOld(t, candidates, names))
  {
    hide MigrateProfile, MigrateProfiles, WellFormed, Relocates;
    SameFiles(t, t);
    if candidates != [] {
      var dir := candidates[0];
      ProfilesConserve(t, dir + ["profiles"], names);
      ProfileConserves(t, dir, "default");
      assert forall c | c in candidates[1..] :: c in candidates;
      OldConserves(t, candidates[1..], names);
    }
  }

  lemma V2Conserves(t: Tree, names: seq<string>)
    requires WellFormed(t)
    ensures Conserved(t, StageV2(t, names))
  {
    hide MigrateOld, WriteSentinel, Relocates;
    SameFiles(t, t);
    var t1 := MigrateOld(t, CANDIDATES, names);
    OldConserves(t, CANDIDATES, names);
    WrittenSentinels();
    SentinelConserves(t1, V2_DIR, V2_DONE);
    Compose(t, t1, WriteSentinel(t1, V2_DIR, V2_DONE));
  }

  lemma {:induction false} PrefixConserves(t: Tree, names: seq<string>)
    requires WellFormed(t) && forall n | n in names :: n !in {"cronymax", "profiles", "Profiles"}
    ensures Conserved(t, AddPrefix(t, names))
    decreases names
  {
    hide GuardedMove, WellFormed, Relocates;
    SameFiles(t, t);
    if names != [] {
      var src, dst := [names[0]], CRONYMAX + [names[0]];
      assert names[0] in names;
      PrefixFollows(names[0]);
      GuardedMoveConserves(t, src, dst, false);
      var t1 := GuardedMove(t, src, dst, false);
      assert forall n | n in names[1..] :: n in names;
      PrefixConserves(t1, names[1..]);
      Compose(t, t1, AddPrefix(t, names));
    }
  }

  lemma V3Conserves(t: Tree)
    requires WellFormed(t)
    ensures Conserved(t, StageV3(t))
  {
    hide MakeDirs, AddPrefix, WriteSentinel, Relocates;
    SameFiles(t, t);
    var t1 := MakeDirs(t, CRONYMAX);
    DirsConserve(t, CRONYMAX);
    SentinelNames();
    WrittenSentinels();
    PrefixConserves(t1, PREFIXED_DIRS);
    var t2 := AddPrefix(t1, PREFIXED_DIRS);
    Compose(t, t1, t2);
    SentinelConserves(t2, V3_DIR, V3_DONE);
    Compose(t, t2, WriteSentinel(t2, V3_DIR, V3_DONE));
  }

  lemma {:induction false} MemoriesConserve(t: Tree, names: seq<string>)
    requires WellFormed(t)
    ensures Conserved(t, SplitMemories(t, names))
    decreases names
  {
    hide GuardedMove, WellFormed, Relocates;
    SameFiles(t, t);
    if names != [] {
      var id := names[0];
      var t1 := if IsDir(t, PROFILES + [id]) && id != "migrations"
                then GuardedMove(t, PROFILES + [id, "memory"], MEMORIES + [id], true) else t;
      if id != "migrations" {
        MemoryFollows(id);
        GuardedMoveConserves(t, PROFILES + [id, "memory"], MEMORIES + [id], true);
      }
      MemoriesConserve(t1, names[1..]);
      Compose(t, t1, SplitMemories(t, names));
    }
  }

  lemma RaiseConserves(t: Tree, n: string)
    requires WellFormed(t)
    ensures Conserved(t, GuardedMove(t, CRONYMAX_WEBVIEWS + [n], [n], true))
  {
    hide Relocates;
    if n == "cronymax" {
      if IsDir(t, CRONYMAX_WEBVIEWS + [n]) {
        PrefixIsDir(t, CRONYMAX_WEBVIEWS + [n], CRONYMAX);
      }
      SameFiles(t, t);
    } else {
      WebviewFollows(n);
      GuardedMoveConserves(t, CRONYMAX_WEBVIEWS + [n], [n], true);
    }
  }

  lemma {:induction false} WebviewsConserve(t: Tree, names: seq<string>)
    requires WellFormed(t)
    ensures Conserved(t, RaiseWebviews(t, names))
    decreases names
  {
    hide GuardedMove, WellFormed, Relocates;
    SameFiles(t, t);
    if names != [] {
      RaiseConserves(t, names[0]);
      var t1 := GuardedMove(t, CRONYMAX_WEBVIEWS + [names[0]], [names[0]], true);
      WebviewsConserve(t1, names[1..]);
      Compose(t, t1, RaiseWebviews(t, names));
    }
  }

  lemma RenameConserves(t: Tree)
    requires WellFormed(t)
    ensures Conserved(t, RenameRuntimes(t))
  {
    hide MakeDirs, GuardedMove, SentinelsFollow, Relocates;
    RuntimesFollow();
    GuardedMoveConserves(t, CRONYMAX_RUNTIMES, PROFILES, false);
    var t1 := GuardedMove(t, CRONYMAX_RUNTIMES, PROFILES, false);
    DirsConserve(t1, PROFILES);
    var t2 := MakeDirs(t1, PROFILES);
    Compose(t, t1, t2);
    DirsConserve(t2, MEMORIES);
    Compose(t, t2, RenameRuntimes(t));
  }

  lemma V4Conserves(t: Tree, l: Listing)
    requires WellFormed(t)
    ensures Conserved(t, StageV4(t, l))
  {
    hide RenameRuntimes, SplitMemories, RaiseWebviews, WriteSentinel, Relocates;
    SameFiles(t, t);
    var t1 := RenameRuntimes(t);
    RenameConserves(t);
    var t2 := SplitMemories(t1, l.profiles);
    MemoriesConserve(t1, l.profiles);
    Compose(t, t1, t2);
    var t3 := MoveWebviews(t2, l.webviews);
    WebviewsConserve(t2, l.webviews);
    SameFiles(t2, t2);
    Compose(t, t2, t3);
    WrittenSentinels();
    SentinelConserves(t3, V4_DIR, V4_DONE);
    Compose(t, t3, WriteSentinel(t3, V4_DIR, V4_DONE));
  }

  /** One Run, from any tree and with any directory listing, conserves the data files. */
  lemma RunConserves(t: Tree, l: Listing)
    requires WellFormed(t)
    ensures Conserved(t, Run(t, l))
  {
    hide StageV2, StageV3, StageV4, Relocates;
    var t1 := StageV2(t, l.oldProfiles);
    V2Conserves(t, l.oldProfiles);
    var t2 := StageV3(t1);
    V3Conserves(t1);
    Compose(t, t1, t2);
    V4Conserves(t2, l);
    Compose(t, t2, Run(t, l));
  }

  /** So does any number of Runs: every data file has a place of its own with its content, no others appear, and so
      every content is held by as many files as before. */
  lemma {:induction false} RunsConserve(t: Tree, ls: seq<Listing>)
    requires WellFormed(t)
    ensures Conserved(t, Runs(t, ls))
    ensures forall content :: |Holding(Runs(t, ls), content)| == |Holding(t, content)|
  {
    hide Run, Relocates, Holding;
    if ls == [] {
      SameFiles(t, t);
    } else {
      var t1 := Runs(t, ls[..|ls| - 1]);
      RunsConserve(t, ls[..|ls| - 1]);
      RunConserves(t1, ls[|ls| - 1]);
      Compose(t, t1, Runs(t, ls));
    }
    forall content
      ensures |Holding(Runs(t, ls), content)| == |Holding(t, content)|
    {
      CountsKept(t, Runs(t, ls), content);
    }
  }
}
