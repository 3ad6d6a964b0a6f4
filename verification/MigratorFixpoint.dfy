/** When the migrator comes to rest. Stage V3 carries off the V2 sentinel and stage V4 the V3 sentinel, so the
    three sentinels are together only after up to three Runs; from then on Run is the identity. */
module MigratorFixpoint {
  import opened Wrappers
  import opened FileTree
  import opened LayoutMigrator
  import opened MigratorPaths

  predicate AllDone(t: Tree) {
    AlreadyDoneV2(t) && AlreadyDoneV3(t) && AlreadyDoneV4(t)
  }

  lemma DoneIsFixed(t: Tree, l: Listing)
    requires AllDone(t)
    ensures Run(t, l) == t
  {
  }

  /** Stage V3 carries runtimes, and with it the V2 sentinel, under cronymax. */
  predicate Lifted(t: Tree) {
    !AlreadyDoneV3(t) && CRONYMAX_RUNTIMES !in t
  }

  /** The web view directory that stage V4 will look into. */
  function WebviewsAtV4(t: Tree): Path {
    if CRONYMAX_WEBVIEWS in t then CRONYMAX_WEBVIEWS else WEBVIEWS
  }

  /** A web view named runtimes would be raised to the place runtimes has left, with a file where the V2
      sentinel's directory belongs. */
  predicate WebviewBlocks(t: Tree) {
    IsDir(t, WebviewsAtV4(t) + ["runtimes"]) && IsFile(t, WebviewsAtV4(t) + ["runtimes", "migrations"])
  }

  /** What a caller can check before the first Run: no file stands where a sentinel's directory must be at the
      time it is needed. */
  predicate Settles(t: Tree) {
    && Clear(t, V4_DIR)
    && if AlreadyDoneV4(t) then Clear(t, V2_DIR) && Clear(t, V3_DIR)
       else && (PROFILES in t ==> if Lifted(t) then Clear(t, V2_DIR) else Clear(t, V3_DIR))
            && (if Lifted(t) then !WebviewBlocks(t) else Clear(t, V2_DIR))
  }

  // ---------------------------------------------------------------- one Run, stage by stage

  lemma Below(dir: Path, p: Path)
    requires |dir| == 2
    ensures dir <= p <==> |p| >= 2 && p[0] == dir[0] && p[1] == dir[1]
  {
  }

  /** Which of the four reorganised directories p lies in. */
  lemma Location(p: Path)
    ensures PROFILES <= p <==> |p| >= 2 && p[0] == "cronymax" && p[1] == "Profiles"
    ensures MEMORIES <= p <==> |p| >= 2 && p[0] == "cronymax" && p[1] == "Memories"
    ensures CRONYMAX_WEBVIEWS <= p <==> |p| >= 2 && p[0] == "cronymax" && p[1] == "webviews"
    ensures CRONYMAX_RUNTIMES <= p <==> |p| >= 2 && p[0] == "cronymax" && p[1] == "runtimes"
    ensures p <= V4_DIR ==> p == [] || p == ["cronymax"] || p == ["cronymax", "profiles"] || p == V4_DIR
    ensures "profiles" !in {"Profiles", "Memories", "webviews", "runtimes"}
    ensures "runtimes" !in {"Profiles", "Memories", "webviews", "cronymax"}
    ensures "webviews" !in {"Profiles", "Memories", "cronymax"}
  {
    Below(PROFILES, p);
    Below(MEMORIES, p);
    Below(CRONYMAX_WEBVIEWS, p);
    Below(CRONYMAX_RUNTIMES, p);
    assert "profiles"[0] == 'p' && "Profiles"[0] == 'P' && "Memories"[0] == 'M' && "runtimes"[0] == 'r';
    assert "webviews"[0] == 'w' && "cronymax"[0] == 'c';
  }

  lemma DoneV3IsClear(t: Tree)
    requires WellFormed(t) && AlreadyDoneV3(t)
    ensures IsDir(t, CRONYMAX) && IsDir(t, CRONYMAX_RUNTIMES) && IsDir(t, V3_DIR) && Clear(t, V3_DIR)
  {
    var s := V3_DIR + [V3_DONE];
    PrefixIsDir(t, s, V3_DIR);
    PrefixIsDir(t, s, CRONYMAX_RUNTIMES);
    PrefixIsDir(t, s, CRONYMAX);
    ClearThree(t, "cronymax", "runtimes", "migrations");
  }

  lemma DoneV4IsClear(t: Tree)
    requires WellFormed(t) && AlreadyDoneV4(t)
    ensures IsDir(t, CRONYMAX) && Clear(t, V4_DIR)
  {
    var s := V4_DIR + [V4_DONE];
    PrefixIsDir(t, s, V4_DIR);
    PrefixIsDir(t, s, ["cronymax", "profiles"]);
    PrefixIsDir(t, s, CRONYMAX);
    ClearThree(t, "cronymax", "profiles", "migrations");
  }

  /** Stage V3 after stage V2, on the facts that decide the outcome. */
  lemma V3Facts(t: Tree)
    requires WellFormed(t) && RUNTIMES in t
    ensures var t' := StageV3(t);
      && WellFormed(t')
      && (Clear(t', V4_DIR) <==> Clear(t, V4_DIR)) && (AlreadyDoneV4(t') <==> AlreadyDoneV4(t))
      && (PROFILES in t' <==> PROFILES in t)
      && (IsFile(t, CRONYMAX) ==> t' == t)
      && (!IsFile(t, CRONYMAX) ==>
           && IsDir(t', CRONYMAX)
           && (AlreadyDoneV3(t') <==> if Lifted(t) then Clear(t, V2_DIR) else Clear(t, V3_DIR))
           && (Clear(t', V3_DIR) <==> AlreadyDoneV3(t'))
           && (if Lifted(t) then RUNTIMES !in t' && Clear(t', V2_DIR)
               else RUNTIMES in t' && (AlreadyDoneV2(t') <==> AlreadyDoneV2(t)) &&
                    (Clear(t', V2_DIR) <==> Clear(t, V2_DIR)))
           && (Lifted(t) ==> CRONYMAX_RUNTIMES in t'))
  {
    if AlreadyDoneV3(t) {
      DoneV3IsClear(t);
    } else if IsFile(t, CRONYMAX) {
      BlockedPrefix(t, PREFIXED_DIRS);
      MakeDirsEffect(t, CRONYMAX);
      assert Parent(CRONYMAX) == [];
      ClearThree(t, "cronymax", "runtimes", "migrations");
      MakeDirsEffect(t, V3_DIR);
    } else {
      V3Runs(t);
      V3KeepsV4(t);
    }
  }

  lemma V3Runs(t: Tree)
    requires WellFormed(t) && RUNTIMES in t && !AlreadyDoneV3(t) && !IsFile(t, CRONYMAX)
    ensures var t' := StageV3(t);
      && WellFormed(t')
      && IsDir(t', CRONYMAX)
      && (AlreadyDoneV3(t') <==> if Lifted(t) then Clear(t, V2_DIR) else Clear(t, V3_DIR))
      && (Clear(t', V3_DIR) <==> AlreadyDoneV3(t'))
      && (if Lifted(t) then RUNTIMES !in t' && Clear(t', V2_DIR)
          else RUNTIMES in t' && (AlreadyDoneV2(t') <==> AlreadyDoneV2(t)) &&
               (Clear(t', V2_DIR) <==> Clear(t, V2_DIR)))
      && (Lifted(t) ==> CRONYMAX_RUNTIMES in t')
  {
    hide StageV3, Clear, WellFormed;
    var t' := StageV3(t);
    assert CRONYMAX + ["runtimes"] == CRONYMAX_RUNTIMES && CRONYMAX_RUNTIMES[1..] == RUNTIMES && V3_DIR[1..] == V2_DIR;
    AfterV3(t, RUNTIMES);
    AfterV3(t, V2_DIR);
    AfterV3(t, V2_DIR + [V2_DONE]);
    AfterV3(t, CRONYMAX_RUNTIMES);
    AfterV3(t, V3_DIR);
    ClearTwo(t, "runtimes", "migrations");
    ClearTwo(t', "runtimes", "migrations");
    ClearThree(t, "cronymax", "runtimes", "migrations");
    ClearThree(t', "cronymax", "runtimes", "migrations");
  }

  lemma V3KeepsV4(t: Tree)
    requires WellFormed(t) && !AlreadyDoneV3(t) && !IsFile(t, CRONYMAX)
    ensures var t' := StageV3(t);
      && (Clear(t', V4_DIR) <==> Clear(t, V4_DIR)) && (AlreadyDoneV4(t') <==> AlreadyDoneV4(t))
      && (PROFILES in t' <==> PROFILES in t)
  {
    hide StageV3, Clear, WellFormed;
    var t' := StageV3(t);
    assert "profiles" !in PREFIXED_DIRS && "Profiles" !in PREFIXED_DIRS by {
      assert "profiles"[0] == 'p' && "Profiles"[0] == 'P';
      assert "runtimes"[0] == 'r' && "webviews"[0] == 'w' && "logs"[0] == 'l' && "cache"[0] == 'c';
    }
    assert ["cronymax", "profiles"][1] == V4_DIR[1] == (V4_DIR + [V4_DONE])[1] == "profiles" && PROFILES[1] == "Profiles";
    assert V3_DIR[1] == "runtimes";
    PrefixedDirsDiffer();
    AfterV3(t, ["cronymax", "profiles"]);
    AfterV3(t, V4_DIR);
    AfterV3(t, V4_DIR + [V4_DONE]);
    AfterV3(t, PROFILES);
    ClearThree(t, "cronymax", "profiles", "migrations");
    ClearThree(t', "cronymax", "profiles", "migrations");
  }

  lemma {:induction false} BlockedSplit(t: Tree, names: seq<string>)
    requires WellFormed(t) && IsFile(t, CRONYMAX)
    ensures SplitMemories(t, names) == t
    decreases names
  {
    if names != [] {
      NothingUnder(t, PROFILES + [names[0]], CRONYMAX);
      BlockedSplit(t, names[1..]);
    }
  }

  /** With a file at cronymax stage V4 changes nothing, and never will. */
  lemma BlockedV4(t: Tree, l: Listing)
    requires WellFormed(t) && IsFile(t, CRONYMAX)
    ensures StageV4(t, l) == t && !Clear(t, V4_DIR) && !AlreadyDoneV4(t)
  {
    NothingUnder(t, CRONYMAX_RUNTIMES, CRONYMAX);
    NothingUnder(t, CRONYMAX_WEBVIEWS, CRONYMAX);
    NothingUnder(t, V4_DIR + [V4_DONE], CRONYMAX);
    ClearThree(t, "cronymax", "profiles", "migrations");
    ClearTwo(t, "cronymax", "Profiles");
    ClearTwo(t, "cronymax", "Memories");
    MakeDirsEffect(t, PROFILES);
    MakeDirsEffect(t, MEMORIES);
    MakeDirsEffect(t, V4_DIR);
    BlockedSplit(t, l.profiles);
  }

  /** Stage V4, when it runs in a cronymax directory, on the facts that decide the outcome. */
  lemma V4OnV4(t: Tree, l: Listing)
    requires WellFormed(t) && IsDir(t, CRONYMAX) && !AlreadyDoneV4(t)
    ensures var t' := StageV4(t, l);
      && WellFormed(t') && IsDir(t', CRONYMAX)
      && (AlreadyDoneV4(t') <==> Clear(t, V4_DIR)) && (Clear(t', V4_DIR) <==> Clear(t, V4_DIR))
  {
    hide StageV4, Clear, WellFormed;
    var t' := StageV4(t, l);
    AfterV4(t, l, CRONYMAX);
    AfterV4(t, l, ["cronymax", "profiles"]);
    AfterV4(t, l, V4_DIR);
    Location(CRONYMAX);
    Location(["cronymax", "profiles"]);
    Location(V4_DIR);
    ClearThree(t, "cronymax", "profiles", "migrations");
    ClearThree(t', "cronymax", "profiles", "migrations");
  }

  lemma V4OnV3(t: Tree, l: Listing)
    requires WellFormed(t) && IsDir(t, CRONYMAX) && !AlreadyDoneV4(t)
    ensures var t' := StageV4(t, l);
      && (Clear(t', V3_DIR) <==> (PROFILES in t ==> Clear(t, V3_DIR)))
      && (AlreadyDoneV3(t') <==> PROFILES in t && AlreadyDoneV3(t))
  {
    hide StageV4, Clear, WellFormed;
    var t' := StageV4(t, l);
    V4OnV4(t, l);
    AfterV4(t, l, CRONYMAX_RUNTIMES);
    AfterV4(t, l, V3_DIR);
    AfterV4(t, l, V3_DIR + [V3_DONE]);
    if CRONYMAX_RUNTIMES !in t {
      NothingUnder(t, V3_DIR, CRONYMAX_RUNTIMES);
      NothingUnder(t, V3_DIR + [V3_DONE], CRONYMAX_RUNTIMES);
    }
    Location(CRONYMAX_RUNTIMES);
    Location(V3_DIR);
    Location(V3_DIR + [V3_DONE]);
    ClearThree(t, "cronymax", "runtimes", "migrations");
    ClearThree(t', "cronymax", "runtimes", "migrations");
  }

  lemma V4OnV2(t: Tree, l: Listing)
    requires WellFormed(t) && IsDir(t, CRONYMAX) && !AlreadyDoneV4(t)
    ensures var t' := StageV4(t, l);
      if RUNTIMES in t then (Clear(t', V2_DIR) <==> Clear(t, V2_DIR)) && (AlreadyDoneV2(t') <==> AlreadyDoneV2(t))
      else Clear(t', V2_DIR) <==> !("runtimes" in l.webviews && IsDir(t, CRONYMAX_WEBVIEWS + ["runtimes"]) &&
                                    IsFile(t, CRONYMAX_WEBVIEWS + ["runtimes", "migrations"]))
  {
    hide StageV4, Clear, WellFormed;
    var t' := StageV4(t, l);
    AfterV4(t, l, RUNTIMES);
    AfterV4(t, l, V2_DIR);
    AfterV4(t, l, V2_DIR + [V2_DONE]);
    if RUNTIMES !in t {
      NothingUnder(t, V2_DIR, RUNTIMES);
    }
    assert V2_DIR == ["runtimes", "migrations"] && [V2_DIR[0]] == [RUNTIMES[0]] == RUNTIMES;
    assert CRONYMAX_WEBVIEWS + V2_DIR == CRONYMAX_WEBVIEWS + ["runtimes", "migrations"];
    Location(RUNTIMES);
    Location(V2_DIR);
    Location(V2_DIR + [V2_DONE]);
    ClearTwo(t, "runtimes", "migrations");
    ClearTwo(t', "runtimes", "migrations");
  }

  /** What stage V4 leaves at p, outside the directories it reorganises. */
  lemma AfterV4(t: Tree, l: Listing, p: Path)
    requires WellFormed(t) && IsDir(t, CRONYMAX) && !AlreadyDoneV4(t)
    ensures var t' := StageV4(t, l);
      && WellFormed(t')
      && (AlreadyDoneV4(t') <==> Clear(t, V4_DIR))
      && (p != [] && !(PROFILES <= p) && !(MEMORIES <= p) && !(CRONYMAX_WEBVIEWS <= p) && p != V4_DIR + [V4_DONE] ==>
           var q :=
             if CRONYMAX_RUNTIMES <= p then if RuntimesRenamed(t) then None else Get(t, p)
             else if p[0] != "cronymax" && p[0] in l.webviews && [p[0]] !in t && IsDir(t, CRONYMAX_WEBVIEWS + [p[0]])
             then Get(t, CRONYMAX_WEBVIEWS + p)
             else Get(t, p);
           Get(t', p) == q || (p <= V4_DIR && q == None && Get(t', p) == Some(Dir)))
  {
    hide RenameRuntimes, SplitMemories, RaiseWebviews, WriteSentinel, Clear;
    var t1 := RenameRuntimes(t);
    var t2 := SplitMemories(t1, l.profiles);
    var t3 := MoveWebviews(t2, l.webviews);
    V4Base(t, l, CRONYMAX);
    V4Base(t, l, p);
    RaiseWebviewsAt(t2, l.webviews, p);
    WriteSentinelAt(t3, V4_DIR, V4_DONE, p);
    V4SentinelClear(t, l);
    Location(p);
    if p != [] {
      Location([p[0]]);
      Location(CRONYMAX_WEBVIEWS);
      Location(CRONYMAX_WEBVIEWS + [p[0]]);
      Location(CRONYMAX_WEBVIEWS + p);
      V4Base(t, l, [p[0]]);
      V4Base(t, l, CRONYMAX_WEBVIEWS);
      V4Base(t, l, CRONYMAX_WEBVIEWS + [p[0]]);
      V4Base(t, l, CRONYMAX_WEBVIEWS + p);
      if p[0] != "cronymax" && IsDir(t2, CRONYMAX_WEBVIEWS + [p[0]]) {
        PrefixIsDir(t2, CRONYMAX_WEBVIEWS + [p[0]], CRONYMAX_WEBVIEWS);
      }
    }
  }

  /** The tree stage V4 hands to the web view loop, outside Profiles and Memories. */
  lemma V4Base(t: Tree, l: Listing, p: Path)
    requires WellFormed(t) && IsDir(t, CRONYMAX)
    ensures var t2 := SplitMemories(RenameRuntimes(t), l.profiles);
      && WellFormed(t2) && IsDir(t2, CRONYMAX)
      && (p != [] && !(PROFILES <= p) && !(MEMORIES <= p) ==>
           Get(t2, p) == if RuntimesRenamed(t) && CRONYMAX_RUNTIMES <= p then None else Get(t, p))
  {
    hide RenameRuntimes, SplitMemories;
    RenamedAt(t, p);
    SplitFrame(RenameRuntimes(t), l.profiles, p);
    SplitFrame(RenameRuntimes(t), l.profiles, CRONYMAX);
    assert Get(RenameRuntimes(t), CRONYMAX) == Some(Dir);
  }

  lemma V4SentinelClear(t: Tree, l: Listing)
    requires WellFormed(t) && IsDir(t, CRONYMAX)
    ensures var t3 := MoveWebviews(SplitMemories(RenameRuntimes(t), l.profiles), l.webviews);
      WellFormed(t3) && (Clear(t3, V4_DIR) <==> Clear(t, V4_DIR))
  {
    hide RenameRuntimes, SplitMemories, RaiseWebviews, Clear;
    var t2 := SplitMemories(RenameRuntimes(t), l.profiles);
    var t3 := MoveWebviews(t2, l.webviews);
    V4Base(t, l, CRONYMAX);
    V4Base(t, l, ["cronymax", "profiles"]);
    V4Base(t, l, V4_DIR);
    RaiseWebviewsAt(t2, l.webviews, CRONYMAX);
    RaiseWebviewsAt(t2, l.webviews, ["cronymax", "profiles"]);
    RaiseWebviewsAt(t2, l.webviews, V4_DIR);
    Location(CRONYMAX);
    Location(["cronymax", "profiles"]);
    Location(V4_DIR);
    ClearThree(t, "cronymax", "profiles", "migrations");
    ClearThree(t3, "cronymax", "profiles", "migrations");
  }

  // ---------------------------------------------------------------- whole Runs

  /** Nothing stands in the way of any sentinel, and stage V4 is behind. */
  predicate OnCourse(t: Tree) {
    AlreadyDoneV4(t) && Clear(t, V2_DIR) && Clear(t, V3_DIR)
  }

  /** Some sentinel can never be written. */
  predicate Stuck(t: Tree) {
    !Clear(t, V4_DIR) || (AlreadyDoneV4(t) && !(Clear(t, V2_DIR) && Clear(t, V3_DIR)))
  }

  lemma V2KeepsRest(t: Tree, names: seq<string>)
    requires WellFormed(t)
    ensures var t1 := StageV2(t, names);
      && WellFormed(t1) && RUNTIMES in t1
      && (AlreadyDoneV2(t1) <==> Clear(t, V2_DIR)) && (Clear(t1, V2_DIR) <==> Clear(t, V2_DIR))
      && (Clear(t1, V3_DIR) <==> Clear(t, V3_DIR)) && (Clear(t1, V4_DIR) <==> Clear(t, V4_DIR))
      && (AlreadyDoneV3(t1) <==> AlreadyDoneV3(t)) && (AlreadyDoneV4(t1) <==> AlreadyDoneV4(t))
      && (forall p: Path | p != [] && p[0] == "cronymax" :: Get(t1, p) == Get(t, p))
      && (forall p: Path | p != [] && p[0] == "webviews" :: Get(t1, p) == Get(t, p))
  {
    hide StageV2, Clear, WellFormed;
    var t1 := StageV2(t, names);
    AfterV2(t, names);
    assert "cronymax"[0] == 'c' && "webviews"[0] == 'w' && "runtime"[0] == 'r' && "runtimes"[0] == 'r';
    ClearThree(t, "cronymax", "runtimes", "migrations");
    ClearThree(t1, "cronymax", "runtimes", "migrations");
    ClearThree(t, "cronymax", "profiles", "migrations");
    ClearThree(t1, "cronymax", "profiles", "migrations");
    assert Get(t1, ["cronymax"]) == Get(t, ["cronymax"]) && Get(t1, CRONYMAX_RUNTIMES) == Get(t, CRONYMAX_RUNTIMES);
    assert Get(t1, V3_DIR) == Get(t, V3_DIR) && Get(t1, V3_DIR + [V3_DONE]) == Get(t, V3_DIR + [V3_DONE]);
    assert Get(t1, ["cronymax", "profiles"]) == Get(t, ["cronymax", "profiles"]);
    assert Get(t1, V4_DIR) == Get(t, V4_DIR) && Get(t1, V4_DIR + [V4_DONE]) == Get(t, V4_DIR + [V4_DONE]);
  }

  /** A Run on a tree whose V4 sentinel is there: one step closer, or stuck for good. */
  lemma RunPastV4(t: Tree, l: Listing)
    requires WellFormed(t) && AlreadyDoneV4(t)
    ensures var t' := Run(t, l);
      && WellFormed(t') && AlreadyDoneV4(t')
      && (OnCourse(t') <==> OnCourse(t))
      && (OnCourse(t) ==> AlreadyDoneV3(t'))
      && (OnCourse(t) && AlreadyDoneV3(t) ==> AlreadyDoneV2(t'))
  {
    hide StageV2, StageV3, Clear, WellFormed;
    var t1 := StageV2(t, l.oldProfiles);
    V2KeepsRest(t, l.oldProfiles);
    DoneV4IsClear(t1);
    V3Facts(t1);
    assert Run(t, l) == StageV3(t1);
    if !Lifted(t1) && !AlreadyDoneV3(t1) {
      assert CRONYMAX_RUNTIMES in t1;
    }
    if Lifted(t1) {
      assert Get(t1, CRONYMAX_RUNTIMES) == None;
      EmptyIsClear(t1);
    }
  }

  lemma EmptyIsClear(t: Tree)
    requires WellFormed(t) && IsDir(t, CRONYMAX) && CRONYMAX_RUNTIMES !in t
    ensures Clear(t, V3_DIR)
  {
    NothingUnder(t, V3_DIR, CRONYMAX_RUNTIMES);
    ClearThree(t, "cronymax", "runtimes", "migrations");
  }

  /** The first Run decides: afterwards the tree is on course exactly when it settles, and stuck otherwise. */
  lemma FirstRun(t: Tree, l: Listing)
    requires WellFormed(t) && Faithful(t, l)
    ensures var t' := Run(t, l);
      && WellFormed(t')
      && (Settles(t) ==> OnCourse(t'))
      && (!Settles(t) ==> Stuck(t'))
  {
    if AlreadyDoneV4(t) {
      DoneV4IsClear(t);
      RunPastV4(t, l);
    } else {
      FirstRunV4(t, l);
    }
  }

  /** What stage V4 finds in a web view is what the starting tree shows in it. */
  lemma WebviewAt(t: Tree, names: seq<string>, x: Path)
    requires WellFormed(t) && !AlreadyDoneV3(t) && !IsFile(t, CRONYMAX) && x != []
    ensures var t2 := StageV3(StageV2(t, names));
      WellFormed(t2) && IsDir(t2, CRONYMAX) && Get(t2, CRONYMAX_WEBVIEWS + x) == Get(t, WebviewsAtV4(t) + x)
  {
    hide StageV2, StageV3, Clear, WellFormed, Lifted;
    var t1 := StageV2(t, names);
    var p := CRONYMAX_WEBVIEWS + x;
    V2KeepsRest(t, names);
    assert Get(t1, CRONYMAX) == Get(t, CRONYMAX) && Get(t1, CRONYMAX_WEBVIEWS) == Get(t, CRONYMAX_WEBVIEWS);
    V3Facts(t1);
    AfterV3(t1, p);
    assert p[1..] == WEBVIEWS + x && (WEBVIEWS + x)[0] == "webviews";
    assert Get(t1, WEBVIEWS) == Get(t, WEBVIEWS) && Get(t1, p) == Get(t, p) && Get(t1, p[1..]) == Get(t, p[1..]);
    Location(p);
    assert V3_DIR[1] == "runtimes" && p[1] == "webviews" && CRONYMAX + [p[1]] == CRONYMAX_WEBVIEWS && [p[1]] == WEBVIEWS;
    assert "webviews" in PREFIXED_DIRS;
    if CRONYMAX_WEBVIEWS !in t {
      NothingUnder(t, p, CRONYMAX_WEBVIEWS);
      if WEBVIEWS !in t {
        NothingUnder(t, WEBVIEWS + x, WEBVIEWS);
      }
    }
  }

  /** The listing stage V4 reads names a web view runtimes just when there is one. */
  lemma WebviewListed(t: Tree, l: Listing)
    requires WellFormed(t) && IsDir(t, CRONYMAX) && FaithfulV4(t, l)
    ensures "runtimes" in l.webviews <==> CRONYMAX_WEBVIEWS + ["runtimes"] in t
  {
    hide WellFormed, RenameRuntimes, SplitMemories;
    V4Base(t, l, CRONYMAX_WEBVIEWS + ["runtimes"]);
    Location(CRONYMAX_WEBVIEWS + ["runtimes"]);
  }

  /** The web view stage V4 would raise to runtimes is the one the starting tree shows. */
  lemma WebviewsReached(t: Tree, l: Listing)
    requires WellFormed(t) && Faithful(t, l) && !AlreadyDoneV4(t) && !AlreadyDoneV3(t) && !IsFile(t, CRONYMAX)
    ensures var t2 := StageV3(StageV2(t, l.oldProfiles));
      ("runtimes" in l.webviews && IsDir(t2, CRONYMAX_WEBVIEWS + ["runtimes"]) &&
       IsFile(t2, CRONYMAX_WEBVIEWS + ["runtimes", "migrations"])) <==> WebviewBlocks(t)
  {
    hide StageV2, StageV3, Clear, WellFormed, FaithfulV4;
    var t2 := StageV3(StageV2(t, l.oldProfiles));
    WebviewAt(t, l.oldProfiles, ["runtimes"]);
    WebviewAt(t, l.oldProfiles, ["runtimes", "migrations"]);
    V2KeepsRest(t, l.oldProfiles);
    V3Facts(StageV2(t, l.oldProfiles));
    if CRONYMAX_WEBVIEWS + ["runtimes"] in t2 {
      WebviewListed(t2, l);
    }
  }

  lemma FirstRunV4(t: Tree, l: Listing)
    requires WellFormed(t) && Faithful(t, l) && !AlreadyDoneV4(t)
    ensures var t' := Run(t, l);
      && WellFormed(t')
      && (Settles(t) ==> OnCourse(t'))
      && (!Settles(t) ==> Stuck(t'))
  {
    hide StageV2, StageV3, StageV4, Clear, WellFormed, FaithfulV4, WebviewBlocks;
    var t1 := StageV2(t, l.oldProfiles);
    var t2 := StageV3(t1);
    V2KeepsRest(t, l.oldProfiles);
    assert Get(t1, CRONYMAX_RUNTIMES) == Get(t, CRONYMAX_RUNTIMES) && Get(t1, PROFILES) == Get(t, PROFILES);
    assert Get(t1, CRONYMAX) == Get(t, CRONYMAX);
    V3Facts(t1);
    if IsFile(t1, CRONYMAX) {
      BlockedV4(t2, l);
    } else {
      V4OnV4(t2, l);
      V4OnV3(t2, l);
      V4OnV2(t2, l);
      if Lifted(t) {
        WebviewsReached(t, l);
      }
    }
  }

  // ---------------------------------------------------------------- when one Run is enough

  /** A web view named runtimes that holds a V2 sentinel of its own: raised to the top it stands in for the one that
      was carried off. */
  predicate WebviewCarries(t: Tree) {
    WebviewsAtV4(t) + V2_DIR + [V2_DONE] in t
  }

  /** What a caller can check before a Run: room for every sentinel, and neither stage V3 nor stage V4 has anything to
      carry off. */
  predicate OneRunEnough(t: Tree) {
    && Clear(t, V2_DIR) && Clear(t, V4_DIR)
    && (AlreadyDoneV4(t) || PROFILES in t)
    && if Lifted(t) then !AlreadyDoneV4(t) && WebviewCarries(t) else Clear(t, V3_DIR)
  }

  /** After stage V4 of a Run whose stage V3 carried runtimes off, the V2 sentinel is there only if a web view brought
      one. */
  lemma LiftedV2(t: Tree, l: Listing)
    requires WellFormed(t) && Faithful(t, l) && !AlreadyDoneV4(t) && Lifted(t) && !IsFile(t, CRONYMAX)
    ensures AlreadyDoneV2(Run(t, l)) <==> WebviewCarries(t)
  {
    hide StageV2, StageV3, StageV4, Clear, WellFormed, FaithfulV4;
    var t1 := StageV2(t, l.oldProfiles);
    var t2 := StageV3(t1);
    var sentinel, view := V2_DIR + [V2_DONE], CRONYMAX_WEBVIEWS + ["runtimes"];
    V2KeepsRest(t, l.oldProfiles);
    assert Get(t1, CRONYMAX_RUNTIMES) == Get(t, CRONYMAX_RUNTIMES) && Get(t1, CRONYMAX) == Get(t, CRONYMAX);
    V3Facts(t1);
    WebviewAt(t, l.oldProfiles, sentinel);
    assert WebviewsAtV4(t) + V2_DIR + [V2_DONE] == WebviewsAtV4(t) + sentinel;
    AfterV4(t2, l, sentinel);
    Location(sentinel);
    assert sentinel[0] == "runtimes" && [sentinel[0]] == RUNTIMES && CRONYMAX_WEBVIEWS + [sentinel[0]] == view;
    NothingUnder(t2, sentinel, RUNTIMES);
    if CRONYMAX_WEBVIEWS + sentinel in t2 {
      PrefixIsDir(t2, CRONYMAX_WEBVIEWS + sentinel, view);
      WebviewListed(t2, l);
    }
  }

  /** One Run brings all three sentinels exactly when the tree shows it beforehand. */
  lemma OneRunSuffices(t: Tree, l: Listing)
    requires WellFormed(t) && Faithful(t, l)
    ensures AllDone(Run(t, l)) <==> OneRunEnough(t)
  {
    hide StageV2, StageV3, StageV4, Clear, WellFormed, FaithfulV4, WebviewCarries;
    var t1 := StageV2(t, l.oldProfiles);
    var t2 := StageV3(t1);
    V2KeepsRest(t, l.oldProfiles);
    assert Get(t1, CRONYMAX_RUNTIMES) == Get(t, CRONYMAX_RUNTIMES) && Get(t1, PROFILES) == Get(t, PROFILES);
    assert Get(t1, CRONYMAX) == Get(t, CRONYMAX);
    V3Facts(t1);
    if AlreadyDoneV4(t) {
      DoneV4IsClear(t);
      assert AlreadyDoneV4(t2);
      V4Skipped(t2, l);
      if Lifted(t) {
        NothingUnder(t2, V2_DIR + [V2_DONE], RUNTIMES);
      }
    } else if IsFile(t1, CRONYMAX) {
      BlockedV4(t2, l);
    } else {
      V4OnV4(t2, l);
      V4OnV3(t2, l);
      V4OnV2(t2, l);
      if Lifted(t) {
        LiftedV2(t, l);
      }
    }
  }

  lemma V4Skipped(t: Tree, l: Listing)
    requires AlreadyDoneV4(t)
    ensures StageV4(t, l) == t
  {
  }

  /** In particular one Run is never enough without a cronymax directory, as on a fresh install: it brings the V4
      sentinel, but its V3 sentinel has been carried off, and its V2 sentinel unless a web view brought another. */
  lemma OneRunIsNotEnough(t: Tree, l: Listing)
    requires WellFormed(t) && Faithful(t, l) && CRONYMAX !in t
    ensures AlreadyDoneV4(Run(t, l)) && !AlreadyDoneV3(Run(t, l))
    ensures AlreadyDoneV2(Run(t, l)) <==> WebviewCarries(t)
  {
    hide StageV2, StageV3, StageV4, Clear, WellFormed, FaithfulV4, WebviewCarries;
    var t1 := StageV2(t, l.oldProfiles);
    var t2 := StageV3(t1);
    WithoutCronymax(t);
    V2KeepsRest(t, l.oldProfiles);
    assert Get(t1, CRONYMAX_RUNTIMES) == Get(t, CRONYMAX_RUNTIMES) && Get(t1, PROFILES) == Get(t, PROFILES);
    assert Get(t1, CRONYMAX) == Get(t, CRONYMAX);
    V3Facts(t1);
    V4OnV4(t2, l);
    V4OnV3(t2, l);
    LiftedV2(t, l);
  }

  lemma WithoutCronymax(t: Tree)
    requires WellFormed(t) && CRONYMAX !in t
    ensures Lifted(t) && PROFILES !in t && !AlreadyDoneV4(t) && Clear(t, V4_DIR)
  {
    NothingUnder(t, CRONYMAX_RUNTIMES, CRONYMAX);
    NothingUnder(t, PROFILES, CRONYMAX);
    NothingUnder(t, V3_DIR + [V3_DONE], CRONYMAX);
    NothingUnder(t, V4_DIR + [V4_DONE], CRONYMAX);
    NothingUnder(t, ["cronymax", "profiles"], CRONYMAX);
    NothingUnder(t, V4_DIR, CRONYMAX);
    ClearThree(t, "cronymax", "profiles", "migrations");
  }

  /** From any tree, after three or more Runs the three sentinels are all there exactly when the starting tree
      settles; then every further Run is the identity. Otherwise they never all are. */
  lemma SettlesInThreeRuns(t: Tree, ls: seq<Listing>)
    requires WellFormed(t) && |ls| >= 3 && Faithful(t, ls[0])
    ensures AllDone(Runs(t, ls)) <==> Settles(t)
    ensures Settles(t) ==> forall l :: Run(Runs(t, ls), l) == Runs(t, ls)
  {
    hide Run, Settles, Clear, WellFormed, Faithful;
    CourseOfRuns(t, ls);
    if Settles(t) {
      forall l
        ensures Run(Runs(t, ls), l) == Runs(t, ls)
      {
        DoneIsFixed(Runs(t, ls), l);
      }
    } else if AllDone(Runs(t, ls)) {
      var end := Runs(t, ls);
      DoneV4IsClear(end);
      DoneV3IsClear(end);
      SentinelIsClear(end, "runtimes", "migrations", V2_DONE);
      ClearTwo(end, "runtimes", "migrations");
    }
  }

  lemma {:induction false} CourseOfRuns(t: Tree, ls: seq<Listing>)
    requires WellFormed(t) && ls != [] && Faithful(t, ls[0])
    ensures var t' := Runs(t, ls);
      && WellFormed(t')
      && (!Settles(t) ==> Stuck(t'))
      && (Settles(t) ==> OnCourse(t') && (|ls| >= 2 ==> AlreadyDoneV3(t')) && (|ls| >= 3 ==> AllDone(t')))
  {
    hide Run, Settles, Clear, WellFormed, Faithful;
    var before, last := ls[..|ls| - 1], ls[|ls| - 1];
    var mid := Runs(t, before);
    if |ls| == 1 {
      assert before == [] && mid == t;
      FirstRun(t, last);
    } else {
      assert before[0] == ls[0];
      CourseOfRuns(t, before);
      if AlreadyDoneV4(mid) {
        RunPastV4(mid, last);
        DoneV4IsClear(mid);
        DoneV4IsClear(Run(mid, last));
      } else {
        StuckOnV4(mid, last);
      }
    }
  }

  /** Without room for the V4 sentinel no Run makes any. */
  lemma StuckOnV4(t: Tree, l: Listing)
    requires WellFormed(t) && !Clear(t, V4_DIR)
    ensures WellFormed(Run(t, l)) && !Clear(Run(t, l), V4_DIR)
  {
    hide StageV2, StageV3, StageV4, Clear, WellFormed;
    var t1 := StageV2(t, l.oldProfiles);
    var t2 := StageV3(t1);
    V2KeepsRest(t, l.oldProfiles);
    V3Facts(t1);
    if AlreadyDoneV4(t2) {
      DoneV4IsClear(t2);
    } else if IsFile(t1, CRONYMAX) {
      BlockedV4(t2, l);
    } else {
      V4OnV4(t2, l);
    }
  }
}
