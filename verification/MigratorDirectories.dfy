/** Where one Run leaves the directories that are no profiles: logs, cache and the web views. */
module MigratorDirectories {
  import opened Wrappers
  import opened FileTree
  import opened LayoutMigrator
  import opened MigratorPaths
  import opened MigratorFixpoint

  lemma NamesDiffer()
    ensures "cronymax" !in {"runtimes", "webviews", "logs", "cache", "runtime"}
    ensures "logs" !in {"runtimes", "webviews", "profiles", "Profiles", "Memories", "runtime"}
    ensures "cache" !in {"runtimes", "webviews", "profiles", "Profiles", "Memories", "runtime"}
    ensures "webviews" !in {"runtimes", "runtime", "profiles", "Profiles", "Memories"} && "runtime" !in {"runtimes"}
  {
    assert |"cronymax"| == 8 && |"runtimes"| == 8 && |"webviews"| == 8 && |"logs"| == 4 && |"cache"| == 5;
    assert |"runtime"| == 7 && "profiles"[0] == 'p' && "Profiles"[0] == 'P' && "Memories"[0] == 'M';
    assert "cronymax"[0] == 'c' && "runtimes"[0] == 'r' && "webviews"[0] == 'w' && "logs"[0] == 'l' && "cache"[0] == 'c';
  }

  /** What stage V3 finds at the top, after stage V2. */
  lemma TopAfterV2(t: Tree, names: seq<string>)
    requires WellFormed(t) && !AlreadyDoneV3(t) && !IsFile(t, CRONYMAX)
    ensures var t1 := StageV2(t, names);
      && WellFormed(t1) && !AlreadyDoneV3(t1) && !IsFile(t1, CRONYMAX) && RUNTIMES in t1
      && Get(t1, ["runtime"]) == Get(t, ["runtime"])
      && forall p: Path | p != [] && p[0] != "runtime" && p[0] != "runtimes" :: Get(t1, p) == Get(t, p)
  {
    hide StageV2, WellFormed;
    NamesDiffer();
    AfterV2(t, names);
    var t1 := StageV2(t, names);
    assert Get(t1, CRONYMAX) == Get(t, CRONYMAX) && Get(t1, V3_DIR + [V3_DONE]) == Get(t, V3_DIR + [V3_DONE]);
  }

  /** What stages V2 and V3 leave at a path of logs or cache, above and below cronymax. */
  lemma LooseAt(t: Tree, names: seq<string>, n: string, q: Path)
    requires WellFormed(t) && (n == "logs" || n == "cache") && !AlreadyDoneV3(t) && !IsFile(t, CRONYMAX)
    ensures var t2 := StageV3(StageV2(t, names));
      && WellFormed(t2) && IsDir(t2, CRONYMAX)
      && (CRONYMAX + [n] !in t ==> Get(t2, CRONYMAX + [n] + q) == Get(t, [n] + q))
      && (CRONYMAX + [n] in t ==> Get(t2, CRONYMAX + [n] + q) == Get(t, CRONYMAX + [n] + q))
      && (CRONYMAX + [n] in t && [n] in t ==> Get(t2, [n] + q) == Get(t, [n] + q))
  {
    hide StageV2, StageV3, WellFormed;
    NamesDiffer();
    var t1 := StageV2(t, names);
    TopAfterV2(t, names);
    var p := CRONYMAX + [n] + q;
    assert p[0] == "cronymax" && p[1] == n && p[1..] == [n] + q && V3_DIR[1] == (V3_DIR + [V3_DONE])[1] == "runtimes";
    assert Get(t1, CRONYMAX + [n]) == Get(t, CRONYMAX + [n]) && Get(t1, [n]) == Get(t, [n]);
    assert Get(t1, p) == Get(t, p) && Get(t1, [n] + q) == Get(t, [n] + q);
    assert n in PREFIXED_DIRS && "cronymax" !in PREFIXED_DIRS;
    AfterV3(t1, p);
    AfterV3(t1, [n] + q);
    if CRONYMAX + [n] !in t {
      if [n] !in t && q != [] {
        NothingUnder(t, p, CRONYMAX + [n]);
        NothingUnder(t, [n] + q, [n]);
      }
    }
    assert q == [] ==> [n] + q == [n] && p == CRONYMAX + [n];
  }

  /** logs and cache end under cronymax, as they were, unless cronymax has an entry of that name already: then both stay
      where they are. */
  lemma LooseDirectory(t: Tree, l: Listing, n: string)
    requires WellFormed(t) && (n == "logs" || n == "cache")
    requires ["cronymax", "runtimes", "migrations", "layout-v3.done"] !in t && !IsFile(t, ["cronymax"])
    ensures ["cronymax", n] !in t ==> SameSubtree(t, [n], Run(t, l), ["cronymax", n])
    ensures ["cronymax", n] in t ==> SameSubtree(t, ["cronymax", n], Run(t, l), ["cronymax", n])
    ensures ["cronymax", n] in t && [n] in t ==> SameSubtree(t, [n], Run(t, l), [n])
  {
    hide StageV2, StageV3, StageV4, WellFormed;
    assert V3_DIR + [V3_DONE] == ["cronymax", "runtimes", "migrations", "layout-v3.done"];
    assert CRONYMAX + [n] == ["cronymax", n];
    var t2 := StageV3(StageV2(t, l.oldProfiles));
    forall q: Path
      ensures ["cronymax", n] !in t ==> Get(Run(t, l), ["cronymax", n] + q) == Get(t, [n] + q)
      ensures ["cronymax", n] in t ==> Get(Run(t, l), ["cronymax", n] + q) == Get(t, ["cronymax", n] + q)
      ensures ["cronymax", n] in t && [n] in t ==> Get(Run(t, l), [n] + q) == Get(t, [n] + q)
    {
      LooseAt(t, l.oldProfiles, n, q);
      LooseAt(t, l.oldProfiles, n, []);
      assert [n] + [] == [n];
      LooseAfterV4(t2, l, n, q);
    }
  }

  /** Stage V4 does not touch them. */
  lemma LooseAfterV4(t: Tree, l: Listing, n: string, q: Path)
    requires WellFormed(t) && IsDir(t, CRONYMAX) && (n == "logs" || n == "cache")
    ensures var t' := StageV4(t, l);
      && Get(t', CRONYMAX + [n] + q) == Get(t, CRONYMAX + [n] + q)
      && ([n] in t ==> Get(t', [n] + q) == Get(t, [n] + q))
  {
    if !AlreadyDoneV4(t) {
      hide StageV4, WellFormed;
      NamesDiffer();
      var p := CRONYMAX + [n] + q;
      assert p[0] == "cronymax" && p[1] == n && ([n] + q)[0] == n && (V4_DIR + [V4_DONE])[1] == "profiles";
      AfterV4(t, l, p);
      AfterV4(t, l, [n] + q);
      Location(p);
      Location([n] + q);
    }
  }

  // ---------------------------------------------------------------- web views

  /** Nothing will stand at the top under this name when stage V4 looks. */
  predicate TopIsFree(t: Tree, id: string) {
    && id != "cronymax"
    && (id == "runtimes" ==> ["cronymax", "runtimes"] !in t)
    && (id == "webviews" || id == "logs" || id == "cache" ==> [id] !in t || ["cronymax", id] !in t)
    && (id !in {"runtimes", "webviews", "logs", "cache"} ==> [id] !in t)
  }

  lemma TopAt(t: Tree, names: seq<string>, id: string)
    requires WellFormed(t) && !AlreadyDoneV3(t) && !IsFile(t, CRONYMAX)
    ensures [id] !in StageV3(StageV2(t, names)) <==> TopIsFree(t, id)
  {
    hide StageV2, StageV3, WellFormed;
    NamesDiffer();
    var t1 := StageV2(t, names);
    TopAfterV2(t, names);
    AfterV3(t1, [id]);
    assert CRONYMAX + [id] == ["cronymax", id];
    assert Get(t1, ["cronymax", id]) == Get(t, ["cronymax", id]);
    assert id in PREFIXED_DIRS <==> id in {"runtimes", "webviews", "logs", "cache"};
    assert [id] <= V3_DIR ==> [id] == CRONYMAX;
    assert [id][0] == id;
  }

  /** The entry of each web view is listed when stage V4 reads them. */
  lemma ViewListed(t: Tree, l: Listing, id: string)
    requires WellFormed(t) && IsDir(t, CRONYMAX) && FaithfulV4(t, l) && CRONYMAX_WEBVIEWS + [id] in t
    ensures id in l.webviews
  {
    hide WellFormed, RenameRuntimes, SplitMemories;
    V4Base(t, l, CRONYMAX_WEBVIEWS + [id]);
    Location(CRONYMAX_WEBVIEWS + [id]);
  }

  /** What stage V4 does with one web view. */
  lemma ViewRaised(t: Tree, l: Listing, id: string, q: Path)
    requires WellFormed(t) && IsDir(t, CRONYMAX) && !AlreadyDoneV4(t) && FaithfulV4(t, l)
    requires IsDir(t, CRONYMAX_WEBVIEWS + [id])
    ensures var t' := StageV4(t, l);
      if [id] !in t then Get(t', [id] + q) == Get(t, CRONYMAX_WEBVIEWS + [id] + q)
                      && CRONYMAX_WEBVIEWS + [id] !in t'
      else Get(t', CRONYMAX_WEBVIEWS + [id] + q) == Get(t, CRONYMAX_WEBVIEWS + [id] + q)
  {
    hide RenameRuntimes, SplitMemories, RaiseWebviews, WriteSentinel, WellFormed, FaithfulV4;
    var view := CRONYMAX_WEBVIEWS + [id];
    var t2 := SplitMemories(RenameRuntimes(t), l.profiles);
    var t3 := MoveWebviews(t2, l.webviews);
    ViewListed(t, l, id);
    ViewBase(t, l, id, q);
    ViewBase(t, l, id, []);
    assert view + [] == view && [id] + [] == [id];
    PrefixIsDir(t2, view, CRONYMAX_WEBVIEWS);
    RaiseWebviewsAt(t2, l.webviews, [id] + q);
    RaiseWebviewsAt(t2, l.webviews, view + q);
    RaiseWebviewsAt(t2, l.webviews, view);
    assert ([id] + q)[0] == id && (view + q)[2] == view[2] == id && CRONYMAX_WEBVIEWS + ([id] + q) == view + q;
    Location(view + q);
    Location(view);
    Location([id] + q);
    assert (V4_DIR + [V4_DONE])[1] == "profiles" && (V4_DIR + [V4_DONE])[0] == "cronymax";
    WriteSentinelAt(t3, V4_DIR, V4_DONE, [id] + q);
    WriteSentinelAt(t3, V4_DIR, V4_DONE, view + q);
    WriteSentinelAt(t3, V4_DIR, V4_DONE, view);
  }

  lemma ViewBase(t: Tree, l: Listing, id: string, q: Path)
    requires WellFormed(t) && IsDir(t, CRONYMAX) && IsDir(t, CRONYMAX_WEBVIEWS + [id])
    ensures var t2 := SplitMemories(RenameRuntimes(t), l.profiles);
      && WellFormed(t2) && IsDir(t2, CRONYMAX)
      && Get(t2, CRONYMAX_WEBVIEWS + [id] + q) == Get(t, CRONYMAX_WEBVIEWS + [id] + q)
      && Get(t2, [id]) == Get(t, [id])
  {
    hide RenameRuntimes, SplitMemories, WellFormed;
    var view := CRONYMAX_WEBVIEWS + [id] + q;
    V4Base(t, l, view);
    V4Base(t, l, [id]);
    Location(view);
    Location([id]);
    assert view[0] == "cronymax" && view[1] == "webviews";
  }

  /** Where a web view ends: at the top, as it was, if its name is free there by then, and otherwise under
      cronymax/webviews. It starts under webviews, or under cronymax/webviews if that is there already. */
  lemma WebviewEnds(t: Tree, l: Listing, id: string)
    requires WellFormed(t) && Faithful(t, l) && !IsFile(t, ["cronymax"])
    requires ["cronymax", "runtimes", "migrations", "layout-v3.done"] !in t
    requires ["cronymax", "profiles", "migrations", "layout-v4.done"] !in t
    requires var home := if ["cronymax", "webviews"] in t then ["cronymax", "webviews"] else ["webviews"];
      IsDir(t, home + [id])
    ensures var home := if ["cronymax", "webviews"] in t then ["cronymax", "webviews"] else ["webviews"];
      if TopIsFree(t, id) then SameSubtree(t, home + [id], Run(t, l), [id]) && ["cronymax", "webviews", id] !in Run(t, l)
      else SameSubtree(t, home + [id], Run(t, l), ["cronymax", "webviews", id])
  {
    hide StageV2, StageV3, StageV4, WellFormed, FaithfulV4, Clear;
    var home := if ["cronymax", "webviews"] in t then ["cronymax", "webviews"] else ["webviews"];
    assert V3_DIR + [V3_DONE] == ["cronymax", "runtimes", "migrations", "layout-v3.done"];
    assert V4_DIR + [V4_DONE] == ["cronymax", "profiles", "migrations", "layout-v4.done"];
    assert CRONYMAX_WEBVIEWS + [id] == ["cronymax", "webviews", id] && home == WebviewsAtV4(t);
    var t2 := StageV3(StageV2(t, l.oldProfiles));
    V2KeepsRest(t, l.oldProfiles);
    V3Facts(StageV2(t, l.oldProfiles));
    TopAt(t, l.oldProfiles, id);
    WebviewAt(t, l.oldProfiles, [id]);
    ViewRaised(t2, l, id, []);
    forall q: Path
      ensures TopIsFree(t, id) ==> Get(Run(t, l), [id] + q) == Get(t, home + [id] + q)
      ensures !TopIsFree(t, id) ==> Get(Run(t, l), CRONYMAX_WEBVIEWS + [id] + q) == Get(t, home + [id] + q)
    {
      hide TopIsFree, Run;
      ViewAt(t, l.oldProfiles, id, q);
      ViewRaised(t2, l, id, q);
      assert Run(t, l) == StageV4(t2, l) by {
        RunEnds(t, l);
      }
    }
  }

  lemma RunEnds(t: Tree, l: Listing)
    ensures Run(t, l) == StageV4(StageV3(StageV2(t, l.oldProfiles)), l)
  {
  }

  lemma ViewAt(t: Tree, names: seq<string>, id: string, q: Path)
    requires WellFormed(t) && !AlreadyDoneV3(t) && !IsFile(t, CRONYMAX)
    ensures Get(StageV3(StageV2(t, names)), CRONYMAX_WEBVIEWS + [id] + q) == Get(t, WebviewsAtV4(t) + [id] + q)
  {
    hide StageV2, StageV3, WellFormed, Get;
    WebviewAt(t, names, [id] + q);
    assert CRONYMAX_WEBVIEWS + ([id] + q) == CRONYMAX_WEBVIEWS + [id] + q;
    assert WebviewsAtV4(t) + ([id] + q) == WebviewsAtV4(t) + [id] + q;
  }

  /** The three sentinels by their names. */
  lemma SentinelNames(t: Tree)
    ensures AllDone(t) <==>
      && ["runtimes", "migrations", "layout-v2.done"] in t
      && ["cronymax", "runtimes", "migrations", "layout-v3.done"] in t
      && ["cronymax", "profiles", "migrations", "layout-v4.done"] in t
  {
    assert V2_DIR + [V2_DONE] == ["runtimes", "migrations", "layout-v2.done"];
    assert V3_DIR + [V3_DONE] == ["cronymax", "runtimes", "migrations", "layout-v3.done"];
    assert V4_DIR + [V4_DONE] == ["cronymax", "profiles", "migrations", "layout-v4.done"];
  }
}
