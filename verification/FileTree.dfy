/** A directory tree as a finite map from paths to nodes, with the few operations a migration needs. Names are
    case-sensitive and there are no links. */
module FileTree {
  import opened Wrappers

  type Path = seq<string>

  datatype Node = Dir | File(content: string)

  type Tree = map<Path, Node>

  function Parent(p: Path): Path
    requires p != []
  {
    p[..|p| - 1]
  }

  ghost predicate WellFormed(t: Tree) {
    && [] in t && t[[]] == Dir
    && forall p | p in t && p != [] :: Parent(p) in t && t[Parent(p)] == Dir
  }

  predicate IsDir(t: Tree, p: Path) {
    p in t && t[p] == Dir
  }

  predicate IsFile(t: Tree, p: Path) {
    p in t && t[p].File?
  }

  function Get(t: Tree, p: Path): Option<Node> {
    if p in t then Some(t[p]) else None
  }

  /** Every proper prefix of a present path is a directory. */
  lemma {:induction false} PrefixIsDir(t: Tree, p: Path, q: Path)
    requires WellFormed(t) && p in t && q <= p && q != p
    ensures IsDir(t, q)
    decreases |p|
  {
    if q != Parent(p) {
      PrefixIsDir(t, Parent(p), q);
    }
  }

  lemma NothingUnder(t: Tree, p: Path, q: Path)
    requires WellFormed(t) && !IsDir(t, q) && q <= p && q != p
    ensures p !in t
  {
    if p in t {
      PrefixIsDir(t, p, q);
    }
  }

  // ---------------------------------------------------------------- create_directories

  /** Every missing prefix becomes a directory. A file on the way stops it before anything is created. */
  function MakeDirs(t: Tree, p: Path): Tree
    decreases |p|
  {
    if p == [] then t else
    var t1 := MakeDirs(t, Parent(p));
    if IsDir(t1, Parent(p)) && p !in t1 then t1[p := Dir] else t1
  }

  /** No file stands at p or on the way to it. */
  predicate Clear(t: Tree, p: Path)
    decreases |p|
  {
    !IsFile(t, p) && (p == [] || Clear(t, Parent(p)))
  }

  lemma {:induction false} MakeDirsEffect(t: Tree, p: Path)
    requires WellFormed(t)
    ensures var t' := MakeDirs(t, p);
      && WellFormed(t')
      && (forall q | q in t :: q in t' && t'[q] == t[q])
      && (forall q | q in t' && q !in t :: q <= p && t'[q] == Dir)
      && (IsDir(t', p) <==> Clear(t, p))
      && (!Clear(t, p) || p in t ==> t' == t)
    decreases |p|
  {
    if p != [] {
      MakeDirsEffect(t, Parent(p));
      if !Clear(t, Parent(p)) {
        FileAbove(t, Parent(p));
      }
    }
  }

  lemma {:induction false} FileAbove(t: Tree, p: Path)
    requires WellFormed(t) && !Clear(t, p)
    ensures !IsDir(t, p)
    decreases |p|
  {
    if p != [] && !IsFile(t, p) {
      FileAbove(t, Parent(p));
    }
  }

  // ---------------------------------------------------------------- rename

  /** The path a move sends p to. */
  function Rebase(p: Path, src: Path, dst: Path): Path {
    if src <= p then dst + p[|src|..] else p
  }

  function Moved(t: Tree, src: Path, dst: Path): Tree {
    map p | p in (set q | q in t :: Rebase(q, src, dst)) ::
      var back := if dst <= p then src + p[|dst|..] else p;
      if back in t then t[back] else Dir
  }

  /** Moving an entry to a free place: rename, or copy and remove, which end alike. When the parent of the
      destination is not a directory both fail and nothing changes; nothing moves into itself. */
  function MoveEntry(t: Tree, src: Path, dst: Path): Tree
    requires src in t && dst !in t
    requires src != [] && dst != []
  {
    if IsDir(t, Parent(dst)) && !(src <= dst) then Moved(t, src, dst) else t
  }

  /** What is at each path after a move. */
  lemma MovedAt(t: Tree, src: Path, dst: Path, p: Path)
    requires WellFormed(t) && src in t && dst !in t
    requires src != [] && dst != [] && !(src <= dst)
    ensures Get(Moved(t, src, dst), p) ==
            if dst <= p then Get(t, src + p[|dst|..]) else if src <= p then None else Get(t, p)
  {
    var t' := Moved(t, src, dst);
    if dst <= p {
      var back := src + p[|dst|..];
      assert Rebase(back, src, dst) == p;
      if p in t' {
        var q :| q in t && Rebase(q, src, dst) == p;
        if src <= q {
          assert q == src + q[|src|..] && p[|dst|..] == q[|src|..];
        } else {
          assert q == p;
          if p != dst {
            NothingUnder(t, p, dst);
          }
        }
        assert back in t;
      }
    } else if src <= p {
      assert forall q | q in t :: Rebase(q, src, dst) != p;
    } else {
      assert Rebase(p, src, dst) == p;
      if p in t' {
        var q :| q in t && Rebase(q, src, dst) == p;
        assert !(src <= q);
      }
    }
  }

  /** How a path and its parent lie to a directory d. */
  lemma ParentUnder(p: Path, d: Path)
    requires p != []
    ensures d <= Parent(p) ==> d <= p
    ensures d <= p && p != d ==> d <= Parent(p) && Parent(p)[|d|..] == Parent(p[|d|..])
    ensures p == d ==> !(d <= Parent(p))
  {
  }

  lemma ParentOfBack(src: Path, rest: Path)
    requires rest != []
    ensures Parent(src + rest) == src + Parent(rest)
  {
  }

  /** The parent of every path that is there after a move is a directory. */
  lemma MovedParent(t: Tree, src: Path, dst: Path, p: Path)
    requires WellFormed(t) && src in t && dst !in t
    requires src != [] && dst != [] && !(src <= dst) && IsDir(t, Parent(dst))
    requires p != [] && Get(Moved(t, src, dst), p).Some?
    ensures Get(Moved(t, src, dst), Parent(p)) == Some(Dir)
  {
    MovedAt(t, src, dst, p);
    MovedAt(t, src, dst, Parent(p));
    ParentUnder(p, dst);
    ParentUnder(p, src);
    hide Moved;
    if p == dst {
      assert Get(t, Parent(p)) == Some(Dir);
    } else if dst <= p {
      var rest := p[|dst|..];
      ParentOfBack(src, rest);
      hide Parent;
      assert Get(t, Parent(src + rest)) == Some(Dir);
    } else {
      hide Parent;
      assert Get(t, Parent(p)) == Some(Dir);
    }
  }

  lemma MovedWellFormed(t: Tree, src: Path, dst: Path)
    requires WellFormed(t) && src in t && dst !in t
    requires src != [] && dst != [] && !(src <= dst) && IsDir(t, Parent(dst))
    ensures WellFormed(Moved(t, src, dst))
  {
    var t' := Moved(t, src, dst);
    MovedAt(t, src, dst, []);
    hide Moved;
    assert Get(t, []) == Some(Dir) == Get(t', []);
    forall p | p in t' && p != []
      ensures Parent(p) in t' && t'[Parent(p)] == Dir
    {
      assert Get(t', p).Some?;
      MovedParent(t, src, dst, p);
      assert Get(t', Parent(p)) == Some(Dir);
    }
  }

  // ---------------------------------------------------------------- subtrees

  /** The subtree of t at p and the subtree of t' at p' are the same. */
  ghost predicate SameSubtree(t: Tree, p: Path, t': Tree, p': Path) {
    forall q: Path :: Get(t', p' + q) == Get(t, p + q)
  }
}
