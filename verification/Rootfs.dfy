/**
 Construction of the container's root file system (src/container/mounts.c): make the rootfs
 a private mount, mount the default file systems below it, pivot into it, drop the old root.

 Any system call may fail at the host's whim; a propagation change also fails by itself on
 a path that is not a mount point.
 */
module Rootfs {
  import opened MountTree
  import opened Records

  const DEFAULT_TARGETS: seq<Path> :=
    [["proc"], ["sys"], ["dev"], ["dev", "pts"], ["dev", "shm"], ["dev", "mqueue"]]

  const PIVOT_OLD := ".pivot_old"

  datatype Errno = EINVAL | OtherErrno
  datatype Fault = NoFault | Fails(e: Errno)

  /** Per default mount: its directory could not be made, the mount failed, or it went through. */
  datatype MountOutcome = Skipped | Refused | Mounted

  datatype PrivateIO = PrivateIO(first: Fault, bind: Fault, second: Fault)
  datatype PivotIO = PivotIO(mkdirOk: bool, bind: Fault, pivot: Fault, chdirOk: bool, umountOk: bool)
  datatype SetupIO = SetupIO(private: PrivateIO, mounts: seq<MountOutcome>, pivot: PivotIO)

  // ---- what a path under the rootfs shows ----

  /** After the first n default mounts, the last successful one whose target covers the path
      decides; without one the path shows what it showed before. */
  function Seen(base: Tree, rootfs: Path, mounts: seq<MountOutcome>, n: nat, q: Path): Dentry
    requires n <= |mounts| == |DEFAULT_TARGETS|
  {
    if n == 0 then View(base, rootfs + q)
    else if mounts[n - 1] == Mounted && DEFAULT_TARGETS[n - 1] <= q then
      Dentry(Fresh(n - 1), q[|DEFAULT_TARGETS[n - 1]|..])
    else Seen(base, rootfs, mounts, n - 1, q)
  }

  /** No target is covered by a later one: parents precede children in the list. */
  lemma TargetsAreOrdered(i: nat, j: nat)
    requires i < j < |DEFAULT_TARGETS|
    ensures !(DEFAULT_TARGETS[j] <= DEFAULT_TARGETS[i])
    ensures DEFAULT_TARGETS[i] != [] && DEFAULT_TARGETS[j] != []
  {
    Names();
    PrefixAt(DEFAULT_TARGETS[j], DEFAULT_TARGETS[i], 0);
    PrefixAt(DEFAULT_TARGETS[j], DEFAULT_TARGETS[i], |DEFAULT_TARGETS[j]| - 1);
  }

  lemma PrefixAt(a: Path, b: Path, k: nat)
    requires k < |a|
    ensures a <= b ==> k < |b| && a[k] == b[k]
  {
  }

  lemma PrefixPrefix(p: Path, r: Path, q: Path)
    ensures p + r <= q ==> p <= q
  {
    if p + r <= q {
      assert p == (p + r)[..|p|] == q[..|p|];
    }
  }

  lemma Names()
    ensures "proc" != "sys" && "proc" != "dev" && "sys" != "dev"
    ensures "pts" != "shm" && "pts" != "mqueue" && "shm" != "mqueue"
  {
    assert "proc"[0] == 'p' && "sys"[0] == 's' && "dev"[0] == 'd';
    assert "pts"[0] == 'p' && "shm"[0] == 's' && "mqueue"[0] == 'm';
  }

  /** Every default mount that went through is still what its target shows when the list is done. */
  lemma {:induction false} MountedStaysVisible(base: Tree, rootfs: Path, mounts: seq<MountOutcome>, i: nat, n: nat)
    requires i < n <= |mounts| == |DEFAULT_TARGETS| && mounts[i] == Mounted
    ensures Seen(base, rootfs, mounts, n, DEFAULT_TARGETS[i]) == Dentry(Fresh(i), [])
  {
    if n - 1 > i {
      TargetsAreOrdered(i, n - 1);
      MountedStaysVisible(base, rootfs, mounts, i, n - 1);
    } else {
      assert DEFAULT_TARGETS[i][|DEFAULT_TARGETS[i]|..] == [];
    }
  }

  /** No default mount covers the rootfs itself. */
  lemma {:induction false} RootfsStaysVisible(base: Tree, rootfs: Path, mounts: seq<MountOutcome>, n: nat)
    requires n <= |mounts| == |DEFAULT_TARGETS|
    ensures Seen(base, rootfs, mounts, n, []) == View(base, rootfs)
  {
    if n == 0 {
      assert rootfs + [] == rootfs;
    } else {
      RootfsStaysVisible(base, rootfs, mounts, n - 1);
    }
  }

  // ---- a default mount seen through the rootfs ----

  lemma NewMountView(t: Tree, p: Path, i: nat, q: Path)
    ensures View(NewMount(t, p, i), q) == if p <= q then Dentry(Fresh(i), q[|p|..]) else View(t, q)
  {
    var x := Mount(Dentry(Fresh(i), []), Resolve(t, p).0.shared, false, map[]);
    AttachView(t, p, x, q);
    if p <= q {
      NoHit(x, q[|p|..], 0);
      assert [] + q[|p|..] == q[|p|..];
    }
  }

  lemma NewMountSeen(t: Tree, base: Tree, rootfs: Path, mounts: seq<MountOutcome>, n: nat)
    requires n < |mounts| == |DEFAULT_TARGETS| && mounts[n] == Mounted
    requires forall q :: View(t, rootfs + q) == Seen(base, rootfs, mounts, n, q)
    ensures forall q ::
              View(NewMount(t, rootfs + DEFAULT_TARGETS[n], n), rootfs + q) == Seen(base, rootfs, mounts, n + 1, q)
  {
    var target := DEFAULT_TARGETS[n];
    forall q ensures View(NewMount(t, rootfs + target, n), rootfs + q) == Seen(base, rootfs, mounts, n + 1, q) {
      NewMountView(t, rootfs + target, n, rootfs + q);
      assert (rootfs + q)[|rootfs|..] == q;
      if rootfs + target <= rootfs + q {
        assert target == (rootfs + q)[..|rootfs + target|][|rootfs|..] == q[..|target|];
        assert (rootfs + q)[|rootfs + target|..] == q[|target|..];
      }
    }
  }

  /** The state between the calls: the rootfs is a mount point and everything mounted in it is
      private; the root of the process is not covered by what paths lead to. */
  ghost predicate Prepared(t: Tree, rootfs: Path) {
    IsMountPoint(t, rootfs) && AllPrivate(Resolve(t, rootfs).0) && [] !in t.kids
  }

  lemma NewMountPrepared(t: Tree, rootfs: Path, target: Path, i: nat)
    requires Prepared(t, rootfs) && target != []
    ensures Prepared(NewMount(t, rootfs + target, i), rootfs)
  {
    var m := Resolve(t, rootfs).0;
    var x := Mount(Dentry(Fresh(i), []), Resolve(t, rootfs + target).0.shared, false, map[]);
    ResolveOn(t, rootfs, target);
    assert [] + target == target;
    ResolvePrivate(m, target);
    AttachBelow(t, rootfs, target, x);
    AttachKeepsPrivate(m, target, x);
    RootUncovered(t, rootfs + target, Put(x));
  }

  lemma SelfBindTops(t: Tree, p: Path)
    ensures var (m, rest) := Resolve(t, p);
            && Resolve(SelfBind(t, p), p) == (Bindable(Copy(m, rest)), [])
            && ParentOf(SelfBind(t, p), p).shared == m.shared
            && Detach(SelfBind(t, p), p) == t
  {
    var (m, rest) := Resolve(t, p);
    ResolvedStays(t, p);
    CopyFirstHit(m, rest, []);
    assert rest + [] == rest;
    var x := Bindable(Copy(m, rest));
    NoHit(x, [], 0);
    AttachTops(t, p, x);
    DetachUndoesAttach(t, p, x);
  }

  // ---- which system calls have to work ----

  /** The first attempt fails in the way that leads to the bind. */
  predicate NeedsBind(t: Tree, path: Path, io: PrivateIO) {
    io.first == Fails(EINVAL) || (io.first == NoFault && !IsMountPoint(t, path))
  }

  predicate BindWorks(t: Tree, path: Path, io: PrivateIO) {
    io.bind == NoFault && !Resolve(t, path).0.unbindable
  }

  predicate PrivateWorks(t: Tree, path: Path, io: PrivateIO) {
    if NeedsBind(t, path, io) then BindWorks(t, path, io) && io.second == NoFault else io.first == NoFault
  }

  /** What paths lead to once a path is bound on itself, if that is needed to make it private. */
  function Bound(t: Tree, path: Path, io: PrivateIO): Tree {
    if NeedsBind(t, path, io) && BindWorks(t, path, io) && path != [] then SelfBind(t, path) else t
  }

  /** That looks the same on all other paths, and if nothing below the path is unbindable, on all. */
  lemma BoundLooksTheSame(t: Tree, path: Path, io: PrivateIO)
    ensures forall q | !(path < q) :: View(Bound(t, path, io), q) == View(t, q)
    ensures AllBindable(Copy(Resolve(t, path).0, Resolve(t, path).1)) ==>
              forall q :: View(Bound(t, path, io), q) == View(t, q)
  {
    forall q | !(path < q) ensures View(SelfBind(t, path), q) == View(t, q) { SelfBindElsewhere(t, path, q); }
    if AllBindable(Copy(Resolve(t, path).0, Resolve(t, path).1)) {
      forall q ensures View(SelfBind(t, path), q) == View(t, q) { SelfBindLooksTheSame(t, path, q); }
    }
  }

  predicate PivotWorks(newRoot: Path, aboveShared: bool, io: PivotIO) {
    newRoot != [] && !aboveShared && io.mkdirOk && io.bind == NoFault && io.pivot == NoFault && io.chdirOk
  }

  // ---- the mount namespace of the child ----

  /** A mount together with what covers it at its own place. */
  function Stack(t: Tree, cover: Option<Tree>): Tree {
    if cover.Some? then t.(kids := t.kids[[] := cover.value]) else t
  }

  class Namespace {
    /** What paths of the process lead to. */
    var root: Tree
    /** What is mounted on the root of the process itself: no path leads there, as a walk
        starts below it. */
    var cover: Option<Tree>
    /** Whether the mount that the root of the process sits on, outside its tree, is shared. */
    const aboveShared: bool

    ghost predicate Valid()
      reads this
    {
      [] !in root.kids
    }

    // -- system calls --

    method SysMakePrivate(path: Path, fault: Fault) returns (r: Fault)
      requires Valid()
      modifies this`root
      ensures Valid()
      ensures r == if fault.Fails? then fault else if IsMountPoint(old(root), path) then NoFault else Fails(EINVAL)
      ensures root == if r.Fails? then old(root) else MadePrivate(old(root), path)
    {
      if fault.Fails? { return fault; }
      if !IsMountPoint(root, path) { return Fails(EINVAL); }
      RootUncovered(root, path, Privatize);
      root := MadePrivate(root, path);
      r := NoFault;
    }

    /** An unbindable mount cannot be bound. On the root of the process itself the copy ends up on
        top of all that covers it. */
    method SysSelfBind(path: Path, fault: Fault) returns (r: Fault)
      requires Valid()
      modifies this
      ensures Valid()
      ensures r == if fault == NoFault && Resolve(old(root), path).0.unbindable then Fails(EINVAL) else fault
      ensures root == if r.Fails? || path == [] then old(root) else SelfBind(old(root), path)
      ensures r.Fails? || path != [] ==> cover == old(cover)
    {
      var unbindable := Resolve(root, path).0.unbindable;
      if fault == NoFault && unbindable { return Fails(EINVAL); }
      if fault == NoFault {
        if path == [] {
          var all := Bindable(Stack(root, cover));
          cover := Some(if cover.None? then all else Attach(cover.value, [], all));
        } else {
          var (m, rest) := Resolve(root, path);
          RootUncovered(root, path, Put(Bindable(Copy(m, rest))));
          root := SelfBind(root, path);
        }
      }
      r := fault;
    }

    /** The demands of pivot_root on its arguments are a precondition: every call is proved to
        meet them. The current root itself is refused by the kernel, and so is a root whose own
        parent mount is shared. The mount at newRoot becomes the root, and all the rest, with
        what covered the old root, hangs at putOld. */
    method SysPivotRoot(newRoot: Path, putOld: Path, fault: Fault) returns (r: Fault)
      requires Valid() && newRoot < putOld
      requires newRoot != [] ==> PivotAllowed(root, newRoot, putOld)
      modifies this
      ensures Valid()
      ensures r == if newRoot == [] || aboveShared then Fails(OtherErrno) else fault
      ensures r.Fails? ==> root == old(root) && cover == old(cover)
      ensures !r.Fails? ==> cover == None
      ensures var rest := Stack(Detach(old(root), newRoot), old(cover));
              !r.Fails? ==> root == Attach(Resolve(old(root), newRoot).0, putOld[|newRoot|..], rest)
    {
      if newRoot == [] || aboveShared { return Fails(OtherErrno); }
      if fault == NoFault {
        var rest := Stack(Detach(root, newRoot), cover);
        assert !Hit(Resolve(root, newRoot).0, [], 0);
        RootUncovered(Resolve(root, newRoot).0, putOld[|newRoot|..], Put(rest));
        root := Attach(Resolve(root, newRoot).0, putOld[|newRoot|..], rest);
        cover := None;
      }
      r := fault;
    }

    /** umount2 with MNT_DETACH */
    method SysUmount(path: Path, ok: bool)
      requires Valid() && path != []
      modifies this`root
      ensures root == if ok then Detach(old(root), path) else old(root)
    {
      if ok { root := Detach(root, path); }
    }

    // -- nk_mount_make_private --

    method MakePrivate(path: Path, io: PrivateIO) returns (ok: bool)
      requires Valid()
      modifies this
      ensures Valid() && forall q :: View(root, q) == View(Bound(old(root), path, io), q)
      ensures path != [] ==> cover == old(cover)
      ensures ok ==> Prepared(root, path)
      ensures ok <==> PrivateWorks(old(root), path, io)
    {
      ghost var base := root;
      var e := SysMakePrivate(path, io.first);
      if e.Fails? {
        if e.e == EINVAL {
          var b := SysSelfBind(path, io.bind);
          if b.Fails? { return false; }
          SelfBindTops(base, path);
          ghost var bound := root;
          if path == [] { NoHit(base, [], 0); }
          e := SysMakePrivate(path, io.second);
          if e == NoFault {
            PrivatePrepares(bound, path);
            return true;
          }
        }
        return false;
      }
      PrivatePrepares(base, path);
      ok := true;
    }

    // -- nk_mount_pivot_root --

    method PivotRoot(newRoot: Path, io: PivotIO) returns (ok: bool)
      requires Valid() && Prepared(root, newRoot)
      modifies this
      ensures ok <==> PivotWorks(newRoot, aboveShared, io)
      ensures ok ==> root == Pivot(old(root), old(cover), newRoot, io.umountOk)
    {
      ghost var before, m := root, Resolve(root, newRoot).0;
      var putOld := newRoot + [PIVOT_OLD];
      if !io.mkdirOk { return false; }

      var b := SysSelfBind(newRoot, io.bind);
      if b.Fails? { return false; }
      SelfBindMeetsPivot(before, newRoot);

      var p := SysPivotRoot(newRoot, putOld, io.pivot);
      if p.Fails? { return false; }
      assert putOld[|newRoot|..] == [PIVOT_OLD];
      ghost var all := Stack(before, old(cover));
      assert root == Attach(m, [PIVOT_OLD], all);

      if !io.chdirOk { return false; }
      SysUmount([PIVOT_OLD], io.umountOk);
      if old(cover).None? {
        NoHit(before, [], 0);
        DetachUndoesAttach(m, [PIVOT_OLD], all);
      } else {
        assert Hit(all, [], 0);
        DetachTakesTopmost(m, [PIVOT_OLD], all);
      }
      ok := true;
    }

    // -- nk_container_setup_rootfs --

    /** For every rootfs path, mount point or not, and every initial mount tree: it succeeds
        whatever becomes of the default mounts, exactly if the calls around them work and the
        parent mount of the root is not shared. On success the process root is the rootfs, every
        default mount that went through is what its target shows, and no other path is touched.

        The old root is gone exactly if the unmount worked and nothing covered it. For what is
        unmounted is the topmost mount at /.pivot_old: a cover, if there was one. What remains of
        the cover shows there then, and the old root exactly if nothing remains. */
    method SetupRootfs(rootfs: Path, io: SetupIO) returns (ok: bool)
      requires Valid() && |io.mounts| == |DEFAULT_TARGETS|
      modifies this
      ensures ok <==> PrivateWorks(old(root), rootfs, io.private) && PivotWorks(rootfs, aboveShared, io.pivot)
      ensures ok ==> View(root, []) == View(old(root), rootfs)
      ensures ok ==> ShowsDefaults(root, io.mounts)
      ensures ok && IsGone(old(cover), io.pivot.umountOk) ==> AllPrivate(root)
      ensures ok ==> ShowsRootfs(root, Bound(old(root), rootfs, io.private), rootfs, io.mounts,
                                 IsGone(old(cover), io.pivot.umountOk))
      ensures ok && !IsGone(old(cover), io.pivot.umountOk) ==>
                ShowsLeftover(root, old(root), rootfs, Remains(old(cover), io.pivot.umountOk))
    {
      ghost var base := Bound(root, rootfs, io.private);
      var private := MakePrivate(rootfs, io.private);
      if !private { return false; }

      assert Built(root, base, rootfs, io.mounts, 0);
      ghost var covered := cover;
      for i := 0 to |DEFAULT_TARGETS|
        invariant Valid() && Built(root, base, rootfs, io.mounts, i) && cover == covered
      {
        if io.mounts[i] == Skipped { continue; }
        BuiltStep(root, base, rootfs, io.mounts, i);
        if io.mounts[i] == Mounted {
          root := NewMount(root, rootfs + DEFAULT_TARGETS[i], i);
        }
      }

      ghost var built := root;
      var pivoted := PivotRoot(rootfs, io.pivot);
      if !pivoted { return false; }
      PivotedView(built, old(cover), base, rootfs, io.mounts, io.pivot.umountOk);
      AllIsVisible(root, base, rootfs, io.mounts);
      TargetsInWords(root, io.mounts);
      LeftoverOfBound(root, old(root), rootfs, io.private, Remains(old(cover), io.pivot.umountOk));
      ok := true;
    }
  }

  /** The tree after a pivot and an attempt to unmount the old root. */
  function Pivot(t: Tree, cover: Option<Tree>, newRoot: Path, umountOk: bool): Tree {
    var m, all := Resolve(t, newRoot).0, Stack(t, cover);
    if !umountOk then Attach(m, [PIVOT_OLD], all)
    else if cover.None? then m
    else Attach(m, [PIVOT_OLD], Detach(all, []))
  }

  predicate IsGone(cover: Option<Tree>, umountOk: bool) {
    umountOk && cover.None?
  }

  /** What is left on the old root after an attempt to unmount at its place. */
  function Remains(cover: Option<Tree>, umountOk: bool): Option<Tree> {
    if !umountOk then cover
    else if cover.Some? && [] in cover.value.kids then Some(Detach(cover.value, []))
    else None
  }

  /** Every path, but those below /.pivot_old while something is there, shows the rootfs with the
      default mounts that went through on top. */
  ghost predicate ShowsRootfs(t: Tree, base: Tree, rootfs: Path, mounts: seq<MountOutcome>, gone: bool)
    requires |mounts| == |DEFAULT_TARGETS|
  {
    forall q | gone || !([".pivot_old"] <= q) :: View(t, q) == Seen(base, rootfs, mounts, |mounts|, q)
  }

  /** Something is mounted at /.pivot_old: what lay on the old root, or the old root itself. */
  ghost predicate ShowsLeftover(t: Tree, base: Tree, rootfs: Path, left: Option<Tree>) {
    && IsMountPoint(t, [".pivot_old"])
    && match left
       case Some(x) => forall q :: View(t, [".pivot_old"] + q) == View(x, q)
       case None => forall q | !(rootfs <= q) :: View(t, [".pivot_old"] + q) == View(base, q)
  }

  /** The six default mounts, each at its place as far as it went through. */
  ghost predicate ShowsDefaults(t: Tree, mounts: seq<MountOutcome>)
    requires |mounts| == 6
  {
    && (mounts[0] == Mounted ==> View(t, ["proc"]) == Dentry(Fresh(0), []))
    && (mounts[1] == Mounted ==> View(t, ["sys"]) == Dentry(Fresh(1), []))
    && (mounts[2] == Mounted ==> View(t, ["dev"]) == Dentry(Fresh(2), []))
    && (mounts[3] == Mounted ==> View(t, ["dev", "pts"]) == Dentry(Fresh(3), []))
    && (mounts[4] == Mounted ==> View(t, ["dev", "shm"]) == Dentry(Fresh(4), []))
    && (mounts[5] == Mounted ==> View(t, ["dev", "mqueue"]) == Dentry(Fresh(5), []))
  }

  lemma TargetsInWords(t: Tree, mounts: seq<MountOutcome>)
    requires |mounts| == |DEFAULT_TARGETS|
    requires forall i | 0 <= i < |DEFAULT_TARGETS| && mounts[i] == Mounted ::
               View(t, DEFAULT_TARGETS[i]) == Dentry(Fresh(i), [])
    ensures ShowsDefaults(t, mounts)
  {
    assert DEFAULT_TARGETS[0] == ["proc"] && DEFAULT_TARGETS[1] == ["sys"] && DEFAULT_TARGETS[2] == ["dev"];
    assert DEFAULT_TARGETS[3] == ["dev", "pts"] && DEFAULT_TARGETS[4] == ["dev", "shm"];
    assert DEFAULT_TARGETS[5] == ["dev", "mqueue"];
  }

  /** To have bound the rootfs makes no difference to what is left of the old root. */
  lemma LeftoverOfBound(t: Tree, base: Tree, rootfs: Path, io: PrivateIO, left: Option<Tree>)
    ensures ShowsLeftover(t, Bound(base, rootfs, io), rootfs, left) ==> ShowsLeftover(t, base, rootfs, left)
    ensures View(Bound(base, rootfs, io), rootfs) == View(base, rootfs)
  {
    BoundLooksTheSame(base, rootfs, io);
  }

  /** If every path outside /.pivot_old shows what it should, so do the default mounts and the root. */
  lemma AllIsVisible(t: Tree, base: Tree, rootfs: Path, mounts: seq<MountOutcome>)
    requires |mounts| == |DEFAULT_TARGETS|
    requires forall q | !([PIVOT_OLD] <= q) :: View(t, q) == Seen(base, rootfs, mounts, |mounts|, q)
    ensures View(t, []) == View(base, rootfs)
    ensures forall i | 0 <= i < |DEFAULT_TARGETS| && mounts[i] == Mounted ::
              View(t, DEFAULT_TARGETS[i]) == Dentry(Fresh(i), [])
  {
    RootfsStaysVisible(base, rootfs, mounts, |mounts|);
    forall i | 0 <= i < |DEFAULT_TARGETS| && mounts[i] == Mounted
      ensures View(t, DEFAULT_TARGETS[i]) == Dentry(Fresh(i), [])
    {
      TargetIsElsewhere(i);
      MountedStaysVisible(base, rootfs, mounts, i, |mounts|);
    }
  }

  lemma TargetIsElsewhere(i: nat)
    requires i < |DEFAULT_TARGETS|
    ensures !([PIVOT_OLD] <= DEFAULT_TARGETS[i])
  {
    assert PIVOT_OLD[0] == '.' && "proc"[0] == 'p' && "sys"[0] == 's' && "dev"[0] == 'd';
    PrefixAt([PIVOT_OLD], DEFAULT_TARGETS[i], 0);
  }

  lemma NewMountOutside(t: Tree, rootfs: Path, target: Path, i: nat)
    ensures forall q | !(rootfs <= q) :: View(NewMount(t, rootfs + target, i), q) == View(t, q)
  {
    forall q | !(rootfs <= q) ensures View(NewMount(t, rootfs + target, i), q) == View(t, q) {
      NewMountView(t, rootfs + target, i, q);
      PrefixPrefix(rootfs, target, q);
    }
  }

  /** After n default mounts. */
  ghost predicate Built(t: Tree, base: Tree, rootfs: Path, mounts: seq<MountOutcome>, n: nat)
    requires n <= |mounts| == |DEFAULT_TARGETS|
  {
    && Prepared(t, rootfs)
    && (forall q :: View(t, rootfs + q) == Seen(base, rootfs, mounts, n, q))
    && (forall q | !(rootfs <= q) :: View(t, q) == View(base, q))
  }

  lemma BuiltStep(t: Tree, base: Tree, rootfs: Path, mounts: seq<MountOutcome>, n: nat)
    requires n < |mounts| == |DEFAULT_TARGETS| && Built(t, base, rootfs, mounts, n)
    ensures Built(if mounts[n] == Mounted then NewMount(t, rootfs + DEFAULT_TARGETS[n], n) else t,
                  base, rootfs, mounts, n + 1)
  {
    if mounts[n] == Mounted {
      NewMountSeen(t, base, rootfs, mounts, n);
      assert DEFAULT_TARGETS[n] != [];
      NewMountPrepared(t, rootfs, DEFAULT_TARGETS[n], n);
      NewMountOutside(t, rootfs, DEFAULT_TARGETS[n], n);
    }
  }

  lemma PivotedView(t: Tree, cover: Option<Tree>, base: Tree, rootfs: Path, mounts: seq<MountOutcome>, umountOk: bool)
    requires |mounts| == |DEFAULT_TARGETS| && Built(t, base, rootfs, mounts, |mounts|)
    ensures var after := Pivot(t, cover, rootfs, umountOk);
            && ShowsRootfs(after, base, rootfs, mounts, IsGone(cover, umountOk))
            && (!IsGone(cover, umountOk) ==> ShowsLeftover(after, base, rootfs, Remains(cover, umountOk)))
  {
    if IsGone(cover, umountOk) {
      InsideView(t, rootfs);
    } else {
      LeftIsStack(t, cover, umountOk);
      OldRootView(t, rootfs, Stack(t, Remains(cover, umountOk)));
      LeftoverShows(t, base, rootfs, Remains(cover, umountOk));
    }
  }

  lemma LeftoverShows(t: Tree, base: Tree, rootfs: Path, left: Option<Tree>)
    requires IsMountPoint(t, rootfs) && forall q | !(rootfs <= q) :: View(t, q) == View(base, q)
    ensures ShowsLeftover(Attach(Resolve(t, rootfs).0, [PIVOT_OLD], Stack(t, left)), base, rootfs, left)
  {
    var m, x := Resolve(t, rootfs).0, Stack(t, left);
    AttachedIsMountPoint(m, [PIVOT_OLD], x);
    forall q ensures View(Attach(m, [PIVOT_OLD], x), [PIVOT_OLD] + q) == View(if left.Some? then left.value else t, q) {
      AttachView(m, [PIVOT_OLD], x, [PIVOT_OLD] + q);
      assert ([PIVOT_OLD] + q)[1..] == q;
      if left.Some? { StackView(t, left.value, q); }
    }
  }

  /** Unmounting takes the top off the stack. */
  lemma LeftIsStack(t: Tree, cover: Option<Tree>, umountOk: bool)
    requires [] !in t.kids && !IsGone(cover, umountOk)
    ensures (if umountOk then Detach(Stack(t, cover), []) else Stack(t, cover)) == Stack(t, Remains(cover, umountOk))
  {
    if umountOk {
      var all := Stack(t, cover);
      assert Hit(all, [], 0);
      if [] in cover.value.kids {
        assert Hit(cover.value, [], 0);
      } else {
        NoHit(cover.value, [], 0);
        assert all.kids - {[]} == t.kids;
      }
    }
  }

  /** A covered mount shows what covers it. */
  lemma StackView(t: Tree, x: Tree, q: Path)
    ensures View(Stack(t, Some(x)), q) == View(x, q)
  {
    assert Hit(Stack(t, Some(x)), q, 0);
    assert q[0..] == q;
  }

  /** So what is left uncovers the old root exactly if nothing remains. */
  lemma OldRootIsBareIff(t: Tree, cover: Option<Tree>, umountOk: bool)
    requires [] !in t.kids && !IsGone(cover, umountOk)
    ensures [] !in Stack(t, Remains(cover, umountOk)).kids <==> Remains(cover, umountOk).None?
    ensures Remains(cover, umountOk).None? <==>
              if umountOk then cover.Some? && [] !in cover.value.kids else cover.None?
  {
  }

  /** With one mount over the old root, all calls going well, its files are in sight at /.pivot_old. */
  lemma OneCoverComesOff()
    ensures var rootfs := Mount(Dentry(Host(2), []), false, false, map[]);
            var t := Mount(Dentry(Host(0), []), false, false, map[["c"] := rootfs]);
            var cover := Some(Mount(Dentry(Host(1), []), false, false, map[]));
            View(Pivot(t, cover, ["c"], true), [PIVOT_OLD] + ["etc"]) == Dentry(Host(0), ["etc"])
  {
    var rootfs := Mount(Dentry(Host(2), []), false, false, map[]);
    var t := Mount(Dentry(Host(0), []), false, false, map[["c"] := rootfs]);
    var cover := Some(Mount(Dentry(Host(1), []), false, false, map[]));
    LeftIsStack(t, cover, true);
    AttachView(Resolve(t, ["c"]).0, [PIVOT_OLD], t, [PIVOT_OLD] + ["etc"]);
    assert ([PIVOT_OLD] + ["etc"])[1..] == ["etc"];
    assert "c" != "etc" && ["etc"][..1] == ["etc"];
    NoHit(t, ["etc"], 0);
    assert [] + ["etc"] == ["etc"];
  }

  /** What a root with something attached at /.pivot_old shows. */
  lemma OldRootView(t: Tree, rootfs: Path, x: Tree)
    requires IsMountPoint(t, rootfs)
    ensures forall q :: View(Attach(Resolve(t, rootfs).0, [PIVOT_OLD], x), q) ==
                        if [PIVOT_OLD] <= q then View(x, q[1..]) else View(t, rootfs + q)
  {
    InsideView(t, rootfs);
    forall q ensures View(Attach(Resolve(t, rootfs).0, [PIVOT_OLD], x), q) ==
                     if [PIVOT_OLD] <= q then View(x, q[1..]) else View(t, rootfs + q) {
      AttachView(Resolve(t, rootfs).0, [PIVOT_OLD], x, q);
    }
  }

  lemma InsideView(t: Tree, p: Path)
    requires IsMountPoint(t, p)
    ensures forall q :: View(Resolve(t, p).0, q) == View(t, p + q)
  {
    forall q ensures View(Resolve(t, p).0, q) == View(t, p + q) {
      ViewOn(t, p, q);
      assert [] + q == q;
    }
  }

  lemma PrivatePrepares(t: Tree, p: Path)
    requires IsMountPoint(t, p) && [] !in t.kids
    ensures Prepared(MadePrivate(t, p), p)
    ensures forall q :: View(MadePrivate(t, p), q) == View(t, q)
  {
    MadePrivateAt(t, p);
    PrivatizedIsPrivate(Resolve(t, p).0);
    RootUncovered(t, p, Privatize);
    forall q ensures View(MadePrivate(t, p), q) == View(t, q) { MadePrivateLooksTheSame(t, p, q); }
  }

  /** After the recursive self-bind all demands of pivot_root hold, and the new root is a
      faithful copy of the mount below it. */
  lemma SelfBindMeetsPivot(t: Tree, newRoot: Path)
    requires Prepared(t, newRoot)
    ensures var t2 := SelfBind(t, newRoot);
            && (newRoot != [] ==> PivotAllowed(t2, newRoot, newRoot + [PIVOT_OLD]))
            && Resolve(t2, newRoot).0 == Resolve(t, newRoot).0
            && Detach(t2, newRoot) == t
  {
    var m := Resolve(t, newRoot).0;
    var t2 := SelfBind(t, newRoot);
    SelfBindTops(t, newRoot);
    CopyWhole(m);
    PrivateIsBindable(m);
    BindableWhole(m);
    ResolveOn(t2, newRoot, [PIVOT_OLD]);
    assert [] + [PIVOT_OLD] == [PIVOT_OLD];
    ResolvePrivate(m, [PIVOT_OLD]);
  }

  /** Were the self-bind before the pivot not recursive, every default mount would be lost: its
      target would show the bare directory of the rootfs. */
  lemma FlatBindLosesMounts(t: Tree, rootfs: Path, i: nat)
    requires IsMountPoint(t, rootfs) && i < |DEFAULT_TARGETS|
    ensures var m := Resolve(t, rootfs).0;
            View(FlatSelfBind(t, rootfs), rootfs + DEFAULT_TARGETS[i]) == Dentry(m.at.fs, m.at.dir + DEFAULT_TARGETS[i])
  {
    FlatSelfBindHides(t, rootfs, DEFAULT_TARGETS[i]);
    var m := Resolve(t, rootfs).0;
    assert m.at.dir + [] + DEFAULT_TARGETS[i] == m.at.dir + DEFAULT_TARGETS[i];
  }
}
