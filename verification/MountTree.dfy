/**
 Mounts as a tree, and the mount calls that src/container/mounts.c makes, as far as they
 decide what a path leads to and which mounts are private.

 A mount shows a directory of a file system. Its children are keyed by the place, relative
 to that directory, on which they are mounted; a child at [] covers the mount itself. The
 tree is rooted at the root directory of the process.
 */
module MountTree {

  type Path = seq<string>

  /** A file system of the host, or the one made by the i-th entry of the default mounts. */
  datatype FileSystem = Host(n: nat) | Fresh(i: nat)

  datatype Dentry = Dentry(fs: FileSystem, dir: Path)

  /** An unbindable mount is not to be copied by a bind. */
  datatype Tree = Mount(at: Dentry, shared: bool, unbindable: bool, kids: map<Path, Tree>)

  // ---- walking a path ----

  predicate Hit(t: Tree, p: Path, k: nat)
    requires k <= |p|
  {
    p[..k] in t.kids
  }

  datatype Crossing = Stay | Cross(k: nat)

  /** The first place on the path where another mount takes over. */
  function FirstHit(t: Tree, p: Path, from: nat): (c: Crossing)
    requires from <= |p|
    ensures c.Cross? ==> from <= c.k <= |p| && Hit(t, p, c.k) && forall j | from <= j < c.k :: !Hit(t, p, j)
    ensures c.Stay? ==> forall j | from <= j <= |p| :: !Hit(t, p, j)
    decreases |p| - from
  {
    if Hit(t, p, from) then Cross(from)
    else if from == |p| then Stay
    else FirstHit(t, p, from + 1)
  }

  /** The mount a path ends in, and what is left of the path inside it. */
  function Resolve(t: Tree, p: Path): (r: (Tree, Path))
    ensures forall j | 0 <= j <= |r.1| :: !Hit(r.0, r.1, j)
  {
    match FirstHit(t, p, 0)
    case Stay => (t, p)
    case Cross(k) => Resolve(t.kids[p[..k]], p[k..])
  }

  /** What a path leads to. */
  function View(t: Tree, p: Path): Dentry {
    var (m, rest) := Resolve(t, p);
    Dentry(m.at.fs, m.at.dir + rest)
  }

  predicate IsMountPoint(t: Tree, p: Path) {
    Resolve(t, p).1 == []
  }

  // ---- the calls ----

  datatype Edit = Put(x: Tree) | Privatize

  function Privatized(t: Tree): Tree {
    Mount(t.at, false, false, map k | k in t.kids :: Privatized(t.kids[k]))
  }

  function Apply(e: Edit, m: Tree, rest: Path): Tree {
    match e
    case Put(x) => m.(kids := m.kids[rest := x])
    case Privatize => Privatized(m)
  }

  /** Change the mount a path ends in. */
  function Edited(t: Tree, p: Path, e: Edit): Tree {
    match FirstHit(t, p, 0)
    case Stay => Apply(e, t, p)
    case Cross(k) => t.(kids := t.kids[p[..k] := Edited(t.kids[p[..k]], p[k..], e)])
  }

  function Attach(t: Tree, p: Path, x: Tree): Tree {
    Edited(t, p, Put(x))
  }

  /** Take away the topmost mount at a path. */
  function Detach(t: Tree, p: Path): Tree {
    match FirstHit(t, p, 0)
    case Stay => t
    case Cross(k) =>
      var kid := t.kids[p[..k]];
      if k == |p| && FirstHit(kid, [], 0) == Stay then t.(kids := t.kids - {p[..k]})
      else t.(kids := t.kids[p[..k] := Detach(kid, p[k..])])
  }

  function Below(keys: set<Path>, place: Path): (s: set<Path>)
    ensures forall q :: q in s <==> place + q in keys
  {
    assert forall k | k in keys && place <= k :: place + k[|place|..] == k;
    assert forall q :: (place + q)[|place|..] == q;
    set k | k in keys && place <= k :: k[|place|..]
  }

  /** The part of a mount at and below a place, as a mount of its own. */
  function Copy(m: Tree, rest: Path): Tree {
    Mount(Dentry(m.at.fs, m.at.dir + rest), m.shared, m.unbindable,
          map q | q in Below(m.kids.Keys, rest) :: m.kids[rest + q])
  }

  /** What a recursive bind copies: all but the unbindable mounts and what is mounted in them. */
  function Bindable(t: Tree): Tree {
    t.(kids := map k | k in t.kids && !t.kids[k].unbindable :: Bindable(t.kids[k]))
  }

  /** mount(path, path, MS_BIND | MS_REC) */
  function SelfBind(t: Tree, p: Path): Tree {
    var (m, rest) := Resolve(t, p);
    Attach(t, p, Bindable(Copy(m, rest)))
  }

  /** The same without MS_REC: the mounts below are not copied. */
  function FlatSelfBind(t: Tree, p: Path): Tree {
    var (m, rest) := Resolve(t, p);
    Attach(t, p, Copy(m, rest).(kids := map[]))
  }

  /** mount(NULL, path, NULL, MS_REC | MS_PRIVATE) on a mount point */
  function MadePrivate(t: Tree, p: Path): Tree {
    Edited(t, p, Privatize)
  }

  /** A new file system at a path; it is shared if the mount it lands on is. */
  function NewMount(t: Tree, p: Path, i: nat): Tree {
    Attach(t, p, Mount(Dentry(Fresh(i), []), Resolve(t, p).0.shared, false, map[]))
  }

  /** The mount on which the topmost mount at a path sits. */
  function ParentOf(t: Tree, p: Path): Tree {
    match FirstHit(t, p, 0)
    case Stay => t
    case Cross(k) =>
      var kid := t.kids[p[..k]];
      if FirstHit(kid, p[k..], 0) == Stay then t else ParentOf(kid, p[k..])
  }

  /** What pivot_root asks of its two arguments inside the tree. (It also asks something of the
      mount that the process root sits on, which lies outside.) */
  predicate PivotAllowed(t: Tree, newRoot: Path, putOld: Path) {
    && newRoot != []                           // not the current root
    && IsMountPoint(t, newRoot)
    && newRoot <= putOld
    && !ParentOf(t, newRoot).shared
    && !Resolve(t, putOld).0.shared
  }

  // ---- how walks compose ----

  lemma FirstHitUnique(t: Tree, p: Path, from: nat, k: nat)
    requires from <= k <= |p| && Hit(t, p, k) && forall j | from <= j < k :: !Hit(t, p, j)
    ensures FirstHit(t, p, from) == Cross(k)
  {
  }

  lemma NoHit(t: Tree, p: Path, from: nat)
    requires from <= |p| && forall j | from <= j <= |p| :: !Hit(t, p, j)
    ensures FirstHit(t, p, from) == Stay
  {
  }

  /** A longer path starts like the shorter one. */
  lemma HitPrefix(t: Tree, p: Path, q: Path, k: nat)
    requires p <= q && k <= |p|
    ensures Hit(t, q, k) <==> Hit(t, p, k)
  {
    assert q[..k] == p[..k];
  }

  /** Trees with the same children in the same places are crossed in the same places. */
  lemma SameKeys(t: Tree, u: Tree, p: Path, from: nat)
    requires from <= |p| && t.kids.Keys == u.kids.Keys
    ensures FirstHit(t, p, from) == FirstHit(u, p, from)
  {
    assert forall j | 0 <= j <= |p| :: Hit(u, p, j) <==> Hit(t, p, j);
    match FirstHit(t, p, from)
    case Stay => NoHit(u, p, from);
    case Cross(k) => FirstHitUnique(u, p, from, k);
  }

  // ---- private mounts ----

  ghost predicate AllPrivate(t: Tree) {
    !t.shared && !t.unbindable && forall k | k in t.kids :: AllPrivate(t.kids[k])
  }

  /** Nothing in a mount is unbindable. */
  ghost predicate AllBindable(t: Tree) {
    forall k | k in t.kids :: !t.kids[k].unbindable && AllBindable(t.kids[k])
  }

  lemma {:induction false} PrivateIsBindable(t: Tree)
    requires AllPrivate(t)
    ensures AllBindable(t)
  {
    forall k | k in t.kids ensures !t.kids[k].unbindable && AllBindable(t.kids[k]) {
      PrivateIsBindable(t.kids[k]);
    }
  }

  lemma {:induction false} BindableWhole(t: Tree)
    requires AllBindable(t)
    ensures Bindable(t) == t
  {
    forall k | k in t.kids ensures !t.kids[k].unbindable && Bindable(t.kids[k]) == t.kids[k] {
      BindableWhole(t.kids[k]);
    }
    assert Bindable(t).kids == t.kids;
  }

  lemma {:induction false} PrivatizedIsPrivate(t: Tree)
    ensures AllPrivate(Privatized(t)) && Privatized(t).kids.Keys == t.kids.Keys
  {
    forall k | k in t.kids ensures AllPrivate(Privatized(t.kids[k])) {
      PrivatizedIsPrivate(t.kids[k]);
    }
  }

  lemma {:induction false} PrivatizedLooksTheSame(t: Tree, p: Path)
    ensures View(Privatized(t), p) == View(t, p)
  {
    PrivatizedIsPrivate(t);
    SameKeys(t, Privatized(t), p, 0);
    match FirstHit(t, p, 0)
    case Stay =>
    case Cross(k) => PrivatizedLooksTheSame(t.kids[p[..k]], p[k..]);
  }

  /** Changing propagation changes no path. */
  lemma {:induction false} MadePrivateLooksTheSame(t: Tree, p: Path, q: Path)
    ensures View(MadePrivate(t, p), q) == View(t, q)
  {
    match FirstHit(t, p, 0)
    case Stay => PrivatizedLooksTheSame(t, q);
    case Cross(k) =>
      var t2 := MadePrivate(t, p);
      assert t2.kids.Keys == t.kids.Keys;
      SameKeys(t, t2, q, 0);
      match FirstHit(t, q, 0) {
        case Stay =>
        case Cross(j) =>
          if q[..j] == p[..k] {
            MadePrivateLooksTheSame(t.kids[p[..k]], p[k..], q[j..]);
          }
      }
  }

  // ---- mounting ----

  /** A longer path crosses where a shorter one did. */
  lemma FirstHitLonger(t: Tree, p: Path, q: Path, k: nat)
    requires p <= q && FirstHit(t, p, 0) == Cross(k)
    ensures FirstHit(t, q, 0) == Cross(k)
  {
    forall j | 0 <= j < k ensures !Hit(t, q, j) { HitPrefix(t, p, q, j); }
    HitPrefix(t, p, q, k);
    FirstHitUnique(t, q, 0, k);
  }

  lemma PrefixBehind(p: Path, q: Path, k: nat)
    requires k <= |p| && k <= |q| && p[..k] == q[..k]
    ensures p <= q <==> p[k..] <= q[k..]
    ensures p <= q ==> q[k..][|p[k..]|..] == q[|p|..]
  {
    assert p == p[..k] + p[k..] && q == q[..k] + q[k..];
  }

  /** What a walk of q meets after something is mounted at p: the new mount if p is a prefix
      of q, the old one otherwise. */
  lemma {:induction false} AttachView(t: Tree, p: Path, x: Tree, q: Path)
    ensures View(Attach(t, p, x), q) == if p <= q then View(x, q[|p|..]) else View(t, q)
  {
    var t2 := Attach(t, p, x);
    match FirstHit(t, p, 0) {
      case Stay =>
        AttachHere(t, p, x, q);
      case Cross(k) =>
        assert t2.kids.Keys == t.kids.Keys;
        SameKeys(t, t2, q, 0);
        var key := p[..k];
        if p <= q { FirstHitLonger(t, p, q, k); }
        match FirstHit(t, q, 0) {
          case Stay =>
          case Cross(j) =>
            if q[..j] == key {
              AttachView(t.kids[key], p[k..], x, q[k..]);
              PrefixBehind(p, q, k);
            }
        }
    }
  }

  lemma AttachHere(t: Tree, p: Path, x: Tree, q: Path)
    requires FirstHit(t, p, 0) == Stay
    ensures View(t.(kids := t.kids[p := x]), q) == if p <= q then View(x, q[|p|..]) else View(t, q)
  {
    var t2 := t.(kids := t.kids[p := x]);
    if p <= q {
      forall j | 0 <= j < |p| ensures !Hit(t2, q, j) {
        HitPrefix(t, p, q, j);
        assert |q[..j]| != |p|;
      }
      assert q[..|p|] == p;
      FirstHitUnique(t2, q, 0, |p|);
    } else {
      forall j | 0 <= j <= |q| ensures Hit(t2, q, j) <==> Hit(t, q, j) {
        assert q[..j] != p;
      }
      match FirstHit(t, q, 0) {
        case Stay => NoHit(t2, q, 0);
        case Cross(k) => FirstHitUnique(t2, q, 0, k);
      }
    }
  }

  // ---- walking on from a resolved place ----

  lemma FirstHitExtends(t: Tree, p: Path, r: Path)
    ensures FirstHit(t, p, 0).Cross? ==> FirstHit(t, p + r, 0) == FirstHit(t, p, 0)
    ensures FirstHit(t, p, 0).Stay? && FirstHit(t, p + r, 0).Cross? ==> FirstHit(t, p + r, 0).k > |p|
  {
    assert p <= p + r;
    forall j | 0 <= j <= |p| ensures Hit(t, p + r, j) <==> Hit(t, p, j) { HitPrefix(t, p, p + r, j); }
    if FirstHit(t, p, 0).Cross? {
      FirstHitUnique(t, p + r, 0, FirstHit(t, p, 0).k);
    }
  }

  lemma {:induction false} ResolveOn(t: Tree, p: Path, r: Path)
    ensures var (m, rest) := Resolve(t, p);
            Resolve(t, p + r) == Resolve(m, rest + r)
  {
    FirstHitExtends(t, p, r);
    match FirstHit(t, p, 0)
    case Stay =>
    case Cross(k) =>
      assert (p + r)[..k] == p[..k] && (p + r)[k..] == p[k..] + r;
      ResolveOn(t.kids[p[..k]], p[k..], r);
  }

  lemma ViewOn(t: Tree, p: Path, r: Path)
    ensures var (m, rest) := Resolve(t, p);
            View(t, p + r) == View(m, rest + r)
  {
    ResolveOn(t, p, r);
  }

  lemma ResolvedStays(t: Tree, p: Path)
    ensures FirstHit(Resolve(t, p).0, Resolve(t, p).1, 0) == Stay
  {
    NoHit(Resolve(t, p).0, Resolve(t, p).1, 0);
  }

  // ---- a recursive bind of a place onto itself is invisible ----

  lemma CopyHit(m: Tree, rest: Path, r: Path, j: nat)
    requires j <= |r|
    ensures Hit(Copy(m, rest), r, j) <==> Hit(m, rest + r, |rest| + j)
  {
    assert (rest + r)[..|rest| + j] == rest + r[..j];
  }

  lemma CopyFirstHit(m: Tree, rest: Path, r: Path)
    requires FirstHit(m, rest, 0) == Stay
    ensures FirstHit(Copy(m, rest), r, 0) ==
            match FirstHit(m, rest + r, 0)
            case Stay => Stay
            case Cross(k) => if k < |rest| then Stay else Cross(k - |rest|)
    ensures FirstHit(m, rest + r, 0).Cross? ==> FirstHit(m, rest + r, 0).k > |rest|
  {
    FirstHitExtends(m, rest, r);
    var c := Copy(m, rest);
    match FirstHit(m, rest + r, 0)
    case Stay =>
      forall j | 0 <= j <= |r| ensures !Hit(c, r, j) { CopyHit(m, rest, r, j); }
      NoHit(c, r, 0);
    case Cross(k) =>
      forall j | 0 <= j < k - |rest| ensures !Hit(c, r, j) { CopyHit(m, rest, r, j); }
      CopyHit(m, rest, r, k - |rest|);
      FirstHitUnique(c, r, 0, k - |rest|);
  }

  lemma CopyView(m: Tree, rest: Path, r: Path)
    requires FirstHit(m, rest, 0) == Stay
    ensures View(Copy(m, rest), r) == View(m, rest + r)
  {
    CopyFirstHit(m, rest, r);
    var hit := FirstHit(m, rest + r, 0);
    if hit.Stay? {
      CopyStays(m, rest, Copy(m, rest), r);
    } else {
      CopyCrosses(m, rest, r, hit.k);
    }
  }

  lemma CopyStays(m: Tree, rest: Path, c: Tree, r: Path)
    requires FirstHit(m, rest + r, 0) == Stay && FirstHit(c, r, 0) == Stay
    requires c.at == Dentry(m.at.fs, m.at.dir + rest)
    ensures View(c, r) == View(m, rest + r)
  {
    assert (m.at.dir + rest) + r == m.at.dir + (rest + r);
  }

  lemma CopyCrosses(m: Tree, rest: Path, r: Path, k: nat)
    requires |rest| < k && FirstHit(m, rest + r, 0) == Cross(k) && FirstHit(Copy(m, rest), r, 0) == Cross(k - |rest|)
    ensures Resolve(Copy(m, rest), r) == Resolve(m, rest + r)
  {
    var c, key, tail := Copy(m, rest), (rest + r)[..k], (rest + r)[k..];
    assert key == rest + r[..k - |rest|] && tail == r[k - |rest|..];
    var kid := m.kids[key];
    assert c.kids[r[..k - |rest|]] == kid;
    assert Resolve(c, r) == Resolve(kid, tail);
  }

  lemma {:induction false} CopyStandsIn(t: Tree, p: Path, r: Path)
    ensures View(Copy(Resolve(t, p).0, Resolve(t, p).1), r) == View(t, p + r)
  {
    ResolvedStays(t, p);
    CopyView(Resolve(t, p).0, Resolve(t, p).1, r);
    ViewOn(t, p, r);
  }

  /** A mount that shows what was there before changes no view. */
  lemma StandInView(t: Tree, p: Path, x: Tree, q: Path)
    requires forall r :: View(x, r) == View(t, p + r)
    ensures View(Attach(t, p, x), q) == View(t, q)
  {
    AttachView(t, p, x, q);
    if p <= q {
      assert q == p + q[|p|..];
      assert View(x, q[|p|..]) == View(t, p + q[|p|..]);
    }
  }

  /** A recursive self-bind changes no path if nothing below is unbindable. */
  lemma SelfBindLooksTheSame(t: Tree, p: Path, q: Path)
    requires AllBindable(Copy(Resolve(t, p).0, Resolve(t, p).1))
    ensures View(SelfBind(t, p), q) == View(t, q)
  {
    var x := Copy(Resolve(t, p).0, Resolve(t, p).1);
    BindableWhole(x);
    forall r ensures View(x, r) == View(t, p + r) { CopyStandsIn(t, p, r); }
    StandInView(t, p, x, q);
  }

  /** It never changes what lies elsewhere, nor the path itself. */
  lemma SelfBindElsewhere(t: Tree, p: Path, q: Path)
    requires !(p < q)
    ensures View(SelfBind(t, p), q) == View(t, q)
  {
    var (m, rest) := Resolve(t, p);
    AttachView(t, p, Bindable(Copy(m, rest)), q);
    if p == q {
      assert q[|p|..] == [];
      ResolvedStays(t, p);
      CopyFirstHit(m, rest, []);
      assert rest + [] == rest;
      BindableTop(Copy(m, rest));
    }
  }

  lemma BindableTop(t: Tree)
    requires FirstHit(t, [], 0) == Stay
    ensures View(Bindable(t), []) == t.at
  {
    var x := Bindable(t);
    assert !Hit(x, [], 0);
    NoHit(x, [], 0);
    assert t.at.dir + [] == t.at.dir;
  }

  /** Where an unbindable mount was the first on the way below, its place shows the directory
      under it afterwards. */
  lemma SelfBindHidesUnbindable(t: Tree, p: Path, r: Path)
    requires var (m, rest) := Resolve(t, p); IsFirstUnbindable(Copy(m, rest), r)
    ensures var (m, rest) := Resolve(t, p);
            View(SelfBind(t, p), p + r) == Dentry(m.at.fs, m.at.dir + rest + r)
  {
    var (m, rest) := Resolve(t, p);
    AttachView(t, p, Bindable(Copy(m, rest)), p + r);
    assert (p + r)[|p|..] == r;
    BindableHides(Copy(m, rest), r);
  }

  predicate IsFirstUnbindable(t: Tree, r: Path) {
    r in t.kids && t.kids[r].unbindable && forall j | 0 <= j < |r| :: r[..j] !in t.kids
  }

  lemma BindableHides(t: Tree, r: Path)
    requires IsFirstUnbindable(t, r)
    ensures View(Bindable(t), r) == Dentry(t.at.fs, t.at.dir + r)
  {
    var x := Bindable(t);
    assert x.kids.Keys <= t.kids.Keys && r !in x.kids && r[..|r|] == r;
    forall j | 0 <= j <= |r| ensures !Hit(x, r, j) {
      assert j < |r| ==> r[..j] !in t.kids;
    }
    NoHit(x, r, 0);
  }

  /** Without MS_REC every mount below the place is lost from sight. */
  lemma FlatSelfBindHides(t: Tree, p: Path, q: Path)
    ensures var (m, rest) := Resolve(t, p);
            View(FlatSelfBind(t, p), p + q) == Dentry(m.at.fs, m.at.dir + rest + q)
  {
    var (m, rest) := Resolve(t, p);
    var flat := Copy(m, rest).(kids := map[]);
    AttachView(t, p, flat, p + q);
    assert (p + q)[|p|..] == q;
    NoHit(flat, q, 0);
  }

  lemma CopyWhole(m: Tree)
    ensures Copy(m, []) == m
  {
    var c := Copy(m, []);
    assert m.at.dir + [] == m.at.dir;
    assert forall q: Path :: [] + q == q;
    assert c.kids.Keys == m.kids.Keys;
    assert forall q | q in c.kids :: c.kids[q] == m.kids[q];
    assert c.kids == m.kids;
  }

  // ---- attaching and detaching ----

  lemma AttachHits(t: Tree, p: Path, x: Tree)
    ensures FirstHit(t, p, 0).Stay? ==> FirstHit(Attach(t, p, x), p, 0) == Cross(|p|)
    ensures FirstHit(t, p, 0).Cross? ==> FirstHit(Attach(t, p, x), p, 0) == FirstHit(t, p, 0)
  {
    var t2 := Attach(t, p, x);
    match FirstHit(t, p, 0)
    case Stay =>
      assert p[..|p|] == p;
      forall j | 0 <= j < |p| ensures !Hit(t2, p, j) { assert |p[..j]| != |p|; assert !Hit(t, p, j); }
      FirstHitUnique(t2, p, 0, |p|);
    case Cross(k) =>
      assert t2.kids.Keys == t.kids.Keys;
      SameKeys(t, t2, p, 0);
  }

  /** The new mount is on top, and sits on the mount the path used to end in. */
  lemma {:induction false} AttachTops(t: Tree, p: Path, x: Tree)
    requires FirstHit(x, [], 0) == Stay
    ensures Resolve(Attach(t, p, x), p) == (x, [])
    ensures ParentOf(Attach(t, p, x), p).shared == Resolve(t, p).0.shared
  {
    AttachHits(t, p, x);
    match FirstHit(t, p, 0)
    case Stay => assert p[|p|..] == [] && p[..|p|] == p;
    case Cross(k) =>
      AttachTops(t.kids[p[..k]], p[k..], x);
      AttachHits(t.kids[p[..k]], p[k..], x);
  }

  /** Unmounting takes back exactly the last mount. */
  lemma {:induction false} DetachUndoesAttach(t: Tree, p: Path, x: Tree)
    requires FirstHit(x, [], 0) == Stay
    ensures Detach(Attach(t, p, x), p) == t
  {
    var t2 := Attach(t, p, x);
    AttachHits(t, p, x);
    match FirstHit(t, p, 0)
    case Stay =>
      assert p[|p|..] == [] && p[..|p|] == p;
      assert !Hit(t, p, |p|);
      assert t2.kids - {p} == t.kids;
    case Cross(k) =>
      var key := p[..k];
      var kid := t.kids[key];
      AttachHits(kid, p[k..], x);
      DetachUndoesAttach(kid, p[k..], x);
      assert t2.kids[key := kid] == t.kids;
      if k == |p| {
        assert p[k..] == [];
      }
  }

  /** Unmounting where a stack of mounts was attached takes the topmost of the stack only. */
  lemma {:induction false} DetachTakesTopmost(t: Tree, p: Path, x: Tree)
    requires FirstHit(x, [], 0) != Stay
    ensures Detach(Attach(t, p, x), p) == Attach(t, p, Detach(x, []))
  {
    AttachHits(t, p, x);
    match FirstHit(t, p, 0)
    case Stay =>
      assert p[..|p|] == p && p[|p|..] == [];
      var t2 := Attach(t, p, x);
      assert Detach(t2, p) == t2.(kids := t2.kids[p := Detach(x, [])]);
    case Cross(k) =>
      DetachTakesTopmost(t.kids[p[..k]], p[k..], x);
      StackedIsNotTop(t.kids[p[..k]], p[k..], x);
  }

  lemma StackedIsNotTop(t: Tree, p: Path, x: Tree)
    requires FirstHit(x, [], 0) != Stay
    ensures p == [] ==> FirstHit(Attach(t, p, x), [], 0) != Stay
  {
    AttachHits(t, p, x);
  }

  /** A path something was attached at is a mount point. */
  lemma {:induction false} AttachedIsMountPoint(t: Tree, p: Path, x: Tree)
    ensures IsMountPoint(Attach(t, p, x), p)
  {
    AttachHits(t, p, x);
    match FirstHit(t, p, 0)
    case Stay =>
      assert p[..|p|] == p && p[|p|..] == [];
      assert Resolve(Attach(t, p, x), p) == Resolve(x, []);
      EmptyRest(x);
    case Cross(k) => AttachedIsMountPoint(t.kids[p[..k]], p[k..], x);
  }

  lemma {:induction false} EmptyRest(x: Tree)
    ensures Resolve(x, []).1 == []
  {
    match FirstHit(x, [], 0)
    case Stay =>
    case Cross(k) => EmptyRest(x.kids[[]]);
  }

  /** Mounting strictly below a mount point happens inside that mount. */
  lemma {:induction false} AttachBelow(t: Tree, p: Path, q: Path, x: Tree)
    requires IsMountPoint(t, p) && q != []
    ensures Resolve(Attach(t, p + q, x), p) == (Attach(Resolve(t, p).0, q, x), [])
  {
    var t2 := Attach(t, p + q, x);
    FirstHitExtends(t, p, q);
    match FirstHit(t, p, 0)
    case Stay =>
      assert p + q == q;
      assert !Hit(t, p, 0);
      assert [] !in t2.kids;
      NoHit(t2, [], 0);
    case Cross(k) =>
      assert (p + q)[..k] == p[..k] && (p + q)[k..] == p[k..] + q;
      assert t2.kids.Keys == t.kids.Keys;
      SameKeys(t, t2, p, 0);
      AttachBelow(t.kids[p[..k]], p[k..], q, x);
  }

  lemma {:induction false} MadePrivateAt(t: Tree, p: Path)
    requires IsMountPoint(t, p)
    ensures Resolve(MadePrivate(t, p), p) == (Privatized(Resolve(t, p).0), [])
  {
    var t2 := MadePrivate(t, p);
    match FirstHit(t, p, 0)
    case Stay =>
      PrivatizedIsPrivate(t);
      SameKeys(t, t2, p, 0);
    case Cross(k) =>
      assert t2.kids.Keys == t.kids.Keys;
      SameKeys(t, t2, p, 0);
      MadePrivateAt(t.kids[p[..k]], p[k..]);
  }

  lemma {:induction false} AttachKeepsPrivate(t: Tree, p: Path, x: Tree)
    requires AllPrivate(t) && AllPrivate(x)
    ensures AllPrivate(Attach(t, p, x))
  {
    match FirstHit(t, p, 0)
    case Stay =>
    case Cross(k) => AttachKeepsPrivate(t.kids[p[..k]], p[k..], x);
  }

  lemma {:induction false} ResolvePrivate(t: Tree, p: Path)
    requires AllPrivate(t)
    ensures AllPrivate(Resolve(t, p).0)
  {
    match FirstHit(t, p, 0)
    case Stay =>
    case Cross(k) => ResolvePrivate(t.kids[p[..k]], p[k..]);
  }

  /** The root of the tree is covered only by a mount at the root itself. */
  lemma RootUncovered(t: Tree, p: Path, e: Edit)
    requires [] !in t.kids && (p != [] || e == Privatize)
    ensures [] !in Edited(t, p, e).kids
  {
    match FirstHit(t, p, 0)
    case Stay => if e == Privatize { PrivatizedIsPrivate(t); }
    case Cross(k) =>
      assert p[..k] in t.kids;
  }
}
