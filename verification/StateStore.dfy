/**
 nk_state_save, nk_state_load, nk_state_delete and nk_state_exists on a directory tree
 (src/common/state.c), refining a map from ids to records.

 Ids are single path components. The configured state directory may be written with empty
 components, "." and "..". With ".." the way to it may break off, and come back, while the files
 stay where they are: so what is stored and what the commands find are told apart.
 */
module StateStore {
  import opened Records
  import opened Disk
  import opened MakeDirs

  const STATE_FILE := "state.json"

  datatype WriteOutcome = Complete | Cut(reported: bool)

  /** What the host decides during one save. */
  datatype SaveIO = SaveIO(denied: set<Path>, openRefused: bool, write: WriteOutcome)

  function OutcomeOf(w: WriteOutcome): SaveOutcome {
    match w
    case Complete => SaveOk
    case Cut(reported) => if reported then TornReported else TornSilent
  }

  // ---- the abstraction ----

  function StateFile(dir: Path, id: string): Path {
    dir + [id, STATE_FILE]
  }

  predicate IsStateFile(t: Tree, dir: Path, id: string) {
    StateFile(dir, id) in t && t[StateFile(dir, id)].Regular?
  }

  function Ids(t: Tree, dir: Path): (ids: set<string>)
    ensures forall id :: id in ids <==> IsStateFile(t, dir, id)
  {
    var files := set p | p in t && |p| == |dir| + 2 && dir <= p && p[|dir| + 1] == STATE_FILE && t[p].Regular?;
    var ids := set p | p in files :: p[|dir|];
    assert forall p | p in files :: p == StateFile(dir, p[|dir|]);
    assert forall id | IsStateFile(t, dir, id) :: StateFile(dir, id) in files && StateFile(dir, id)[|dir|] == id;
    ids
  }

  function ContentsOf(text: Text): Contents {
    match text
    case Unparseable => Torn
    case Object(o) => Parsed(Decode(o))
  }

  /** The store that the commands see in a tree. */
  function Abs(t: Tree, dir: Path): Store {
    map id | id in Ids(t, dir) :: ContentsOf(t[StateFile(dir, id)].text)
  }

  // ---- paths of the store ----

  lemma {:induction false} PlaceIsWalkable(t: Tree, cs: seq<string>)
    requires WellFormed(t) && ".." !in cs
    requires Place(cs) in t && t[Place(cs)] == Dir
    ensures Walk(t, cs) == At(Place(cs))
  {
    if cs != [] {
      var init, last := cs[..|cs| - 1], cs[|cs| - 1];
      assert last in cs && forall c | c in init :: c in cs;
      if last != "." {
        assert Parent(Place(cs)) == Place(init);
      }
      PlaceIsWalkable(t, init);
    }
  }

  lemma WalkSnoc(t: Tree, cs: seq<string>, c: string)
    requires IsComponent(c) && WellFormed(t)
    ensures Walk(t, cs + [c]).At? <==> Place(cs) in t && t[Place(cs)] == Dir && Walk(t, cs).At?
    ensures Walk(t, cs + [c]).At? ==> Walk(t, cs + [c]).p == Place(cs) + [c]
    ensures Walk(t, cs).At? && Place(cs) + [c] in t ==> Walk(t, cs + [c]).At?
    ensures Place(cs + [c]) == Place(cs) + [c]
  {
    assert (cs + [c])[..|cs|] == cs;
    WalkGoesToPlace(t, cs);
    var p := Place(cs) + [c];
    if p in t {
      assert Parent(p) == Place(cs);
    }
  }

  /** Writing a file blocks no way that could be followed. */
  lemma {:induction false} WalkPastFile(t: Tree, p: Path, text: Text, cs: seq<string>)
    requires Walk(t, cs).At? && (p in t ==> t[p].Regular?)
    ensures Walk(t[p := Regular(text)], cs) == Walk(t, cs)
  {
    if cs != [] { WalkPastFile(t, p, text, cs[..|cs| - 1]); }
  }

  lemma StateFileName()
    ensures IsComponent(STATE_FILE)
  {
    assert forall i | 0 <= i < |STATE_FILE| :: STATE_FILE[i] != '/';
  }

  // ---- effects on the tree ----

  /** Nothing is lost, and what is new are directories. */
  ghost predicate OnlyAdds(t: Tree, u: Tree) {
    Extends(t, u) && forall p | p in u && p !in t :: u[p] == Dir
  }

  lemma AddDirsAbs(t: Tree, u: Tree, dir: Path)
    requires OnlyAdds(t, u)
    ensures Abs(u, dir) == Abs(t, dir)
  {
    assert forall id :: IsStateFile(u, dir, id) <==> IsStateFile(t, dir, id);
  }

  lemma WriteFileAbs(t: Tree, dir: Path, id: string, text: Text)
    ensures Abs(t[StateFile(dir, id) := Regular(text)], dir) == Abs(t, dir)[id := ContentsOf(text)]
  {
    var u := t[StateFile(dir, id) := Regular(text)];
    assert forall k | k != id :: StateFile(dir, k) != StateFile(dir, id) by {
      forall k | k != id ensures StateFile(dir, k) != StateFile(dir, id) {
        assert StateFile(dir, k)[|dir|] == k && StateFile(dir, id)[|dir|] == id;
      }
    }
    assert forall k | k != id :: IsStateFile(u, dir, k) <==> IsStateFile(t, dir, k);
    assert IsStateFile(u, dir, id);
  }

  lemma UnlinkAbs(t: Tree, dir: Path, id: string)
    ensures Abs(t - {StateFile(dir, id)}, dir) == Abs(t, dir) - {id}
  {
    var u := t - {StateFile(dir, id)};
    forall k | k != id ensures IsStateFile(u, dir, k) <==> IsStateFile(t, dir, k) {
      assert StateFile(dir, k)[|dir|] == k && StateFile(dir, id)[|dir|] == id;
    }
  }

  lemma RmdirAbs(t: Tree, dir: Path, p: Path)
    requires p in t && t[p] == Dir
    ensures Abs(t - {p}, dir) == Abs(t, dir)
  {
    assert forall id :: IsStateFile(t - {p}, dir, id) <==> IsStateFile(t, dir, id);
  }

  lemma RmdirWellFormed(t: Tree, p: Path)
    requires WellFormed(t) && p != [] && forall k | k in t :: !(p < k)
    ensures WellFormed(t - {p})
  {
    forall k | k in t - {p} && k != [] ensures Parent(k) in t - {p} {
      assert Parent(k) < k;
    }
  }

  /** What is in the file when it is closed. */
  function TextOf(c: Container, w: WriteOutcome): Text
    requires c.id.Some?
  {
    if w == Complete then Object(Encode(c)) else Unparseable
  }

  lemma SavedIsWrite(store: Store, c: Container, w: WriteOutcome)
    requires c.id.Some?
    ensures Saved(store, c, OutcomeOf(w)) ==
            (store[c.id.value := ContentsOf(TextOf(c, w))], !(w.Cut? && w.reported))
  {
    RoundTrip(c);
  }

  // ---- a state directory that exists is left alone by mkdir_p ----

  lemma MakeExisting(t: Tree, s: string, denied: set<Path>)
    requires s != "" && s != "/" && |s| < PATH_MAX && IsDir(t, s)
    ensures MakeAll(t, s, denied) == (t, true)
  {
    var tmp := Stripped(s);
    StrippedComponents(s);
    forall j | 1 <= j <= |tmp| && IsCut(tmp, j) ensures Exists(t, tmp[..j]) {
      if j < |tmp| {
        CutComponents(tmp, j);
        if Components(tmp[..j]) != Components(tmp) {
          WalkPassesDirs(t, Components(tmp), Components(tmp[..j]));
        }
      } else {
        assert tmp[..j] == tmp;
      }
    }
    MakeFromAgain(t, tmp, 1, denied);
  }

  // ---- what is found, and what is stored ----

  /** Saving is saving what is found, exactly if the way was open before, or is not even now, or
      nothing was stored but perhaps the record that is overwritten. */
  lemma FoundAfterSave(stored: Store, before: bool, after: bool, c: Container, o: SaveOutcome)
    requires (before ==> after) && (o != OpenFails ==> after || c.id.None?)
    ensures var left := Saved(stored, c, o).0;
            (if after then left else map[], Saved(stored, c, o).1) == Saved(if before then stored else map[], c, o) <==>
              || before || !after || stored == map[]
              || (c.id.Some? && o != OpenFails && stored.Keys <= {c.id.value})
  {
    if !before && after && c.id.Some? && o != OpenFails {
      var id := c.id.value;
      var left, only := Saved(stored, c, o).0, Saved(map[], c, o).0;
      if stored.Keys <= {id} {
        assert left.Keys == only.Keys == {id} && left[id] == only[id];
        assert left == only;
      } else {
        var k :| k in stored.Keys && k != id;
        assert k in left && k !in only;
      }
    }
  }

  /** Deleting is deleting from what is found, exactly if the way was not closed or nothing is left. */
  lemma FoundAfterDelete(stored: Store, before: bool, after: bool, id: string, ok: bool)
    requires ok ==> before
    requires after ==> before
    ensures var left := if ok then stored - {id} else stored;
            var found := if before then stored else map[];
            (if after then left else map[]) == (if ok then found - {id} else found) <==>
              !(before && !after && left != map[])
  {
  }

  // ---- when a way breaks off ----

  /** A walk along the components leads through the place before it is at its end. */
  predicate PassesThrough(cs: seq<string>, p: Path) {
    exists k :: 0 <= k < |cs| && Place(cs[..k]) == p
  }

  lemma PassesSnoc(cs: seq<string>, p: Path)
    requires cs != []
    ensures PassesThrough(cs, p) <==> PassesThrough(cs[..|cs| - 1], p) || Place(cs[..|cs| - 1]) == p
  {
    var init := cs[..|cs| - 1];
    assert forall k | 0 <= k <= |init| :: init[..k] == cs[..k];
    assert init[..|init|] == init;
    if PassesThrough(init, p) {
      var k :| 0 <= k < |init| && Place(init[..k]) == p;
      assert Place(cs[..k]) == p;
    }
    if PassesThrough(cs, p) {
      var k :| 0 <= k < |cs| && Place(cs[..k]) == p;
      assert k < |init| ==> Place(init[..k]) == p;
    }
  }

  /** Taking a directory away closes exactly the ways that lead through it. */
  lemma {:induction false} WalkWithout(t: Tree, p: Path, cs: seq<string>)
    requires Walk(t, cs).At?
    ensures Walk(t - {p}, cs).At? <==> !PassesThrough(cs, p)
  {
    if cs != [] {
      var init := cs[..|cs| - 1];
      WalkWithout(t, p, init);
      PassesSnoc(cs, p);
      WalkGoesToPlace(t, init);
      WalkGoesToPlace(t - {p}, init);
    }
  }

  /** Taking a file away closes none. */
  lemma {:induction false} WalkWithoutFile(t: Tree, p: Path, cs: seq<string>)
    requires Walk(t, cs).At? && (p in t ==> t[p].Regular?)
    ensures Walk(t - {p}, cs) == Walk(t, cs)
  {
    if cs != [] { WalkWithoutFile(t, p, cs[..|cs| - 1]); }
  }

  lemma MadeIsReached(t: Tree, path: string, denied: set<Path>)
    requires WellFormed(t) && MakeAll(t, path, denied).1
    ensures Walk(MakeAll(t, path, denied).0, Components(path)).At?
  {
    MakeAllMakes(t, path, denied);
    StrippedComponents(path);
    assert Stripped(path)[..|Stripped(path)|] == Stripped(path) && IsCut(Stripped(path), |Stripped(path)|);
  }

  // ---- the operations ----

  class StateDirectory {
    const stateDir: string
    const host: Host

    constructor (stateDir: string, host: Host)
      ensures this.stateDir == stateDir && this.host == host
    {
      this.stateDir, this.host := stateDir, host;
    }

    ghost predicate Valid()
      reads host
    {
      WellFormed(host.tree) && NUL !in stateDir
    }

    function Root(): Path {
      Place(Components(stateDir))
    }

    /** The path of the state directory can be followed to its end. */
    predicate Reaches()
      reads host
    {
      Walk(host.tree, Components(stateDir)).At?
    }

    /** The records that lie in the state directory. */
    ghost function Stored(): Store
      reads host
    {
      Abs(host.tree, Root())
    }

    /** The records that the commands find. */
    ghost function Records(): Store
      reads host
    {
      if Reaches() then Stored() else map[]
    }

    /** Without ".." in its path, all that is stored is found. */
    lemma StraightPathFindsAll()
      requires Valid() && ".." !in Components(stateDir)
      ensures Records() == Stored()
    {
      if !Reaches() && Stored() != map[] {
        var id :| id in Stored();
        var dir := Root() + [id];
        assert Parent(StateFile(Root(), id)) == dir && dir in host.tree;
        assert Parent(dir) == Root();
        PlaceIsWalkable(host.tree, Components(stateDir));
      }
    }

    function ContainerDir(id: string): string {
      stateDir + "/" + id
    }

    function StatePath(id: string): string {
      stateDir + "/" + id + "/" + STATE_FILE
    }

    /** The paths the builders make lead to the container's place below the state directory. */
    lemma PathsLead(id: string)
      requires Valid() && IsComponent(id)
      ensures Components(ContainerDir(id)) == Components(stateDir) + [id]
      ensures Components(StatePath(id)) == Components(stateDir) + [id, "state.json"]
      ensures var w := Walk(host.tree, Components(ContainerDir(id)));
              (w.At? ==> w.p == Root() + [id] && Reaches()) && (Reaches() && Root() + [id] in host.tree ==> w.At?)
      ensures var w := Walk(host.tree, Components(StatePath(id)));
              && (w.At? ==> w.p == StateFile(Root(), id) && Reaches())
              && (w.At? ==> Root() + [id] in host.tree && host.tree[Root() + [id]] == Dir)
              && (Reaches() && StateFile(Root(), id) in host.tree ==> w.At?)
              && (IsDir(host.tree, ContainerDir(id)) ==> w.At?)
    {
      var cs := Components(stateDir);
      AppendComponent(stateDir, id);
      StateFileName();
      AppendComponent(ContainerDir(id), STATE_FILE);
      WalkSnoc(host.tree, cs, id);
      WalkSnoc(host.tree, cs + [id], STATE_FILE);
      assert Root() + [id] + [STATE_FILE] == StateFile(Root(), id);
      assert StateFile(Root(), id) in host.tree ==> Parent(StateFile(Root(), id)) == Root() + [id];
    }

    // -- ensure_container_dir --

    /** mkdir_p makes a way to the state directory, or leaves one open. */
    predicate OpensWay(t: Tree, denied: set<Path>) {
      Walk(MakeAll(t, stateDir, denied).0, Components(stateDir)).At?
    }

    /** The state directory, by mkdir_p. */
    method EnsureStateDir(denied: set<Path>) returns (ok: bool)
      requires Valid()
      modifies host
      ensures Valid() && OnlyAdds(old(host.tree), host.tree)
      ensures (old(Reaches()) ==> Reaches()) && (ok ==> Reaches())
      ensures Reaches() <==> OpensWay(old(host.tree), denied)
      ensures IsDir(old(host.tree), stateDir) && stateDir != "/" && |stateDir| < PATH_MAX ==>
                ok && host.tree == old(host.tree)
    {
      ghost var before := host.tree;
      if stateDir != "" && stateDir != "/" && |stateDir| < PATH_MAX {
        MakeAllMakes(before, stateDir, denied);
        if IsDir(before, stateDir) { MakeExisting(before, stateDir, denied); }
      }
      if Reaches() { StaysReached(before, denied); }
      ok := host.MkdirP(stateDir, denied);
      if ok { MadeIsReached(before, stateDir, denied); }
    }

    method EnsureContainerDir(id: string, denied: set<Path>) returns (ok: bool)
      requires Valid() && IsComponent(id)
      modifies host
      ensures Valid() && OnlyAdds(old(host.tree), host.tree)
      ensures ok ==> IsDir(host.tree, ContainerDir(id)) && Reaches()
      ensures (old(Reaches()) ==> Reaches()) && (Reaches() <==> OpensWay(old(host.tree), denied))
      ensures Usable(old(host.tree), id) && denied == {} ==> ok
      ensures Usable(old(host.tree), id) ==>
                host.tree == old(host.tree) || host.tree == old(host.tree)[Root() + [id] := Dir]
    {
      var made := EnsureStateDir(denied);
      if !made { return false; }
      ok := EnsureDir(id, denied);
    }

    /** The container's own directory, where the state directory is reached. */
    method EnsureDir(id: string, denied: set<Path>) returns (ok: bool)
      requires Valid() && IsComponent(id) && Reaches()
      modifies host
      ensures Valid() && OnlyAdds(old(host.tree), host.tree) && Reaches()
      ensures ok ==> IsDir(host.tree, ContainerDir(id))
      ensures host.tree == old(host.tree) || host.tree == old(host.tree)[Root() + [id] := Dir]
      ensures IsDir(old(host.tree), stateDir) && !(IsFile(old(host.tree), Root() + [id])) && denied == {} ==> ok
    {
      ghost var before := host.tree;
      PathsLead(id);
      WalkGoesToPlace(before, Components(stateDir));
      WalkSnoc(before, Components(stateDir), id);

      var dir := ContainerDir(id);
      if Exists(host.tree, dir) {
        ok := host.tree[Walk(host.tree, Components(dir)).p] == Dir;
      } else {
        MkdirKeeps(before, dir, denied);
        var r := host.MkdirCall(dir, denied);
        WalkExtends(before, host.tree, Components(stateDir));
        ok := r == NewlyMade;
      }
    }

    /** mkdir_p takes no way away. */
    lemma StaysReached(t: Tree, denied: set<Path>)
      requires WellFormed(t) && Walk(t, Components(stateDir)).At?
      ensures Walk(MakeAll(t, stateDir, denied).0, Components(stateDir)) == Walk(t, Components(stateDir))
    {
      var t2 := MakeAll(t, stateDir, denied).0;
      if stateDir == "" || stateDir == "/" || |stateDir| >= PATH_MAX {
        MakeAllRefuses(t, stateDir, denied);
      } else {
        MakeAllMakes(t, stateDir, denied);
        WalkExtends(t, t2, Components(stateDir));
      }
    }

    /** The state directory is there, and nothing of the wrong kind is in the way. */
    predicate Usable(t: Tree, id: string) {
      && stateDir != "" && stateDir != "/" && |stateDir| < PATH_MAX
      && IsDir(t, stateDir)
      && (Root() + [id] in t ==> t[Root() + [id]] == Dir)
      && (StateFile(Root(), id) in t ==> t[StateFile(Root(), id)].Regular?)
    }

    // -- nk_state_save --

    /** fopen "w" and what is written before the file is closed. */
    method WriteStateFile(id: string, text: Text, refused: bool) returns (written: bool)
      requires Valid() && IsComponent(id) && IsDir(host.tree, ContainerDir(id))
      modifies host
      ensures Valid()
      ensures var file := StateFile(Root(), id);
              && (written <==> !refused && !(file in old(host.tree) && old(host.tree)[file] == Dir))
              && host.tree == (if written then old(host.tree)[file := Regular(text)] else old(host.tree))
      ensures Stored() == if written then old(Stored())[id := ContentsOf(text)] else old(Stored())
      ensures Reaches()
    {
      PathsLead(id);
      var file := Walk(host.tree, Components(StatePath(id))).p;
      var isDirectory := file in host.tree && host.tree[file] == Dir;
      if isDirectory || refused { return false; }
      assert Parent(file) == Root() + [id];
      WriteFileWellFormed(host.tree, file, text);
      WriteFileAbs(host.tree, Root(), id, text);
      WalkPastFile(host.tree, file, text, Components(stateDir));
      host.tree := host.tree[file := Regular(text)];
      written := true;
    }

    /** The save as the directory sees it: it has one of four outcomes, and it is the one of the
        write unless something is in the way before it. Every other path of the tree is as before. */
    method PutRecord(c: Container, io: SaveIO) returns (ok: bool, ghost o: SaveOutcome)
      requires Valid() && (c.id.Some? ==> IsComponent(c.id.value))
      modifies host
      ensures Valid() && (Stored(), ok) == Saved(old(Stored()), c, o)
      ensures (old(Reaches()) ==> Reaches()) && (o != OpenFails ==> Reaches())
      ensures Reaches() <==> if c.id.Some? then OpensWay(old(host.tree), io.denied) else old(Reaches())
      ensures o == OpenFails || o == OutcomeOf(io.write)
      ensures c.id.Some? && Usable(old(host.tree), c.id.value) && io.denied == {} && !io.openRefused ==>
                o == OutcomeOf(io.write)
      ensures forall p | p in old(host.tree) && !(c.id.Some? && p == StateFile(Root(), c.id.value)) ::
                p in host.tree && host.tree[p] == old(host.tree)[p]
    {
      o := OpenFails;
      if c.id.None? { return false, o; }
      var id := c.id.value;

      ghost var before := host.tree;
      var ensured := EnsureContainerDir(id, io.denied);
      AddDirsAbs(before, host.tree, Root());
      if !ensured { return false, o; }
      assert |StateFile(Root(), id)| != |Root() + [id]|;

      var w := WriteStateFile(id, TextOf(c, io.write), io.openRefused);
      if !w { return false, o; }
      o := OutcomeOf(io.write);
      ok := !(io.write.Cut? && io.write.reported);
      SavedIsWrite(old(Stored()), c, io.write);
    }

    /** What is stored changes by the one record alone. What the commands find changes alike,
        exactly if it is not the case that mkdir_p opens up the way to a directory that held other
        records before. */
    method Save(c: Container, io: SaveIO) returns (ok: bool, ghost o: SaveOutcome)
      requires Valid() && (c.id.Some? ==> IsComponent(c.id.value))
      modifies host
      ensures Valid() && (Stored(), ok) == Saved(old(Stored()), c, o)
      ensures o == OpenFails || o == OutcomeOf(io.write)
      ensures c.id.Some? && Usable(old(host.tree), c.id.value) && io.denied == {} && !io.openRefused ==>
                o == OutcomeOf(io.write)
      ensures (Records(), ok) == Saved(old(Records()), c, o) <==>
                || c.id.None? || old(Reaches()) || !OpensWay(old(host.tree), io.denied) || old(Stored()) == map[]
                || (o != OpenFails && old(Stored()).Keys <= {c.id.value})
      ensures c.id.Some? ==> Records() == if OpensWay(old(host.tree), io.denied) then Stored() else map[]
      ensures forall p | p in old(host.tree) && !(c.id.Some? && p == StateFile(Root(), c.id.value)) ::
                p in host.tree && host.tree[p] == old(host.tree)[p]
    {
      ghost var stored, reached := Stored(), Reaches();
      ok, o := PutRecord(c, io);
      FoundAfterSave(stored, reached, Reaches(), c, o);
    }

    // -- nk_state_load --

    method Load(id: string, refused: bool) returns (c: Option<Container>)
      requires Valid() && IsComponent(id)
      ensures c == if refused then None else Loaded(Records(), id)
    {
      if refused { return None; }
      PathsLead(id);
      var path := StatePath(id);
      if !Exists(host.tree, path) { return None; }
      match host.tree[Walk(host.tree, Components(path)).p]
      case Dir => return None;
      case Regular(Unparseable) => return None;
      case Regular(Object(o)) => return Some(Decode(o));
    }

    // -- nk_state_exists --

    method StateExists(id: string) returns (found: bool)
      requires Valid() && IsComponent(id)
      ensures found <==> id in Records()
    {
      PathsLead(id);
      var path := StatePath(id);
      found := Exists(host.tree, path) && host.tree[Walk(host.tree, Components(path)).p].Regular?;
    }

    // -- nk_state_delete --

    /** The tree without the record, if it is unlinked. */
    function Unlinked(t: Tree, id: string, refused: bool): Tree {
      if Walk(t, Components(stateDir)).At? && IsStateFile(t, Root(), id) && !refused
      then t - {StateFile(Root(), id)} else t
    }

    /** The tree without the container's directory, if it is reached and empty. */
    function Rmdired(t: Tree, id: string, refused: bool): Tree {
      var dir := Root() + [id];
      if !refused && Walk(t, Components(stateDir)).At? && dir in t && t[dir] == Dir && IsEmpty(t, dir)
      then t - {dir} else t
    }

    method Unlink(id: string, refused: bool) returns (ok: bool)
      requires Valid() && IsComponent(id)
      modifies host
      ensures Valid()
      ensures ok <==> old(Reaches()) && IsStateFile(old(host.tree), Root(), id) && !refused
      ensures host.tree == Unlinked(old(host.tree), id, refused)
      ensures Stored() == if ok then old(Stored()) - {id} else old(Stored())
    {
      UnlinkAbs(host.tree, Root(), id);
      PathsLead(id);
      var path := StatePath(id);
      var file := Walk(host.tree, Components(path));
      ok := Exists(host.tree, path) && host.tree[file.p].Regular? && !refused;
      if ok {
        UnlinkWellFormed(host.tree, file.p);
        host.tree := host.tree - {file.p};
      }
    }

    /** rmdir takes the container's directory exactly when nothing is left in it, if permitted. */
    method Rmdir(id: string, refused: bool)
      requires Valid() && IsComponent(id)
      modifies host
      ensures Valid() && Stored() == old(Stored())
      ensures host.tree == Rmdired(old(host.tree), id, refused)
    {
      PathsLead(id);
      var dir := ContainerDir(id);
      if !refused && IsDir(host.tree, dir) {
        var p := Walk(host.tree, Components(dir)).p;
        if IsEmpty(host.tree, p) {
          RmdirAbs(host.tree, Root(), p);
          RmdirWellFormed(host.tree, p);
          host.tree := host.tree - {p};
        }
      }
    }

    /** The container's directory holds at most a state file, and the host lets both go. */
    predicate Empties(t: Tree, id: string, unlinkRefused: bool, rmdirRefused: bool) {
      var dir := Root() + [id];
      && !rmdirRefused && dir in t && t[dir] == Dir
      && forall k | k in t && dir < k :: k == StateFile(Root(), id) && t[k].Regular? && !unlinkRefused
    }

    method Remove(id: string, unlinkRefused: bool, rmdirRefused: bool) returns (ok: bool, ghost between: Tree)
      requires Valid() && IsComponent(id)
      modifies host
      ensures Valid()
      ensures ok <==> old(Reaches()) && IsStateFile(old(host.tree), Root(), id) && !unlinkRefused
      ensures Stored() == if ok then old(Stored()) - {id} else old(Stored())
      ensures between == Unlinked(old(host.tree), id, unlinkRefused) && host.tree == Rmdired(between, id, rmdirRefused)
    {
      ok := Unlink(id, unlinkRefused);
      between := host.tree;
      Rmdir(id, rmdirRefused);
    }

    /** The record goes away exactly if it is found and the unlink is permitted, and no other. What
        the commands find changes alike, exactly if it is not the case that the way to the state
        directory led through the directory that is removed, and something is left. */
    method DeleteState(id: string, unlinkRefused: bool, rmdirRefused: bool) returns (ok: bool)
      requires Valid() && IsComponent(id)
      modifies host
      ensures Valid()
      ensures ok <==> id in old(Records()) && !unlinkRefused
      ensures Stored() == if ok then old(Stored()) - {id} else old(Stored())
      ensures Records() == (if ok then old(Records()) - {id} else old(Records())) <==>
                !(old(Reaches()) && Closes(old(host.tree), id, unlinkRefused, rmdirRefused) && Stored() != map[])
      ensures Reaches() <==> old(Reaches()) && !Closes(old(host.tree), id, unlinkRefused, rmdirRefused)
      ensures forall p | p in old(host.tree) && p != StateFile(Root(), id) && p != Root() + [id] :: p in host.tree
      ensures Extends(host.tree, old(host.tree))
    {
      ghost var stored, reached := Stored(), Reaches();
      ghost var t, between := host.tree, host.tree;
      ok, between := Remove(id, unlinkRefused, rmdirRefused);
      WayAfterDelete(t, between, host.tree, id, unlinkRefused, rmdirRefused);
      FoundAfterDelete(stored, reached, Reaches(), id, ok);
    }

    /** The delete removes a directory that the way to the state directory leads through. */
    ghost predicate Closes(t: Tree, id: string, unlinkRefused: bool, rmdirRefused: bool) {
      Empties(t, id, unlinkRefused, rmdirRefused) && PassesThrough(Components(stateDir), Root() + [id])
    }

    lemma RemovedIffEmpties(t: Tree, t1: Tree, id: string, unlinkRefused: bool, rmdirRefused: bool)
      requires Walk(t, Components(stateDir)).At? && t1 == Unlinked(t, id, unlinkRefused)
      ensures Walk(t1, Components(stateDir)).At?
      ensures Rmdired(t1, id, rmdirRefused) ==
                if Empties(t, id, unlinkRefused, rmdirRefused) then t1 - {Root() + [id]} else t1
    {
      var dir, file := Root() + [id], StateFile(Root(), id);
      assert dir < file;
      if t1 != t { WalkWithoutFile(t, file, Components(stateDir)); }
      if Empties(t, id, unlinkRefused, rmdirRefused) {
        assert IsEmpty(t1, dir);
      } else if !rmdirRefused && dir in t && t[dir] == Dir {
        var k :| k in t && dir < k && !(k == file && t[k].Regular? && !unlinkRefused);
        assert k in t1;
      }
    }

    lemma WayAfterDelete(t: Tree, t1: Tree, t2: Tree, id: string, unlinkRefused: bool, rmdirRefused: bool)
      requires t1 == Unlinked(t, id, unlinkRefused) && t2 == Rmdired(t1, id, rmdirRefused)
      ensures var cs := Components(stateDir);
              Walk(t2, cs).At? <==> Walk(t, cs).At? && !Closes(t, id, unlinkRefused, rmdirRefused)
      ensures Extends(t2, t)
      ensures forall p | p in t && p != StateFile(Root(), id) && p != Root() + [id] :: p in t2
    {
      var cs := Components(stateDir);
      if Walk(t, cs).At? {
        RemovedIffEmpties(t, t1, id, unlinkRefused, rmdirRefused);
        WalkWithout(t1, Root() + [id], cs);
      }
    }
  }

  // ---- a way that breaks off and comes back ----

  const DOT_DOT := "/s/x/.."

  /** Below /s an empty directory x and a directory y with a state file. */
  function TwoContainers(text: Text): Tree {
    map[[] := Dir, ["s"] := Dir, ["s", "x"] := Dir, ["s", "y"] := Dir, ["s", "y", STATE_FILE] := Regular(text)]
  }

  ghost predicate IsTwoContainers(t: Tree) {
    && WellFormed(t) && ["s"] in t && t[["s"]] == Dir
    && ["s", "x"] in t && t[["s", "x"]] == Dir && IsEmpty(t, ["s", "x"])
    && IsStateFile(t, ["s"], "y")
  }

  /** What is sure of x when it has been deleted, and of y. */
  ghost predicate IsOneContainer(t: Tree) {
    && WellFormed(t) && ["s"] in t && t[["s"]] == Dir
    && (["s", "x"] in t ==> t[["s", "x"]] == Dir)
    && IsStateFile(t, ["s"], "y")
  }

  lemma TwoContainersAre(text: Text)
    ensures IsTwoContainers(TwoContainers(text))
  {
    var t := TwoContainers(text);
    TwoContainersWellFormed(text);
    assert StateFile(["s"], "y") == ["s", "y", STATE_FILE];
    assert "x" != "y";
    assert forall k | k in t && |k| > 2 :: k[1] == "y";
  }

  lemma TwoContainersWellFormed(text: Text)
    ensures WellFormed(TwoContainers(text))
  {
    var t := TwoContainers(text);
    forall k | k in t && k != [] ensures Parent(k) in t && t[Parent(k)] == Dir {
      if |k| == 1 {
        assert Parent(k) == [];
      } else if |k| == 2 {
        assert Parent(k) == ["s"];
      } else {
        assert Parent(k) == ["s", "y"];
      }
    }
  }

  lemma DotDotComponents()
    ensures Components("/s") == ["s"] && Components("/s/x") == ["s", "x"] && Components(DOT_DOT) == ["s", "x", ".."]
  {
    AppendComponent("", "s");
    AppendComponent("/s", "x");
    AppendComponent("/s/x", "..");
    assert "" + "/" + "s" == "/s" && "/s" + "/" + "x" == "/s/x" && "/s/x" + "/" + ".." == DOT_DOT;
  }

  lemma DotDotPlace()
    ensures Place(["s", "x", ".."]) == ["s"] && PassesThrough(["s", "x", ".."], ["s", "x"])
  {
    var one, two, three := ["s"], ["s", "x"], ["s", "x", ".."];
    assert one[..0] == [] && two[..1] == one && three[..2] == two;
    assert Place([]) == [];
    assert Place(one) == one;
    assert Place(two) == two;
    assert Place(three[..2]) == two;
  }

  lemma WalkDotDot(t: Tree)
    requires [] in t && ["s"] in t && t[[]] == t[["s"]] == Dir && (["s", "x"] in t ==> t[["s", "x"]] == Dir)
    ensures Walk(t, ["s"]) == At(["s"]) && Walk(t, ["s", "x"]) == At(["s", "x"])
    ensures Walk(t, ["s", "x", ".."]) == if ["s", "x"] in t then At(["s"]) else Missing
  {
    var one, two, three := ["s"], ["s", "x"], ["s", "x", ".."];
    assert one[..0] == [] && two[..1] == one && three[..2] == two;
    assert Walk(t, []) == At([]);
    assert Enter([], "s") == one && Enter(one, "x") == two && Enter(two, "..") == one;
    assert Walk(t, one) == At(one);
    assert Walk(t, two) == At(two);
  }

  /** mkdir_p makes x again on its way. */
  lemma DotDotComesBack(t: Tree)
    requires IsOneContainer(t)
    ensures Walk(MakeAll(t, DOT_DOT, {}).0, Components(DOT_DOT)).At?
  {
    DotDotMakes(t);
    DotDotComponents();
    WalkDotDot(t[["s", "x"] := Dir]);
  }

  lemma DotDotMakes(t: Tree)
    requires IsOneContainer(t)
    ensures MakeAll(t, DOT_DOT, {}) == (t[["s", "x"] := Dir], true)
  {
    var s := DOT_DOT;
    assert s[..2] == "/s" && s[..4] == "/s/x" && Stripped(s) == s;
    DotDotMkdirs(t);
    ShapedMakes(t, t[["s", "x"] := Dir], s);
  }

  lemma ShapedMakes(t: Tree, t2: Tree, s: string)
    requires IsShaped(s) && Mkdir(t, s[..2], {}) == (t, AlreadyThere) && Mkdir(t2, s, {}) == (t2, AlreadyThere)
    requires Mkdir(t, s[..4], {}).0 == t2 && Mkdir(t, s[..4], {}).1 != MkdirFailed
    ensures MakeFrom(t, s, 1, {}) == (t2, true)
  {
    MakesLast(t2, s);
    MakesSecond(t, t2, s);
    MakesFirst(t, s);
  }

  lemma DotDotMkdirs(t: Tree)
    requires WellFormed(t) && ["s"] in t && t[["s"]] == Dir && (["s", "x"] in t ==> t[["s", "x"]] == Dir)
    ensures var t2 := t[["s", "x"] := Dir];
            && Mkdir(t, "/s", {}) == (t, AlreadyThere) && Mkdir(t2, DOT_DOT, {}) == (t2, AlreadyThere)
            && Mkdir(t, "/s/x", {}).0 == t2 && Mkdir(t, "/s/x", {}).1 != MkdirFailed
  {
    DotDotComponents();
    WalkDotDot(t);
    WalkDotDot(t[["s", "x"] := Dir]);
  }

  /** A path of two one-letter components and two dots, told by its characters. */
  predicate IsShaped(s: string) {
    && |s| == 7 && s[2] == '/' && s[4] == '/'
    && s[1] != '/' && s[3] != '/' && s[5] != '/' && s[6] != '/'
  }

  lemma MakesLast(t: Tree, s: string)
    requires IsShaped(s) && Mkdir(t, s, {}) == (t, AlreadyThere)
    ensures MakeFrom(t, s, 5, {}) == (t, true)
  {
    assert MakeFrom(t, s, 7, {}) == (t, true);
    assert MakeFrom(t, s, 6, {}) == (t, true);
  }

  lemma MakesSecond(t: Tree, t2: Tree, s: string)
    requires IsShaped(s) && Mkdir(t, s[..4], {}).0 == t2 && Mkdir(t, s[..4], {}).1 != MkdirFailed
    ensures MakeFrom(t, s, 3, {}) == MakeFrom(t2, s, 5, {})
  {
    assert MakeFrom(t, s, 4, {}) == MakeFrom(t2, s, 5, {});
  }

  lemma MakesFirst(t: Tree, s: string)
    requires IsShaped(s) && Mkdir(t, s[..2], {}) == (t, AlreadyThere)
    ensures MakeFrom(t, s, 1, {}) == MakeFrom(t, s, 3, {})
  {
    assert MakeFrom(t, s, 2, {}) == MakeFrom(t, s, 3, {});
  }

  lemma OneContainerOpens(dir: StateDirectory)
    requires dir.stateDir == DOT_DOT && IsOneContainer(dir.host.tree)
    ensures dir.Valid() && "y" in dir.Stored() && dir.OpensWay(dir.host.tree, {})
  {
    DotDotComponents();
    DotDotPlace();
    DotDotComesBack(dir.host.tree);
  }

  lemma TwoContainersClose(dir: StateDirectory)
    requires dir.stateDir == DOT_DOT && IsTwoContainers(dir.host.tree)
    ensures dir.Valid() && dir.Root() == ["s"] && dir.Reaches()
    ensures "y" in dir.Stored() && dir.Closes(dir.host.tree, "x", false, false)
  {
    DotDotComponents();
    DotDotPlace();
    WalkDotDot(dir.host.tree);
    assert ["s"] + ["x"] == ["s", "x"];
  }

  /** With /s/x/.. configured and a record of y, deleting x makes the commands find nothing; and
      the next save of x, however it ends, makes them find y again. */
  method DotDotLosesAndFinds(text: Text, c: Container, openRefused: bool, write: WriteOutcome)
    returns (ghost before: Store, ghost lost: Store, ghost found: Store)
    requires c.id == Some("x")
    ensures "y" in before && lost == map[] && "y" in found
  {
    TwoContainersAre(text);
    var host := new Host(TwoContainers(text));
    var dir := new StateDirectory(DOT_DOT, host);
    before, lost := DotDotLoses(dir);
    found := DotDotFinds(dir, c, openRefused, write);
  }

  method DotDotLoses(dir: StateDirectory) returns (ghost before: Store, ghost lost: Store)
    requires dir.stateDir == DOT_DOT && IsTwoContainers(dir.host.tree)
    modifies dir.host
    ensures "y" in before && lost == map[] && IsOneContainer(dir.host.tree)
  {
    TwoContainersClose(dir);
    before := dir.Records();
    assert |["s"]| != |["s", "x"]|;
    var _ := dir.DeleteState("x", false, false);
    lost := dir.Records();
  }

  method DotDotFinds(dir: StateDirectory, c: Container, openRefused: bool, write: WriteOutcome)
    returns (ghost found: Store)
    requires dir.stateDir == DOT_DOT && IsOneContainer(dir.host.tree) && c.id == Some("x")
    modifies dir.host
    ensures "y" in found
  {
    OneContainerOpens(dir);
    assert "x" != "y";
    var _, _ := dir.Save(c, SaveIO({}, openRefused, write));
    found := dir.Records();
  }

  predicate IsEmpty(t: Tree, p: Path) {
    forall k | k in t :: !(p < k)
  }

  lemma WriteFileWellFormed(t: Tree, p: Path, text: Text)
    requires WellFormed(t) && p != [] && Parent(p) in t && t[Parent(p)] == Dir
    requires p in t ==> t[p].Regular?
    ensures WellFormed(t[p := Regular(text)])
  {
  }

  lemma UnlinkWellFormed(t: Tree, p: Path)
    requires WellFormed(t) && p in t && t[p].Regular?
    ensures WellFormed(t - {p})
  {
  }
}
