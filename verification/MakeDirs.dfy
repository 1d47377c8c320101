/**
 mkdir_p (src/common/state.c and src/main.c): every prefix of a path is made by cutting the
 buffer at each slash, calling mkdir, and putting the slash back.
 */
module MakeDirs {
  import opened Disk
  import opened Records

  const PATH_MAX := 4096
  const NUL := '\0'

  // ---- what the walk over the buffer amounts to ----

  function Stripped(path: string): string
    requires path != ""
  {
    if path[|path| - 1] == '/' then path[..|path| - 1] else path
  }

  /** From position i on: make the prefix before each slash, then the whole; stop at a failure. */
  function MakeFrom(t: Tree, s: string, i: nat, denied: set<Path>): (Tree, bool)
    requires i <= |s|
    decreases |s| - i
  {
    if i == |s| then
      var (t2, r) := Mkdir(t, s, denied);
      (t2, r != MkdirFailed)
    else if s[i] == '/' then
      var (t2, r) := Mkdir(t, s[..i], denied);
      if r == MkdirFailed then (t2, false) else MakeFrom(t2, s, i + 1, denied)
    else
      MakeFrom(t, s, i + 1, denied)
  }

  function MakeAll(t: Tree, path: string, denied: set<Path>): (Tree, bool) {
    if path == "" || |path| >= PATH_MAX then (t, false)
    else
      var s := Stripped(path);
      MakeFrom(t, s, if s == "" then 0 else 1, denied)
  }

  // ---- what it achieves ----

  predicate IsCut(s: string, j: int) {
    0 < j <= |s| && (j == |s| || s[j] == '/')
  }

  ghost predicate AllCutsExist(t: Tree, s: string, from: nat) {
    forall j | from <= j <= |s| && IsCut(s, j) :: Exists(t, s[..j])
  }

  /** Whatever is new is a directory at one of the cuts. */
  ghost predicate OnlyCutsAreNew(t: Tree, t2: Tree, s: string) {
    forall p | p in t2 && p !in t :: t2[p] == Dir && IsPlaceOfCut(t2, s, p)
  }

  ghost predicate IsPlaceOfCut(t: Tree, s: string, p: Path) {
    exists j :: IsCut(s, j) && IsPlaceOf(t, s[..j], p)
  }

  predicate IsPlaceOf(t: Tree, s: string, p: Path) {
    Walk(t, Components(s)) == At(p)
  }

  lemma ExistsExtends(t: Tree, u: Tree, s: string)
    requires Extends(t, u) && Exists(t, s)
    ensures Exists(u, s)
  {
    WalkExtends(t, u, Components(s));
  }

  lemma PlaceExtends(t: Tree, u: Tree, s: string, p: Path)
    requires Extends(t, u) && IsPlaceOfCut(t, s, p)
    ensures IsPlaceOfCut(u, s, p)
  {
    var j :| IsCut(s, j) && IsPlaceOf(t, s[..j], p);
    WalkExtends(t, u, Components(s[..j]));
    assert IsPlaceOf(u, s[..j], p);
  }

  lemma OnlyCutsTransitive(t: Tree, u: Tree, v: Tree, s: string)
    requires Extends(t, u) && Extends(u, v) && OnlyCutsAreNew(t, u, s) && OnlyCutsAreNew(u, v, s)
    ensures OnlyCutsAreNew(t, v, s)
  {
    forall p | p in v && p !in t ensures v[p] == Dir && IsPlaceOfCut(v, s, p) {
      if p in u {
        PlaceExtends(u, v, s, p);
      }
    }
  }

  lemma OneMkdir(t: Tree, s: string, j: nat, denied: set<Path>)
    requires WellFormed(t) && IsCut(s, j)
    ensures var (t2, r) := Mkdir(t, s[..j], denied);
            && WellFormed(t2) && Extends(t, t2) && OnlyCutsAreNew(t, t2, s)
            && (r != MkdirFailed <==> Exists(t2, s[..j]))
  {
    MkdirKeeps(t, s[..j], denied);
    var (t2, r) := Mkdir(t, s[..j], denied);
    forall p | p in t2 && p !in t ensures t2[p] == Dir && IsPlaceOfCut(t2, s, p) {
      assert IsPlaceOf(t2, s[..j], p);
    }
  }

  lemma {:induction false} MakeFromMakes(t: Tree, s: string, i: nat, denied: set<Path>)
    requires WellFormed(t) && 0 < i <= |s|
    ensures var (t2, ok) := MakeFrom(t, s, i, denied);
            && WellFormed(t2) && Extends(t, t2) && OnlyCutsAreNew(t, t2, s)
            && (ok <==> AllCutsExist(t2, s, i))
    decreases |s| - i
  {
    if i == |s| {
      assert s[..i] == s;
      OneMkdir(t, s, i, denied);
    } else if s[i] == '/' {
      OneMkdir(t, s, i, denied);
      var (t2, r) := Mkdir(t, s[..i], denied);
      if r == MkdirFailed {
        assert IsCut(s, i);
      } else {
        MakeFromMakes(t2, s, i + 1, denied);
        var t3 := MakeFrom(t2, s, i + 1, denied).0;
        OnlyCutsTransitive(t, t2, t3, s);
        ExistsExtends(t2, t3, s[..i]);
      }
    } else {
      MakeFromMakes(t, s, i + 1, denied);
    }
  }

  /** mkdir_p returns 0 exactly when in the end the path and each of its non-empty prefixes
      before a slash exist; only such prefixes are ever created, as directories, and nothing is
      removed or changed. On success every prefix with fewer components is a directory. */
  lemma MakeAllMakes(t: Tree, path: string, denied: set<Path>)
    requires WellFormed(t) && path != "" && path != "/" && |path| < PATH_MAX
    ensures var s := Stripped(path);
            var (t2, ok) := MakeAll(t, path, denied);
            && WellFormed(t2) && Extends(t, t2) && OnlyCutsAreNew(t, t2, s)
            && (ok <==> AllCutsExist(t2, s, 1))
            && (ok ==> forall j | 0 < j < |s| && s[j] == '/' && Components(s[..j]) != Components(s) ::
                         IsDir(t2, s[..j]))
  {
    var s := Stripped(path);
    MakeFromMakes(t, s, 1, denied);
    var (t2, ok) := MakeAll(t, path, denied);
    if ok {
      assert s[..|s|] == s && IsCut(s, |s|);
      forall j | 0 < j < |s| && s[j] == '/' && Components(s[..j]) != Components(s) ensures IsDir(t2, s[..j]) {
        CutComponents(s, j);
        assert IsCut(s, j);
        WalkPassesDirs(t2, Components(s), Components(s[..j]));
      }
    }
  }

  lemma StrippedComponents(s: string)
    requires s != ""
    ensures Components(Stripped(s)) == Components(s)
  {
    var init := s[..|s| - 1];
    assert s == init + [s[|s| - 1]];
    ComponentsSnoc(init, s[|s| - 1]);
  }

  // ---- when it succeeds ----

  /** All places on the way are directories. */
  ghost predicate DirsBefore(t: Tree, cs: seq<string>) {
    forall k | 0 <= k < |cs| :: Place(cs[..k]) in t && t[Place(cs[..k])] == Dir
  }

  /** No place on the way is taken by a file. */
  ghost predicate NoFileBefore(t: Tree, cs: seq<string>) {
    forall k | 0 <= k < |cs| :: !IsFile(t, Place(cs[..k]))
  }

  lemma {:induction false} WalkOfDirs(t: Tree, cs: seq<string>)
    requires DirsBefore(t, cs)
    ensures Walk(t, cs).At?
  {
    if cs != [] {
      var init := cs[..|cs| - 1];
      assert forall k | 0 <= k <= |init| :: init[..k] == cs[..k];
      assert init[..|init|] == init && Place(init) in t;
      WalkOfDirs(t, init);
      WalkGoesToPlace(t, init);
    }
  }

  lemma {:induction false} CountGrows(s: string, i: nat)
    requires i <= |s|
    ensures |Components(s[..i])| <= |Components(s)|
  {
    if i == |s| {
      assert s[..i] == s;
    } else {
      var init, last := s[..|s| - 1], s[|s| - 1];
      assert s == init + [last] && init[..i] == s[..i];
      ComponentsSnoc(init, last);
      CountGrows(init, i);
    }
  }

  // ---- reading on in the path ----

  lemma ComponentsNext(s: string, i: nat)
    requires i < |s|
    ensures s[..i + 1] == s[..i] + [s[i]]
    ensures s[i] == '/' ==> Components(s[..i + 1]) == Components(s[..i])
  {
    assert s[..i + 1] == s[..i] + [s[i]];
    ComponentsSnoc(s[..i], s[i]);
  }

  /** A letter behind a slash begins a component. */
  lemma LetterBegins(s: string, i: nat)
    requires 0 < i < |s| && s[i] != '/' && s[i - 1] == '/'
    ensures Components(s[..i + 1]) == Components(s[..i]) + [[s[i]]]
  {
    var front := s[..i];
    assert front[|front| - 1] == '/' && s[..i + 1] == front + [s[i]];
    ComponentsSnoc(front, s[i]);
  }

  /** What came before are full components. */
  lemma FullBefore(s: string, i: nat)
    requires 0 < i < |s| && s[i] != '/' && s[i - 1] == '/'
    ensures Components(s[..i]) < Components(s)
  {
    ComponentsNext(s, i - 1);
    CutComponents(s, i - 1);
    CountGrows(s, i + 1);
    LetterBegins(s, i);
  }

  /** A letter behind a letter changes the last component only. */
  lemma LetterContinues(s: string, i: nat)
    requires 0 < i < |s| && s[i] != '/' && s[i - 1] != '/'
    ensures var cs, cs2 := Components(s[..i]), Components(s[..i + 1]);
            |cs| == |cs2| > 0 && cs2[..|cs| - 1] == cs[..|cs| - 1]
  {
    var front := s[..i];
    assert front[|front| - 1] == s[i - 1] && s[..i + 1] == front + [s[i]];
    ComponentsSnoc(front, s[i]);
  }

  // ---- the way as it is made ----

  /** The way is made along the components; after a slash the last of them is there, too. */
  ghost predicate WayMade(t: Tree, cs: seq<string>, afterSlash: bool) {
    DirsBefore(t, cs) && (afterSlash ==> Place(cs) in t)
  }

  /** Where the way is made, mkdir cannot fail, and makes it further. */
  lemma MkdirMakesWay(t: Tree, path: string, all: seq<string>)
    requires WellFormed(t) && path != "" && DirsBefore(t, Components(path)) && NoFileBefore(t, all)
    ensures var (t2, r) := Mkdir(t, path, {});
            r != MkdirFailed && WellFormed(t2) && WayMade(t2, Components(path), true) && NoFileBefore(t2, all)
  {
    var cs := Components(path);
    WalkOfDirs(t, cs);
    WalkGoesToPlace(t, cs);
    MkdirKeeps(t, path, {});
    var t2 := Mkdir(t, path, {}).0;
    WayExtends(t, t2, cs);
    WayExtends(t, t2, all);
  }

  lemma WayExtends(t: Tree, t2: Tree, cs: seq<string>)
    requires Extends(t, t2) && forall p | p in t2 && p !in t :: t2[p] == Dir
    ensures DirsBefore(t, cs) ==> DirsBefore(t2, cs)
    ensures NoFileBefore(t, cs) ==> NoFileBefore(t2, cs)
  {
  }

  lemma WayBegins(t: Tree, cs: seq<string>, c: string, all: seq<string>)
    requires WayMade(t, cs, true) && cs < all && NoFileBefore(t, all)
    ensures DirsBefore(t, cs + [c])
  {
    var cs2 := cs + [c];
    assert all[..|cs|] == cs && !IsFile(t, Place(all[..|cs|]));
    forall k | 0 <= k < |cs2| ensures Place(cs2[..k]) in t && t[Place(cs2[..k])] == Dir {
      if k < |cs| { assert cs2[..k] == cs[..k]; } else { assert cs2[..k] == cs; }
    }
  }

  lemma WayContinues(t: Tree, cs: seq<string>, cs2: seq<string>)
    requires DirsBefore(t, cs) && |cs| == |cs2| > 0 && cs2[..|cs| - 1] == cs[..|cs| - 1]
    ensures DirsBefore(t, cs2)
  {
    forall k | 0 <= k < |cs2| ensures Place(cs2[..k]) in t && t[Place(cs2[..k])] == Dir {
      assert cs2[..k] == cs2[..|cs| - 1][..k] && cs[..k] == cs[..|cs| - 1][..k];
    }
  }

  lemma LetterKeepsWay(t: Tree, s: string, i: nat)
    requires 0 < i < |s| && s[i] != '/' && WayMade(t, Components(s[..i]), s[i - 1] == '/')
    requires NoFileBefore(t, Components(s))
    ensures WayMade(t, Components(s[..i + 1]), false)
  {
    if s[i - 1] == '/' {
      LetterBegins(s, i);
      FullBefore(s, i);
      WayBegins(t, Components(s[..i]), [s[i]], Components(s));
    } else {
      LetterContinues(s, i);
      WayContinues(t, Components(s[..i]), Components(s[..i + 1]));
    }
  }

  lemma {:induction false} MakeFromSucceeds(t: Tree, s: string, i: nat)
    requires WellFormed(t) && 0 < i <= |s|
    requires WayMade(t, Components(s[..i]), s[i - 1] == '/') && NoFileBefore(t, Components(s))
    ensures MakeFrom(t, s, i, {}).1
    decreases |s| - i
  {
    if i == |s| {
      assert s[..i] == s;
      WalkOfDirs(t, Components(s));
    } else if s[i] == '/' {
      MkdirMakesWay(t, s[..i], Components(s));
      ComponentsNext(s, i);
      MakeFromSucceeds(Mkdir(t, s[..i], {}).0, s, i + 1);
    } else {
      LetterKeepsWay(t, s, i);
      MakeFromSucceeds(t, s, i + 1);
    }
  }

  lemma WayStarts(t: Tree, s: string)
    requires WellFormed(t) && s != ""
    ensures WayMade(t, Components(s[..1]), s[0] == '/')
  {
    ComponentsNext(s, 0);
    ComponentsSnoc([], s[0]);
    assert s[..0] == [] && Components([]) == [] && Place([]) == [];
    assert forall cs: seq<string> :: cs[..0] == [];
  }

  /** With nothing denied, mkdir_p succeeds if and only if no place on the way, short of the last, is
      taken by a file. */
  lemma MakeAllSucceedsIff(t: Tree, path: string)
    requires WellFormed(t) && path != "" && path != "/" && |path| < 4096
    ensures MakeAll(t, path, {}).1 <==> NoFileBefore(t, Components(path))
  {
    var s := Stripped(path);
    StrippedComponents(path);
    if MakeAll(t, path, {}).1 {
      MadeMeansNoFile(t, path, {});
    } else if NoFileBefore(t, Components(path)) {
      WayStarts(t, s);
      MakeFromSucceeds(t, s, 1);
    }
  }

  /** Success, whatever was denied, means that there was no file on the way. */
  lemma MadeMeansNoFile(t: Tree, path: string, denied: set<Path>)
    requires WellFormed(t) && path != "" && MakeAll(t, path, denied).1
    ensures NoFileBefore(t, Components(path))
  {
    var s, t2 := Stripped(path), MakeAll(t, path, denied).0;
    var cs := Components(path);
    StrippedComponents(path);
    MakeAllMakes(t, path, denied);
    assert s[..|s|] == s && IsCut(s, |s|);
    forall k | 0 <= k < |cs| ensures !IsFile(t, Place(cs[..k])) {
      WalkPassesDirs(t2, cs, cs[..k]);
      WalkGoesToPlace(t2, cs[..k]);
    }
  }

  /** Every slash-cut prefix of a path that mkdir_p made is a directory, exactly if it is not the
      case that the path ends in a second slash and there was a regular file in its place. */
  lemma MakeAllDirsIff(t: Tree, path: string, denied: set<Path>)
    requires WellFormed(t) && path != "" && MakeAll(t, path, denied).1
    ensures AllPrefixesAreDirs(MakeAll(t, path, denied).0, Stripped(path)) <==>
              !(EndsInSlash(Stripped(path)) && IsFile(t, Place(Components(Stripped(path)))))
  {
    var s := Stripped(path);
    var t2 := MakeAll(t, path, denied).0;
    MadeIsDirIff(t, path, denied);
    if EndsInSlash(s) && !IsDir(t2, s) {
      FileIsItsOwnPrefix(t2, s);
    } else {
      PrefixesAreDirs(t2, s);
    }
  }

  lemma PrefixesAreDirs(t: Tree, s: string)
    requires Exists(t, s) && (!EndsInSlash(s) || IsDir(t, s))
    ensures AllPrefixesAreDirs(t, s)
  {
    forall j | 0 < j < |s| && s[j] == '/' ensures IsDir(t, s[..j]) {
      PrefixIsDir(t, s, j);
    }
  }

  lemma PrefixIsDir(t: Tree, s: string, j: nat)
    requires Exists(t, s) && (!EndsInSlash(s) || IsDir(t, s))
    requires 0 < j < |s| && s[j] == '/'
    ensures IsDir(t, s[..j])
  {
    CutComponents(s, j);
    if Components(s[..j]) != Components(s) {
      WalkPassesDirs(t, Components(s), Components(s[..j]));
    }
  }

  predicate AllPrefixesAreDirs(t: Tree, s: string) {
    forall j | 0 < j < |s| && s[j] == '/' :: IsDir(t, s[..j])
  }

  lemma FileIsItsOwnPrefix(t: Tree, s: string)
    requires EndsInSlash(s) && Components(s) != [] && !IsDir(t, s)
    ensures !AllPrefixesAreDirs(t, s)
  {
    var j := |s| - 1;
    assert s == s[..j] + ['/'];
    ComponentsSnoc(s[..j], '/');
    assert j > 0 by { assert Components("") == []; }
    assert !IsDir(t, s[..j]);
  }

  predicate EndsInSlash(s: string) {
    s != "" && s[|s| - 1] == '/'
  }

  predicate IsFile(t: Tree, p: Path) {
    p in t && t[p].Regular?
  }

  /** What mkdir_p leaves at the path itself is a directory unless a file was there before. */
  lemma MadeIsDirIff(t: Tree, path: string, denied: set<Path>)
    requires WellFormed(t) && path != "" && MakeAll(t, path, denied).1
    ensures var s := Stripped(path);
            var t2 := MakeAll(t, path, denied).0;
            && Exists(t2, s) && (IsDir(t2, s) <==> !IsFile(t, Place(Components(s))))
            && (!IsDir(t2, s) ==> Components(s) != [])
  {
    var s := Stripped(path);
    var t2 := MakeAll(t, path, denied).0;
    MakeAllMakes(t, path, denied);
    assert s[..|s|] == s && IsCut(s, |s|);
    WalkGoesToPlace(t2, Components(s));
  }

  /** The path "/" is refused: stripping its slash leaves nothing to make. So is a path that
      does not fit the buffer. */
  lemma MakeAllRefuses(t: Tree, path: string, denied: set<Path>)
    requires path == "" || path == "/" || |path| >= 4096
    ensures MakeAll(t, path, denied) == (t, false)
  {
  }

  lemma {:induction false} MakeFromAgain(t: Tree, s: string, i: nat, denied: set<Path>)
    requires 0 < i <= |s| && AllCutsExist(t, s, i)
    ensures MakeFrom(t, s, i, denied) == (t, true)
    decreases |s| - i
  {
    if i == |s| {
      assert IsCut(s, i) && s[..i] == s;
    } else {
      if s[i] == '/' { assert IsCut(s, i); }
      MakeFromAgain(t, s, i + 1, denied);
    }
  }

  /** A second call succeeds and changes nothing, whatever may not be created by then. */
  lemma MakeAllTwice(t: Tree, path: string, denied: set<Path>, denied2: set<Path>)
    requires WellFormed(t) && MakeAll(t, path, denied).1
    ensures MakeAll(MakeAll(t, path, denied).0, path, denied2) == (MakeAll(t, path, denied).0, true)
  {
    MakeAllMakes(t, path, denied);
    MakeFromAgain(MakeAll(t, path, denied).0, Stripped(path), 1, denied2);
  }

  /** A prefix that ends in the same component as the path need not be a directory: with a
      regular file f, making "f//" succeeds although the prefix "f" is no directory. */
  lemma SlashesHideAFile(t: Tree, text: Text, denied: set<Path>)
    requires WellFormed(t) && ["f"] in t && t[["f"]] == Regular(text)
    ensures MakeAll(t, "f//", denied) == (t, true) && !IsDir(t, "f")
  {
    FileCutsExist(t);
    MakeFromAgain(t, "f/", 1, denied);
    assert Stripped("f//") == "f/";
  }

  lemma FileCutsExist(t: Tree)
    requires WellFormed(t) && ["f"] in t && t[["f"]].Regular?
    ensures AllCutsExist(t, "f/", 1) && !IsDir(t, "f")
  {
    OneComponent();
    WalkOne(t);
    assert "f/" == "f" + ['/'];
    ComponentsSnoc("f", '/');
    assert "f/"[..1] == "f" && "f/"[..2] == "f/";
  }

  lemma OneComponent()
    ensures Components("f") == ["f"]
  {
    assert "f" == [] + ['f'] && Components("") == [];
    ComponentsSnoc("", 'f');
  }

  lemma WalkOne(t: Tree)
    requires WellFormed(t)
    ensures Walk(t, ["f"]) == At(["f"])
  {
    assert ["f"][..0] == [] && Walk(t, []) == At([]) && Enter([], "f") == ["f"];
  }

  // ---- the buffer ----

  /** A C string: the characters before the first NUL. */
  function CStr(b: seq<char>): string {
    if b == [] || b[0] == NUL then "" else [b[0]] + CStr(b[1..])
  }

  lemma {:induction false} CStrOf(s: string, rest: seq<char>)
    requires NUL !in s
    ensures CStr(s + [NUL] + rest) == s
  {
    if s != "" {
      assert (s + [NUL] + rest)[1..] == s[1..] + [NUL] + rest;
      CStrOf(s[1..], rest);
    }
  }

  /** What the buffer holds once the path is copied and its last slash stripped. */
  ghost predicate Holds(buf: seq<char>, s: string) {
    |s| < |buf| && buf[..|s|] == s && buf[|s|] == NUL && NUL !in s
  }

  lemma HeldString(buf: seq<char>, s: string)
    requires Holds(buf, s)
    ensures CStr(buf) == s
  {
    assert buf == s + [NUL] + buf[|s| + 1..];
    CStrOf(s, buf[|s| + 1..]);
  }

  /** With a NUL put over the slash at p the buffer reads as the prefix before it. */
  lemma CutString(buf: seq<char>, s: string, p: nat)
    requires Holds(buf, s) && p < |s|
    ensures CStr(buf[p := NUL]) == s[..p]
  {
    assert Holds(buf[p := NUL], s[..p]);
    HeldString(buf[p := NUL], s[..p]);
  }

  class Host {
    var tree: Tree

    constructor (tree: Tree)
      ensures this.tree == tree
    {
      this.tree := tree;
    }

    method MkdirCall(s: string, denied: set<Path>) returns (r: Made)
      modifies this
      ensures (tree, r) == Mkdir(old(tree), s, denied)
    {
      var (t2, made) := Mkdir(tree, s, denied);
      tree, r := t2, made;
    }

    /** Cut the buffer at the slash, make the prefix, put the slash back. */
    method MkdirCut(tmp: array<char>, p: nat, ghost s: string, denied: set<Path>) returns (r: Made)
      requires Holds(tmp[..], s) && p < |s| && s[p] == '/'
      modifies this, tmp
      ensures (tree, r) == Mkdir(old(tree), s[..p], denied)
      ensures r != MkdirFailed ==> tmp[..] == old(tmp[..])
    {
      ghost var buf := tmp[..];
      tmp[p] := NUL;
      assert tmp[..] == buf[p := NUL];
      CutString(buf, s, p);
      r := MkdirCall(CStr(tmp[..]), denied);
      if r == MkdirFailed { return; }
      tmp[p] := '/';
      assert buf[p] == '/';
      assert tmp[..] == buf;
    }

    /** The buffer is as it was again after each cut: `tmp[..] == buf`. */
    method MkdirP(path: string, denied: set<Path>) returns (ok: bool)
      requires NUL !in path
      modifies this
      ensures (tree, ok) == MakeAll(old(tree), path, denied)
    {
      if path == "" { return false; }
      var len := |path|;
      if len >= PATH_MAX { return false; }

      var tmp := Copied(path);
      if tmp[len - 1] == '/' {
        tmp[len - 1] := NUL;
      }
      ghost var s, buf := Stripped(path), tmp[..];
      assert Holds(buf, s) && buf[len] == NUL;

      var p := 1;
      while tmp[p] != NUL
        invariant tmp[..] == buf && tmp.Length == PATH_MAX
        invariant 0 < p <= len && (p <= |s| || s == "")
        invariant s == "" ==> p == 1 && tree == old(tree)
        invariant s != "" ==> MakeFrom(tree, s, p, denied) == MakeFrom(old(tree), s, 1, denied)
        decreases PATH_MAX - p
      {
        assert tmp[p] == buf[p] && p < |s| && s[p] == buf[p];
        if tmp[p] == '/' {
          var r := MkdirCut(tmp, p, s, denied);
          if r == MkdirFailed { return false; }
        }
        p := p + 1;
      }
      assert s != "" ==> p == |s|;
      HeldString(buf, s);
      var r := MkdirCall(CStr(tmp[..]), denied);
      ok := r != MkdirFailed;
    }
  }

  /** A PATH_MAX buffer holding the path and its NUL. */
  method Copied(path: string) returns (tmp: array<char>)
    requires |path| < PATH_MAX
    ensures fresh(tmp) && tmp.Length == PATH_MAX
    ensures tmp[..|path|] == path && tmp[|path|] == NUL
  {
    tmp := new char[PATH_MAX](_ => NUL);
    forall k | 0 <= k < |path| { tmp[k] := path[k]; }
  }
}
