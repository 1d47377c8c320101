/**
 A directory tree, path strings as the kernel reads them, and mkdir(2).

 Path strings are split at '/', empty components are dropped, "." and ".." are followed.
 There are no symbolic links.
 */
module Disk {
  import opened Records

  type Path = seq<string>

  datatype Node = Dir | Regular(text: Text)

  type Tree = map<Path, Node>

  /** There is a root, and whatever exists lies in a directory. */
  ghost predicate WellFormed(t: Tree) {
    && [] in t && t[[]] == Dir
    && forall p | p in t && p != [] :: Parent(p) in t && t[Parent(p)] == Dir
  }

  function Parent(p: Path): Path {
    if p == [] then [] else p[..|p| - 1]
  }

  // ---- path strings ----

  function Components(s: string): (cs: seq<string>)
    ensures s != "" && s[|s| - 1] != '/' ==> cs != []
  {
    if s == "" then []
    else
      var init, c := s[..|s| - 1], s[|s| - 1];
      if c == '/' then Components(init)
      else if init == "" || init[|init| - 1] == '/' then Components(init) + [[c]]
      else
        var cs := Components(init);
        cs[..|cs| - 1] + [cs[|cs| - 1] + [c]]
  }

  lemma ComponentsSnoc(s: string, c: char)
    ensures c == '/' ==> Components(s + [c]) == Components(s)
    ensures c != '/' && (s == "" || s[|s| - 1] == '/') ==> Components(s + [c]) == Components(s) + [[c]]
    ensures c != '/' && s != "" && s[|s| - 1] != '/' ==>
              var cs := Components(s); Components(s + [c]) == cs[..|cs| - 1] + [cs[|cs| - 1] + [c]]
  {
    assert (s + [c])[..|s|] == s;
  }

  /** Cutting a path string at a slash cuts its list of components. */
  lemma {:induction false} CutComponents(s: string, i: nat)
    requires i < |s| && s[i] == '/'
    ensures Components(s[..i]) <= Components(s)
    ensures s[|s| - 1] != '/' ==> |Components(s[..i])| < |Components(s)|
  {
    var init, last := s[..|s| - 1], s[|s| - 1];
    assert s == init + [last];
    ComponentsSnoc(init, last);
    if i < |init| {
      CutComponents(init, i);
      assert init[..i] == s[..i];
    } else {
      assert s[..i] == init;
    }
  }

  predicate IsComponent(c: string) {
    c != "" && '/' !in c && c != "." && c != ".."
  }

  /** Appending one component to a path string appends it to the list. */
  lemma {:induction false} AppendComponent(s: string, c: string)
    requires c != "" && forall i | 0 <= i < |c| :: c[i] != '/'
    ensures Components(s + "/" + c) == Components(s) + [c]
  {
    var init, last := c[..|c| - 1], c[|c| - 1];
    assert c == init + [last];
    var front := s + "/" + init;
    assert s + "/" + c == front + [last];
    ComponentsSnoc(front, last);
    if init == "" {
      assert front == s + ['/'];
      ComponentsSnoc(s, '/');
    } else {
      AppendComponent(s, init);
      assert front[|front| - 1] == init[|init| - 1];
      assert Components(front) == Components(s) + [init];
    }
  }

  // ---- following a path ----

  datatype Walked = At(p: Path) | Missing | NotADirectory

  function Enter(p: Path, c: string): Path {
    if c == "." then p else if c == ".." then Parent(p) else p + [c]
  }

  /** Where a path leads. Everything before the last component must be a directory; the place
      itself may or may not exist. */
  function Walk(t: Tree, cs: seq<string>): Walked {
    if cs == [] then At([])
    else
      match Walk(t, cs[..|cs| - 1])
      case At(q) =>
        if q !in t then Missing
        else if t[q] != Dir then NotADirectory
        else At(Enter(q, cs[|cs| - 1]))
      case Missing => Missing
      case NotADirectory => NotADirectory
  }

  /** Where a path leads, if it leads anywhere. */
  function Place(cs: seq<string>): Path {
    if cs == [] then [] else Enter(Place(cs[..|cs| - 1]), cs[|cs| - 1])
  }

  lemma {:induction false} WalkGoesToPlace(t: Tree, cs: seq<string>)
    ensures Walk(t, cs).At? ==> Walk(t, cs).p == Place(cs)
  {
    if cs != [] { WalkGoesToPlace(t, cs[..|cs| - 1]); }
  }

  predicate Exists(t: Tree, s: string) {
    s != "" && Walk(t, Components(s)).At? && Walk(t, Components(s)).p in t
  }

  predicate IsDir(t: Tree, s: string) {
    Exists(t, s) && t[Walk(t, Components(s)).p] == Dir
  }

  predicate Extends(t: Tree, u: Tree) {
    forall p | p in t :: p in u && u[p] == t[p]
  }

  lemma {:induction false} WalkExtends(t: Tree, u: Tree, cs: seq<string>)
    requires Extends(t, u) && Walk(t, cs).At?
    ensures Walk(u, cs) == Walk(t, cs)
  {
    if cs != [] {
      WalkExtends(t, u, cs[..|cs| - 1]);
    }
  }

  /** A path that can be followed to its end passes through directories only. */
  lemma {:induction false} WalkPassesDirs(t: Tree, cs: seq<string>, before: seq<string>)
    requires Walk(t, cs).At? && before < cs
    ensures Walk(t, before).At? && Walk(t, before).p in t && t[Walk(t, before).p] == Dir
  {
    if |before| < |cs| - 1 {
      WalkPassesDirs(t, cs[..|cs| - 1], before);
    } else {
      assert before == cs[..|cs| - 1];
    }
  }

  // ---- mkdir(2) ----

  datatype Made = NewlyMade | AlreadyThere | MkdirFailed

  /** Directories in `denied` cannot be created. */
  function Mkdir(t: Tree, s: string, denied: set<Path>): (Tree, Made) {
    if s == "" then (t, MkdirFailed)
    else
      match Walk(t, Components(s))
      case At(p) =>
        if p in t then (t, AlreadyThere)
        else if p in denied then (t, MkdirFailed)
        else (t[p := Dir], NewlyMade)
      case Missing => (t, MkdirFailed)
      case NotADirectory => (t, MkdirFailed)
  }

  lemma EnterParent(t: Tree, cs: seq<string>)
    requires WellFormed(t) && Walk(t, cs).At? && Walk(t, cs).p !in t
    ensures var p := Walk(t, cs).p; p != [] && Parent(p) in t && t[Parent(p)] == Dir
  {
    var q := Walk(t, cs[..|cs| - 1]).p;
    assert q in t;
    assert Parent(q) in t;
    assert (q + [cs[|cs| - 1]])[..|q|] == q;
  }

  lemma MkdirKeeps(t: Tree, s: string, denied: set<Path>)
    requires WellFormed(t)
    ensures var (t2, r) := Mkdir(t, s, denied);
            && WellFormed(t2) && Extends(t, t2)
            && (r != MkdirFailed <==> Exists(t2, s))
            && (r != NewlyMade ==> t2 == t)
            && (forall p | p in t2 && p !in t :: t2[p] == Dir && Exists(t2, s) && p == Walk(t2, Components(s)).p)
  {
    var (t2, r) := Mkdir(t, s, denied);
    if r == NewlyMade {
      EnterParent(t, Components(s));
      WalkExtends(t, t2, Components(s));
    }
  }
}
