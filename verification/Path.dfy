/** Path resolution in fs/fs.c: what walk_path computes, and what creating and removing files
    does to it. */
module Tree {
  import opened Prelude

  const FILE2BLK := 16           // File structures in a directory block
  const MAXNAMELEN := 128

  /** A File structure: its name, empty if it is free; whether it is a directory; and, for a
      directory, the File structures in its blocks, in order.  depth belongs to the proof. */
  datatype Node = Node(name: string, isDir: bool, kids: seq<nat>, depth: nat)

  type Nodes = seq<Node>

  // -------------------------------------------------------------------- components

  /** The characters before the first slash. */
  function Head(p: string): (h: string)
    ensures h <= p && '/' !in h
  {
    if p == "" || p[0] == '/' then "" else [p[0]] + Head(p[1..])
  }

  function SkipSlash(p: string): (r: string)
    ensures |r| <= |p| && (r != "" ==> r[0] != '/')
  {
    if p != "" && p[0] == '/' then SkipSlash(p[1..]) else p
  }

  /** The non-empty pieces between slashes. */
  function Components(p: string): seq<string>
    decreases |p|
  {
    var q := SkipSlash(p);
    if q == "" then [] else [Head(q)] + Components(q[|Head(q)|..])
  }

  lemma HeadShape(p: string)
    requires p != "" && p[0] != '/'
    ensures Head(p) != "" && (|Head(p)| < |p| ==> p[|Head(p)|] == '/')
  {
    if |p| > 1 && p[1] != '/' { HeadShape(p[1..]); }
  }

  lemma {:induction false} HeadIs(p: string, start: nat, i: nat)
    requires start <= i <= |p| && (i < |p| ==> p[i] == '/') && forall k :: start <= k < i ==> p[k] != '/'
    ensures Head(p[start..]) == p[start..i]
    decreases i - start
  {
    if start < i {
      HeadIs(p, start + 1, i);
      assert p[start..][1..] == p[start + 1..];
    }
  }

  lemma {:induction false} SkipTwice(p: string)
    ensures SkipSlash(SkipSlash(p)) == SkipSlash(p)
  {
    if p != "" && p[0] == '/' { SkipTwice(p[1..]); }
  }

  lemma ComponentsSkip(p: string)
    ensures Components(SkipSlash(p)) == Components(p)
  {
    SkipTwice(p);
  }

  /** The next component of a path that does not begin with a slash. */
  lemma NextComponent(p: string)
    requires p != "" && p[0] != '/'
    ensures Components(p) == [Head(p)] + Components(SkipSlash(p[|Head(p)|..]))
    ensures Components(SkipSlash(p[|Head(p)|..])) == [] <==> SkipSlash(p[|Head(p)|..]) == ""
  {
    ComponentsSkip(p[|Head(p)|..]);
    SkipTwice(p[|Head(p)|..]);
  }

  /** A leading slash does not matter. */
  lemma LeadingSlash(p: string)
    ensures Components("/" + p) == Components(p)
  {
    assert ("/" + p)[1..] == p;
  }

  /** A piece in front of a slash, or of nothing, is a component. */
  lemma FirstPiece(h: string, rest: string)
    requires h != "" && '/' !in h && (rest != "" ==> rest[0] == '/')
    ensures Components(h + rest) == [h] + Components(rest)
  {
    var w := h + rest;
    HeadIs(w, 0, |h|);
    assert w[0..] == w && w[0..|h|] == h && w[|h|..] == rest;
  }

  /** Slashes only separate. */
  lemma {:induction false} SlashSeparates(a: string, b: string)
    ensures Components(a + "/" + b) == Components(a) + Components(b)
    decreases |a|
  {
    if a == "" {
      assert a + "/" + b == "/" + b;
      LeadingSlash(b);
    } else if a[0] == '/' {
      assert a == "/" + a[1..] && a + "/" + b == "/" + (a[1..] + "/" + b);
      LeadingSlash(a[1..]);
      LeadingSlash(a[1..] + "/" + b);
      SlashSeparates(a[1..], b);
    } else {
      var h := Head(a);
      HeadShape(a);
      var rest := a[|h|..];
      assert a == h + rest && a + "/" + b == h + (rest + "/" + b);
      FirstPiece(h, rest);
      FirstPiece(h, rest + "/" + b);
      SlashSeparates(rest, b);
    }
  }

  lemma TrailingSlash(p: string)
    ensures Components(p + "/") == Components(p)
  {
    SlashSeparates(p, "");
    assert p + "/" + "" == p + "/" && Components("") == [];
  }

  lemma RepeatedSlash(a: string, b: string)
    ensures Components(a + "//" + b) == Components(a + "/" + b)
  {
    assert a + "//" + b == a + "/" + ("/" + b);
    SlashSeparates(a, "/" + b);
    SlashSeparates(a, b);
    LeadingSlash(b);
  }

  /** Components are non-empty and free of slashes. */
  lemma {:induction false} ComponentsShape(p: string)
    ensures forall c :: c in Components(p) ==> c != "" && '/' !in c
    decreases |p|
  {
    var q := SkipSlash(p);
    if q != "" {
      HeadShape(q);
      ComponentsShape(q[|Head(q)|..]);
    }
  }

  // -------------------------------------------------------------------- resolution

  /** dir_lookup: the first File structure with the name, in block order. */
  function Find(t: Nodes, kids: seq<nat>, name: string): (r: Option<nat>)
    ensures r.Some? ==> r.value in kids && r.value < |t| && t[r.value].name == name
    ensures r.None? ==> forall k :: k in kids && k < |t| ==> t[k].name != name
  {
    if kids == [] then None
    else if kids[0] < |t| && t[kids[0]].name == name then Some(kids[0])
    else Find(t, kids[1..], name)
  }

  /** walk_path's results: a file and the directory it is in (none for the root); not found,
      with the directory and the name if only the last component is missing; a component
      that is too long. */
  datatype Walk = Found(dir: Option<nat>, file: nat) | Missing(at: Option<(nat, string)>) | BadPath

  /** Looking up one component after the other. */
  function Resolve(t: Nodes, dir: Option<nat>, file: nat, path: seq<string>): Walk
    decreases |path|
  {
    if path == [] then Found(dir, file)
    else if |path[0]| >= MAXNAMELEN then BadPath
    else if file >= |t| || !t[file].isDir then Missing(None)
    else match Find(t, t[file].kids, path[0])
      case Some(g) => Resolve(t, Some(file), g, path[1..])
      case None => Missing(if |path| == 1 then Some((file, path[0])) else None)
  }

  /** The File structures that a path leads through, from file on: each is a directory with an
      entry for the next component, whose name fits into a File structure. */
  ghost predicate Chain(t: Nodes, file: nat, path: seq<string>, files: seq<nat>) {
    && |files| == |path| + 1 && files[0] == file
    && forall i :: 0 <= i < |path| ==> Link(t, files[i], files[i + 1], path[i])
  }

  ghost predicate Link(t: Nodes, d: nat, k: nat, name: string) {
    d < |t| && t[d].isDir && |name| < MAXNAMELEN && k in t[d].kids && k < |t| && t[k].name == name
  }

  ghost predicate HasEntry(t: Nodes, d: nat, name: string)
    requires d < |t|
  {
    exists k :: k in t[d].kids && k < |t| && t[k].name == name
  }

  /** What the result of walk_path means: files are the structures passed until it stops. */
  ghost predicate WalkMeans(t: Nodes, path: seq<string>, files: seq<nat>, r: Walk) {
    && 1 <= |files| <= |path| + 1 && Chain(t, files[0], path[..|files| - 1], files)
    && var n, last := |files| - 1, files[|files| - 1];
       && last < |t|
       && match r
          case Found(dir, file) => n == |path| && file == last && (n > 0 ==> dir == Some(files[n - 1]))
          case BadPath => n < |path| && |path[n]| >= MAXNAMELEN
          case Missing(at) =>
            && n < |path| && |path[n]| < MAXNAMELEN && !(t[last].isDir && HasEntry(t, last, path[n]))
            && at == if t[last].isDir && n + 1 == |path| then Some((last, path[n])) else None
  }

  lemma {:induction false} ResolveMeans(t: Nodes, dir: Option<nat>, file: nat, path: seq<string>) returns (files: seq<nat>)
    requires file < |t|
    ensures WalkMeans(t, path, files, Resolve(t, dir, file, path)) && files[0] == file
    decreases |path|
  {
    files := [file];
    if path != [] && |path[0]| < MAXNAMELEN && t[file].isDir && Find(t, t[file].kids, path[0]).Some? {
      var g := Find(t, t[file].kids, path[0]).value;
      var rest := ResolveMeans(t, Some(file), g, path[1..]);
      files := [file] + rest;
      var n := |rest| - 1;
      forall i | 0 <= i < |files| - 1 ensures Link(t, files[i], files[i + 1], path[..|files| - 1][i]) {
        if i > 0 { assert Link(t, rest[i - 1], rest[i], path[1..][..n][i - 1]); }
      }
    }
  }

  /** With unique names there is one way along a path, so walk_path finds exactly the file that
      the path leads to. */
  lemma {:induction false} OneChain(t: Nodes, file: nat, path: seq<string>, a: seq<nat>, b: seq<nat>)
    requires WellFormed(t) && Names(path) && Chain(t, file, path, a) && Chain(t, file, path, b)
    ensures a == b
    decreases |path|
  {
    if path != [] {
      assert Link(t, a[0], a[1], path[0]) && Link(t, b[0], b[1], path[0]);
      Unique(t, file, a[1], path[0]);
      Unique(t, file, b[1], path[0]);
      forall i | 0 <= i < |path| - 1 ensures Link(t, a[1..][i], a[1..][i + 1], path[1..][i]) && Link(t, b[1..][i], b[1..][i + 1], path[1..][i]) {
        assert Link(t, a[i + 1], a[i + 2], path[i + 1]) && Link(t, b[i + 1], b[i + 2], path[i + 1]);
      }
      OneChain(t, a[1], path[1..], a[1..], b[1..]);
      assert a == [a[0]] + a[1..] && b == [b[0]] + b[1..];
    }
  }

  lemma FoundIff(t: Nodes, path: seq<string>, g: nat)
    requires WellFormed(t) && Names(path)
    ensures var r := Resolve(t, None, 0, path);
      r.Found? && r.file == g <==> exists files :: Chain(t, 0, path, files) && files[|path|] == g
  {
    var files := ResolveMeans(t, None, 0, path);
    var r, n := Resolve(t, None, 0, path), |files| - 1;
    if r.Found? {
      assert path[..n] == path;
      if other :| Chain(t, 0, path, other) && other[|path|] == g { OneChain(t, 0, path, files, other); }
    } else if other :| Chain(t, 0, path, other) && other[|path|] == g {
      assert Link(t, other[n], other[n + 1], path[n]);
      assert Chain(t, 0, path[..n], other[..n + 1]) by {
        forall i | 0 <= i < n ensures Link(t, other[..n + 1][i], other[..n + 1][i + 1], path[..n][i]) {
          assert Link(t, other[i], other[i + 1], path[i]);
        }
      }
      OneChain(t, 0, path[..n], files, other[..n + 1]);
      assert false;
    }
  }

  ghost predicate KidsOk(t: Nodes, d: nat)
    requires d < |t|
  {
    && (forall i :: 0 <= i < |t[d].kids| ==> 0 < t[d].kids[i] < |t| && t[t[d].kids[i]].depth == t[d].depth + 1)
    && Distinct(t[d].kids)
    && (forall i, j :: 0 <= i < j < |t[d].kids| ==> t[t[d].kids[i]].name == t[t[d].kids[j]].name ==> t[t[d].kids[i]].name == "")
  }

  /** A tree of directories, in each of which names are unique. */
  ghost predicate WellFormed(t: Nodes) {
    && t != [] && t[0].depth == 0
    && (forall d :: 0 <= d < |t| ==> KidsOk(t, d))
    && (forall d, e, k :: 0 <= d < |t| && 0 <= e < |t| && k in t[d].kids && k in t[e].kids ==> d == e)
    && (forall d :: 0 <= d < |t| && t[d].name == "" && d != 0 ==> t[d].kids == [])
  }

  // ------------------------------------------------------------------------ create

  function FreshBlock(depth: nat): (b: Nodes)
    ensures |b| == FILE2BLK && forall i :: 0 <= i < FILE2BLK ==> b[i] == Node("", false, [], depth)
  {
    seq(FILE2BLK, _ => Node("", false, [], depth))
  }

  function Numbers(lo: nat, n: nat): (q: seq<nat>)
    ensures |q| == n && forall i :: 0 <= i < n ==> q[i] == lo + i
  {
    seq(n, i requires 0 <= i < n => lo + i)
  }

  /** The directory grows by a zeroed block. */
  function Grown(t: Nodes, dir: nat): Nodes
    requires dir < |t|
  {
    t[dir := t[dir].(kids := t[dir].kids + Numbers(|t|, FILE2BLK))] + FreshBlock(t[dir].depth + 1)
  }

  /** dir_alloc_file: the first free structure, in a new block if there is none. */
  function Slot(t: Nodes, dir: nat): (Nodes, nat)
    requires dir < |t|
  {
    match Find(t, t[dir].kids, "")
    case Some(k) => (t, k)
    case None => (Grown(t, dir), |t|)
  }

  /** What dir_alloc_file promises: a directory with a free structure gives out its first one and
      stays as it is; any other grows by one block of free structures, and gives out the first of
      these. */
  ghost predicate GivesSlot(t: Nodes, u: Nodes, dir: nat, k: nat)
    requires dir < |t|
  {
    if exists i :: IsFree(t, t[dir].kids, i) then
      u == t && exists i :: IsFree(t, t[dir].kids, i) && t[dir].kids[i] == k && forall j :: 0 <= j < i ==> !IsFree(t, t[dir].kids, j)
    else
      && k == |t| && |u| == |t| + FILE2BLK && u[dir].kids == t[dir].kids + Numbers(|t|, FILE2BLK)
      && (forall d :: 0 <= d < |t| && d != dir ==> u[d] == t[d])
      && (forall d :: |t| <= d < |u| ==> u[d].name == "" && u[d].kids == [] && !u[d].isDir)
  }

  ghost predicate IsFree(t: Nodes, kids: seq<nat>, i: int) {
    0 <= i < |kids| && kids[i] < |t| && t[kids[i]].name == ""
  }

  lemma {:induction false} FindFirst(t: Nodes, kids: seq<nat>)
    ensures Find(t, kids, "").None? ==> forall i :: !IsFree(t, kids, i)
    ensures Find(t, kids, "").Some? ==>
      exists i :: IsFree(t, kids, i) && kids[i] == Find(t, kids, "").value && forall j :: 0 <= j < i ==> !IsFree(t, kids, j)
  {
    if kids != [] && !IsFree(t, kids, 0) {
      FindFirst(t, kids[1..]);
      if Find(t, kids[1..], "").Some? {
        var i :| IsFree(t, kids[1..], i) && kids[1..][i] == Find(t, kids[1..], "").value && forall j :: 0 <= j < i ==> !IsFree(t, kids[1..], j);
        forall j | 0 <= j < i + 1 ensures !IsFree(t, kids, j) { assert j > 0 ==> !IsFree(t, kids[1..], j - 1); }
        assert IsFree(t, kids, i + 1);
      } else {
        forall i ensures !IsFree(t, kids, i) { assert !IsFree(t, kids[1..], i - 1); }
      }
    } else if kids != [] {
      assert IsFree(t, kids, 0) && kids[0] == Find(t, kids, "").value;
    }
  }

  lemma SlotGives(t: Nodes, dir: nat)
    requires dir < |t|
    ensures GivesSlot(t, Slot(t, dir).0, dir, Slot(t, dir).1)
  {
    FindFirst(t, t[dir].kids);
  }

  /** What file_create promises: a structure that dir_alloc_file gives out has the name, and
      nothing else has changed. */
  ghost predicate Creates(t: Nodes, u: Nodes, dir: nat, name: string, k: nat) {
    dir < |t| && k < |u| && u[k].name == name && GivesSlot(t, u[k := u[k].(name := "")], dir, k)
  }

  lemma GrownKeeps(t: Nodes, dir: nat)
    requires WellFormed(t) && dir < |t| && (t[dir].name != "" || dir == 0)
    ensures WellFormed(Grown(t, dir))
  {
    var u := Grown(t, dir);
    forall d | 0 <= d < |u| ensures KidsOk(u, d) {
      if d < |t| {
        assert KidsOk(t, d);
        forall i | 0 <= i < |u[d].kids| ensures 0 < u[d].kids[i] < |u| && u[u[d].kids[i]].depth == u[d].depth + 1 {}
      }
    }
    forall d, e, k | 0 <= d < |u| && 0 <= e < |u| && k in u[d].kids && k in u[e].kids ensures d == e {
      GrownKid(t, dir, d, k);
      GrownKid(t, dir, e, k);
    }
  }

  lemma GrownKid(t: Nodes, dir: nat, d: nat, k: nat)
    requires WellFormed(t) && dir < |t| && d < |Grown(t, dir)| && k in Grown(t, dir)[d].kids
    ensures d < |t| && if k < |t| then k in t[d].kids else d == dir
  {
    if d < |t| {
      assert KidsOk(t, d);
      var i :| 0 <= i < |Grown(t, dir)[d].kids| && Grown(t, dir)[d].kids[i] == k;
      if i < |t[d].kids| { assert t[d].kids[i] == k; }
    }
  }

  lemma FoundKid(t: Nodes, dir: nat, name: string)
    requires WellFormed(t) && dir < |t| && Find(t, t[dir].kids, name).Some?
    ensures var k := Find(t, t[dir].kids, name).value; 0 < k < |t| && k in t[dir].kids && t[k].depth == t[dir].depth + 1
  {
    var k := Find(t, t[dir].kids, name).value;
    assert KidsOk(t, dir);
    var i :| 0 <= i < |t[dir].kids| && t[dir].kids[i] == k;
  }

  function Named(t: Nodes, k: nat, name: string): Nodes
    requires k < |t|
  {
    t[k := t[k].(name := name)]
  }

  /** file_create in the directory dir. */
  function Created(t: Nodes, dir: nat, name: string): (Nodes, nat)
    requires dir < |t|
  {
    var (u, k) := Slot(t, dir);
    (if k < |u| then Named(u, k, name) else u, k)
  }

  lemma {:induction false} FindOther(t: Nodes, kids: seq<nat>, k: nat, name: string, c: string)
    requires k < |t| && t[k].name != c && (c != name || k !in kids)
    ensures Find(Named(t, k, name), kids, c) == Find(t, kids, c)
  {
    if kids != [] { FindOther(t, kids[1..], k, name, c); }
  }

  lemma {:induction false} FindNew(t: Nodes, kids: seq<nat>, k: nat, name: string)
    requires k < |t| && k in kids && Find(t, kids, name).None?
    ensures Find(Named(t, k, name), kids, name) == Some(k)
  {
    if kids[0] != k { FindNew(t, kids[1..], k, name); }
  }

  lemma NamedKeeps(t: Nodes, dir: nat, k: nat, name: string)
    requires WellFormed(t) && dir < |t| && k in t[dir].kids && k < |t| && t[k].name == "" && name != ""
    requires Find(t, t[dir].kids, name).None?
    ensures WellFormed(Named(t, k, name))
  {
    var u := Named(t, k, name);
    forall d | 0 <= d < |u| ensures KidsOk(u, d) {
      assert KidsOk(t, d);
      forall i, j | 0 <= i < j < |u[d].kids| && u[u[d].kids[i]].name == u[u[d].kids[j]].name ensures u[u[d].kids[i]].name == "" {
        assert u[d].kids == t[d].kids;
        assert k in t[d].kids ==> d == dir;
      }
    }
    forall d, e, x | 0 <= d < |u| && 0 <= e < |u| && x in u[d].kids && x in u[e].kids ensures d == e {
      assert x in t[d].kids && x in t[e].kids;
    }
  }

  lemma {:induction false} FindTail(u: Nodes, t: Nodes, kids: seq<nat>, extra: seq<nat>, c: string)
    requires (forall i :: 0 <= i < |kids| ==> kids[i] < |t|) && |t| <= |u| && forall i :: 0 <= i < |t| ==> u[i].name == t[i].name
    requires forall i :: 0 <= i < |extra| ==> extra[i] < |u| && u[extra[i]].name != c
    ensures Find(u, kids + extra, c) == Find(t, kids, c)
    decreases |kids|
  {
    if kids == [] {
      assert kids + extra == extra;
    } else {
      assert (kids + extra)[1..] == kids[1..] + extra;
      FindTail(u, t, kids[1..], extra, c);
    }
  }

  /** The slot for a new file: free and in the directory. */
  lemma SlotFree(t: Nodes, dir: nat)
    requires WellFormed(t) && dir < |t| && (t[dir].name != "" || dir == 0)
    ensures var (u, k) := Slot(t, dir);
      WellFormed(u) && dir < |u| && 0 < k < |u| && k in u[dir].kids && u[k].name == "" && |t| <= |u|
    ensures forall d :: 0 <= d < |t| ==> d < |Slot(t, dir).0| && Slot(t, dir).0[d].isDir == t[d].isDir
  {
    if Find(t, t[dir].kids, "").Some? {
      FoundKid(t, dir, "");
    } else {
      GrownKeeps(t, dir);
      assert Grown(t, dir)[dir].kids[|t[dir].kids|] == |t|;
    }
  }

  /** Nothing else is disturbed. */
  lemma SlotFinds(t: Nodes, dir: nat, d: nat, c: string)
    requires WellFormed(t) && dir < |t| && d < |t| && c != ""
    ensures d < |Slot(t, dir).0| && Find(Slot(t, dir).0, Slot(t, dir).0[d].kids, c) == Find(t, t[d].kids, c)
  {
    if Find(t, t[dir].kids, "").None? {
      var u := Grown(t, dir);
      assert Slot(t, dir).0 == u && KidsOk(t, d);
      var extra := if d == dir then Numbers(|t|, FILE2BLK) else [];
      assert u[d].kids == t[d].kids + extra;
      FindTail(u, t, t[d].kids, extra, c);
    }
  }

  ghost predicate Names(path: seq<string>) { forall i :: 0 <= i < |path| ==> path[i] != "" }

  /** One lookup after a creation. */
  lemma OneCreated(t: Nodes, dir: nat, name: string, d: nat, c: string)
    requires WellFormed(t) && dir < |t| && (t[dir].name != "" || dir == 0) && name != "" && c != "" && d < |t|
    requires Find(t, t[dir].kids, name).None?
    ensures var (v, k) := Created(t, dir, name);
      && d < |v| && v[d].isDir == t[d].isDir
      && Find(v, v[d].kids, c) == if d == dir && c == name then Some(k) else Find(t, t[d].kids, c)
  {
    SlotFree(t, dir);
    SlotFinds(t, dir, d, c);
    var (u, k) := Slot(t, dir);
    if d == dir && c == name {
      FindNew(u, u[dir].kids, k, name);
    } else {
      if d != dir { OnlyIn(u, dir, d, k); }
      FindOther(u, u[d].kids, k, name, c);
    }
  }

  lemma OnlyIn(u: Nodes, dir: nat, d: nat, k: nat)
    requires WellFormed(u) && dir < |u| && d < |u| && d != dir && k in u[dir].kids
    ensures k !in u[d].kids
  {}

  /** Creating keeps what every other path names. */
  lemma {:induction false} CreatedKeeps(t: Nodes, dir: nat, name: string, from: Option<nat>, file: nat, path: seq<string>)
    requires WellFormed(t) && dir < |t| && (t[dir].name != "" || dir == 0) && name != "" && Names(path)
    requires Find(t, t[dir].kids, name).None? && file < |t|
    requires Resolve(t, from, file, path).Found?
    ensures Resolve(Created(t, dir, name).0, from, file, path) == Resolve(t, from, file, path)
    decreases |path|
  {
    if path != [] {
      var g := Find(t, t[file].kids, path[0]).value;
      OneCreated(t, dir, name, file, path[0]);
      CreatedKeeps(t, dir, name, Some(file), g, path[1..]);
    }
  }

  lemma {:induction false} DirOf(t: Nodes, from: Option<nat>, file: nat, path: seq<string>, dir: nat, name: string)
    requires Names(path) && file < |t| && (t[file].name != "" || file == 0)
    requires Resolve(t, from, file, path) == Missing(Some((dir, name)))
    ensures dir < |t| && t[dir].isDir && (t[dir].name != "" || dir == 0) && Find(t, t[dir].kids, name).None? && name != ""
    decreases |path|
  {
    var found := Find(t, t[file].kids, path[0]);
    if found.Some? { DirOf(t, Some(file), found.value, path[1..], dir, name); }
  }

  lemma {:induction false} OpensCreated(t: Nodes, dir: nat, name: string, from: Option<nat>, file: nat, path: seq<string>)
    requires WellFormed(t) && Names(path) && file < |t| && dir < |t| && (t[dir].name != "" || dir == 0) && name != ""
    requires Find(t, t[dir].kids, name).None?
    requires Resolve(t, from, file, path) == Missing(Some((dir, name)))
    ensures Resolve(Created(t, dir, name).0, from, file, path) == Found(Some(dir), Created(t, dir, name).1)
    decreases |path|
  {
    OneCreated(t, dir, name, file, path[0]);
    var found := Find(t, t[file].kids, path[0]);
    if found.Some? {
      OpensCreated(t, dir, name, Some(file), found.value, path[1..]);
    } else {
      assert path[1..] == [];
    }
  }

  lemma CreatedCreates(t: Nodes, dir: nat, name: string, path: seq<string>)
    requires WellFormed(t) && Names(path) && Resolve(t, None, 0, path) == Missing(Some((dir, name)))
    ensures dir < |t| && Creates(t, Created(t, dir, name).0, dir, name, Created(t, dir, name).1)
  {
    DirOf(t, None, 0, path, dir, name);
    SlotFree(t, dir);
    SlotGives(t, dir);
    var (u, k) := Slot(t, dir);
    assert Named(u, k, name)[k := Named(u, k, name)[k].(name := "")] == u;
  }

  /** file_create keeps names unique, and opening the path afterwards yields the new slot. */
  lemma CreateThenOpen(t: Nodes, dir: nat, name: string, path: seq<string>)
    requires WellFormed(t) && Names(path) && Resolve(t, None, 0, path) == Missing(Some((dir, name)))
    ensures dir < |t| && WellFormed(Created(t, dir, name).0)
    ensures Resolve(Created(t, dir, name).0, None, 0, path) == Found(Some(dir), Created(t, dir, name).1)
  {
    DirOf(t, None, 0, path, dir, name);
    OpensCreated(t, dir, name, None, 0, path);
    SlotFree(t, dir);
    SlotFinds(t, dir, dir, name);
    var (u, k) := Slot(t, dir);
    NamedKeeps(u, dir, k, name);
  }

  // ------------------------------------------------------------------------ remove

  /** file_remove of f: truncated to nothing, and its name cleared. */
  function Removed(t: Nodes, f: nat): Nodes
    requires f < |t|
  {
    t[f := t[f].(name := "", kids := [])]
  }

  lemma RemovedKeeps(t: Nodes, f: nat)
    requires WellFormed(t) && f < |t|
    ensures WellFormed(Removed(t, f))
  {
    var u := Removed(t, f);
    forall d | 0 <= d < |u| ensures KidsOk(u, d) { assert KidsOk(t, d); }
    forall d, e, k | 0 <= d < |u| && 0 <= e < |u| && k in u[d].kids && k in u[e].kids ensures d == e {
      assert k in t[d].kids && k in t[e].kids;
    }
  }

  lemma {:induction false} FindRemoved(t: Nodes, f: nat, kids: seq<nat>, c: string)
    requires f < |t| && c != "" && (f in kids ==> t[f].name != c)
    ensures Find(Removed(t, f), kids, c) == Find(t, kids, c)
  {
    if kids != [] { FindRemoved(t, f, kids[1..], c); }
  }

  /** With unique names a removed name is gone. */
  lemma FindGone(t: Nodes, f: nat, dir: nat, c: string)
    requires WellFormed(t) && dir < |t| && f in t[dir].kids && f < |t| && t[f].name == c && c != ""
    ensures Find(Removed(t, f), t[dir].kids, c).None?
  {
    assert KidsOk(t, dir);
    forall k | k in t[dir].kids && k < |t| ensures Removed(t, f)[k].name != c {
      if k != f {
        var i :| 0 <= i < |t[dir].kids| && t[dir].kids[i] == f;
        var j :| 0 <= j < |t[dir].kids| && t[dir].kids[j] == k;
        assert i < j || j < i;
      }
    }
  }

  /** A path goes down one level with every component. */
  lemma {:induction false} GoesDown(t: Nodes, from: Option<nat>, file: nat, path: seq<string>)
    requires WellFormed(t) && file < |t| && Resolve(t, from, file, path).Found?
    ensures var w := Resolve(t, from, file, path); w.file < |t| && t[w.file].depth == t[file].depth + |path|
    decreases |path|
  {
    if path != [] {
      FoundKid(t, file, path[0]);
      GoesDown(t, Some(file), Find(t, t[file].kids, path[0]).value, path[1..]);
    }
  }

  /** A lookup that does not end at f is not changed by its removal. */
  lemma OneRemoved(t: Nodes, f: nat, d: nat, c: string)
    requires WellFormed(t) && f < |t| && d < |t| && d != f && c != "" && Find(t, t[d].kids, c) != Some(f)
    ensures Find(Removed(t, f), Removed(t, f)[d].kids, c) == Find(t, t[d].kids, c)
  {
    if f in t[d].kids && t[f].name == c {
      Unique(t, d, f, c);
    } else {
      FindRemoved(t, f, t[d].kids, c);
    }
  }

  /** With unique names the lookup of a name finds its only bearer. */
  lemma Unique(t: Nodes, d: nat, f: nat, c: string)
    requires WellFormed(t) && d < |t| && f in t[d].kids && f < |t| && t[f].name == c && c != ""
    ensures Find(t, t[d].kids, c) == Some(f)
  {
    assert KidsOk(t, d);
    var r := Find(t, t[d].kids, c).value;
    var i :| 0 <= i < |t[d].kids| && t[d].kids[i] == f;
    var j :| 0 <= j < |t[d].kids| && t[d].kids[j] == r;
  }

  lemma {:induction false} OpensRemoved(t: Nodes, f: nat, from: Option<nat>, file: nat, path: seq<string>)
    requires WellFormed(t) && Names(path) && file < |t| && path != [] && 0 < f < |t|
    requires Resolve(t, from, file, path).Found? && Resolve(t, from, file, path).file == f
    ensures Resolve(t, from, file, path).dir.Some?
    ensures Resolve(Removed(t, f), from, file, path) == Missing(Some((Resolve(t, from, file, path).dir.value, path[|path| - 1])))
    decreases |path|
  {
    var g := Find(t, t[file].kids, path[0]).value;
    GoesDown(t, from, file, path);
    FoundKid(t, file, path[0]);
    if |path| == 1 {
      assert path[1..] == [];
      FindGone(t, f, file, path[0]);
    } else {
      GoesDown(t, Some(file), g, path[1..]);
      OneRemoved(t, f, file, path[0]);
      OpensRemoved(t, f, Some(file), g, path[1..]);
    }
  }

  /** file_remove keeps names unique, and opening the path afterwards finds nothing but the
      directory the file was in. */
  lemma RemoveThenOpen(t: Nodes, f: nat, dir: Option<nat>, path: seq<string>)
    requires WellFormed(t) && Names(path) && path != [] && Resolve(t, None, 0, path) == Found(dir, f)
    ensures 0 < f < |t| && dir.Some? && WellFormed(Removed(t, f))
    ensures Resolve(Removed(t, f), None, 0, path) == Missing(Some((dir.value, path[|path| - 1])))
  {
    GoesDown(t, None, 0, path);
    RemovedKeeps(t, f);
    OpensRemoved(t, f, None, 0, path);
  }

  /** Removing the root empties the file system: it stays open itself, and nothing else is. */
  lemma RemoveRoot(t: Nodes, path: seq<string>)
    requires WellFormed(t)
    ensures WellFormed(Removed(t, 0))
    ensures Resolve(Removed(t, 0), None, 0, path).Found? <==> path == []
  {
    RemovedKeeps(t, 0);
  }

  /** Removing a file that is not a directory keeps what every other path names. */
  lemma {:induction false} RemovedOthers(t: Nodes, f: nat, from: Option<nat>, file: nat, path: seq<string>)
    requires WellFormed(t) && Names(path) && file < |t| && 0 < f < |t| && !t[f].isDir && file != f
    requires Resolve(t, from, file, path).Found? && Resolve(t, from, file, path).file != f
    ensures Resolve(Removed(t, f), from, file, path) == Resolve(t, from, file, path)
    decreases |path|
  {
    if path != [] {
      var g := Find(t, t[file].kids, path[0]).value;
      OneRemoved(t, f, file, path[0]);
      RemovedOthers(t, f, Some(file), g, path[1..]);
    }
  }
}

/** The directory functions of fs/fs.c on File structures that are updated in place. */
module Paths {
  import opened Prelude
  import opened Tree

  datatype Error = FileExists | BadName | NotFound

  datatype Result<+T> = Ok(value: T) | Err(error: Error)

  class Directories {
    var nodes: Nodes

    /** A formatted disk: the root directory, empty. */
    constructor ()
      ensures WellFormed(nodes) && nodes == [Node("", true, [], 0)]
    {
      nodes := [Node("", true, [], 0)];
    }

    /** dir_lookup: all File structures of all blocks, in order. */
    method DirLookup(dir: nat, name: string) returns (r: Option<nat>)
      requires WellFormed(nodes) && dir < |nodes|
      ensures r == Find(nodes, nodes[dir].kids, name)
    {
      var kids := nodes[dir].kids;
      assert KidsOk(nodes, dir);
      var i := 0;
      while i < |kids|
        invariant 0 <= i <= |kids| && Find(nodes, kids, name) == Find(nodes, kids[i..], name)
      {
        if nodes[kids[i]].name == name {
          return Some(kids[i]);
        }
        i := i + 1;
      }
      return None;
    }

    /** dir_alloc_file: the first free structure, or the first of a new, zeroed block. */
    method DirAllocFile(dir: nat) returns (k: nat)
      requires WellFormed(nodes) && dir < |nodes|
      modifies this
      ensures (nodes, k) == Slot(old(nodes), dir) && GivesSlot(old(nodes), nodes, dir, k)
    {
      SlotGives(nodes, dir);
      var free := DirLookup(dir, "");
      if free.Some? {
        return free.value;
      }
      k := |nodes|;
      nodes := Grown(nodes, dir);
    }

    /** skip_slash. */
    static method SkipFrom(path: string, start: nat) returns (i: nat)
      requires start <= |path|
      ensures start <= i <= |path| && path[i..] == SkipSlash(path[start..])
      ensures i < |path| ==> path[i] != '/'
    {
      i := start;
      while i < |path| && path[i] == '/'
        invariant start <= i <= |path| && SkipSlash(path[i..]) == SkipSlash(path[start..])
      {
        i := i + 1;
      }
    }

    /** The scan of walk_path to the end of a component. */
    static method ScanFrom(path: string, start: nat) returns (i: nat)
      requires start <= |path|
      ensures start <= i <= |path| && path[start..i] == Head(path[start..])
    {
      i := start;
      while i < |path| && path[i] != '/'
        invariant start <= i <= |path|
        invariant forall k :: start <= k < i ==> path[k] != '/'
      {
        i := i + 1;
      }
      HeadIs(path, start, i);
    }

    /** One round of walk_path's loop: the component at p and the beginning of the next. */
    static method Component(path: string, p: nat) returns (name: string, i: nat)
      requires p < |path| && path[p] != '/'
      ensures p < i <= |path| && (i < |path| ==> path[i] != '/')
      ensures Components(path[p..]) == [name] + Components(path[i..]) && (Components(path[i..]) == [] <==> i == |path|)
    {
      HeadShape(path[p..]);
      NextComponent(path[p..]);
      var e := ScanFrom(path, p);
      name := path[p..e];
      assert path[p..][|name|..] == path[e..];
      i := SkipFrom(path, e);
    }

    /** walk_path: it looks up the components of the path, one after the other, from the root. */
    method WalkPath(path: string) returns (r: Walk)
      requires WellFormed(nodes)
      ensures r == Resolve(nodes, None, 0, Components(path))
    {
      var i := SkipFrom(path, 0);
      assert path[0..] == path;
      ComponentsSkip(path);
      var dir: Option<nat>, file: nat := None, 0;
      while i < |path|
        invariant i <= |path| && file < |nodes| && (i < |path| ==> path[i] != '/')
        invariant Resolve(nodes, None, 0, Components(path)) == Resolve(nodes, dir, file, Components(path[i..]))
      {
        dir := Some(file);
        var name;
        name, i := Component(path, i);
        if |name| >= MAXNAMELEN {
          return BadPath;
        }
        if !nodes[file].isDir {
          return Missing(None);
        }
        var found := DirLookup(file, name);
        if found.None? {
          return Missing(if i == |path| then Some((file, name)) else None);
        }
        file := found.value;
      }
      r := Found(dir, file);
    }

    /** file_create. */
    method FileCreate(path: string) returns (r: Result<nat>)
      requires WellFormed(nodes)
      modifies this
      ensures WellFormed(nodes)
      ensures match Resolve(old(nodes), None, 0, Components(path))
        case Found(_, _) => r == Err(FileExists) && nodes == old(nodes)
        case BadPath => r == Err(BadName) && nodes == old(nodes)
        case Missing(None) => r == Err(NotFound) && nodes == old(nodes)
        case Missing(Some((dir, name))) =>
          && dir < |old(nodes)| && (nodes, r) == (Created(old(nodes), dir, name).0, Ok(Created(old(nodes), dir, name).1))
          && Creates(old(nodes), nodes, dir, name, r.value)
    {
      var walk := WalkPath(path);
      match walk {
        case Found(_, _) => return Err(FileExists);
        case BadPath => return Err(BadName);
        case Missing(None) => return Err(NotFound);
        case Missing(Some((dir, name))) =>
          ComponentsShape(path);
          CreateThenOpen(nodes, dir, name, Components(path));
          CreatedCreates(nodes, dir, name, Components(path));
          var k := DirAllocFile(dir);
          nodes := Named(nodes, k, name);
          r := Ok(k);
      }
    }

    /** file_remove; truncates says whether file_truncate of the file to size 0 returns, which
        Fs.FileTruncate decides.  None is the stop of the server. */
    method FileRemove(path: string, truncates: bool) returns (r: Option<Result<nat>>)
      requires WellFormed(nodes)
      modifies this
      ensures WellFormed(nodes)
      ensures match Resolve(old(nodes), None, 0, Components(path))
        case Found(_, f) => f < |old(nodes)| && if truncates then r == Some(Ok(f)) && nodes == Removed(old(nodes), f) else r == None
        case BadPath => r == Some(Err(BadName)) && nodes == old(nodes)
        case Missing(_) => r == Some(Err(NotFound)) && nodes == old(nodes)
    {
      var walk := WalkPath(path);
      match walk {
        case BadPath => return Some(Err(BadName));
        case Missing(_) => return Some(Err(NotFound));
        case Found(dir, f) =>
          ComponentsShape(path);
          if Components(path) == [] {
            RemoveRoot(nodes, []);
          } else {
            RemoveThenOpen(nodes, f, dir, Components(path));
          }
          if !truncates {
            return None;
          }
          nodes := nodes[f := nodes[f].(kids := [])];
          nodes := nodes[f := nodes[f].(name := "")];
          assert nodes == Removed(old(nodes), f);
          r := Some(Ok(f));
      }
    }
  }
}
