/** The nested directories of one mount, linked and filled in place (datasetfs/plan.go,
`tree.add` and the file loop of `Plan.Validate`).

`add` walks down from the root and makes the directories that are missing as it goes.  A refused
file still leaves no trace: past the first directory it makes, nothing can conflict any more. */
module MountFiles {
  import opened Kernel
  import opened MountTree

  /** The source's `tree`. */
  class Node {
    var dirs: map<string, Node>
    var files: map<string, File>

    constructor ()
      ensures dirs == map[] && files == map[]
    {
      dirs, files := map[], map[];
    }
  }

  function Parent(p: Path): Path
    requires p != []
  {
    p[..|p| - 1]
  }

  function Name(p: Path): string
    requires p != []
  {
    p[|p| - 1]
  }

  /** Adding fails only over a file on the way, or a file or directory at the place itself. */
  ghost predicate Unobstructed(t: Tree, p: Path)
    requires p != []
  {
    !DirAt(t, p) && ClearTo(t, p, |p|)
  }

  lemma {:induction false} AddSucceedsUnobstructed(t: Tree, p: Path, f: File)
    requires p != []
    ensures Add(t, p, f).Success? <==> Unobstructed(t, p)
    decreases |p|
  {
    if |p| == 1 {
      assert p[..1] == p;
      assert p[0] in t.dirs <==> DirAt(t, p);
    } else {
      var below := if p[0] in t.dirs then t.dirs[p[0]] else EMPTY;
      AddSucceedsUnobstructed(below, p[1..], f);
      forall k | 1 < k <= |p| ensures FileAt(t, p[..k]) == FileAt(below, p[1..][..k - 1]) {
        assert p[..k][1..] == p[1..][..k - 1];
      }
      assert p[..1] == [p[0]];
      if Unobstructed(t, p) {
        forall k | 0 < k <= |p[1..]| ensures FileAt(below, p[1..][..k]).None? {
          assert FileAt(t, p[..k + 1]).None?;
        }
      }
      if Unobstructed(below, p[1..]) && p[0] !in t.files {
        forall k | 0 < k <= |p| ensures FileAt(t, p[..k]).None? {
          assert k > 1 ==> FileAt(below, p[1..][..k - 1]).None?;
        }
      }
    }
  }

  lemma Rejoined(p: Path)
    requires p != []
    ensures p == Parent(p) + [Name(p)]
  {}

  /** With every path its parent. */
  ghost predicate Closed<T>(nodes: map<Path, T>)
  {
    forall p :: p in nodes && p != [] ==> Parent(p) in nodes
  }

  ghost predicate OneToOne<T>(nodes: map<Path, T>)
  {
    forall p, q :: p in nodes && q in nodes && nodes[p] == nodes[q] ==> p == q
  }

  lemma OneToOneAfter<T>(nodes: map<Path, T>, p: Path, next: T)
    requires OneToOne(nodes) && next !in nodes.Values
    ensures OneToOne(nodes[p := next])
  {
    forall q | q in nodes ensures nodes[q] != next {
      assert nodes[q] in nodes.Values;
    }
  }

  /** Where the entries of all directories are, after one more is registered. */
  lemma EntriesAfter<T>(nodes: map<Path, T>, p: Path, part: string, next: T, x: Path, d: string)
    requires Closed(nodes) && p in nodes && p + [part] !in nodes
    ensures var now := nodes[p + [part] := next];
      && Closed(now)
      && (x + [d] in now <==> x + [d] in nodes || (x == p && d == part))
      && (x + [d] in nodes ==> now[x + [d]] == nodes[x + [d]])
      && (x == p + [part] ==> x + [d] !in now)
  {
    assert Parent(x + [d]) == x && Parent(p + [part]) == p;
    assert Name(x + [d]) == d && Name(p + [part]) == part;
  }

  /** No file stands on the way, up to a depth. */
  ghost predicate ClearTo(t: Tree, p: Path, i: nat)
    requires i <= |p|
  {
    forall k :: 0 < k <= i ==> FileAt(t, p[..k]).None?
  }

  /** `q` is `p` or a directory above it. */
  predicate OnTheWay(q: Path, p: Path)
  {
    q <= p
  }

  lemma NextOnTheWay(p: Path, part: string)
    ensures forall q :: OnTheWay(q, p + [part]) <==> OnTheWay(q, p) || q == p + [part]
  {
    forall q ensures OnTheWay(q, p + [part]) <==> OnTheWay(q, p) || q == p + [part] {
      if OnTheWay(q, p + [part]) && |q| <= |p| {
        assert q == (p + [part])[..|q|] == p[..|q|];
      }
    }
  }

  class Mount {
    var root: Node
    /** The node of every directory, by its path. */
    ghost var nodes: map<Path, Node>
    /** The tree that the nodes are. */
    ghost var model: Tree

    /** The entry of a directory and the node registered for it are the same. */
    ghost predicate Linked(p: Path, d: string)
      reads this`nodes, nodes.Values
    {
      p in nodes ==>
        && (d in nodes[p].dirs <==> p + [d] in nodes)
        && (d in nodes[p].dirs ==> nodes[p].dirs[d] == nodes[p + [d]])
    }

    /** The nodes form a tree under the root: no node is reached by two paths. */
    ghost predicate Shaped()
      reads this`nodes, this`root, nodes.Values
    {
      && [] in nodes && nodes[[]] == root
      && OneToOne(nodes)
      && Closed(nodes)
      && (forall p, d :: Linked(p, d))
    }

    ghost function FileHere(p: Path): Option<File>
      reads this`nodes, nodes.Values
    {
      if p != [] && Parent(p) in nodes && Name(p) in nodes[Parent(p)].files
      then Some(nodes[Parent(p)].files[Name(p)]) else None
    }

    ghost predicate Holds(t: Tree)
      reads this`nodes, nodes.Values
    {
      && (forall p :: p in nodes <==> DirAt(t, p))
      && (forall p :: FileHere(p) == FileAt(t, p))
    }

    ghost predicate Valid()
      reads this, nodes.Values
    {
      Shaped() && Holds(model)
    }

    constructor ()
      ensures Valid() && model == EMPTY && fresh(nodes.Values)
    {
      root := new Node();
      nodes := map[[] := root];
      model := EMPTY;
    }

    /** The directories so far are those there were and the ones on the way to `p`; no file has
    moved, and a directory made on the way is empty. */
    ghost predicate Walked(was: map<Path, Node>, p: Path, at: Node)
      reads this, nodes.Values
    {
      && Shaped() && p in nodes && nodes[p] == at
      && (forall q :: q in nodes <==> q in was || OnTheWay(q, p))
      && (forall q :: FileHere(q) == FileAt(model, q))
      && (p in was ==> nodes == was)
      && (p !in was ==> at.files == map[] && at.dirs == map[])
    }

    /** A directory that was missing, empty. */
    method MakeDir(at: Node, ghost p: Path, part: string) returns (next: Node)
      requires Shaped() && p in nodes && nodes[p] == at && part !in at.dirs && part !in at.files
      modifies this`nodes, at`dirs
      ensures Shaped() && part in at.dirs && at.dirs[part] == next && fresh(next)
      ensures p + [part] !in old(nodes) && nodes == old(nodes)[p + [part] := next]
      ensures next.dirs == map[] && next.files == map[]
      ensures forall q :: FileHere(q) == old(FileHere(q))
    {
      ghost var below := p + [part];
      assert Parent(below) == p && Name(below) == part && Linked(p, part);
      next := new Node();
      OneToOneAfter(nodes, below, next);
      at.dirs := at.dirs[part := next];
      nodes := nodes[below := next];
      forall x, d ensures Linked(x, d) {
        assert old(Linked(x, d));
        EntriesAfter(old(nodes), p, part, next, x, d);
      }
    }

    /** One directory further, made if it is not there. */
    method Descend(at: Node, ghost p: Path, part: string, ghost was: map<Path, Node>) returns (next: Node)
      requires Walked(was, p, at) && part !in at.files
      requires Closed(was)
      modifies this`nodes, at`dirs
      ensures Walked(was, p + [part], next)
      ensures fresh(nodes.Values - old(nodes.Values))
    {
      ghost var below := p + [part];
      NextOnTheWay(p, part);
      assert Parent(below) == p && Name(below) == part;
      assert Linked(p, part);
      if part in at.dirs {
        next := at.dirs[part];
      } else {
        next := MakeDir(at, p, part);
      }
    }

    lemma Starts()
      requires Valid()
      ensures Walked(nodes, [], root)
    {}

    lemma OneFurther(was: map<Path, Node>, p: Path, i: nat, at: Node)
      requires i < |p| && Walked(was, p[..i], at) && ClearTo(model, p, i)
      ensures p[..i + 1] == p[..i] + [p[i]]
      ensures if p[i] in at.files then nodes == was && FileAt(model, p[..i + 1]).Some? else ClearTo(model, p, i + 1)
    {
      assert p[..i + 1] == p[..i] + [p[i]];
      assert Parent(p[..i + 1]) == p[..i] && Name(p[..i + 1]) == p[i];
      assert FileHere(p[..i + 1]) == FileAt(model, p[..i + 1]);
    }

    /** The directory of the place of `p`, unless a file is in the way. */
    method Walk(p: Path) returns (r: Option<Node>)
      requires Valid() && p != []
      modifies this`nodes, nodes.Values
      ensures fresh(nodes.Values - old(nodes.Values))
      ensures r.None? ==> Valid() && nodes == old(nodes) && !ClearTo(model, p, |p| - 1)
      ensures r.Some? ==> Walked(old(nodes), Parent(p), r.value) && ClearTo(model, p, |p| - 1)
    {
      ghost var was := nodes;
      Starts();
      var at := root;
      for i := 0 to |p| - 1
        invariant Walked(was, p[..i], at) && (nodes == was ==> Valid())
        invariant fresh(nodes.Values - old(nodes.Values))
        invariant ClearTo(model, p, i)
      {
        OneFurther(was, p, i, at);
        if p[i] in at.files {
          return None;
        }
        at := Descend(at, p[..i], p[i], was);
      }
      return Some(at);
    }

    /** The place is taken, by a file or a directory; or the file can be put there. */
    lemma Place(was: map<Path, Node>, p: Path, at: Node)
      requires p != [] && Walked(was, Parent(p), at) && ClearTo(model, p, |p| - 1)
      requires forall q :: q in was <==> DirAt(model, q)
      ensures (Name(p) in at.dirs || Name(p) in at.files) ==> Valid() && nodes == was && !Unobstructed(model, p)
      ensures !(Name(p) in at.dirs || Name(p) in at.files) ==> p !in nodes && Unobstructed(model, p)
    {
      assert p == Parent(p) + [Name(p)] && p[..|p|] == p;
      assert Linked(Parent(p), Name(p));
      assert FileHere(p) == FileAt(model, p);
      NextOnTheWay(Parent(p), Name(p));
    }

    method Put(at: Node, ghost p: Path, name: string, f: File)
      requires Shaped() && p in nodes && nodes[p] == at
      modifies at`files
      ensures Shaped()
      ensures forall q :: FileHere(q) == if q == p + [name] then Some(f) else old(FileHere(q))
    {
      at.files := at.files[name := f];
      forall x, d ensures Linked(x, d) {
        assert old(Linked(x, d));
      }
      forall q ensures FileHere(q) == if q == p + [name] then Some(f) else old(FileHere(q)) {
        assert q != [] ==> q == Parent(q) + [Name(q)];
        assert Parent(p + [name]) == p && Name(p + [name]) == name;
      }
    }

    lemma Becomes(was: map<Path, Node>, before: Tree, p: Path, f: File)
      requires p != [] && Add(before, p, f).Success?
      requires forall q :: q in was <==> DirAt(before, q)
      requires forall q :: q in nodes <==> q in was || OnTheWay(q, Parent(p))
      requires forall q :: FileHere(q) == if q == p then Some(f) else FileAt(before, q)
      ensures Holds(Add(before, p, f).value)
    {
      NextOnTheWay(Parent(p), Name(p));
      assert p == Parent(p) + [Name(p)];
      forall q ensures q in nodes <==> DirAt(Add(before, p, f).value, q) {
        AddedDirs(before, p, f, q);
        assert OnTheWay(q, p) <==> q < p || q == p;
        assert OnTheWay(q, Parent(p)) <==> q < p;
      }
      forall q ensures FileHere(q) == FileAt(Add(before, p, f).value, q) {
        AddDenotes(before, p, f, q);
      }
    }

    /** `tree.add` below the cleaned path. */
    method AddParts(p: Path, f: File) returns (ok: bool)
      requires Valid() && p != []
      modifies this`nodes, this`model, nodes.Values
      ensures Valid() && fresh(nodes.Values - old(nodes.Values))
      ensures ok <==> Add(old(model), p, f).Success?
      ensures model == if ok then Add(old(model), p, f).value else old(model)
      ensures !ok ==> nodes == old(nodes)
    {
      AddSucceedsUnobstructed(model, p, f);
      ghost var was := nodes;
      var at := Walk(p);
      if at.None? {
        return false;
      }
      Place(was, p, at.value);
      if Name(p) in at.value.dirs || Name(p) in at.value.files {
        return false;
      }
      Rejoined(p);
      Put(at.value, Parent(p), Name(p), f);
      Becomes(was, model, p, f);
      model := Add(model, p, f).value;
      return true;
    }

    /** `tree.add`. */
    method AddFile(file: Named) returns (failure: Option<ErrorCode>)
      requires Valid()
      modifies this`nodes, this`model, nodes.Values
      ensures Valid() && fresh(nodes.Values - old(nodes.Values))
      ensures failure.None? <==> Clean(file.path).Some? && Add(old(model), Clean(file.path).value, file.file).Success?
      ensures failure.None? ==> Success(model) == Add(old(model), Clean(file.path).value, file.file)
      ensures failure.Some? ==> model == old(model) && nodes == old(nodes)
    {
      var path := Clean(file.path);
      if path.None? {
        return Some(UsageInvalid);
      }
      var ok := AddParts(path.value, file.file);
      return if ok then None else Some(UsageInvalid);
    }
  }

  // ------------------------------------------------------------------------- a mount's files

  datatype Named = Named(path: string, file: File)

  ghost predicate AllClean(files: seq<Named>)
  {
    forall k :: 0 <= k < |files| ==> Clean(files[k].path).Some?
  }

  ghost function EntriesOf(files: seq<Named>): (r: seq<Entry>)
    requires AllClean(files)
    ensures |r| == |files|
    ensures forall k :: 0 <= k < |files| ==> r[k] == Entry(Clean(files[k].path).value, files[k].file)
    ensures forall e :: e in r ==> e.path != []
  {
    seq(|files|, k requires 0 <= k < |files| => Entry(Clean(files[k].path).value, files[k].file))
  }

  /** The paths clean up, and no two of them name the same place or one a directory of another. */
  ghost predicate Buildable(files: seq<Named>)
  {
    AllClean(files) && Separate(EntriesOf(files))
  }

  lemma NextEntry(files: seq<Named>, i: nat)
    requires i < |files| && AllClean(files[..i]) && Clean(files[i].path).Some?
    ensures AllClean(files[..i + 1])
    ensures EntriesOf(files[..i + 1]) == EntriesOf(files[..i]) + [Entry(Clean(files[i].path).value, files[i].file)]
    ensures EntriesOf(files[..i + 1])[..i] == EntriesOf(files[..i])
  {
    assert files[..i + 1] == files[..i] + [files[i]];
    EntriesThen(files[..i], files[i]);
  }

  lemma EntriesThen(front: seq<Named>, last: Named)
    requires AllClean(front) && Clean(last.path).Some?
    ensures AllClean(front + [last])
    ensures EntriesOf(front + [last]) == EntriesOf(front) + [Entry(Clean(last.path).value, last.file)]
  {
    var all := front + [last];
    assert forall k :: 0 <= k < |front| ==> all[k] == front[k];
    assert forall k :: 0 <= k < |front| ==> EntriesOf(all)[k] == EntriesOf(front)[k];
  }

  lemma NotBuildable(files: seq<Named>, n: nat)
    requires n <= |files| && !Buildable(files[..n])
    ensures !Buildable(files)
  {
    if AllClean(files) {
      assert EntriesOf(files[..n]) == EntriesOf(files)[..n];
      NotSeparate(EntriesOf(files), n);
    }
  }

  /** The files of one mount, added one by one: accepted exactly when their cleaned paths are
  apart, and then the nodes are exactly that tree of files, without an empty directory. */
  method Build(files: seq<Named>) returns (r: Result<Mount>)
    ensures r.Success? <==> Buildable(files)
    ensures r.Success? ==> fresh(r.value) && r.value.Valid()
    ensures r.Success? ==> Denotes(r.value.model, EntriesOf(files)) && NoEmptyDirs(r.value.model)
  {
    var mount := new Mount();
    for i := 0 to |files|
      invariant fresh(mount) && fresh(mount.nodes.Values) && mount.Valid()
      invariant AllClean(files[..i]) && AddAll(EMPTY, EntriesOf(files[..i])) == Success(mount.model)
    {
      AddsNext(files, i, mount.model);
      var failure := mount.AddFile(files[i]);
      if failure.Some? {
        return Failure(failure.value);
      }
    }
    AddedAll(files, mount.model);
    return Success(mount);
  }

  predicate Accepts(t: Tree, file: Named)
  {
    Clean(file.path).Some? && Add(t, Clean(file.path).value, file.file).Success?
  }

  lemma AddAllNext(entries: seq<Entry>, e: Entry, t: Tree)
    requires (forall x :: x in entries ==> x.path != []) && e.path != [] && AddAll(EMPTY, entries) == Success(t)
    ensures AddAll(EMPTY, entries + [e]) == Add(t, e.path, e.file)
  {
    assert (entries + [e])[..|entries|] == entries;
  }

  lemma AddsNext(files: seq<Named>, i: nat, t: Tree)
    requires i < |files| && AllClean(files[..i]) && AddAll(EMPTY, EntriesOf(files[..i])) == Success(t)
    ensures Accepts(t, files[i]) ==> AllClean(files[..i + 1])
    ensures Accepts(t, files[i]) ==> AddAll(EMPTY, EntriesOf(files[..i + 1])) == Add(t, Clean(files[i].path).value, files[i].file)
    ensures !Accepts(t, files[i]) ==> !Buildable(files)
  {
    if Clean(files[i].path).None? {
      assert !AllClean(files);
    } else {
      NextEntry(files, i);
      AddAllNext(EntriesOf(files[..i]), Entry(Clean(files[i].path).value, files[i].file), t);
      if !Accepts(t, files[i]) {
        Refused(files, i);
      }
    }
  }

  lemma Refused(files: seq<Named>, i: nat)
    requires i < |files| && AllClean(files[..i + 1]) && AddAll(EMPTY, EntriesOf(files[..i + 1])).Failure?
    ensures !Buildable(files)
  {
    AddAllMeans(EntriesOf(files[..i + 1]));
    NotBuildable(files, i + 1);
  }

  lemma AddedAll(files: seq<Named>, t: Tree)
    requires AllClean(files[..|files|]) && AddAll(EMPTY, EntriesOf(files[..|files|])) == Success(t)
    ensures Buildable(files) && Denotes(t, EntriesOf(files)) && NoEmptyDirs(t)
  {
    assert files[..|files|] == files;
    AddAllMeans(EntriesOf(files));
  }
}
