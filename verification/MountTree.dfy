/** The file tree of one mount and the paths of the mounts (datasetfs/plan.go). */
module MountTree {
  import opened Kernel

  type Path = seq<string>
  type File = string

  datatype Tree = Tree(dirs: map<string, Tree>, files: map<string, File>)

  const EMPTY := Tree(map[], map[])

  // ------------------------------------------------------------------------------ paths

  function Split(s: string): (r: Path)
    ensures |r| >= 1
    ensures forall part :: part in r ==> '/' !in part
  {
    if s == "" then [""]
    else
      var rest := Split(s[1..]);
      if s[0] == '/' then [""] + rest else [[s[0]] + rest[0]] + rest[1..]
  }

  function NonEmpty(parts: Path): (r: Path)
    ensures forall part :: part in r <==> part in parts && part != ""
  {
    if parts == [] then []
    else (if parts[0] != "" then [parts[0]] else []) + NonEmpty(parts[1..])
  }

  /** A path as it may be given: relative, without dots, NUL or backslash; cleaned, its non-empty
  parts.  There is no clean form of a path without parts. */
  function Clean(value: string): (r: Option<Path>)
    ensures r.Some? ==> CleanPath(r.value)
  {
    var trimmed := TrimSpace(value);
    var parts := Split(trimmed);
    if (trimmed != "" && trimmed[0] == '/') || '\0' in trimmed || '\\' in trimmed then None
    else if ".." in parts || "." in parts then None
    else if NonEmpty(parts) == [] then None
    else Some(NonEmpty(parts))
  }

  predicate CleanPath(p: Path)
  {
    p != [] && forall part :: part in p ==> part != "" && part != "." && part != ".." && '/' !in part
  }

  /** The two paths cannot both name files of one tree. */
  predicate Nested(p: Path, q: Path)
  {
    p <= q || q <= p
  }

  // ------------------------------------------------------------------------------ the tree

  function FileAt(t: Tree, p: Path): Option<File>
    decreases |p|
  {
    if p == [] then None
    else if |p| == 1 then (if p[0] in t.files then Some(t.files[p[0]]) else None)
    else if p[0] in t.dirs then FileAt(t.dirs[p[0]], p[1..])
    else None
  }

  predicate DirAt(t: Tree, p: Path)
    decreases |p|
  {
    p == [] || (p[0] in t.dirs && DirAt(t.dirs[p[0]], p[1..]))
  }

  /** `tree.add` below the cleaned path. */
  function Add(t: Tree, p: Path, f: File): Result<Tree>
    requires p != []
    decreases |p|
  {
    if |p| == 1 then
      if p[0] in t.dirs || p[0] in t.files then Failure(UsageInvalid)
      else Success(t.(files := t.files[p[0] := f]))
    else if p[0] in t.files then Failure(UsageInvalid)
    else
      var below := if p[0] in t.dirs then t.dirs[p[0]] else EMPTY;
      var added :- Add(below, p[1..], f);
      Success(t.(dirs := t.dirs[p[0] := added]))
  }

  /** Every directory but the root has a file somewhere below it. */
  ghost predicate NoEmptyDirs(t: Tree)
  {
    forall p :: p != [] && DirAt(t, p) ==> HasFileBelow(t, p)
  }

  ghost predicate HasFileBelow(t: Tree, p: Path)
  {
    exists q :: p < q && FileAt(t, q).Some?
  }

  /** Nothing in the tree stands in the way of the path. */
  ghost predicate Free(t: Tree, p: Path)
  {
    forall q :: FileAt(t, q).Some? ==> !Nested(p, q)
  }

  lemma {:induction false} FileBelow(t: Tree, d: string, q: Path)
    requires d in t.dirs && q != []
    ensures FileAt(t, [d] + q) == FileAt(t.dirs[d], q)
  {
    assert ([d] + q)[1..] == q;
  }

  lemma DirBelow(t: Tree, d: string, q: Path)
    requires d in t.dirs
    ensures DirAt(t, [d] + q) == DirAt(t.dirs[d], q)
  {
    assert ([d] + q)[1..] == q;
  }

  lemma SubtreeHasNoEmptyDirs(t: Tree, d: string)
    requires NoEmptyDirs(t) && d in t.dirs
    ensures NoEmptyDirs(t.dirs[d])
    ensures exists q :: q != [] && FileAt(t.dirs[d], q).Some?
  {
    forall p | p != [] && DirAt(t.dirs[d], p) ensures HasFileBelow(t.dirs[d], p) {
      DirBelow(t, d, p);
      assert HasFileBelow(t, [d] + p);
      var q :| [d] + p < q && FileAt(t, q).Some?;
      assert q == [d] + q[1..];
      FileBelow(t, d, q[1..]);
      assert p < q[1..];
    }
    assert DirAt(t, [d]);
    assert HasFileBelow(t, [d]);
    var q :| [d] < q && FileAt(t, q).Some?;
    assert q == [d] + q[1..];
    FileBelow(t, d, q[1..]);
  }

  lemma NestedBelow(d: string, p: Path, q: Path)
    ensures Nested([d] + p, [d] + q) <==> Nested(p, q)
  {
    assert ([d] + p)[1..] == p && ([d] + q)[1..] == q;
    if [d] + p <= [d] + q { assert p <= q; }
    if [d] + q <= [d] + p { assert q <= p; }
    if p <= q { assert [d] + p <= [d] + q; }
    if q <= p { assert [d] + q <= [d] + p; }
  }

  /** Free in the tree is free in the part of it below the first name. */
  lemma FreeBelow(t: Tree, p: Path)
    requires |p| > 1 && p[0] !in t.files
    ensures Free(t, p) <==> Free(if p[0] in t.dirs then t.dirs[p[0]] else EMPTY, p[1..])
  {
    var d, rest := p[0], p[1..];
    assert p == [d] + rest;
    var below := if d in t.dirs then t.dirs[d] else EMPTY;
    if Free(t, p) {
      forall q | FileAt(below, q).Some? ensures !Nested(rest, q) {
        assert d in t.dirs;
        FileBelow(t, d, q);
        NestedBelow(d, rest, q);
      }
    }
    if Free(below, rest) {
      forall q | FileAt(t, q).Some? ensures !Nested(p, q) {
        if q[0] == d {
          assert |q| > 1 && q == [d] + q[1..];
          FileBelow(t, d, q[1..]);
          NestedBelow(d, rest, q[1..]);
        }
      }
    }
  }

  /** Adding succeeds exactly when no file of the tree has the path, a prefix of it, or lies below it. */
  lemma {:induction false} AddSucceedsIff(t: Tree, p: Path, f: File)
    requires p != [] && NoEmptyDirs(t)
    ensures Add(t, p, f).Success? <==> Free(t, p)
    decreases |p|
  {
    if |p| == 1 {
      assert p == [p[0]];
      if p[0] in t.dirs {
        assert DirAt(t, p);
        assert HasFileBelow(t, p);
      } else if p[0] in t.files {
        assert FileAt(t, p).Some? && Nested(p, p);
      } else {
        forall q | FileAt(t, q).Some? ensures !Nested(p, q) {
          assert q[0] != p[0];
        }
      }
    } else if p[0] in t.files {
      assert FileAt(t, [p[0]]).Some? && [p[0]] <= p;
      assert Nested(p, [p[0]]);
    } else {
      var below := if p[0] in t.dirs then t.dirs[p[0]] else EMPTY;
      if p[0] in t.dirs { SubtreeHasNoEmptyDirs(t, p[0]); }
      AddSucceedsIff(below, p[1..], f);
      FreeBelow(t, p);
    }
  }

  /** An added tree is the old one with one more file, and still has no empty directory. */
  lemma {:induction false} AddDenotes(t: Tree, p: Path, f: File, q: Path)
    requires p != [] && Add(t, p, f).Success?
    ensures FileAt(Add(t, p, f).value, q) == if q == p then Some(f) else FileAt(t, q)
    decreases |p|
  {
    var r := Add(t, p, f).value;
    if |p| > 1 && |q| > 1 && q[0] == p[0] {
      var below := if p[0] in t.dirs then t.dirs[p[0]] else EMPTY;
      AddDenotes(below, p[1..], f, q[1..]);
      assert r.dirs[p[0]] == Add(below, p[1..], f).value;
      assert p == [p[0]] + p[1..] && q == [q[0]] + q[1..];
    }
  }

  lemma {:induction false} AddedDirs(t: Tree, p: Path, f: File, q: Path)
    requires p != [] && Add(t, p, f).Success?
    ensures DirAt(Add(t, p, f).value, q) <==> DirAt(t, q) || q < p
    decreases |p|
  {
    var r := Add(t, p, f).value;
    if q == [] {
    } else if |p| == 1 {
      assert q < p ==> |q| == 0;
    } else if q[0] == p[0] {
      var below := if p[0] in t.dirs then t.dirs[p[0]] else EMPTY;
      AddedDirs(below, p[1..], f, q[1..]);
      assert r.dirs[p[0]] == Add(below, p[1..], f).value;
      assert p == [p[0]] + p[1..] && q == [q[0]] + q[1..];
      assert q < p <==> q[1..] < p[1..];
    } else {
      assert !(q < p);
    }
  }

  lemma AddKeepsNoEmptyDirs(t: Tree, p: Path, f: File)
    requires p != [] && NoEmptyDirs(t) && Add(t, p, f).Success?
    ensures NoEmptyDirs(Add(t, p, f).value)
  {
    var r := Add(t, p, f).value;
    forall q | q != [] && DirAt(r, q) ensures HasFileBelow(r, q) {
      AddedDirs(t, p, f, q);
      if DirAt(t, q) {
        assert HasFileBelow(t, q);
        var x :| q < x && FileAt(t, x).Some?;
        AddDenotes(t, p, f, x);
      } else {
        AddDenotes(t, p, f, p);
      }
    }
  }

  // --------------------------------------------------------------------------- many files

  datatype Entry = Entry(path: Path, file: File)

  function AddAll(t: Tree, entries: seq<Entry>): Result<Tree>
    requires forall e :: e in entries ==> e.path != []
  {
    if entries == [] then Success(t)
    else
      var before :- AddAll(t, entries[..|entries| - 1]);
      Add(before, entries[|entries| - 1].path, entries[|entries| - 1].file)
  }

  /** No path is another's, or a directory of another's. */
  ghost predicate Separate(entries: seq<Entry>)
  {
    forall i, j :: 0 <= i < j < |entries| ==> !Nested(entries[i].path, entries[j].path)
  }

  ghost predicate Denotes(t: Tree, entries: seq<Entry>)
  {
    && (forall e :: e in entries ==> FileAt(t, e.path) == Some(e.file))
    && (forall p :: FileAt(t, p).Some? ==> Listed(entries, p))
  }

  ghost predicate Listed(entries: seq<Entry>, p: Path)
  {
    exists e :: e in entries && e.path == p
  }

  lemma EmptyDenotes()
    ensures Denotes(EMPTY, []) && NoEmptyDirs(EMPTY)
  {}

  lemma SeparateNext(entries: seq<Entry>, t: Tree)
    requires |entries| > 0 && Denotes(t, entries[..|entries| - 1])
    ensures Separate(entries) <==> Separate(entries[..|entries| - 1]) && Free(t, entries[|entries| - 1].path)
  {
    var n := |entries| - 1;
    var front, last := entries[..n], entries[n];
    if Separate(entries) {
      forall q | FileAt(t, q).Some? ensures !Nested(last.path, q) {
        assert Listed(front, q);
        var e :| e in front && e.path == q;
        var i :| 0 <= i < n && front[i] == e;
        assert !Nested(entries[i].path, entries[n].path);
      }
    }
    if Separate(front) && Free(t, last.path) {
      forall i, j | 0 <= i < j < |entries| ensures !Nested(entries[i].path, entries[j].path) {
        if j < n {
          assert !Nested(front[i].path, front[j].path);
        } else {
          assert front[i] in front;
          assert FileAt(t, front[i].path).Some?;
        }
      }
    }
  }

  lemma DenotesNext(entries: seq<Entry>, t: Tree)
    requires |entries| > 0 && entries[|entries| - 1].path != []
    requires Denotes(t, entries[..|entries| - 1]) && Separate(entries)
    requires Add(t, entries[|entries| - 1].path, entries[|entries| - 1].file).Success?
    ensures Denotes(Add(t, entries[|entries| - 1].path, entries[|entries| - 1].file).value, entries)
  {
    var n := |entries| - 1;
    var front, last := entries[..n], entries[n];
    var r := Add(t, last.path, last.file).value;
    assert entries == front + [last];
    forall e | e in entries ensures FileAt(r, e.path) == Some(e.file) {
      AddDenotes(t, last.path, last.file, e.path);
      if e in front {
        var i :| 0 <= i < n && front[i] == e;
        assert !Nested(entries[i].path, entries[n].path);
      }
    }
    forall p | FileAt(r, p).Some? ensures Listed(entries, p) {
      AddDenotes(t, last.path, last.file, p);
      if p != last.path {
        assert Listed(front, p);
        var e :| e in front && e.path == p;
        assert e in entries;
      } else {
        assert last in entries;
      }
    }
  }

  /** Adding files to an empty tree succeeds exactly when their paths are distinct and none is a
  directory of another; the tree then holds those files, no other, and no empty directory. */
  lemma {:induction false} AddAllMeans(entries: seq<Entry>)
    requires forall e :: e in entries ==> e.path != []
    ensures AddAll(EMPTY, entries).Success? <==> Separate(entries)
    ensures AddAll(EMPTY, entries).Success? ==>
      Denotes(AddAll(EMPTY, entries).value, entries) && NoEmptyDirs(AddAll(EMPTY, entries).value)
  {
    if entries == [] {
      EmptyDenotes();
    } else {
      var n := |entries| - 1;
      var front, last := entries[..n], entries[n];
      assert last in entries;
      AddAllMeans(front);
      var before := AddAll(EMPTY, front);
      if before.Success? {
        SeparateNext(entries, before.value);
        AddSucceedsIff(before.value, last.path, last.file);
        if Add(before.value, last.path, last.file).Success? {
          DenotesNext(entries, before.value);
          AddKeepsNoEmptyDirs(before.value, last.path, last.file);
        }
      } else {
        NotSeparate(entries, n);
      }
    }
  }

  lemma NotSeparate(entries: seq<Entry>, n: nat)
    requires n <= |entries| && !Separate(entries[..n])
    ensures !Separate(entries)
  {
    var i, j :| 0 <= i < j < n && Nested(entries[..n][i].path, entries[..n][j].path);
    assert Nested(entries[i].path, entries[j].path);
  }

  /** The order of the files does not matter: neither to success nor to what the tree holds. */
  lemma AddOrderIsIrrelevant(a: seq<Entry>, b: seq<Entry>, p: Path)
    requires (forall e :: e in a ==> e.path != []) && multiset(a) == multiset(b)
    ensures forall e :: e in b ==> e.path != []
    ensures AddAll(EMPTY, a).Success? <==> AddAll(EMPTY, b).Success?
    ensures AddAll(EMPTY, a).Success? ==> FileAt(AddAll(EMPTY, a).value, p) == FileAt(AddAll(EMPTY, b).value, p)
  {
    forall e ensures e in a <==> e in b { assert e in multiset(a) <==> e in multiset(b); }
    AddAllMeans(a);
    AddAllMeans(b);
    SeparateIgnoresOrder(a, b);
    SeparateIgnoresOrder(b, a);
    if AddAll(EMPTY, a).Success? {
      var t, u := AddAll(EMPTY, a).value, AddAll(EMPTY, b).value;
      if FileAt(t, p).Some? { assert Listed(a, p); }
      if FileAt(u, p).Some? { assert Listed(b, p); }
    }
  }

  lemma SeparateIgnoresOrder(a: seq<Entry>, b: seq<Entry>)
    requires multiset(a) == multiset(b)
    ensures Separate(a) ==> Separate(b)
  {
    if Separate(a) {
      forall i, j | 0 <= i < j < |b| ensures !Nested(b[i].path, b[j].path) {
        TwoOf(a, b, i, j);
      }
    }
  }

  /** Two places of `b` hold what two different places of `a` hold. */
  lemma TwoOf(a: seq<Entry>, b: seq<Entry>, i: nat, j: nat)
    requires multiset(a) == multiset(b) && i < j < |b| && Separate(a)
    ensures !Nested(b[i].path, b[j].path)
  {
    var x, y := b[i], b[j];
    assert x in multiset(b) && y in multiset(b);
    var k :| 0 <= k < |a| && a[k] == x;
    if x == y {
      Twice(b, i, j);
      OnceOnly(a, k);
    } else {
      var l :| 0 <= l < |a| && a[l] == y;
      assert k < l ==> !Nested(a[k].path, a[l].path);
      assert l < k ==> !Nested(a[l].path, a[k].path);
    }
  }

  lemma Twice(b: seq<Entry>, i: nat, j: nat)
    requires i < j < |b| && b[i] == b[j]
    ensures multiset(b)[b[i]] >= 2
  {
    assert b == b[..j] + [b[j]] + b[j + 1..];
    assert multiset(b) == multiset(b[..j]) + multiset{b[j]} + multiset(b[j + 1..]);
    assert b[i] in b[..j] by { assert b[..j][i] == b[i]; }
  }

  lemma {:induction false} OnceOnly(a: seq<Entry>, k: nat)
    requires k < |a| && Separate(a)
    ensures multiset(a)[a[k]] == 1
  {
    assert a == a[..k] + [a[k]] + a[k + 1..];
    assert multiset(a) == multiset(a[..k]) + multiset{a[k]} + multiset(a[k + 1..]);
    forall i | 0 <= i < |a| && i != k ensures a[i] != a[k] {
      assert i < k ==> !Nested(a[i].path, a[k].path);
      assert k < i ==> !Nested(a[k].path, a[i].path);
    }
  }

  // ------------------------------------------------------------------------------- the mounts

  function Join(p: Path): string
  {
    if p == [] then "" else if |p| == 1 then p[0] else p[0] + "/" + Join(p[1..])
  }

  /** The overlap test of `Validate`, on strings. */
  predicate Overlaps(m: string, prior: string)
  {
    m == prior || prior + "/" <= m || m + "/" <= prior
  }

  /** A first part followed by a slash reads back as itself. */
  lemma FirstPart(a: string, b: string, x: string, y: string)
    requires '/' !in a && '/' !in b
    requires a + "/" + x <= b + "/" + y
    ensures a == b && x <= y
  {
    var s, t := a + "/" + x, b + "/" + y;
    assert t[..|s|] == s;
    assert s[|a|] == '/' && t[|a|] == s[|a|] && t[|b|] == '/';
    assert forall i :: 0 <= i < |a| ==> s[i] == a[i] && a[i] in a;
    assert forall i :: 0 <= i < |b| ==> t[i] == b[i] && b[i] in b;
    assert |a| == |b|;
    assert a == s[..|a|] == t[..|b|] == b;
    assert x == s[|a| + 1..] && y == t[|b| + 1..];
  }

  predicate SlashFree(p: Path)
  {
    forall part :: part in p ==> part != "" && '/' !in part
  }

  lemma TailSlashFree(p: Path)
    requires SlashFree(p) && p != []
    ensures SlashFree(p[1..])
  {
    forall part | part in p[1..] ensures part in p {}
  }

  /** Joined, a path lies below another exactly when its parts do. */
  lemma {:induction false} BelowMeansPrefix(p: Path, q: Path)
    requires SlashFree(p) && SlashFree(q) && p != [] && q != []
    ensures Join(p) + "/" <= Join(q) <==> p < q
    decreases |p|
  {
    assert p == [p[0]] + p[1..] && q == [q[0]] + q[1..];
    if |q| == 1 {
      if Join(p) + "/" <= Join(q) { SlashInside(Join(p), q[0]); }
    } else if |p| == 1 {
      if p[0] + "/" <= Join(q) {
        assert p[0] + "/" + "" == p[0] + "/";
        FirstPart(p[0], q[0], "", Join(q[1..]));
      }
      if p[0] == q[0] { assert p[0] + "/" <= q[0] + "/" + Join(q[1..]); }
    } else {
      TailSlashFree(p);
      TailSlashFree(q);
      BelowMeansPrefix(p[1..], q[1..]);
      assert Join(p) + "/" == p[0] + "/" + (Join(p[1..]) + "/");
      if Join(p) + "/" <= Join(q) {
        FirstPart(p[0], q[0], Join(p[1..]) + "/", Join(q[1..]));
      }
      if p < q {
        assert p[0] == q[0] && p[1..] < q[1..];
        assert p[0] + "/" + (Join(p[1..]) + "/") <= q[0] + "/" + Join(q[1..]);
      }
    }
  }

  lemma SlashInside(a: string, b: string)
    requires a + "/" <= b
    ensures '/' in b
  {
    assert b[|a|] == '/';
  }

  lemma {:induction false} JoinIsInjective(p: Path, q: Path)
    requires SlashFree(p) && SlashFree(q) && p != [] && q != []
    ensures Join(p) == Join(q) <==> p == q
    decreases |p|
  {
    assert p == [p[0]] + p[1..] && q == [q[0]] + q[1..];
    if |p| > 1 && |q| > 1 {
      TailSlashFree(p);
      TailSlashFree(q);
      JoinIsInjective(p[1..], q[1..]);
      if Join(p) == Join(q) { FirstPart(p[0], q[0], Join(p[1..]), Join(q[1..])); FirstPart(q[0], p[0], Join(q[1..]), Join(p[1..])); }
    } else if |p| == 1 && |q| > 1 {
      assert Join(q)[|q[0]|] == '/';
      assert '/' in Join(q);
    } else if |q| == 1 && |p| > 1 {
      assert Join(p)[|p[0]|] == '/';
      assert '/' in Join(p);
    }
  }

  /** The string test finds exactly the nested pairs. */
  lemma OverlapMeansNested(p: Path, q: Path)
    requires SlashFree(p) && SlashFree(q) && p != [] && q != []
    ensures Overlaps(Join(p), Join(q)) <==> Nested(p, q)
  {
    JoinIsInjective(p, q);
    BelowMeansPrefix(p, q);
    BelowMeansPrefix(q, p);
  }

  /** A path against the earlier ones. */
  method OverlapsNone(path: Path, seen: seq<Path>) returns (ok: bool)
    requires CleanPath(path) && forall k :: 0 <= k < |seen| ==> CleanPath(seen[k])
    ensures ok <==> forall k :: 0 <= k < |seen| ==> !Nested(seen[k], path)
  {
    for j := 0 to |seen|
      invariant forall k :: 0 <= k < j ==> !Nested(seen[k], path)
    {
      OverlapMeansNested(path, seen[j]);
      if Overlaps(Join(path), Join(seen[j])) {
        assert Nested(seen[j], path);
        return false;
      }
    }
    return true;
  }

  /** Every mount path is clean, and they are pairwise apart. */
  ghost predicate Mountable(mounts: seq<string>)
  {
    && (forall i :: 0 <= i < |mounts| ==> Clean(mounts[i]).Some?)
    && (forall i, j :: 0 <= i < j < |mounts| ==> !Clash(mounts[i], mounts[j]))
  }

  predicate Clash(m: string, n: string)
  {
    Clean(m).Some? && Clean(n).Some? && Nested(Clean(m).value, Clean(n).value)
  }

  /** The cleaned forms of the first mounts, pairwise apart. */
  ghost predicate CleanedSoFar(mounts: seq<string>, i: nat, seen: seq<Path>)
  {
    && i <= |mounts| && |seen| == i
    && (forall k :: 0 <= k < i ==> Clean(mounts[k]) == Some(seen[k]))
    && (forall k, l :: 0 <= k < l < i ==> !Nested(seen[k], seen[l]))
  }

  lemma CleanedNext(mounts: seq<string>, i: nat, seen: seq<Path>, path: Path)
    requires CleanedSoFar(mounts, i, seen) && i < |mounts| && Clean(mounts[i]) == Some(path)
    requires forall k :: 0 <= k < i ==> !Nested(seen[k], path)
    ensures CleanedSoFar(mounts, i + 1, seen + [path])
  {
    var next := seen + [path];
    assert forall k :: 0 <= k < i ==> next[k] == seen[k];
  }

  lemma NestedIsRefused(mounts: seq<string>, i: nat, seen: seq<Path>, path: Path, k: nat)
    requires CleanedSoFar(mounts, i, seen) && i < |mounts| && Clean(mounts[i]) == Some(path)
    requires k < i && Nested(seen[k], path)
    ensures !Mountable(mounts)
  {
    assert Clash(mounts[k], mounts[i]);
  }

  lemma CleanedIsClean(mounts: seq<string>, i: nat, seen: seq<Path>)
    requires CleanedSoFar(mounts, i, seen)
    ensures forall k :: 0 <= k < i ==> CleanPath(seen[k])
  {
    forall k | 0 <= k < i ensures CleanPath(seen[k]) {
      assert Clean(mounts[k]) == Some(seen[k]);
    }
  }

  lemma CleanedAll(mounts: seq<string>, seen: seq<Path>)
    requires CleanedSoFar(mounts, |mounts|, seen)
    ensures Mountable(mounts)
  {
    forall i, j | 0 <= i < j < |mounts| ensures !Clash(mounts[i], mounts[j]) {
      assert Clean(mounts[i]) == Some(seen[i]) && Clean(mounts[j]) == Some(seen[j]);
    }
  }

  /** The mount paths of `Validate`: cleaned, and each compared with every earlier one. */
  method ValidateMounts(mounts: seq<string>) returns (r: Result<seq<Path>>)
    ensures r.Success? <==> Mountable(mounts)
    ensures r.Success? ==> |r.value| == |mounts| && forall i :: 0 <= i < |mounts| ==> Clean(mounts[i]) == Some(r.value[i])
  {
    var seen: seq<Path> := [];
    for i := 0 to |mounts|
      invariant CleanedSoFar(mounts, i, seen)
    {
      var path := Clean(mounts[i]);
      if path.None? {
        return Failure(UsageInvalid);
      }
      CleanedIsClean(mounts, i, seen);
      var ok := OverlapsNone(path.value, seen);
      if !ok {
        ghost var k :| 0 <= k < i && Nested(seen[k], path.value);
        NestedIsRefused(mounts, i, seen, path.value, k);
        return Failure(UsageInvalid);
      }
      CleanedNext(mounts, i, seen, path.value);
      seen := seen + [path.value];
    }
    CleanedAll(mounts, seen);
    return Success(seen);
  }
}
