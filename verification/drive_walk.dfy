/** The explicit-stack directory walk shared by the push scan and the orphan prune. */
module DriveWalk {
  import opened DrivePaths

  /** What `read_dir` shows. `Special` stands for everything that is neither a regular
      file nor a directory; a directory that cannot be read shows no entries. */
  datatype Node = File | Folder(entries: seq<Entry>) | Special
  datatype Entry = Entry(name: Name, node: Node)

  predicate DistinctNames(es: seq<Entry>) {
    (forall i, j | 0 <= i < j < |es| :: es[i].name != es[j].name) &&
    forall e | e in es && e.node.Folder? :: DistinctNames(e.node.entries)
  }

  /** Every regular file below `es`, as a path that starts with `dir`. */
  function Files(dir: Rel, es: seq<Entry>): multiset<Rel>
    decreases es
  {
    if es == [] then multiset{}
    else
      var path := dir + [es[0].name];
      (match es[0].node
       case File => multiset{path}
       case Folder(sub) => Files(path, sub)
       case Special => multiset{}) + Files(dir, es[1..])
  }

  /** The files the walk reaches, because it does not enter internal directories. */
  function Reached(dir: Rel, es: seq<Entry>): multiset<Rel>
    decreases es
  {
    if es == [] then multiset{}
    else
      var path := dir + [es[0].name];
      (if Internal(path) then multiset{} else
       match es[0].node
       case File => multiset{path}
       case Folder(sub) => Reached(path, sub)
       case Special => multiset{}) + Reached(dir, es[1..])
  }

  /** Looking a path up name by name; the independent meaning of "is a file of the tree". */
  predicate IsFile(es: seq<Entry>, path: Rel) {
    path != [] &&
    exists i | 0 <= i < |es| && es[i].name == path[0] ::
      if |path| == 1 then es[i].node.File? else es[i].node.Folder? && IsFile(es[i].node.entries, path[1..])
  }

  lemma {:induction false} FilesLieBelow(dir: Rel, es: seq<Entry>, p: Rel)
    requires p in Files(dir, es)
    ensures |p| > |dir| && p[..|dir|] == dir
    decreases es
  {
    var path := dir + [es[0].name];
    if p in Files(dir, es[1..]) {
      FilesLieBelow(dir, es[1..], p);
    } else if es[0].node.Folder? {
      FilesLieBelow(path, es[0].node.entries, p);
      assert p[..|dir|] == p[..|path|][..|dir|] == dir;
    } else {
      assert p == path;
    }
  }

  /** The walk reaches exactly the files that are not internal. */
  lemma {:induction false} ReachedExactly(dir: Rel, es: seq<Entry>, p: Rel)
    ensures Reached(dir, es)[p] == if Internal(p) then 0 else Files(dir, es)[p]
    decreases es
  {
    if es != [] {
      var path := dir + [es[0].name];
      ReachedExactly(dir, es[1..], p);
      if es[0].node.Folder? {
        var sub := es[0].node.entries;
        ReachedExactly(path, sub, p);
        if Internal(path) && p in Files(path, sub) {
          FilesLieBelow(path, sub, p);
          InternalIsInherited(path, p[|path|..]);
          assert p == path + p[|path|..];
        }
      }
    }
  }

  /** In a tree without duplicate names each file occurs once, and occurs exactly when
      looking its path up finds a file. */
  lemma {:induction false} FilesByLookup(dir: Rel, es: seq<Entry>, p: Rel)
    requires DistinctNames(es)
    ensures Files(dir, es)[p] ==
            if |p| > |dir| && p[..|dir|] == dir && IsFile(es, p[|dir|..]) then 1 else 0
    decreases es, 1
  {
    if p in Files(dir, es) {
      FilesLieBelow(dir, es, p);
    }
    if es != [] && |p| > |dir| && p[..|dir|] == dir {
      var path, rest, q := dir + [es[0].name], es[1..], p[|dir|..];
      assert forall e | e in rest :: e in es;
      FilesByLookup(dir, rest, p);
      assert IsFile(rest, q) ==> IsFile(es, q) && q[0] != es[0].name by {
        if IsFile(rest, q) {
          var i :| 0 <= i < |rest| && rest[i].name == q[0] &&
                   if |q| == 1 then rest[i].node.File? else rest[i].node.Folder? && IsFile(rest[i].node.entries, q[1..]);
          assert es[i + 1] == rest[i];
        }
      }
      assert IsFile(es, q) && q[0] != es[0].name ==> IsFile(rest, q) by {
        if IsFile(es, q) && q[0] != es[0].name {
          var i :| 0 <= i < |es| && es[i].name == q[0] &&
                   if |q| == 1 then es[i].node.File? else es[i].node.Folder? && IsFile(es[i].node.entries, q[1..]);
          assert rest[i - 1] == es[i];
        }
      }
      HeadByLookup(dir, es, p);
    }
  }

  lemma {:induction false} HeadByLookup(dir: Rel, es: seq<Entry>, p: Rel)
    requires es != [] && DistinctNames(es) && |p| > |dir| && p[..|dir|] == dir
    ensures var path, q := dir + [es[0].name], p[|dir|..];
            (match es[0].node
             case File => multiset{path}
             case Folder(sub) => Files(path, sub)
             case Special => multiset{})[p] == if q[0] == es[0].name && IsFile(es, q) then 1 else 0
    decreases es, 0
  {
    var path, q := dir + [es[0].name], p[|dir|..];
    assert p == dir + q;
    if q[0] == es[0].name {
      assert IsFile(es, q) <==> if |q| == 1 then es[0].node.File? else es[0].node.Folder? && IsFile(es[0].node.entries, q[1..]);
      assert |q| == 1 ==> p == path;
      assert |q| > 1 ==> p != path;
      if es[0].node.Folder? {
        assert es[0] in es;
        FilesByLookup(path, es[0].node.entries, p);
        if |p| > |path| {
          assert p[..|path|] == path;
          assert p[|path|..] == q[1..];
        }
      }
    } else {
      assert p[|dir|] != path[|dir|];
      assert |p| >= |path| ==> p[..|path|][|dir|] == p[|dir|];
      if es[0].node.Folder? && p in Files(path, es[0].node.entries) {
        FilesLieBelow(path, es[0].node.entries, p);
        assert false;
      }
    }
  }

  // ------------------------------------------------------------- the loop

  datatype Frame = Frame(dir: Rel, entries: seq<Entry>)

  ghost function Size(es: seq<Entry>): nat {
    if es == [] then 0
    else 1 + (if es[0].node.Folder? then Size(es[0].node.entries) else 0) + Size(es[1..])
  }

  ghost function StackSize(stack: seq<Frame>): nat {
    if stack == [] then 0
    else StackSize(stack[..|stack| - 1]) + 1 + Size(stack[|stack| - 1].entries)
  }

  ghost function StackReached(stack: seq<Frame>): multiset<Rel> {
    if stack == [] then multiset{}
    else StackReached(stack[..|stack| - 1]) + Reached(stack[|stack| - 1].dir, stack[|stack| - 1].entries)
  }

  /** One directory of the walk: its files are reported, its directories pushed. */
  method ListFolder(top: Frame, stack: seq<Frame>) returns (files: seq<Rel>, pushed: seq<Frame>)
    ensures multiset(files) + StackReached(pushed) == StackReached(stack) + Reached(top.dir, top.entries)
    ensures StackSize(pushed) <= StackSize(stack) + Size(top.entries)
  {
    files, pushed := [], stack;
    var i := 0;
    assert top.entries[0..] == top.entries;
    while i < |top.entries|
      invariant 0 <= i <= |top.entries|
      invariant multiset(files) + StackReached(pushed) + Reached(top.dir, top.entries[i..]) ==
                StackReached(stack) + Reached(top.dir, top.entries)
      invariant StackSize(pushed) + Size(top.entries[i..]) <= StackSize(stack) + Size(top.entries)
    {
      var e := top.entries[i];
      var path := top.dir + [e.name];
      assert top.entries[i..][0] == e && top.entries[i..][1..] == top.entries[i + 1..];
      i := i + 1;
      if Internal(path) {
        continue;
      }
      match e.node {
        case Folder(sub) =>
          ghost var before := pushed;
          pushed := pushed + [Frame(path, sub)];
          assert pushed[..|pushed| - 1] == before;
        case File =>
          files := files + [path];
        case Special =>
      }
    }
    assert top.entries[i..] == [];
  }

  /** The walk as the source runs it: pop a directory, list it, push its directories. It
      terminates and visits each file that is not internal once, and nothing else. */
  method WalkFiles(root: seq<Entry>) returns (files: seq<Rel>)
    ensures forall p :: multiset(files)[p] == if Internal(p) then 0 else Files([], root)[p]
    ensures DistinctNames(root) ==> forall p :: p in files <==> !Internal(p) && IsFile(root, p)
    ensures DistinctNames(root) ==> forall i, j | 0 <= i < j < |files| :: files[i] != files[j]
  {
    files := [];
    var stack := [Frame([], root)];
    assert stack[..0] == [];
    while stack != []
      invariant multiset(files) + StackReached(stack) == Reached([], root)
      decreases StackSize(stack)
    {
      var found, pushed := ListFolder(stack[|stack| - 1], stack[..|stack| - 1]);
      files, stack := files + found, pushed;
    }
    ReachedOnce(root, files);
  }

  lemma ReachedOnce(root: seq<Entry>, files: seq<Rel>)
    requires multiset(files) == Reached([], root)
    ensures forall p :: multiset(files)[p] == if Internal(p) then 0 else Files([], root)[p]
    ensures DistinctNames(root) ==> forall p :: p in files <==> !Internal(p) && IsFile(root, p)
    ensures DistinctNames(root) ==> forall i, j | 0 <= i < j < |files| :: files[i] != files[j]
  {
    forall p ensures multiset(files)[p] == if Internal(p) then 0 else Files([], root)[p] {
      ReachedExactly([], root, p);
    }
    if DistinctNames(root) {
      forall p
        ensures p in files <==> !Internal(p) && IsFile(root, p)
        ensures multiset(files)[p] <= 1
      {
        FilesByLookup([], root, p);
        assert p[0..] == p;
        assert p in files <==> multiset(files)[p] > 0;
      }
      forall i, j | 0 <= i < j < |files| ensures files[i] != files[j] {
        AtMostOnce(files, i, j);
      }
    }
  }

  lemma AtMostOnce(s: seq<Rel>, i: nat, j: nat)
    requires i < j < |s| && multiset(s)[s[i]] <= 1
    ensures s[i] != s[j]
  {
    assert s == s[..j] + s[j..];
    assert s[i] == s[..j][i] && s[j] == s[j..][0];
    assert multiset(s) == multiset(s[..j]) + multiset(s[j..]);
    assert multiset(s[..j])[s[i]] >= 1 && multiset(s[j..])[s[j]] >= 1;
  }
}
