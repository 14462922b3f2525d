/** The (size, mtime) shortcuts over whole loops: they save reading files and change nothing
    else. */
module DriveShortcut {
  import opened Common
  import opened DrivePaths
  import opened DriveModel
  import opened DriveReplay
  import opened DriveConverge

  function PushAllByHash(todo: seq<Rel>, local: Local, view: map<Rel, Digest>, s: PushState): PushState {
    if todo == [] then s
    else PushOneByHash(todo[|todo| - 1], local, view, PushAllByHash(todo[..|todo| - 1], local, view, s))
  }

  /** A push that trusts matching stamps ends in the same server rows, the same clock and
      the same manifest as one that hashes every file. The listing may be stale. */
  lemma {:induction false} PushLoopRefinesHashing(at: (Rel, Stamp) -> Content, todo: seq<Rel>, local: Local,
                                                  view: map<Rel, Digest>, s: PushState)
    requires RemoteValid(s.remote) && LocalTrue(at, local) && ManifestTrue(at, s.paths)
    ensures PushAll(todo, local, view, s) == PushAllByHash(todo, local, view, s)
    ensures RemoteValid(PushAll(todo, local, view, s).remote) && ManifestTrue(at, PushAll(todo, local, view, s).paths)
  {
    if todo != [] {
      var n := |todo| - 1;
      PushLoopRefinesHashing(at, todo[..n], local, view, s);
      var m := PushAll(todo[..n], local, view, s);
      PushShortcut(at, todo[n], local, view, m);
      PushOneValid(at, todo[n], local, view, m);
    }
  }

  datatype Listed = Listed(path: Rel, hash: Digest, luck: Luck)

  /** `pull_remote_changes` over a listing, with and without its shortcut. */
  function PullTree(files: seq<Listed>, s: Side): Side
    requires forall f | f in files :: f.hash.Blake3?
  {
    if files == [] then s
    else
      var f := files[|files| - 1];
      PullListed(f.path, f.hash, f.luck, PullTree(files[..|files| - 1], s))
  }

  function PullTreeByHash(files: seq<Listed>, s: Side): Side
    requires forall f | f in files :: f.hash.Blake3?
  {
    if files == [] then s
    else
      var f := files[|files| - 1];
      ApplyChange(Row(f.path, f.hash, 0, false), f.luck, PullTreeByHash(files[..|files| - 1], s))
  }

  ghost predicate LuckyListing(at: (Rel, Stamp) -> Content, files: seq<Listed>) {
    forall f | f in files :: f.hash.Blake3? && Lucky(at, Row(f.path, f.hash, 0, false), f.luck)
  }

  lemma {:induction false} PullTreeRefinesHashing(at: (Rel, Stamp) -> Content, files: seq<Listed>, s: Side)
    requires LuckyListing(at, files) && LocalTrue(at, s.local) && ManifestTrue(at, s.paths)
    ensures PullTree(files, s) == PullTreeByHash(files, s)
    ensures LocalTrue(at, PullTree(files, s).local) && ManifestTrue(at, PullTree(files, s).paths)
  {
    if files != [] {
      var n := |files| - 1;
      var f := files[n];
      assert f in files;
      assert forall g | g in files[..n] :: g in files;
      PullTreeRefinesHashing(at, files[..n], s);
      var m := PullTree(files[..n], s);
      PullShortcut(at, f.path, f.hash, f.luck, m);
      PullKeepsManifestTrue(at, Row(f.path, f.hash, 0, false), f.luck, m);
    }
  }

  /** A file of the listing as it should be, locally and in the manifest. */
  predicate Arrived(f: Listed, t: Side) {
    && f.path in t.local && Blake3(t.local[f.path].content) == f.hash
    && f.path in t.paths && t.paths[f.path].hash == f.hash
  }

  lemma ListedArrives(at: (Rel, Stamp) -> Content, f: Listed, g: Listed, m: Side)
    requires LuckyListing(at, [f]) && LocalTrue(at, m.local) && ManifestTrue(at, m.paths)
    requires !SyncSkipped(g.path) && (if g.path == f.path then g == f else Arrived(g, m))
    ensures Arrived(g, PullListed(f.path, f.hash, f.luck, m))
  {
    assert f in [f];
    PullShortcut(at, f.path, f.hash, f.luck, m);
  }

  /** What the tree pull achieves: every pullable path of the listing has its content. */
  lemma {:induction false} PullTreeContent(at: (Rel, Stamp) -> Content, files: seq<Listed>, s: Side, i: nat)
    requires LuckyListing(at, files) && LocalTrue(at, s.local) && ManifestTrue(at, s.paths) && i < |files|
    requires !SyncSkipped(files[i].path) && forall j | 0 <= j < |files| && j != i :: files[j].path != files[i].path
    ensures Arrived(files[i], PullTree(files, s))
  {
    var n := |files| - 1;
    var front := files[..n];
    assert files[n] in files && forall g | g in front :: g in files;
    PullTreeRefinesHashing(at, front, s);
    if i < n {
      assert front[i] == files[i] && forall j | 0 <= j < n :: front[j] == files[j];
      PullTreeContent(at, front, s, i);
      assert files[n].path != files[i].path;
    }
    ListedArrives(at, files[n], files[i], PullTree(front, s));
  }
}
