/** The sync engine as the program runs it: loops that update the manifest in hand, the
    local tree, the cursor and the server, each request possibly failing. */
module DriveEngine {
  import opened Common
  import opened DrivePaths
  import opened DriveModel
  import opened DrivePaging
  import opened DriveReplay
  import opened DriveConverge
  import opened DriveShortcut
  import opened DriveRestart
  import DriveWalk

  const SCAN_EVERY: nat := 8

  method Enumerate(s: set<Rel>) returns (ps: seq<Rel>)
    ensures Distinct(ps) && forall p :: p in ps <==> p in s
  {
    ps := [];
    var rest := s;
    while rest != {}
      invariant Distinct(ps) && rest <= s && forall p :: p in ps <==> p in s && p !in rest
      decreases rest
    {
      var p :| p in rest;
      ps, rest := ps + [p], rest - {p};
    }
  }

  /** `root` is the directory whose files `local` holds. */
  ghost predicate Mirrors(root: seq<DriveWalk.Entry>, local: Local) {
    DriveWalk.DistinctNames(root) && forall p :: DriveWalk.IsFile(root, p) <==> p in local
  }

  /** The walk over the directory is the scan the cycle speaks of. */
  method ScanTree(root: seq<DriveWalk.Entry>, ghost local: Local) returns (files: seq<Rel>)
    requires Mirrors(root, local)
    ensures Scan(files, local)
  {
    files := DriveWalk.WalkFiles(root);
  }

  lemma ApplySnoc(feed: seq<Row>, k: nat, luck: seq<Luck>, l: Luck, s: Side)
    requires k < |feed| && |luck| == k && AllPullable(feed)
    ensures AllPullable(feed[..k]) && AllPullable(feed[..k + 1])
    ensures ApplyAll(feed[..k + 1], luck + [l], s) == ApplyChange(feed[k], l, ApplyAll(feed[..k], luck, s))
  {
    assert feed[..k + 1][..k] == feed[..k] && (luck + [l])[..k] == luck;
    assert forall r | r in feed[..k + 1] :: r in feed;
  }

  lemma {:induction false} ApplyConcat(a: seq<Row>, b: seq<Row>, la: seq<Luck>, lb: seq<Luck>, s: Side)
    requires |la| == |a| && |lb| == |b| && AllPullable(a) && AllPullable(b)
    ensures AllPullable(a + b)
    ensures ApplyAll(a + b, la + lb, s) == ApplyAll(b, lb, ApplyAll(a, la, s))
  {
    if b == [] {
      assert a + b == a && la + lb == la;
    } else {
      var k := |b| - 1;
      assert forall r | r in b[..k] :: r in b;
      ApplyConcat(a, b[..k], la, lb[..k], s);
      assert (a + b)[..|a| + k] == a + b[..k] && (la + lb)[..|a| + k] == la + lb[..k];
      assert (a + b)[|a| + k] == b[k] && (la + lb)[|a| + k] == lb[k];
    }
  }

  lemma PushSnoc(todo: seq<Rel>, k: nat, local: Local, view: map<Rel, Digest>, s: PushState)
    requires k < |todo|
    ensures PushAll(todo[..k + 1], local, view, s) == PushOne(todo[k], local, view, PushAll(todo[..k], local, view, s))
    ensures DeleteAll(todo[..k + 1], local, view, s) == DeleteOne(todo[k], local, view, DeleteAll(todo[..k], local, view, s))
  {
    assert todo[..k + 1][..k] == todo[..k];
  }

  /** The first `k` files of a listing, with the luck each of them met. */
  ghost predicate Met(files: seq<Listed>, todo: seq<Rel>, view: map<Rel, Digest>) {
    && |files| <= |todo|
    && forall i | 0 <= i < |files| :: todo[i] in view && files[i].path == todo[i] && files[i].hash == view[todo[i]] && files[i].hash.Blake3?
  }

  function Orphans(local: Local, paths: Paths, view: map<Rel, Digest>): set<Rel> {
    set p | p in local && !Internal(p) && p !in view && p in paths
  }

  /** What the 404 fallback did: it pulled `files` of the listing, all of it if `whole`, perhaps
      spoiling the file it failed at; had the paths `kept` on record then, with or without what it
      pulled; removed the files `gone`, all orphans if `pruned`; and perhaps restored its
      caller's manifest. */
  datatype Heal = Heal(files: seq<Listed>, half: Option<Half>, whole: bool, kept: Paths, gone: set<Rel>, pruned: bool, restored: bool)

  ghost predicate ListedAll(files: seq<Listed>, view: map<Rel, Digest>) {
    forall p | p in view :: exists f | f in files :: f.path == p
  }

  /** What the 404 fallback makes of `a`. Its last save puts the manifest of before back, under
      the newest cursor. */
  ghost predicate FellBack(a: World, z: World, h: Heal) {
    var view := Listing(a.remote.rows);
    && z.remote == a.remote
    && (forall f | f in h.files :: f.path in view && f.hash == view[f.path] && f.hash.Blake3?)
    && (h.whole ==> h.half == None && ListedAll(h.files, view)) && (h.half.Some? ==> h.half.value.path in view)
    && var t := PullTree(h.files, Side(a.local, a.saved.paths));
    && z.local == Spoil(t.local, h.half) - h.gone
    && (h.kept == a.saved.paths || (h.whole && h.kept == t.paths))
    && h.gone <= Orphans(t.local, h.kept, view)
    && (if h.pruned then h.whole && h.gone == Orphans(t.local, h.kept, view) else !h.restored)
    && (!h.whole ==> h.gone == {})
    && if h.restored then z.saved == Manifest(SyncCursor(a.remote.rows), a.saved.paths)
       else z.saved.since == a.saved.since && (z.saved.paths == h.kept || (h.pruned && z.saved.paths == h.kept - h.gone))
  }

  /** How a pull went: `n` pages saved, then some entries of the next one, or the fallback from
      `mid` on. */
  datatype Trace = Trace(n: nat, luck: seq<Luck>, torn: seq<Row>, last: seq<Luck>, half: Option<Half>, mid: World, heal: Option<Heal>)

  /** A pull that succeeds has applied everything, one that fails is an aborted one, unless the
      server has no feed to be had. */
  ghost predicate PullEnds(before: World, after: World, ok: bool, t: Trace) {
    RemoteValid(before.remote) &&
    if t.heal.Some? then
      Aborted(before, t.mid, t.n, t.luck, [], [], None) && FellBack(t.mid, after, t.heal.value) && (ok ==> t.heal.value.pruned)
    else if ok then
      !Delivered(before, t.n).more && |t.luck| == |Delivered(before, t.n).feed| && after == Pulled(before, t.n, t.luck)
    else Aborted(before, after, t.n, t.luck, t.torn, t.last, t.half)
  }

  /** The first `k` paths are pushed, and the manifest is stored or not. */
  function PushedTo(w: World, files: seq<Rel>, k: nat, stored: bool): World
    requires k <= |files|
  {
    var t := PushAll(files[..k], w.local, Listing(w.remote.rows), PushState(w.remote, w.saved.paths));
    World(w.local, t.remote, if stored then w.saved.(paths := t.paths) else w.saved)
  }

  function PropagatedTo(w: World, keys: seq<Rel>, k: nat, stored: bool): World
    requires k <= |keys|
  {
    var t := DeleteAll(keys[..k], w.local, Listing(w.remote.rows), PushState(w.remote, w.saved.paths));
    World(w.local, t.remote, if stored then w.saved.(paths := t.paths) else w.saved)
  }

  lemma WholePush(w: World, files: seq<Rel>)
    ensures PushedTo(w, files, |files|, true) == Pushed(w, files)
    ensures PropagatedTo(w, files, |files|, true) == Propagated(w, files)
  {
    assert files[..|files|] == files;
  }

  /** The paths a cycle pushes: the pending ones if there are any, every file that is not
      internal if it scans, and otherwise none. */
  ghost predicate Targets(files: seq<Rel>, pending: set<Rel>, scanned: bool, local: Local) {
    if pending != {} then !scanned && Distinct(files) && forall p :: p in files <==> p in pending
    else if scanned then Scan(files, local)
    else files == []
  }

  class SyncEngine {
    var local: Local
    var remote: Remote
    var saved: Manifest
    /** Paths the file watcher reported since the last cycle. */
    var pending: set<Rel>
    var cycles: nat

    constructor (local: Local, remote: Remote, saved: Manifest)
      ensures this.local == local && this.remote == remote && this.saved == saved
      ensures pending == {} && cycles == 0
    {
      this.local, this.remote, this.saved := local, remote, saved;
      pending, cycles := {}, 0;
    }

    ghost function W(): World
      reads this
    {
      World(local, remote, saved)
    }

    /** One remote change; `luck` is what the disk answers. A failing request leaves everything
        as it was, but a failing write may leave anything in the file. */
    method ApplyRemoteChange(r: Row, luck: Luck, paths: Paths) returns (ok: bool, n: nat, paths': Paths, half: Option<Half>)
      requires Pullable(r)
      modifies this`local
      ensures ok ==> Side(local, paths') == ApplyChange(r, luck, Side(old(local), paths)) && half == None
      ensures ok ==> n == ChangeCount(r, Side(old(local), paths))
      ensures !ok ==> local == Spoil(old(local), half) && (half.Some? ==> half.value.path == r.path && !SyncSkipped(r.path))
    {
      ok, n, paths', half := true, 0, paths, None;
      var p := r.path;
      if SyncSkipped(p) {
        return;
      }
      if r.deleted {
        if p in local && luck.unlink {
          local := local - {p};
        }
        paths' := paths - {p};
        n := 1;
        return;
      }
      var readable: bool := *;
      if p in local && !readable {
        ok := false;
        return;
      }
      if p in local && Blake3(local[p].content) == r.hash {
        if luck.stat {
          paths' := paths[p := Entry(r.hash, local[p].stamp)];
        }
        return;
      }
      var fetched, written: bool := *, *;
      if !fetched {
        ok := false;
        return;
      }
      if !written {
        var left: File := *;
        ok, half := false, Some(Half(p, left));
        local := local[p := left];
        return;
      }
      local := local[p := File(r.hash.content, luck.stamp)];
      paths' := paths[p := Entry(r.hash, if luck.stat then luck.stamp else Stamp(|r.hash.content|, 0))];
      n := 1;
    }

    /** The entries of one page, in order, stopping at the first that fails. */
    method ApplyPage(page: seq<Row>, paths: Paths) returns (ok: bool, n: nat, paths': Paths, luck: seq<Luck>, half: Option<Half>)
      requires AllPullable(page)
      modifies this`local
      ensures |luck| <= |page| && (ok ==> |luck| == |page| && half == None)
      ensures AllPullable(page[..|luck|]) && (half.Some? ==> |luck| < |page| && page[|luck|].path == half.value.path)
      ensures half.Some? ==> !SyncSkipped(half.value.path)
      ensures local == Spoil(ApplyAll(page[..|luck|], luck, Side(old(local), paths)).local, half)
      ensures ok ==> paths' == ApplyAll(page[..|luck|], luck, Side(old(local), paths)).paths
    {
      ok, n, paths', luck, half := true, 0, paths, [], None;
      var k := 0;
      while k < |page|
        invariant k == |luck| <= |page| && AllPullable(page[..k]) && half == None
        invariant Side(local, paths') == ApplyAll(page[..k], luck, Side(old(local), paths))
      {
        assert page[k] in page;
        var l: Luck := *;
        var fine, c, next, h := ApplyRemoteChange(page[k], l, paths');
        if !fine {
          ok, half := false, h;
          return;
        }
        ApplySnoc(page, k, luck, l, Side(old(local), paths));
        n, paths', luck, k := n + c, next, luck + [l], k + 1;
      }
    }

    /** The loop of `pull_remote_changes`: one listed file after the other, those with a
        matching stamp unread. */
    method PullListing(todo: seq<Rel>, view: map<Rel, Digest>) returns (ok: bool, stored: bool, files: seq<Listed>, half: Option<Half>)
      requires forall p | p in todo :: p in view && view[p].Blake3?
      modifies this`local, this`saved
      ensures Met(files, todo, view) && (ok ==> |files| == |todo| && half == None)
      ensures half.Some? ==> |files| < |todo| && half.value.path == todo[|files|]
      ensures var t := PullTree(files, Side(old(local), old(saved).paths));
              local == Spoil(t.local, half) && saved == if ok && stored then old(saved).(paths := t.paths) else old(saved)
    {
      ok, stored, files, half := true, false, [], None;
      var paths := saved.paths;
      var k := 0;
      while k < |todo|
        invariant ok && half == None && k == |files| && Met(files, todo, view) && saved == old(saved)
        invariant Side(local, paths) == PullTree(files, Side(old(local), old(saved).paths))
      {
        var p := todo[k];
        var h := view[p];
        var luck: Luck := *;
        ListedSnoc(files, Listed(p, h, luck), Side(old(local), old(saved).paths));
        var settled := p in paths && paths[p].hash == h && p in local && luck.stat && local[p].stamp == paths[p].stamp;
        if !SyncSkipped(p) && !settled {
          var c;
          ok, c, paths, half := ApplyRemoteChange(Row(p, h, 0, false), luck, paths);
          if !ok {
            return;
          }
        }
        files, k := files + [Listed(p, h, luck)], k + 1;
      }
      stored := *;
      if stored {
        saved := saved.(paths := paths);
      }
    }

    /** `prune_local_orphans`: of the files the walk visits, those recorded but not listed. */
    method PruneLocalOrphans(visited: seq<Rel>, view: map<Rel, Digest>) returns (ok: bool, stored: bool, gone: set<Rel>)
      requires forall p :: p in visited <==> p in local && !Internal(p)
      modifies this`local, this`saved
      ensures gone <= Orphans(old(local), old(saved).paths, view)
      ensures ok ==> gone == Orphans(old(local), old(saved).paths, view)
      ensures local == old(local) - gone
      ensures saved == if ok && stored then old(saved).(paths := old(saved).paths - gone) else old(saved)
    {
      ok, stored, gone := true, false, {};
      var paths := saved.paths;
      for k := 0 to |visited|
        invariant ok && saved == old(saved) && local == old(local) - gone && paths == saved.paths - gone
        invariant gone == set p | p in visited[..k] && p in Orphans(old(local), old(saved).paths, view)
      {
        var p := visited[k];
        assert visited[..k + 1] == visited[..k] + [p];
        if p !in view && p in paths {
          var removed: bool := *;
          if !removed {
            ok := false;
            return;
          }
          local, paths, gone := local - {p}, paths - {p}, gone + {p};
        }
      }
      assert visited[..|visited|] == visited;
      stored := *;
      if stored {
        saved := saved.(paths := paths);
      }
    }

    /** `pull_remote_changes`: the listing, then the prune. */
    method PullRemoteChanges() returns (ok: bool, ghost heal: Heal)
      requires forall p | p in Listing(remote.rows) :: Listing(remote.rows)[p].Blake3?
      modifies this`local, this`saved
      ensures FellBack(old(W()), W(), heal) && !heal.restored && (ok ==> heal.pruned)
    {
      var view := Listing(remote.rows);
      var todo := Enumerate(view.Keys);
      var stored, files, half, gone;
      ok, stored, files, half := PullListing(todo, view);
      ListingMet(files, todo, view);
      heal := Heal(files, half, ok, saved.paths, {}, false, false);
      if !ok {
        return;
      }
      var visited := Enumerate(set p | p in local && !Internal(p));
      ok, stored, gone := PruneLocalOrphans(visited, view);
      heal := heal.(gone := gone, pruned := ok);
    }

    /** The branch taken when the server has no change feed. `prior` is the manifest its
        caller holds; saving it with the cursor undoes what the tree pull recorded. */
    method FallBack(prior: Manifest) returns (ok: bool, ghost heal: Heal)
      requires prior == saved && forall p | p in Listing(remote.rows) :: Listing(remote.rows)[p].Blake3?
      modifies this`local, this`saved
      ensures FellBack(old(W()), W(), heal) && (ok ==> heal.pruned)
    {
      heal := Heal([], None, false, saved.paths, {}, false, false);
      var listed: bool := *;
      if !listed {
        return false, heal;
      }
      ok, heal := PullRemoteChanges();
      var cursorKnown: bool := *;
      if ok && cursorKnown {
        ok := *;
        if ok {
          heal := heal.(restored := true);
          saved := Manifest(SyncCursor(remote.rows), prior.paths);
        }
      }
    }

    /** The page loop of the delta pull, of which the server answers at most `patience`
        requests. After `n` pages it ends either with everything applied, or as an aborted
        pull; `missing` says that the server turned out to have no feed. */
    method PullPages(patience: nat)
      returns (ok: bool, missing: bool, count: nat, luck: seq<Luck>, ghost n: nat, ghost torn: seq<Row>, ghost last: seq<Luck>,
               half: Option<Half>)
      requires RemoteValid(remote)
      modifies this`local, this`saved
      ensures ok ==> !Delivered(old(W()), n).more && |luck| == |Delivered(old(W()), n).feed| && W() == Pulled(old(W()), n, luck)
      ensures !ok ==> Aborted(old(W()), W(), n, luck, torn, last, half)
      ensures missing ==> !ok && torn == [] && last == [] && half == None
    {
      ghost var start := W();
      missing := false;
      var paths, since, left := saved.paths, saved.since, patience;
      ok, count, luck, n, torn, last, half := true, 0, [], 0, [], [], None;
      var more := true;
      while more
        invariant ok && half == None && remote == start.remote && more == Delivered(start, n).more
        invariant Progress(start, W(), paths, since, n, luck)
        decreases more, left
      {
        var answered: bool := *;
        torn, last := [], [];
        if !answered || left == 0 {
          ok, missing := false, *;
          PullBreaks(start, W(), paths, since, n, luck, [], [], None, W());
          return;
        }
        ghost var here := W();
        var page := Page(remote.rows, since, PAGE_LIMIT);
        PagePullable(remote, since);
        var c, l, next;
        ok, c, next, l, half := ApplyPage(page, paths);
        torn, last := page[..|l|], l;
        PullBreaks(start, here, paths, since, n, luck, torn, l, half, W());
        var stored: bool := *;
        if !ok || !stored {
          ok := false;
          return;
        }
        assert torn == page;
        PageApplied(start, here, paths, since, n, luck, page, l, local, next);
        count, paths, luck, n := count + c, next, luck + l, n + 1;
        since := NextSince(page, since);
        saved := Manifest(since, paths);
        more, left := |page| >= PAGE_LIMIT, left - 1;
      }
      if since == 0 {
        NoRows(start, n);
        var cursorKnown: bool := *;
        if cursorKnown {
          saved := saved.(since := SyncCursor(remote.rows));
        }
      }
    }

    /** The pull of a cycle: the pages, and the fallback when there are none to be had. */
    method PullRemoteDelta(patience: nat) returns (ok: bool, fell: bool, ghost t: Trace)
      requires RemoteValid(remote)
      modifies this`local, this`saved
      ensures PullEnds(old(W()), W(), ok, t) && (fell <==> t.heal.Some?)
    {
      var count, luck, half;
      ghost var n, torn, last;
      ok, fell, count, luck, n, torn, last, half := PullPages(patience);
      t := Trace(n, luck, torn, last, half, W(), None);
      if fell {
        ListingHashed(remote);
        ghost var heal;
        ok, heal := FallBack(saved);
        t := t.(heal := Some(heal));
      }
    }

    /** The push loop shared by `push_paths` and `push_local_changes`. The manifest is
        stored only after the whole loop, and a failure to store it goes unnoticed. */
    method Push(todo: seq<Rel>, view: map<Rel, Digest>) returns (ok: bool, n: nat, stored: bool, ghost k: nat)
      modifies this`remote, this`saved
      ensures k <= |todo| && (ok ==> k == |todo|)
      ensures var t := PushAll(todo[..k], local, view, PushState(old(remote), old(saved).paths));
              remote == t.remote && saved == if stored then old(saved).(paths := t.paths) else old(saved)
    {
      ok, n, stored, k := true, 0, false, 0;
      var paths := saved.paths;
      var at := 0;
      while at < |todo|
        invariant at == k <= |todo| && saved == old(saved)
        invariant PushState(remote, paths) == PushAll(todo[..k], local, view, PushState(old(remote), old(saved).paths))
      {
        var p := todo[at];
        PushSnoc(todo, at, local, view, PushState(old(remote), old(saved).paths));
        if Internal(p) || p !in local {
          at, k := at + 1, k + 1;
          continue;
        }
        var readable: bool := *;
        if !readable {
          ok := false;
          return;
        }
        if StampMatches(p, local[p], view, paths) {
          at, k := at + 1, k + 1;
          continue;
        }
        var h := Blake3(local[p].content);
        if !(p in view && view[p] == h) {
          var locked, uploaded: bool := *, *;
          if !locked || !uploaded {
            ok := false;
            return;
          }
          remote := Put(remote, p, h);
          n := n + 1;
        }
        paths := paths[p := Entry(h, local[p].stamp)];
        at, k := at + 1, k + 1;
      }
      assert todo[..k] == todo;
      stored := *;
      if stored {
        saved := saved.(paths := paths);
      }
    }

    method PropagateLocalDeletions(keys: seq<Rel>, view: map<Rel, Digest>) returns (ok: bool, n: nat, stored: bool, ghost k: nat)
      modifies this`remote, this`saved
      ensures k <= |keys| && (ok ==> k == |keys|)
      ensures var t := DeleteAll(keys[..k], local, view, PushState(old(remote), old(saved).paths));
              remote == t.remote && saved == if stored then old(saved).(paths := t.paths) else old(saved)
    {
      ok, n, stored, k := true, 0, false, 0;
      var paths := saved.paths;
      var at := 0;
      while at < |keys|
        invariant at == k <= |keys| && saved == old(saved)
        invariant PushState(remote, paths) == DeleteAll(keys[..k], local, view, PushState(old(remote), old(saved).paths))
      {
        var p := keys[at];
        PushSnoc(keys, at, local, view, PushState(old(remote), old(saved).paths));
        if p !in local && p in view {
          var done: bool := *;
          if !done {
            ok := false;
            return;
          }
          remote := Delete(remote, p);
          paths := paths - {p};
          n := n + 1;
        }
        at, k := at + 1, k + 1;
      }
      assert keys[..k] == keys;
      stored := *;
      if stored {
        saved := saved.(paths := paths);
      }
    }

    /** The watcher's path, with either separator and perhaps leading slashes. */
    method PendingPush(path: string)
      modifies this`pending
      ensures pending == if PendingForm(path) == "" then old(pending) else old(pending) + {Components(PendingForm(path))}
    {
      var rel := TrimSlashes(ForwardSlashes(path));
      if rel != "" {
        pending := pending + {Components(rel)};
      }
    }

    method ShouldFullPushScan() returns (scan: bool)
      modifies this`cycles
      ensures cycles == old(cycles) + 1 && (scan <==> cycles % SCAN_EVERY == 0)
    {
      cycles := cycles + 1;
      scan := cycles % SCAN_EVERY == 0;
    }

    /** The middle of a cycle: the pending paths, or every so often a full scan. The pending
        set is drained before its paths are pushed, so none is kept for a retry. */
    method PushLocal() returns (ok: bool, scanned: bool, stored: bool, ghost files: seq<Rel>, ghost k: nat)
      modifies this`remote, this`saved, this`pending, this`cycles
      ensures pending == {}
      ensures scanned ==> old(pending) == {} && cycles == old(cycles) + 1 && cycles % SCAN_EVERY == 0
      ensures old(pending) == {} && (old(cycles) + 1) % SCAN_EVERY == 0 ==> scanned
      ensures Targets(files, old(pending), scanned, local) && k <= |files| && (ok ==> k == |files|)
      ensures W() == PushedTo(old(W()), files, k, stored)
    {
      ok, scanned, stored, files, k := true, false, false, [], 0;
      var take := pending;
      pending := {};
      var paths := [];
      if take != {} {
        paths := Enumerate(take);
      } else {
        var scan := ShouldFullPushScan();
        if !scan {
          return;
        }
        scanned := true;
        paths := Enumerate(set p | p in local && !Internal(p));
      }
      files := paths;
      ok := *;
      if ok {
        var c;
        ok, c, stored, k := Push(paths, Listing(remote.rows));
      }
    }

    /** The end of a cycle: a listing, and the deletions of recorded paths. */
    method Propagate() returns (ok: bool, stored: bool, ghost keys: seq<Rel>, ghost k: nat)
      modifies this`remote, this`saved
      ensures KeyList(keys, old(saved).paths) && k <= |keys| && (ok ==> k == |keys|)
      ensures W() == PropagatedTo(old(W()), keys, k, stored)
    {
      var ks := Enumerate(saved.paths.Keys);
      keys, stored, k := ks, false, 0;
      ok := *;
      if ok {
        var c;
        ok, c, stored, k := PropagateLocalDeletions(ks, Listing(remote.rows));
      }
    }

    /** One cycle: what its pull left, what of its targets it pushed and of the recorded paths it
        propagated from there, and which of the two manifest writes went through. When it
        succeeds, did not fall back and both went through, and if it scanned, that is the full
        cycle the convergence theorems speak of. */
    method SyncCycle(patience: nat) returns (ok: bool, fell: bool, scanned: bool, pushed: bool, purged: bool,
                                             ghost pulled: bool, ghost t: Trace, ghost after: World,
                                             ghost files: seq<Rel>, ghost sent: nat, ghost keys: seq<Rel>, ghost dropped: nat)
      requires RemoteValid(remote)
      modifies this
      ensures PullEnds(old(W()), after, pulled, t) && (fell <==> t.heal.Some?)
      ensures pending == if pulled then {} else old(pending)
      ensures scanned ==> old(pending) == {} && cycles == old(cycles) + 1 && cycles % SCAN_EVERY == 0
      ensures pulled && old(pending) == {} && (old(cycles) + 1) % SCAN_EVERY == 0 ==> scanned
      ensures !pulled ==> W() == after
      ensures pulled ==> Targets(files, old(pending), scanned, after.local) && sent <= |files| && dropped <= |keys|
                         && var b := PushedTo(after, files, sent, pushed);
                         && (keys == [] || KeyList(keys, b.saved.paths)) && W() == PropagatedTo(b, keys, dropped, purged)
      ensures ok ==> pulled && sent == |files| && dropped == |keys| && KeyList(keys, PushedTo(after, files, sent, pushed).saved.paths)
      ensures ok && !fell && (files == [] || pushed) && purged ==>
                && after == Pulled(old(W()), t.n, t.luck) && W() == Propagated(Pushed(after, files), keys)
                && KeyList(keys, Pushed(after, files).saved.paths)
    {
      scanned, pushed, purged, files, sent, keys, dropped := false, false, false, [], 0, [], 0;
      ok, fell, t := PullRemoteDelta(patience);
      pulled, after := ok, W();
      if !ok {
        return;
      }
      ok, scanned, pushed, files, sent := PushLocal();
      if !ok {
        return;
      }
      WholePush(after, files);
      ghost var b := W();
      ok, purged, keys, dropped := Propagate();
      WholePush(b, keys);
    }
  }

  /** What the methods' fallback leaves once it has restored its caller's manifest: the cursor
      has passed everything but a newest row that rounds down, while of the listed paths only
      those recorded before are recorded. */
  lemma RestoredFallbackForgets(a: World, z: World, h: Heal, p: Rel)
    requires RemoteValid(a.remote) && Apart(a.remote.rows) && FellBack(a, z, h) && h.restored && !SyncSkipped(p)
    ensures CoveredAt(z.remote.rows, Mark(z.saved.since), z.saved.paths, p) <==>
            RemoteAt(a.remote.rows, p) == None || p in a.saved.paths || NewestRoundsDown(a.remote.rows, p)
  {
    if Latest(a.remote.rows, p).Some? {
      SyncCursorPasses(a.remote.rows, p);
    }
  }

  lemma ListedSnoc(files: seq<Listed>, f: Listed, s: Side)
    requires f.hash.Blake3? && forall g | g in files :: g.hash.Blake3?
    ensures PullTree(files + [f], s) == PullListed(f.path, f.hash, f.luck, PullTree(files, s))
  {
    assert (files + [f])[..|files|] == files;
  }

  lemma ListingHashed(r: Remote)
    requires RemoteValid(r)
    ensures forall p | p in Listing(r.rows) :: Listing(r.rows)[p].Blake3?
  {
    forall p | p in Listing(r.rows) ensures Listing(r.rows)[p].Blake3? {
      assert Latest(r.rows, p).value in r.rows;
    }
  }

  lemma ListingMet(files: seq<Listed>, todo: seq<Rel>, view: map<Rel, Digest>)
    requires Met(files, todo, view)
    ensures forall f | f in files :: f.path in view && f.hash == view[f.path] && f.hash.Blake3?
    ensures |files| == |todo| ==> forall p | p in todo :: exists f | f in files :: f.path == p
  {
    if |files| == |todo| {
      forall p | p in todo ensures exists f | f in files :: f.path == p {
        var i :| 0 <= i < |todo| && todo[i] == p;
        assert files[i] in files && files[i].path == p;
      }
    }
  }

  /** Between pages: the rows of `n` pages are applied and saved. */
  ghost predicate Progress(start: World, now: World, paths: Paths, since: nat, n: nat, luck: seq<Luck>) {
    var q := Delivered(start, n);
    && RemoteValid(start.remote) && now.remote == start.remote && |luck| == |q.feed| && AllPullable(q.feed)
    && Side(now.local, paths) == ApplyAll(q.feed, luck, Side(start.local, start.saved.paths))
    && now.saved == Manifest(since, paths) && since == q.since
  }

  lemma PagePullable(r: Remote, since: nat)
    requires RemoteValid(r)
    ensures AllPullable(Page(r.rows, since, PAGE_LIMIT))
  {
    forall x | x in Page(r.rows, since, PAGE_LIMIT) ensures Pullable(x) {
      SinceMember(r.rows, Mark(since), x);
    }
  }

  /** Any number of entries into the next page, the pull is an aborted one. */
  lemma PullBreaks(start: World, here: World, paths: Paths, since: nat, n: nat, luck: seq<Luck>,
                   torn: seq<Row>, l: seq<Luck>, half: Option<Half>, now: World)
    requires Progress(start, here, paths, since, n, luck)
    requires |l| == |torn| && AllPullable(torn) && torn <= Page(start.remote.rows, since, PAGE_LIMIT)
    requires var page := Page(start.remote.rows, since, PAGE_LIMIT);
             half.Some? ==> |torn| < |page| && page[|torn|].path == half.value.path && !SyncSkipped(half.value.path)
    requires now == here.(local := Spoil(ApplyAll(torn, l, Side(here.local, paths)).local, half))
    ensures Aborted(start, now, n, luck, torn, l, half)
  {
  }

  lemma PageApplied(start: World, here: World, paths: Paths, since: nat, n: nat, luck: seq<Luck>,
                    page: seq<Row>, l: seq<Luck>, local: Local, next: Paths)
    requires Progress(start, here, paths, since, n, luck) && Delivered(start, n).more
    requires page == Page(start.remote.rows, since, PAGE_LIMIT) && |l| == |page| && AllPullable(page)
    requires Side(local, next) == ApplyAll(page, l, Side(here.local, paths))
    ensures Progress(start, World(local, here.remote, Manifest(NextSince(page, since), next)), next, NextSince(page, since),
                     n + 1, luck + l)
    ensures Delivered(start, n + 1).more == (|page| >= PAGE_LIMIT)
  {
    ApplyConcat(Delivered(start, n).feed, page, luck, l, Side(start.local, start.saved.paths));
  }

  /** With any row at all, the first page already moves a cursor off zero. */
  lemma {:induction false} SomePageCounts(start: World, n: nat)
    requires RemoteValid(start.remote) && start.remote.rows != [] && n > 0
    ensures Delivered(start, n).since > 0
  {
    var rows, q := start.remote.rows, Delivered(start, n - 1);
    if n > 1 {
      SomePageCounts(start, n - 1);
    } else {
      PageMovesOffZero(start.remote, q.since);
    }
  }

  lemma PageMovesOffZero(r: Remote, since: nat)
    requires RemoteValid(r) && r.rows != []
    ensures NextSince(Page(r.rows, since, PAGE_LIMIT), since) > 0
  {
    if since == 0 {
      var page := Page(r.rows, 0, PAGE_LIMIT);
      SinceRows(r.rows, 0);
      assert r.rows[0] in Since(r.rows, 0);
      assert page[|page| - 1] in Since(r.rows, 0);
    }
  }

  /** A cursor is still zero only if there are no rows. */
  lemma NoRows(start: World, n: nat)
    requires RemoteValid(start.remote) && !Delivered(start, n).more && Delivered(start, n).since == 0
    ensures start.remote.rows == []
  {
    if start.remote.rows != [] {
      SomePageCounts(start, n);
    }
  }
}
