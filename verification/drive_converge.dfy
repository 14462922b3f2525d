/** What one undisturbed, error-free cycle with the full push scan achieves. */
module DriveConverge {
  import opened Common
  import opened DrivePaths
  import opened DriveModel
  import opened DrivePaging
  import opened DriveReplay

  datatype World = World(local: Local, remote: Remote, saved: Manifest)

  ghost predicate WorldTrue(at: (Rel, Stamp) -> Content, w: World) {
    RemoteValid(w.remote) && LocalTrue(at, w.local) && ManifestTrue(at, w.saved.paths) && Mark(w.saved.since) <= w.remote.now + SLACK
  }

  predicate Distinct(ps: seq<Rel>) {
    forall i, j | 0 <= i < j < |ps| :: ps[i] != ps[j]
  }

  /** What the walk delivers to the push scan. */
  ghost predicate Scan(files: seq<Rel>, local: Local) {
    Distinct(files) && forall p :: p in files <==> p in local && !Internal(p)
  }

  ghost predicate KeyList(keys: seq<Rel>, paths: Paths) {
    Distinct(keys) && forall p :: p in keys <==> p in paths
  }

  ghost predicate LuckyFeed(at: (Rel, Stamp) -> Content, rows: seq<Row>, luck: seq<Luck>) {
    |luck| == |rows| && forall i | 0 <= i < |rows| :: Lucky(at, rows[i], luck[i])
  }

  // The three phases of `sync_cycle`, each from the state the previous one leaves.

  /** The first `n` pages of a pull from the saved cursor. */
  function Delivered(w: World, n: nat): Pull {
    Pages(w.remote.rows, w.saved.since, PAGE_LIMIT, n)
  }

  function Pulled(w: World, n: nat, luck: seq<Luck>): World
    requires RemoteValid(w.remote) && |luck| == |Delivered(w, n).feed|
  {
    var q := Delivered(w, n);
    FeedPullable(w.remote, w.saved.since, n);
    var side := ApplyAll(q.feed, luck, Side(w.local, w.saved.paths));
    World(side.local, w.remote, Manifest(if q.since == 0 then SyncCursor(w.remote.rows) else q.since, side.paths))
  }

  function Pushed(w: World, files: seq<Rel>): World {
    var s := PushAll(files, w.local, Listing(w.remote.rows), PushState(w.remote, w.saved.paths));
    World(w.local, s.remote, w.saved.(paths := s.paths))
  }

  function Propagated(w: World, keys: seq<Rel>): World {
    var s := DeleteAll(keys, w.local, Listing(w.remote.rows), PushState(w.remote, w.saved.paths));
    World(w.local, s.remote, w.saved.(paths := s.paths))
  }

  /** `z` is what an undisturbed error-free full cycle makes of `w`, the pull taking `n` pages
      and the scan and the manifest keys being enumerated in some order. */
  ghost predicate FullCycle(at: (Rel, Stamp) -> Content, w: World, n: nat, luck: seq<Luck>, files: seq<Rel>, keys: seq<Rel>, z: World) {
    && WorldTrue(at, w)
    && !Delivered(w, n).more && LuckyFeed(at, Delivered(w, n).feed, luck)
    && var a := Pulled(w, n, luck);
    && Scan(files, a.local)
    && var b := Pushed(a, files);
    && KeyList(keys, b.saved.paths)
    && z == Propagated(b, keys)
  }

  function ContentAt(local: Local, p: Rel): Option<Content> {
    if p in local then Some(local[p].content) else None
  }

  function RemoteAt(rows: seq<Row>, p: Rel): Option<Digest> {
    if Alive(Latest(rows, p)) then Some(Latest(rows, p).value.hash) else None
  }

  /** The three-way rule: a change past the cursor is won by the remote; otherwise the
      local side wins, and that includes a local deletion. */
  function Reconciled(w: World, p: Rel): Option<Content> {
    var r := Latest(w.remote.rows, p);
    if r.Some? && r.value.ts > Mark(w.saved.since) then
      if r.value.deleted || r.value.hash.Text? then None else Some(r.value.hash.content)
    else ContentAt(w.local, p)
  }

  // ------------------------------------------------------------- the phases, path by path

  lemma {:induction false} ApplyAllKeepsTrue(at: (Rel, Stamp) -> Content, rows: seq<Row>, luck: seq<Luck>, s: Side)
    requires AllPullable(rows) && LuckyFeed(at, rows, luck) && LocalTrue(at, s.local) && ManifestTrue(at, s.paths)
    ensures LocalTrue(at, ApplyAll(rows, luck, s).local) && ManifestTrue(at, ApplyAll(rows, luck, s).paths)
  {
    if rows != [] {
      var n := |rows| - 1;
      assert forall r | r in rows[..n] :: r in rows;
      ApplyAllKeepsTrue(at, rows[..n], luck[..n], s);
      PullKeepsManifestTrue(at, rows[n], luck[n], ApplyAll(rows[..n], luck[..n], s));
    }
  }

  lemma FeedPullable(r: Remote, since: nat, n: nat)
    requires RemoteValid(r)
    ensures AllPullable(Pages(r.rows, since, PAGE_LIMIT, n).feed)
  {
    PagesAreRows(r.rows, since, PAGE_LIMIT, n);
  }

  /** A pull ends with the cursor of the newest row, or with its own if that is later. */
  lemma PulledCursor(w: World, n: nat, luck: seq<Luck>)
    requires RemoteValid(w.remote) && Apart(w.remote.rows) && !Delivered(w, n).more && |luck| == |Delivered(w, n).feed|
    ensures Pulled(w, n, luck).saved.since == Max(w.saved.since, SyncCursor(w.remote.rows))
  {
    var rows, q := w.remote.rows, Delivered(w, n);
    var ahead := PagingCoversFeed(rows, w.saved.since, PAGE_LIMIT, n);
    NothingAhead(rows, LastTs(w.saved.since, q.feed));
    if rows != [] {
      if q.feed == [] {
        RoundingIsMonotone(rows[|rows| - 1].ts, Mark(w.saved.since));
      } else {
        PagesAreRows(rows, w.saved.since, PAGE_LIMIT, n);
        var x := q.feed[|q.feed| - 1];
        assert x in q.feed;
        PastMark(w.saved.since, x.ts);
      }
    }
  }

  lemma NothingAhead(rows: seq<Row>, from: nat)
    requires Increasing(rows) && Since(rows, from) == []
    ensures forall i | 0 <= i < |rows| :: rows[i].ts <= from
  {
    SinceRows(rows, from);
  }

  lemma PulledTrue(at: (Rel, Stamp) -> Content, w: World, n: nat, luck: seq<Luck>)
    requires WorldTrue(at, w) && Apart(w.remote.rows) && !Delivered(w, n).more && LuckyFeed(at, Delivered(w, n).feed, luck)
    ensures WorldTrue(at, Pulled(w, n, luck)) && Pulled(w, n, luck).saved.since >= w.saved.since
  {
    FeedPullable(w.remote, w.saved.since, n);
    ApplyAllKeepsTrue(at, Delivered(w, n).feed, luck, Side(w.local, w.saved.paths));
    PulledCursor(w, n, luck);
    if w.remote.rows != [] {
      RoundingError(w.remote.rows[|w.remote.rows| - 1].ts);
    }
  }

  /** After the pull a syncable path has the content the rule names. */
  lemma PulledContent(at: (Rel, Stamp) -> Content, w: World, n: nat, luck: seq<Luck>, p: Rel)
    requires WorldTrue(at, w) && Apart(w.remote.rows) && !Delivered(w, n).more && LuckyFeed(at, Delivered(w, n).feed, luck)
    requires !SyncSkipped(p)
    ensures ContentAt(Pulled(w, n, luck).local, p) == Reconciled(w, p)
    ensures var r, a := Latest(w.remote.rows, p), Pulled(w, n, luck);
            if r.Some? && r.value.ts > Mark(w.saved.since) then p in a.saved.paths <==> !r.value.deleted
            else SameEntry(p, a.saved.paths, w.saved.paths)
  {
    var feed := Delivered(w, n).feed;
    FeedPullable(w.remote, w.saved.since, n);
    LuckyIsSilent(at, feed, luck);
    PullEffect(feed, luck, Side(w.local, w.saved.paths), p);
    DeliveredLatest(w.remote.rows, w.saved.since, PAGE_LIMIT, n, p);
  }

  /** The pull leaves a path alone whose last row the cursor has passed, however close together
      the rows are. */
  lemma PassedPathUntouched(at: (Rel, Stamp) -> Content, w: World, n: nat, luck: seq<Luck>, p: Rel)
    requires WorldTrue(at, w) && LuckyFeed(at, Delivered(w, n).feed, luck)
    requires Latest(w.remote.rows, p).Some? ==> Latest(w.remote.rows, p).value.ts <= Mark(w.saved.since)
    ensures var a := Pulled(w, n, luck);
            SameFile(p, a.local, w.local) && SameEntry(p, a.saved.paths, w.saved.paths) && a.saved.since >= w.saved.since
    ensures LocalTrue(at, Pulled(w, n, luck).local) && ManifestTrue(at, Pulled(w, n, luck).saved.paths)
  {
    var feed, s := Delivered(w, n).feed, Side(w.local, w.saved.paths);
    FeedPullable(w.remote, w.saved.since, n);
    PagesAreRows(w.remote.rows, w.saved.since, PAGE_LIMIT, n);
    LatestNotAfter(w.remote.rows, feed, Mark(w.saved.since), p);
    LuckyIsSilent(at, feed, luck);
    PullEffect(feed, luck, s, p);
    ApplyAllKeepsTrue(at, feed, luck, s);
  }

  lemma LuckyIsSilent(at: (Rel, Stamp) -> Content, rows: seq<Row>, luck: seq<Luck>)
    requires LuckyFeed(at, rows, luck)
    ensures Silent(luck)
  {
    forall l | l in luck ensures l.stat && l.unlink {
      var i :| 0 <= i < |luck| && luck[i] == l;
      assert Lucky(at, rows[i], luck[i]);
    }
  }

  /** After every row so far, and clearly so where changes are spaced. */
  ghost predicate After(r: Remote, ts: nat) {
    ts > r.now && (Spaced(r) ==> ts > r.now + SLACK)
  }

  ghost predicate StaysSpaced(r: Remote, t: Remote) {
    Spaced(r) ==> Spaced(t)
  }

  /** What pushing leaves of path `p`: nothing changes without a scanned file; otherwise the
      path is recorded, and its row is new exactly if the listing showed other content. */
  ghost predicate PushedAs(scanned: bool, p: Rel, local: Local, s: PushState, t: PushState) {
    if !scanned || Internal(p) || p !in local then
      Latest(t.remote.rows, p) == Latest(s.remote.rows, p) && SameEntry(p, t.paths, s.paths)
    else
      p in t.paths &&
      if RemoteAt(s.remote.rows, p) == Some(Blake3(local[p].content)) then Latest(t.remote.rows, p) == Latest(s.remote.rows, p)
      else
        Latest(t.remote.rows, p).Some? && After(s.remote, Latest(t.remote.rows, p).value.ts) &&
        RemoteAt(t.remote.rows, p) == Some(Blake3(local[p].content))
  }

  lemma PushOneValid(at: (Rel, Stamp) -> Content, q: Rel, local: Local, view: map<Rel, Digest>, m: PushState)
    requires RemoteValid(m.remote) && LocalTrue(at, local) && ManifestTrue(at, m.paths)
    ensures var t := PushOne(q, local, view, m);
            RemoteValid(t.remote) && ManifestTrue(at, t.paths) && t.remote.now >= m.remote.now
    ensures forall p | p != q :: Latest(PushOne(q, local, view, m).remote.rows, p) == Latest(m.remote.rows, p)
  {
    if q in local {
      PutEffect(m.remote, q, Blake3(local[q].content));
    }
  }

  lemma PushOneSpaced(q: Rel, local: Local, view: map<Rel, Digest>, m: PushState)
    requires RemoteValid(m.remote)
    ensures StaysSpaced(m.remote, PushOne(q, local, view, m).remote)
  {
    if q in local && Spaced(m.remote) {
      ChangesStaySpaced(m.remote, q, Blake3(local[q].content));
    }
  }

  lemma UploadEffect(before: Remote, r: Remote, q: Rel, h: Digest)
    requires RemoteValid(r) && r.now >= before.now && StaysSpaced(before, r) && h.Blake3?
    ensures Latest(Put(r, q, h).rows, q) == Some(Row(q, h, Tick(r), false)) && After(before, Tick(r))
  {
    PutEffect(r, q, h);
  }

  lemma PushOneEffect(at: (Rel, Stamp) -> Content, q: Rel, local: Local, s: PushState, m: PushState)
    requires RemoteValid(m.remote) && LocalTrue(at, local) && ManifestTrue(at, m.paths)
    requires m.remote.now >= s.remote.now && Latest(m.remote.rows, q) == Latest(s.remote.rows, q) && SameEntry(q, m.paths, s.paths)
    requires StaysSpaced(s.remote, m.remote)
    ensures PushedAs(true, q, local, s, PushOne(q, local, Listing(s.remote.rows), m))
  {
    PushShortcut(at, q, local, Listing(s.remote.rows), m);
    if q in local && !Internal(q) {
      var h := Blake3(local[q].content);
      assert (q in Listing(s.remote.rows) && Listing(s.remote.rows)[q] == h) <==> RemoteAt(s.remote.rows, q) == Some(h);
      UploadEffect(s.remote, m.remote, q, h);
    }
  }

  /** The push loop, path by path: it uploads exactly the scanned files whose content the
      listing does not show, and records every scanned file. */
  lemma {:induction false} PushEffect(at: (Rel, Stamp) -> Content, todo: seq<Rel>, local: Local, s: PushState, p: Rel)
    requires Distinct(todo) && RemoteValid(s.remote) && LocalTrue(at, local) && ManifestTrue(at, s.paths)
    ensures var t := PushAll(todo, local, Listing(s.remote.rows), s);
            && RemoteValid(t.remote) && StaysSpaced(s.remote, t.remote) && ManifestTrue(at, t.paths)
            && t.remote.now >= s.remote.now && PushedAs(p in todo, p, local, s, t)
  {
    if todo != [] {
      var n, view := |todo| - 1, Listing(s.remote.rows);
      assert p in todo <==> p in todo[..n] || p == todo[n];
      PushEffect(at, todo[..n], local, s, p);
      var m := PushAll(todo[..n], local, view, s);
      PushOneValid(at, todo[n], local, view, m);
      PushOneSpaced(todo[n], local, view, m);
      if p == todo[n] {
        PushOneEffect(at, p, local, s, m);
      }
    }
  }

  /** The propagation loop: it tombstones exactly the manifest paths that are absent
      locally and listed. */
  lemma {:induction false} DeleteAllEffect(at: (Rel, Stamp) -> Content, todo: seq<Rel>, local: Local, s: PushState, p: Rel)
    requires RemoteValid(s.remote) && ManifestTrue(at, s.paths)
    ensures var t := DeleteAll(todo, local, Listing(s.remote.rows), s);
            && RemoteValid(t.remote) && StaysSpaced(s.remote, t.remote) && ManifestTrue(at, t.paths) && t.remote.now >= s.remote.now
            && if p in todo && p !in local && Alive(Latest(s.remote.rows, p)) then
                 RemoteAt(t.remote.rows, p) == None && p !in t.paths &&
                 Latest(t.remote.rows, p).Some? && After(s.remote, Latest(t.remote.rows, p).value.ts)
               else
                 Latest(t.remote.rows, p) == Latest(s.remote.rows, p) && SameEntry(p, t.paths, s.paths)
  {
    if todo != [] {
      var n, view := |todo| - 1, Listing(s.remote.rows);
      assert p in todo <==> p in todo[..n] || p == todo[n];
      DeleteAllEffect(at, todo[..n], local, s, p);
      DeleteOneEffect(at, todo[n], local, view, DeleteAll(todo[..n], local, view, s), p);
    }
  }

  lemma DeleteOneEffect(at: (Rel, Stamp) -> Content, q: Rel, local: Local, view: map<Rel, Digest>, m: PushState, p: Rel)
    requires RemoteValid(m.remote) && ManifestTrue(at, m.paths)
    ensures var t := DeleteOne(q, local, view, m);
            && RemoteValid(t.remote) && StaysSpaced(m.remote, t.remote) && ManifestTrue(at, t.paths) && t.remote.now >= m.remote.now
            && if p == q && q !in local && q in view then
                 RemoteAt(t.remote.rows, p) == None && p !in t.paths &&
                 if Alive(Latest(m.remote.rows, p)) then
                   Latest(t.remote.rows, p).Some? && After(m.remote, Latest(t.remote.rows, p).value.ts)
                 else Latest(t.remote.rows, p) == Latest(m.remote.rows, p)
               else
                 Latest(t.remote.rows, p) == Latest(m.remote.rows, p) && SameEntry(p, t.paths, m.paths)
  {
    if q !in local && q in view {
      DeleteEffect(m.remote, q);
      if Spaced(m.remote) {
        ChangesStaySpaced(m.remote, q, Text(""));
      }
    }
  }

  // ------------------------------------------------------------- the cycle

  /** The cycle as a three-way merge. For every syncable path the local tree ends with what
      the rule names. The remote ends with the same, if and only if the path is not one
      that is live and already passed by the cursor, yet absent both from the local tree and
      from the manifest. */
  lemma CycleReconciles(at: (Rel, Stamp) -> Content, w: World, n: nat, luck: seq<Luck>, files: seq<Rel>, keys: seq<Rel>, z: World, p: Rel)
    requires FullCycle(at, w, n, luck, files, keys, z) && Spaced(w.remote) && Syncable(p)
    ensures ContentAt(z.local, p) == Reconciled(w, p)
    ensures RemoteAt(z.remote.rows, p) == (if Reconciled(w, p).Some? then Some(Blake3(Reconciled(w, p).value)) else None)
            <==> p in w.local || CoveredAt(w.remote.rows, Mark(w.saved.since), w.saved.paths, p)
    ensures WorldTrue(at, z) && Spaced(z.remote)
  {
    PulledTrue(at, w, n, luck);
    PulledContent(at, w, n, luck, p);
    var a := Pulled(w, n, luck);
    PushEffect(at, files, a.local, PushState(a.remote, a.saved.paths), p);
    var b := Pushed(a, files);
    DeleteAllEffect(at, keys, a.local, PushState(b.remote, b.saved.paths), p);
    var r := Latest(w.remote.rows, p);
    if r.Some? {
      assert r.value in w.remote.rows;
    }
  }

  /** Convergence: one full cycle leaves each path that is not live, not passed by the cursor or
      in the manifest with the same hash on both sides, or on neither. */
  lemma CycleConverges(at: (Rel, Stamp) -> Content, w: World, n: nat, luck: seq<Luck>, files: seq<Rel>, keys: seq<Rel>, z: World)
    requires FullCycle(at, w, n, luck, files, keys, z) && Spaced(w.remote)
    ensures forall p | Syncable(p) && CoveredAt(w.remote.rows, Mark(w.saved.since), w.saved.paths, p) ::
              RemoteAt(z.remote.rows, p) == if p in z.local then Some(Blake3(z.local[p].content)) else None
  {
    forall p | Syncable(p) && CoveredAt(w.remote.rows, Mark(w.saved.since), w.saved.paths, p)
      ensures RemoteAt(z.remote.rows, p) == if p in z.local then Some(Blake3(z.local[p].content)) else None
    {
      CycleReconciles(at, w, n, luck, files, keys, z, p);
    }
  }

  /** The server's newest row is `p`'s, and its time rounds down. */
  predicate NewestRoundsDown(rows: seq<Row>, p: Rel) {
    rows != [] && Latest(rows, p) == Some(rows[|rows| - 1]) && RoundsDown(rows[|rows| - 1].ts)
  }

  /** A pull's newest row comes again if its time rounds down. */
  predicate ComesAgain(w: World, p: Rel) {
    NewestRoundsDown(w.remote.rows, p) && Latest(w.remote.rows, p).value.ts > Mark(w.saved.since)
  }

  /** Of the rows there are, the newest one's cursor leaves exactly that one behind, and only if
      it rounds down. */
  lemma SyncCursorPasses(rows: seq<Row>, p: Rel)
    requires Apart(rows) && Latest(rows, p).Some?
    ensures Latest(rows, p).value.ts > Mark(SyncCursor(rows)) <==> NewestRoundsDown(rows, p)
  {
    var x, last := Latest(rows, p).value, rows[|rows| - 1];
    RoundingError(last.ts);
    var k :| 0 <= k < |rows| && rows[k] == x;
    if k < |rows| - 1 {
      assert x.ts + SLACK < last.ts;
    }
  }

  /** The cursor passes neither the cycle's own uploads nor a newest row whose time rounds
      down, so the next cycle takes them for remote changes. Let `changed` be the local tree
      after any edits or deletions made before that cycle: a path ends as the user left it
      exactly if the cycle did not upload it and its row does not come again; otherwise the
      user's edit or deletion is undone. */
  lemma ChangeAfterCycle(at: (Rel, Stamp) -> Content, w: World, n: nat, luck: seq<Luck>, files: seq<Rel>, keys: seq<Rel>, z: World,
                         p: Rel, changed: Local)
    requires FullCycle(at, w, n, luck, files, keys, z) && Spaced(w.remote) && Syncable(p) && p in z.local
    ensures Reconciled(z.(local := changed), p) ==
            if RemoteAt(w.remote.rows, p) == Some(Blake3(z.local[p].content)) && !ComesAgain(w, p) then ContentAt(changed, p)
            else Some(z.local[p].content)
    ensures CoveredAt(z.remote.rows, Mark(z.saved.since), z.saved.paths, p)
  {
    PulledTrue(at, w, n, luck);
    PulledContent(at, w, n, luck, p);
    PulledCursor(w, n, luck);
    var a := Pulled(w, n, luck);
    PushEffect(at, files, a.local, PushState(a.remote, a.saved.paths), p);
    var b := Pushed(a, files);
    DeleteAllEffect(at, keys, a.local, PushState(b.remote, b.saved.paths), p);
    if RemoteAt(w.remote.rows, p).Some? {
      PastPulledCursor(w, n, luck, p);
    }
  }

  /** Of the rows the server had, the pull's cursor leaves exactly those behind. */
  lemma PastPulledCursor(w: World, n: nat, luck: seq<Luck>, p: Rel)
    requires RemoteValid(w.remote) && Apart(w.remote.rows) && !Delivered(w, n).more && |luck| == |Delivered(w, n).feed|
    requires Latest(w.remote.rows, p).Some?
    ensures Latest(w.remote.rows, p).value.ts > Mark(Pulled(w, n, luck).saved.since) <==> ComesAgain(w, p)
  {
    PulledCursor(w, n, luck);
    SyncCursorPasses(w.remote.rows, p);
  }

  lemma OneRow(row: Row, luck: Luck, s: Side)
    requires Pullable(row)
    ensures ApplyAll([row], [luck], s) == ApplyChange(row, luck, s)
  {
    assert [row][..0] == [] && [luck][..0] == [];
  }

  lemma OneRowPull(w: World, row: Row, luck: Luck)
    requires w.remote.rows == [row] && RemoteValid(w.remote) && Pullable(row) && row.ts > Mark(w.saved.since)
    ensures Delivered(w, 1) == Pull([row], Ms(row.ts), false)
    ensures var side := ApplyChange(row, luck, Side(w.local, w.saved.paths));
            Pulled(w, 1, [luck]) == World(side.local, w.remote, Manifest(Ms(row.ts), side.paths))
  {
    assert [row][..0] == [] && w.remote.rows[0] == row;
    assert Since([row], Mark(w.saved.since)) == [row];
    OneRow(row, luck, Side(w.local, w.saved.paths));
    assert Delivered(w, 0) == Pull([], w.saved.since, true);
    PastMark(w.saved.since, row.ts);
    assert [] + [row] == [row];
  }

  /** At that input: the pull of a row at 1000.4 ms leaves the cursor at 1000, and from there,
      whatever the user has made of the file since, the next pull puts the row's content back. */
  lemma RoundedCursorUndoesAnEdit(row: Row, content: Content, luck: Luck, first: World, changed: World)
    requires !SyncSkipped(row.path) && row == Row(row.path, Blake3(content), 1_000_400, false)
    requires first == World(map[], Remote([row], 1_000_400, []), Manifest(0, map[])) && RemoteValid(first.remote)
    requires changed.remote == first.remote && changed.saved == Manifest(1000, map[row.path := Entry(row.hash, luck.stamp)])
    requires luck.stat
    ensures Delivered(first, 1) == Delivered(changed, 1) == Pull([row], 1000, false)
    ensures Pulled(first, 1, [luck]) == World(map[row.path := File(content, luck.stamp)], changed.remote, changed.saved)
    ensures ContentAt(Pulled(changed, 1, [luck]).local, row.path) == Some(content)
  {
    OneRowPull(first, row, luck);
    OneRowPull(changed, row, luck);
  }
}
