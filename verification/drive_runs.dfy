/** Runs of the sync engine: every entry of a page, every pushed path and every request is
    one step, users and other devices may act between any two steps, and a failing request
    may abort the cycle at any of them. */
module DriveRuns {
  import opened Common
  import opened DrivePaths
  import opened DriveModel
  import opened DrivePaging
  import opened DriveReplay
  import opened DriveConverge

  datatype Phase =
    | Idle
    | Pulling(mem: Paths, since: nat, page: seq<Row>, next: nat, more: bool)
    | PageSaved(more: bool)
    | PullDone
    | Pushing(mem: Paths, view: map<Rel, Digest>, todo: seq<Rel>)
    | PushDone
    | Purging(mem: Paths, view: map<Rel, Digest>, todo: seq<Rel>)
    // the 404 fallback; `prior` is the manifest its caller still holds
    | Healing(mem: Paths, prior: Paths, view: map<Rel, Digest>, todo: seq<Rel>)
    | Pruning(mem: Paths, prior: Paths, view: map<Rel, Digest>, todo: seq<Rel>)
    | Healed(prior: Paths)

  datatype State = State(w: World, phase: Phase)

  datatype Event =
    | LocalWrite(p: Rel, file: File)
    | LocalDelete(p: Rel)
    | RemotePut(p: Rel, content: Content)
    | RemoteDelete(p: Rel)
    | FetchPage(limit: nat)
    | ApplyNext(luck: Luck)
    | SavePage
    | FetchCursor(ok: bool)
    | EndPull
    | BeginPush(paths: seq<Rel>)
    | PushNext
    | EndPush(saved: bool)
    | SkipPush
    | BeginPurge(keys: seq<Rel>)
    | PurgeNext
    | EndPurge(saved: bool)
    | Abort
    | BeginHeal(files: seq<Rel>)
    | HealNext(luck: Luck)
    | EndHeal(saved: bool, visited: seq<Rel>)
    | PruneNext
    | EndPrune(saved: bool)
    | RestoreCursor(ok: bool)

  predicate FetchDue(ph: Phase) {
    ph.Idle? || (ph.PageSaved? && ph.more)
  }

  /** When an event can happen. The stamps users and the disk hand out stand for contents
      (`at`); everything else is the control flow of the source. */
  ghost predicate Enabled(at: (Rel, Stamp) -> Content, s: State, e: Event) {
    var ph, rows := s.phase, s.w.remote.rows;
    match e
    case LocalWrite(p, f) => f.stamp.mtimeMs > 0 && f.content == at(p, f.stamp)
    case LocalDelete(_) => true
    case RemotePut(_, _) => true
    case RemoteDelete(_) => true
    case FetchPage(limit) => FetchDue(ph) && limit > 0
    case ApplyNext(l) =>
      ph.Pulling? && ph.next < |ph.page| && Stamped(at, ph.page[ph.next], l)
    case SavePage => ph.Pulling? && ph.next == |ph.page|
    case FetchCursor(_) => ph.PageSaved? && !ph.more && s.w.saved.since == 0
    case EndPull => ph.PageSaved? && !ph.more && s.w.saved.since > 0
    case BeginPush(_) => ph.PullDone?
    case PushNext => ph.Pushing? && ph.todo != []
    case EndPush(_) => ph.Pushing? && ph.todo == []
    case SkipPush => ph.PullDone?
    case BeginPurge(keys) => ph.PushDone? && KeyList(keys, s.w.saved.paths)
    case PurgeNext => ph.Purging? && ph.todo != []
    case EndPurge(_) => ph.Purging? && ph.todo == []
    case Abort => true
    case BeginHeal(files) => FetchDue(ph) && forall p :: p in files <==> p in Listing(rows)
    case HealNext(l) =>
      ph.Healing? && ph.todo != [] && ph.todo[0] in ph.view && ph.view[ph.todo[0]].Blake3? &&
      Stamped(at, Row(ph.todo[0], ph.view[ph.todo[0]], 0, false), l)
    case EndHeal(_, visited) => ph.Healing? && ph.todo == [] && forall p | p in visited :: !Internal(p)
    case PruneNext => ph.Pruning? && ph.todo != []
    case EndPrune(_) => ph.Pruning? && ph.todo == []
    case RestoreCursor(_) => ph.Healed?
  }

  function Step(s: State, e: Event): State {
    var w, ph := s.w, s.phase;
    match e
    case LocalWrite(p, f) => s.(w := w.(local := w.local[p := f]))
    case LocalDelete(p) => s.(w := w.(local := w.local - {p}))
    case RemotePut(p, c) => s.(w := w.(remote := Put(w.remote, p, Blake3(c))))
    case RemoteDelete(p) => s.(w := w.(remote := Delete(w.remote, p)))
    case FetchPage(limit) =>
      var page := Page(w.remote.rows, w.saved.since, limit);
      State(w, Pulling(w.saved.paths, w.saved.since, page, 0, |page| >= limit))
    case ApplyNext(l) =>
      if ph.Pulling? && ph.next < |ph.page| && Pullable(ph.page[ph.next]) then
        var side := ApplyChange(ph.page[ph.next], l, Side(w.local, ph.mem));
        State(w.(local := side.local), Pulling(side.paths, ph.since, ph.page, ph.next + 1, ph.more))
      else s
    case SavePage =>
      if ph.Pulling? then State(w.(saved := Manifest(NextSince(ph.page, ph.since), ph.mem)), PageSaved(ph.more)) else s
    case FetchCursor(ok) =>
      State(if ok then w.(saved := w.saved.(since := SyncCursor(w.remote.rows))) else w, PullDone)
    case EndPull => State(w, PullDone)
    case BeginPush(paths) => State(w, Pushing(w.saved.paths, Listing(w.remote.rows), paths))
    case PushNext =>
      if ph.Pushing? && ph.todo != [] then
        var t := PushOne(ph.todo[0], w.local, ph.view, PushState(w.remote, ph.mem));
        State(w.(remote := t.remote), Pushing(t.paths, ph.view, ph.todo[1..]))
      else s
    case EndPush(saved) =>
      if ph.Pushing? then State(if saved then w.(saved := w.saved.(paths := ph.mem)) else w, PushDone) else s
    case SkipPush => State(w, PushDone)
    case BeginPurge(keys) => State(w, Purging(w.saved.paths, Listing(w.remote.rows), keys))
    case PurgeNext =>
      if ph.Purging? && ph.todo != [] then
        var t := DeleteOne(ph.todo[0], w.local, ph.view, PushState(w.remote, ph.mem));
        State(w.(remote := t.remote), Purging(t.paths, ph.view, ph.todo[1..]))
      else s
    case EndPurge(saved) =>
      if ph.Purging? then State(if saved then w.(saved := w.saved.(paths := ph.mem)) else w, Idle) else s
    case Abort => State(w, Idle)
    case BeginHeal(files) => State(w, Healing(w.saved.paths, w.saved.paths, Listing(w.remote.rows), files))
    case HealNext(l) =>
      if ph.Healing? && ph.todo != [] && ph.todo[0] in ph.view && ph.view[ph.todo[0]].Blake3? then
        var side := PullListed(ph.todo[0], ph.view[ph.todo[0]], l, Side(w.local, ph.mem));
        State(w.(local := side.local), Healing(side.paths, ph.prior, ph.view, ph.todo[1..]))
      else s
    case EndHeal(saved, visited) =>
      if ph.Healing? then
        var w' := if saved then w.(saved := w.saved.(paths := ph.mem)) else w;
        State(w', Pruning(w'.saved.paths, ph.prior, ph.view, visited))
      else s
    case PruneNext =>
      if ph.Pruning? && ph.todo != [] then
        var p := ph.todo[0];
        if p in w.local && p !in ph.view && p in ph.mem then
          State(w.(local := w.local - {p}), Pruning(ph.mem - {p}, ph.prior, ph.view, ph.todo[1..]))
        else State(w, Pruning(ph.mem, ph.prior, ph.view, ph.todo[1..]))
      else s
    case EndPrune(saved) =>
      if ph.Pruning? then State(if saved then w.(saved := w.saved.(paths := ph.mem)) else w, Healed(ph.prior)) else s
    case RestoreCursor(ok) =>
      if ph.Healed? then State(if ok then w.(saved := Manifest(SyncCursor(w.remote.rows), ph.prior)) else w, PullDone) else s
  }

  function Exec(s: State, es: seq<Event>): State {
    if es == [] then s else Step(Exec(s, es[..|es| - 1]), es[|es| - 1])
  }

  ghost predicate IsRun(at: (Rel, Stamp) -> Content, s: State, es: seq<Event>) {
    forall i | 0 <= i < |es| :: Enabled(at, Exec(s, es[..i]), es[i])
  }

  /** A cursor moved to the newest row passes `p`, live and not among these paths. */
  predicate LeavesOut(rows: seq<Row>, paths: Paths, p: Rel) {
    Alive(Latest(rows, p)) && p !in paths && !NewestRoundsDown(rows, p)
  }

  /** The step does not lose track of `p`: no failing look at a file that already has its row's
      content leaves it unrecorded, and no cursor moved to the newest row leaves it out. */
  predicate Tracks(s: State, e: Event, p: Rel) {
    var ph, rows := s.phase, s.w.remote.rows;
    match e
    case ApplyNext(l) =>
      ph.Pulling? && ph.next < |ph.page| && ph.page[ph.next].path == p ==> Records(ph.page[ph.next], l, s.w.local) || p in ph.mem
    case FetchCursor(ok) => ok ==> !LeavesOut(rows, s.w.saved.paths, p)
    case RestoreCursor(ok) => ok && ph.Healed? ==> !LeavesOut(rows, ph.prior, p)
    case _ => true
  }

  predicate Tracked(s: State, es: seq<Event>, p: Rel) {
    forall i | 0 <= i < |es| :: Tracks(Exec(s, es[..i]), es[i], p)
  }

  // ------------------------------------------------------------- the invariant

  /** The time up to which the rows of the page in hand are applied, `next` of them. */
  function Done(since: nat, page: seq<Row>, next: nat): nat
    requires next <= |page|
  {
    if next == 0 then Mark(since) else page[next - 1].ts
  }

  /** The page in hand is still what the server's rows say up to the page's end, and no row
      is so close behind that end that rounding could confuse them. */
  ghost predicate PageTrue(r: Remote, since: nat, page: seq<Row>) {
    var end := Done(since, page, |page|);
    && Increasing(page)
    && (forall x | x in page :: Pullable(x) && Mark(since) < x.ts <= r.now)
    && (forall x | x in page && x.deleted :: x in r.rows)
    && (forall x | x in r.rows && Mark(since) < x.ts <= end :: x in page)
    && (page != [] ==> forall x | x in r.rows && x.ts > end :: x.ts > end + SLACK)
  }

  ghost predicate PhaseTrue(at: (Rel, Stamp) -> Content, s: State, p: Rel) {
    var w, ph := s.w, s.phase;
    var rows, mark := w.remote.rows, Mark(w.saved.since);
    match ph
    case Pulling(mem, from, page, next, _) =>
      from == w.saved.since && next <= |page| && PageTrue(w.remote, from, page) && ManifestTrue(at, mem)
      && CoveredAt(rows, Done(from, page, next), mem, p)
    case Pushing(mem, _, _) => ManifestTrue(at, mem) && CoveredAt(rows, mark, mem, p)
    case Purging(mem, _, todo) =>
      ManifestTrue(at, mem) && CoveredAt(rows, mark, mem, p) && Distinct(todo) && forall q | q in todo :: q in mem
    case Healing(mem, prior, view, _) =>
      ManifestTrue(at, mem) && ManifestTrue(at, prior) && CoveredAt(rows, mark, mem, p) && ViewTrue(rows, mark, view, p)
    case Pruning(mem, prior, view, _) =>
      ManifestTrue(at, mem) && ManifestTrue(at, prior) && CoveredAt(rows, mark, mem, p) && ViewTrue(rows, mark, view, p)
    case Healed(prior) => ManifestTrue(at, prior)
    case _ => true
  }

  predicate ViewTrue(rows: seq<Row>, mark: nat, view: map<Rel, Digest>, p: Rel) {
    Alive(Latest(rows, p)) && Latest(rows, p).value.ts <= mark ==> p in view
  }

  /** The state is true to its contents, and knows of `p` if the cursor has passed it. */
  ghost predicate Inv(at: (Rel, Stamp) -> Content, s: State, p: Rel) {
    && WorldTrue(at, s.w) && Spaced(s.w.remote)
    && CoveredAt(s.w.remote.rows, Mark(s.w.saved.since), s.w.saved.paths, p) && PhaseTrue(at, s, p)
  }

  /** A change by anybody only adds rows that are clearly newer than everything so far. */
  ghost predicate Grows(a: Remote, b: Remote) {
    && RemoteValid(b) && Spaced(b) && a.now <= b.now
    && (forall x | x in a.rows && x.deleted :: x in b.rows)
    && (forall x | x in b.rows :: x in a.rows || x.ts > a.now + SLACK)
    && (forall p :: Latest(b.rows, p) == Latest(a.rows, p) || (Latest(b.rows, p).Some? && Latest(b.rows, p).value.ts > a.now + SLACK))
  }

  lemma PutGrows(r: Remote, p: Rel, h: Digest)
    requires RemoteValid(r) && Spaced(r) && h.Blake3?
    ensures Grows(r, Put(r, p, h))
  {
    ChangesStaySpaced(r, p, h);
    PutEffect(r, p, h);
  }

  lemma DeleteGrows(r: Remote, p: Rel)
    requires RemoteValid(r) && Spaced(r)
    ensures Grows(r, Delete(r, p))
  {
    ChangesStaySpaced(r, p, Text(""));
    DeleteEffect(r, p);
  }

  /** What the engine knows about the rows survives any growth. */
  lemma GrowthKeepsInv(at: (Rel, Stamp) -> Content, s: State, remote: Remote, p: Rel)
    requires Inv(at, s, p) && Grows(s.w.remote, remote)
    ensures Inv(at, s.(w := s.w.(remote := remote)), p)
  {
    if s.phase.Pulling? {
      PageGrows(s.w.remote, remote, s.phase.since, s.phase.page, s.phase.next);
    }
  }

  lemma PageGrows(a: Remote, b: Remote, since: nat, page: seq<Row>, next: nat)
    requires Grows(a, b) && next <= |page| && Mark(since) <= a.now + SLACK && PageTrue(a, since, page)
    ensures PageTrue(b, since, page) && Done(since, page, next) <= a.now + SLACK
  {
    if next > 0 {
      assert page[next - 1] in page;
    }
    if page != [] {
      assert page[|page| - 1] in page;
    }
  }

  /** A prefix of the feed holds all rows up to its end. */
  lemma PageHoldsUpToEnd(rows: seq<Row>, mark: nat, page: seq<Row>, x: Row)
    requires Increasing(rows) && page <= Since(rows, mark) && page != []
    requires x in rows && mark < x.ts <= page[|page| - 1].ts
    ensures x in page
  {
    var all := Since(rows, mark);
    SinceRows(rows, mark);
    var k :| 0 <= k < |all| && all[k] == x;
    assert all[|page| - 1] == page[|page| - 1];
  }

  lemma PageRows(r: Remote, since: nat, limit: nat)
    requires RemoteValid(r)
    ensures var page := Page(r.rows, since, limit);
            Increasing(page) && forall x | x in page :: x in r.rows && Pullable(x) && Mark(since) < x.ts <= r.now
  {
    var page := Page(r.rows, since, limit);
    SinceRows(r.rows, Mark(since));
    forall x | x in page ensures x in r.rows && Pullable(x) && Mark(since) < x.ts <= r.now {
      assert x in Since(r.rows, Mark(since));
    }
  }

  lemma FetchedPageTrue(r: Remote, since: nat, limit: nat)
    requires RemoteValid(r) && Spaced(r)
    ensures PageTrue(r, since, Page(r.rows, since, limit))
  {
    PageRows(r, since, limit);
    PageEndTrue(r.rows, since, Page(r.rows, since, limit));
  }

  lemma PageEndTrue(rows: seq<Row>, since: nat, page: seq<Row>)
    requires Increasing(rows) && Apart(rows) && page <= Since(rows, Mark(since)) && forall x | x in page :: x in rows
    ensures var end := Done(since, page, |page|);
            && (forall x | x in rows && Mark(since) < x.ts <= end :: x in page)
            && (page != [] ==> forall x | x in rows && x.ts > end :: x.ts > end + SLACK)
  {
    if page != [] {
      var last := page[|page| - 1];
      assert last in page;
      forall x | x in rows && Mark(since) < x.ts <= last.ts ensures x in page {
        PageHoldsUpToEnd(rows, Mark(since), page, x);
      }
      forall x | x in rows && x.ts > last.ts ensures x.ts > last.ts + SLACK {
        RowsApart(rows, last, x);
      }
    }
  }

  lemma RowsApart(rows: seq<Row>, x: Row, y: Row)
    requires Apart(rows) && x in rows && y in rows && x.ts < y.ts
    ensures x.ts + SLACK < y.ts
  {
    var i :| 0 <= i < |rows| && rows[i] == x;
    var j :| 0 <= j < |rows| && rows[j] == y;
  }

  lemma FetchKeepsInv(at: (Rel, Stamp) -> Content, s: State, limit: nat, p: Rel)
    requires Inv(at, s, p) && limit > 0
    ensures Inv(at, Step(s, FetchPage(limit)), p)
  {
    FetchedPageTrue(s.w.remote, s.w.saved.since, limit);
  }

  /** The heart of the invariant: applying one row moves the covered mark past it. */
  lemma ApplyKeepsCovered(r: Remote, since: nat, page: seq<Row>, next: nat, l: Luck, local: Local, mem: Paths, p: Rel)
    requires RemoteValid(r) && next < |page| && PageTrue(r, since, page) && Pullable(page[next])
    requires CoveredAt(r.rows, Done(since, page, next), mem, p)
    requires page[next].path == p ==> Records(page[next], l, local) || p in mem
    ensures CoveredAt(r.rows, Done(since, page, next + 1), ApplyChange(page[next], l, Side(local, mem)).paths, p)
  {
    var x := page[next];
    if Alive(Latest(r.rows, p)) && Latest(r.rows, p).value.ts <= x.ts {
      AppliedOrBefore(r, since, page, next, Latest(r.rows, p).value);
      assert x in page;
      if x.deleted && x.path == p {
        LatestIsNewest(r.rows, x);
      }
    }
  }

  /** A row not past row `next` of the page is that row or not past the one before. */
  lemma AppliedOrBefore(r: Remote, since: nat, page: seq<Row>, next: nat, y: Row)
    requires next < |page| && PageTrue(r, since, page) && y in r.rows && y.ts <= page[next].ts
    ensures y.ts <= Done(since, page, next) || y == page[next]
  {
    if y.ts > Done(since, page, next) {
      if next > 0 {
        assert page[next - 1] in page;
      }
      assert y in page;
      var k :| 0 <= k < |page| && page[k] == y;
    }
  }

  lemma ApplyKeepsInv(at: (Rel, Stamp) -> Content, s: State, l: Luck, p: Rel)
    requires Inv(at, s, p) && Enabled(at, s, ApplyNext(l)) && Tracks(s, ApplyNext(l), p)
    ensures Inv(at, Step(s, ApplyNext(l)), p)
  {
    var ph := s.phase;
    var x := ph.page[ph.next];
    assert x in ph.page;
    var side := ApplyChange(x, l, Side(s.w.local, ph.mem));
    ApplyKeepsCovered(s.w.remote, ph.since, ph.page, ph.next, l, s.w.local, ph.mem, p);
    PullKeepsManifestTrue(at, x, l, Side(s.w.local, ph.mem));
    assert Step(s, ApplyNext(l)) == State(s.w.(local := side.local), Pulling(side.paths, ph.since, ph.page, ph.next + 1, ph.more));
  }

  /** Rounding the page's end moves the mark past no row. */
  lemma SavedCursorCovers(r: Remote, since: nat, page: seq<Row>, mem: Paths, p: Rel)
    requires RemoteValid(r) && PageTrue(r, since, page) && Mark(since) <= r.now + SLACK
    requires CoveredAt(r.rows, Done(since, page, |page|), mem, p)
    ensures CoveredAt(r.rows, Mark(NextSince(page, since)), mem, p) && Mark(NextSince(page, since)) <= r.now + SLACK
  {
    if page != [] {
      var x := page[|page| - 1];
      assert x in page;
      RoundingError(x.ts);
      PastMark(since, x.ts);
      if Alive(Latest(r.rows, p)) {
        assert Latest(r.rows, p).value in r.rows;
      }
    }
  }

  lemma SaveKeepsInv(at: (Rel, Stamp) -> Content, s: State, p: Rel)
    requires Inv(at, s, p) && Enabled(at, s, SavePage)
    ensures Inv(at, Step(s, SavePage), p)
  {
    SavedCursorCovers(s.w.remote, s.phase.since, s.phase.page, s.phase.mem, p);
  }

  /** Recording a path covers no less; an upload on top only adds a newer row. */
  lemma PushKeepsInv(at: (Rel, Stamp) -> Content, s: State, p: Rel)
    requires Inv(at, s, p) && Enabled(at, s, PushNext)
    ensures Inv(at, Step(s, PushNext), p)
  {
    var q, w, mem, view := s.phase.todo[0], s.w, s.phase.mem, s.phase.view;
    PushOneValid(at, q, w.local, view, PushState(w.remote, mem));
    PushedRemote(q, w.local, view, w.remote, mem);
  }

  lemma PushedRemote(p: Rel, local: Local, view: map<Rel, Digest>, r: Remote, mem: Paths)
    requires RemoteValid(r) && Spaced(r)
    ensures var t := PushOne(p, local, view, PushState(r, mem));
            (t.remote == r || Grows(r, t.remote)) && mem.Keys <= t.paths.Keys
  {
    if p in local {
      PutGrows(r, p, Blake3(local[p].content));
    }
  }

  lemma PurgeKeepsInv(at: (Rel, Stamp) -> Content, s: State, p: Rel)
    requires Inv(at, s, p) && Enabled(at, s, PurgeNext)
    ensures Inv(at, Step(s, PurgeNext), p)
  {
    var q, w := s.phase.todo[0], s.w;
    RestDistinct(s.phase.todo);
    if q !in w.local && q in s.phase.view {
      DeleteKeepsCovered(w.remote, q, Mark(w.saved.since), w.saved.paths, p);
      DeleteKeepsCovered(w.remote, q, Mark(w.saved.since), s.phase.mem, p);
    }
  }

  lemma DeleteKeepsCovered(r: Remote, q: Rel, cursor: nat, paths: Paths, p: Rel)
    requires RemoteValid(r) && Spaced(r) && cursor <= r.now + SLACK && CoveredAt(r.rows, cursor, paths, p)
    ensures var d := Delete(r, q);
            RemoteValid(d) && Spaced(d) && cursor <= d.now + SLACK
            && CoveredAt(d.rows, cursor, paths, p) && CoveredAt(d.rows, cursor, paths - {q}, p)
  {
    DeleteGrows(r, q);
    DeleteEffect(r, q);
  }

  lemma HealKeepsInv(at: (Rel, Stamp) -> Content, s: State, l: Luck, p: Rel)
    requires Inv(at, s, p) && Enabled(at, s, HealNext(l))
    ensures Inv(at, Step(s, HealNext(l)), p)
  {
    var q, h, side := s.phase.todo[0], s.phase.view[s.phase.todo[0]], Side(s.w.local, s.phase.mem);
    PullShortcut(at, q, h, l, side);
    PullKeepsManifestTrue(at, Row(q, h, 0, false), l, side);
  }

  /** The newest row's cursor covers `p` exactly if it does not leave it out. */
  lemma NewestCursorCovers(r: Remote, paths: Paths, p: Rel)
    requires RemoteValid(r) && Apart(r.rows)
    ensures CoveredAt(r.rows, Mark(SyncCursor(r.rows)), paths, p) <==> SyncSkipped(p) || !LeavesOut(r.rows, paths, p)
    ensures Mark(SyncCursor(r.rows)) <= r.now + SLACK
  {
    if r.rows != [] {
      RoundingError(r.rows[|r.rows| - 1].ts);
    }
    if Latest(r.rows, p).Some? {
      SyncCursorPasses(r.rows, p);
    }
  }

  lemma CursorKeepsInv(at: (Rel, Stamp) -> Content, s: State, e: Event, p: Rel)
    requires Inv(at, s, p) && Enabled(at, s, e) && Tracks(s, e, p) && (e.FetchCursor? || e.RestoreCursor?)
    ensures Inv(at, Step(s, e), p)
  {
    NewestCursorCovers(s.w.remote, if e.FetchCursor? then s.w.saved.paths else s.phase.prior, p);
  }

  lemma LocalKeepsInv(at: (Rel, Stamp) -> Content, s: State, e: Event, p: Rel)
    requires Inv(at, s, p) && Enabled(at, s, e) && (e.LocalWrite? || e.LocalDelete?)
    ensures Inv(at, Step(s, e), p)
  {
  }

  lemma BetweenKeepsInv(at: (Rel, Stamp) -> Content, s: State, e: Event, p: Rel)
    requires Inv(at, s, p) && Enabled(at, s, e)
    requires e.EndPull? || e.BeginPush? || e.EndPush? || e.SkipPush? || e.BeginPurge? || e.EndPurge? || e.Abort?
    ensures Inv(at, Step(s, e), p)
  {
  }

  lemma BeginHealKeepsInv(at: (Rel, Stamp) -> Content, s: State, files: seq<Rel>, p: Rel)
    requires Inv(at, s, p) && Enabled(at, s, BeginHeal(files))
    ensures Inv(at, Step(s, BeginHeal(files)), p)
  {
  }

  lemma PruneKeepsInv(at: (Rel, Stamp) -> Content, s: State, p: Rel)
    requires Inv(at, s, p) && Enabled(at, s, PruneNext)
    ensures Inv(at, Step(s, PruneNext), p)
  {
  }

  lemma EndsKeepInv(at: (Rel, Stamp) -> Content, s: State, e: Event, p: Rel)
    requires Inv(at, s, p) && Enabled(at, s, e) && (e.EndHeal? || e.EndPrune?)
    ensures Inv(at, Step(s, e), p)
  {
  }

  lemma StepKeepsInv(at: (Rel, Stamp) -> Content, s: State, e: Event, p: Rel)
    requires Inv(at, s, p) && Enabled(at, s, e) && Tracks(s, e, p)
    ensures Inv(at, Step(s, e), p)
  {
    match e
    case RemotePut(q, c) =>
      PutGrows(s.w.remote, q, Blake3(c));
      GrowthKeepsInv(at, s, Put(s.w.remote, q, Blake3(c)), p);
    case RemoteDelete(q) =>
      DeleteGrows(s.w.remote, q);
      GrowthKeepsInv(at, s, Delete(s.w.remote, q), p);
    case FetchPage(limit) => FetchKeepsInv(at, s, limit, p);
    case ApplyNext(l) => ApplyKeepsInv(at, s, l, p);
    case SavePage => SaveKeepsInv(at, s, p);
    case FetchCursor(_) => CursorKeepsInv(at, s, e, p);
    case PushNext => PushKeepsInv(at, s, p);
    case PurgeNext => PurgeKeepsInv(at, s, p);
    case HealNext(l) => HealKeepsInv(at, s, l, p);
    case RestoreCursor(_) => CursorKeepsInv(at, s, e, p);
    case LocalWrite(_, _) => LocalKeepsInv(at, s, e, p);
    case LocalDelete(_) => LocalKeepsInv(at, s, e, p);
    case BeginHeal(files) => BeginHealKeepsInv(at, s, files, p);
    case EndHeal(_, _) => EndsKeepInv(at, s, e, p);
    case PruneNext => PruneKeepsInv(at, s, p);
    case EndPrune(_) => EndsKeepInv(at, s, e, p);
    case _ => BetweenKeepsInv(at, s, e, p);
  }

  /** The invariant holds after every prefix of a run that does not lose track of the path. */
  lemma {:induction false} RunKeepsInv(at: (Rel, Stamp) -> Content, s: State, es: seq<Event>, i: nat, p: Rel)
    requires Inv(at, s, p) && IsRun(at, s, es) && Tracked(s, es, p) && i <= |es|
    ensures Inv(at, Exec(s, es[..i]), p)
  {
    if i > 0 {
      RunKeepsInv(at, s, es, i - 1, p);
      assert es[..i][..i - 1] == es[..i - 1];
      StepKeepsInv(at, Exec(s, es[..i - 1]), es[i - 1], p);
    }
  }

  // ------------------------------------------------------------- whole runs

  /** A device as it starts out: any true local tree, any server, no cursor yet. A manifest
      may be left from an older version, with entries that carry no stamp. */
  ghost predicate Fresh(at: (Rel, Stamp) -> Content, s: State) {
    s.phase.Idle? && s.w.saved.since == 0 && WorldTrue(at, s.w)
  }

  /** Convergence over all reachable states: whatever users, other devices, failing requests
      and the fallback did before, the next undisturbed full cycle leaves each path the run did
      not lose track of with the same hash on both sides or on neither, as the three-way rule
      names it. */
  lemma {:induction false} EveryRunConverges(at: (Rel, Stamp) -> Content, s: State, es: seq<Event>,
                                             n: nat, luck: seq<Luck>, files: seq<Rel>, keys: seq<Rel>, z: World)
    requires Fresh(at, s) && Spaced(s.w.remote) && IsRun(at, s, es)
    requires FullCycle(at, Exec(s, es).w, n, luck, files, keys, z)
    ensures forall p | Syncable(p) && Tracked(s, es, p) ::
              && ContentAt(z.local, p) == Reconciled(Exec(s, es).w, p)
              && RemoteAt(z.remote.rows, p) == if p in z.local then Some(Blake3(z.local[p].content)) else None
  {
    assert es[..|es|] == es;
    forall p | Syncable(p) && Tracked(s, es, p)
      ensures ContentAt(z.local, p) == Reconciled(Exec(s, es).w, p)
      ensures RemoteAt(z.remote.rows, p) == if p in z.local then Some(Blake3(z.local[p].content)) else None
    {
      RunKeepsInv(at, s, es, |es|, p);
      CycleReconciles(at, Exec(s, es).w, n, luck, files, keys, z, p);
    }
  }

  // ------------------------------------------------------------- lost for good

  /** A live file the cursor has passed, of which the device has neither copy nor record. */
  ghost predicate Lost(w: World, p: Rel) {
    && p !in w.local && p !in w.saved.paths
    && Alive(Latest(w.remote.rows, p)) && Latest(w.remote.rows, p).value.ts <= Mark(w.saved.since)
  }

  lemma CycleKeepsLost(at: (Rel, Stamp) -> Content, w: World, n: nat, luck: seq<Luck>, files: seq<Rel>, keys: seq<Rel>, z: World, p: Rel)
    requires FullCycle(at, w, n, luck, files, keys, z) && Lost(w, p)
    ensures Lost(z, p) && Latest(z.remote.rows, p) == Latest(w.remote.rows, p)
  {
    PassedPathUntouched(at, w, n, luck, p);
    var a := Pulled(w, n, luck);
    PushEffect(at, files, a.local, PushState(a.remote, a.saved.paths), p);
    var b := Pushed(a, files);
    DeleteAllEffect(at, keys, a.local, PushState(b.remote, b.saved.paths), p);
  }

  ghost predicate SomeFullCycle(at: (Rel, Stamp) -> Content, w: World, z: World) {
    exists n, luck, files, keys :: FullCycle(at, w, n, luck, files, keys, z)
  }

  lemma SomeCycleKeepsLost(at: (Rel, Stamp) -> Content, w: World, z: World, p: Rel)
    requires SomeFullCycle(at, w, z) && Lost(w, p)
    ensures Lost(z, p) && Latest(z.remote.rows, p) == Latest(w.remote.rows, p)
  {
    var n, luck, files, keys :| FullCycle(at, w, n, luck, files, keys, z);
    CycleKeepsLost(at, w, n, luck, files, keys, z, p);
  }

  /** Between two cycles anything may happen that leaves `p` alone. */
  predicate LeftAlone(z: World, w: World, p: Rel) {
    w.saved == z.saved && SameFile(p, w.local, z.local) && Latest(w.remote.rows, p) == Latest(z.remote.rows, p)
  }

  lemma Resume(z: World, w: World, p: Rel)
    requires LeftAlone(z, w, p) && Lost(z, p)
    ensures Lost(w, p) && Latest(w.remote.rows, p) == Latest(z.remote.rows, p)
  {
  }

  ghost predicate CycleAt(at: (Rel, Stamp) -> Content, ws: seq<World>, zs: seq<World>, i: nat) {
    i < |ws| == |zs| && SomeFullCycle(at, ws[i], zs[i])
  }

  predicate ResumesAt(ws: seq<World>, zs: seq<World>, p: Rel, i: nat) {
    0 < i < |ws| == |zs| && LeftAlone(zs[i - 1], ws[i], p)
  }

  /** Full cycles from `ws[i]` to `zs[i]`, with nobody touching `p` in between. */
  ghost predicate Cycles(at: (Rel, Stamp) -> Content, ws: seq<World>, zs: seq<World>, p: Rel) {
    && |ws| == |zs|
    && (forall i | 0 <= i < |ws| :: CycleAt(at, ws, zs, i))
    && forall i | 0 < i < |ws| :: ResumesAt(ws, zs, p, i)
  }

  lemma OneMoreCycle(at: (Rel, Stamp) -> Content, before: World, w: World, z: World, p: Rel)
    requires Lost(before, p) && LeftAlone(before, w, p) && SomeFullCycle(at, w, z)
    ensures Lost(z, p) && Latest(z.remote.rows, p) == Latest(before.remote.rows, p)
  {
    Resume(before, w, p);
    SomeCycleKeepsLost(at, w, z, p);
  }

  /** However many full cycles follow, the file never comes and is never removed. */
  lemma {:induction false} LostForGood(at: (Rel, Stamp) -> Content, ws: seq<World>, zs: seq<World>, p: Rel, i: nat)
    requires Cycles(at, ws, zs, p) && i < |ws| && Lost(ws[0], p)
    ensures Lost(zs[i], p) && Latest(zs[i].remote.rows, p) == Latest(ws[0].remote.rows, p)
  {
    assert CycleAt(at, ws, zs, i);
    if i == 0 {
      SomeCycleKeepsLost(at, ws[0], zs[0], p);
    } else {
      LostForGood(at, ws, zs, p, i - 1);
      assert ResumesAt(ws, zs, p, i);
      OneMoreCycle(at, zs[i - 1], ws[i], zs[i], p);
    }
  }

  const NEW_DEVICE: State := State(World(map[], Remote([], 1000, []), Manifest(0, map[])), Idle)

  /** Another device adds a file between the first, empty answer and the cursor request. */
  function OvertakenStart(p: Rel, c: Content): seq<Event> {
    [FetchPage(500)] + [SavePage] + [RemotePut(p, c)] + [FetchCursor(true)] + [Abort]
  }

  function OvertakenWorld(p: Rel, c: Content): World {
    World(map[], Remote([Row(p, Blake3(c), 1501, false)], 1501, []), Manifest(2, map[]))
  }

  lemma EmptyAnswer(at: (Rel, Stamp) -> Content)
    ensures IsRun(at, NEW_DEVICE, [FetchPage(500)] + [SavePage])
    ensures Exec(NEW_DEVICE, [FetchPage(500)] + [SavePage]) == State(NEW_DEVICE.w, PageSaved(false))
  {
    var s1 := State(NEW_DEVICE.w, Pulling(map[], 0, [], 0, false));
    Extend(at, NEW_DEVICE, [], NEW_DEVICE, FetchPage(500), s1);
    assert [] + [FetchPage(500)] == [FetchPage(500)];
    Extend(at, NEW_DEVICE, [FetchPage(500)], s1, SavePage, State(NEW_DEVICE.w, PageSaved(false)));
  }

  lemma OvertakenState(at: (Rel, Stamp) -> Content, p: Rel, c: Content)
    ensures IsRun(at, NEW_DEVICE, OvertakenStart(p, c))
    ensures Exec(NEW_DEVICE, OvertakenStart(p, c)) == State(OvertakenWorld(p, c), Idle)
  {
    EmptyAnswer(at);
    var es := [FetchPage(500)] + [SavePage];
    var s1 := State(NEW_DEVICE.w, PageSaved(false));
    var s2 := State(NEW_DEVICE.w.(remote := OvertakenWorld(p, c).remote), PageSaved(false));
    var s3 := State(OvertakenWorld(p, c), PullDone);
    Extend(at, NEW_DEVICE, es, s1, RemotePut(p, c), s2);
    Extend(at, NEW_DEVICE, es + [RemotePut(p, c)], s2, FetchCursor(true), s3);
    Extend(at, NEW_DEVICE, es + [RemotePut(p, c)] + [FetchCursor(true)], s3, Abort, s3.(phase := Idle));
  }

  lemma Extend(at: (Rel, Stamp) -> Content, s: State, es: seq<Event>, t: State, e: Event, u: State)
    requires IsRun(at, s, es) && Exec(s, es) == t && Enabled(at, t, e) && Step(t, e) == u
    ensures IsRun(at, s, es + [e]) && Exec(s, es + [e]) == u
  {
    assert (es + [e])[..|es|] == es;
    assert forall i | 0 <= i < |es| :: (es + [e])[..i] == es[..i];
  }

  /** Tracking is needed. After that start the first cursor has passed the file:
      no later full cycle brings it to this device, nor removes it from the server. */
  lemma FirstCursorSkipsAFile(at: (Rel, Stamp) -> Content, p: Rel, c: Content, ws: seq<World>, zs: seq<World>, i: nat)
    requires Cycles(at, ws, zs, p) && i < |ws| && ws[0] == Exec(NEW_DEVICE, OvertakenStart(p, c)).w
    ensures p !in zs[i].local && RemoteAt(zs[i].remote.rows, p) == Some(Blake3(c))
  {
    OvertakenState(at, p, c);
    LostForGood(at, ws, zs, p, i);
  }

  /** So is the spacing. A device pulls a row whose time rounds up, and before that millisecond
      is over another device uploads a file: it is never synchronised here. */
  lemma RowInRoundedMillisecondIsLost(at: (Rel, Stamp) -> Content, w: World, n: nat, luck: seq<Luck>, p: Rel, c: Content,
                                      ws: seq<World>, zs: seq<World>, i: nat)
    requires RemoteValid(w.remote) && w.remote.rows != [] && !Delivered(w, n).more && |luck| == |Delivered(w, n).feed|
    requires Apart(w.remote.rows) && p !in Pulled(w, n, luck).local && p !in Pulled(w, n, luck).saved.paths
    requires var x := w.remote.rows[|w.remote.rows| - 1];
             x.ts % 1000 >= SLACK && Tick(w.remote) <= x.ts + (1000 - x.ts % 1000)
    requires Cycles(at, ws, zs, p) && i < |ws|
    requires ws[0] == Pulled(w, n, luck).(remote := Put(w.remote, p, Blake3(c)))
    ensures p !in zs[i].local && RemoteAt(zs[i].remote.rows, p) == Some(Blake3(c))
  {
    PulledCursor(w, n, luck);
    RoundingError(w.remote.rows[|w.remote.rows| - 1].ts);
    PutEffect(w.remote, p, Blake3(c));
    LostForGood(at, ws, zs, p, i);
  }

  /** A failing look at a file that already has the row's content leaves the path unrecorded,
      and this is the only way a pulled row does. */
  lemma CoveredExactlyIfRecorded(rows: seq<Row>, x: Row, l: Luck, local: Local, mem: Paths)
    requires Pullable(x) && Latest(rows, x.path) == Some(x) && !x.deleted && !SyncSkipped(x.path)
    ensures CoveredAt(rows, x.ts, ApplyChange(x, l, Side(local, mem)).paths, x.path) <==> Records(x, l, local) || x.path in mem
  {
  }

  /** What the 404 fallback leaves: its caller restores the paths it held before the tree
      pull and moves the cursor to the newest row. A path is covered afterwards exactly if
      it is not live on the server, was already in that older manifest, or has a newest row
      whose time rounds down; so a path the fallback pulled for the first time is mostly
      forgotten at once. */
  lemma FallbackForgets(s: State, p: Rel)
    requires RemoteValid(s.w.remote) && Apart(s.w.remote.rows) && s.phase.Healed? && !SyncSkipped(p)
    ensures var t := Step(s, RestoreCursor(true));
            CoveredAt(t.w.remote.rows, Mark(t.w.saved.since), t.w.saved.paths, p) <==>
            RemoteAt(s.w.remote.rows, p) == None || p in s.phase.prior || NewestRoundsDown(s.w.remote.rows, p)
  {
    if Latest(s.w.remote.rows, p).Some? {
      SyncCursorPasses(s.w.remote.rows, p);
    }
  }

  /** Consequence: deleting such a file locally is never propagated, and the file is never
      pulled again either. */
  lemma DeletionAfterFallbackIsLost(at: (Rel, Stamp) -> Content, s: State, p: Rel, ws: seq<World>, zs: seq<World>, i: nat)
    requires RemoteValid(s.w.remote) && Apart(s.w.remote.rows) && s.phase.Healed?
    requires Alive(Latest(s.w.remote.rows, p)) && p !in s.phase.prior && !NewestRoundsDown(s.w.remote.rows, p)
    requires Cycles(at, ws, zs, p) && i < |ws| && ws[0] == Step(Step(s, RestoreCursor(true)), LocalDelete(p)).w
    ensures p !in zs[i].local && RemoteAt(zs[i].remote.rows, p) == RemoteAt(s.w.remote.rows, p) != None
  {
    SyncCursorPasses(s.w.remote.rows, p);
    LostForGood(at, ws, zs, p, i);
  }

  /** A tombstone whose file could not be unlinked: the manifest forgets the path, the file
      stays, and once the cursor has passed the tombstone the next full cycle uploads the
      deleted file again. */
  lemma FailedUnlinkResurrects(at: (Rel, Stamp) -> Content, s: State, l: Luck, w: World,
                               n: nat, luck: seq<Luck>, files: seq<Rel>, keys: seq<Rel>, z: World)
    requires WorldTrue(at, s.w) && Spaced(s.w.remote) && Enabled(at, s, ApplyNext(l)) && !l.unlink
    requires var x := s.phase.page[s.phase.next];
             x.deleted && Syncable(x.path) && x.path in s.w.local && Latest(s.w.remote.rows, x.path) == Some(x)
    requires var t := Step(s, ApplyNext(l));
             w.local == t.w.local && w.remote == t.w.remote && w.saved.paths == t.phase.mem
    requires Mark(w.saved.since) >= s.phase.page[s.phase.next].ts && FullCycle(at, w, n, luck, files, keys, z)
    ensures var p := s.phase.page[s.phase.next].path;
            p !in w.saved.paths && RemoteAt(w.remote.rows, p) == None
            && RemoteAt(z.remote.rows, p) == Some(Blake3(s.w.local[p].content)) && ContentAt(z.local, p) == ContentAt(s.w.local, p)
  {
    CycleReconciles(at, w, n, luck, files, keys, z, s.phase.page[s.phase.next].path);
  }

  // ------------------------------------------------------------- justified deletions

  /** A local file disappears in one step only through its user, through a pulled
      tombstone, or through a prune that finds it in the manifest and not in the listing. */
  predicate RemovesLocally(s: State, e: Event, p: Rel) {
    || e == LocalDelete(p)
    || (e.ApplyNext? && s.phase.Pulling? && s.phase.next < |s.phase.page| &&
        s.phase.page[s.phase.next].path == p && s.phase.page[s.phase.next].deleted && !SyncSkipped(p))
    || (e.PruneNext? && s.phase.Pruning? && s.phase.todo != [] && s.phase.todo[0] == p && p in s.phase.mem && p !in s.phase.view)
  }

  /** A remote file disappears only through another device, or through the propagation of
      a path that is in the manifest, in the listing, and absent locally. */
  predicate RemovesRemotely(s: State, e: Event, p: Rel) {
    || e == RemoteDelete(p)
    || (e.PurgeNext? && s.phase.Purging? && s.phase.todo != [] && s.phase.todo[0] == p &&
        p !in s.w.local && p in s.phase.view && p in s.phase.mem)
  }

  /** What justifying deletions needs of a state; the fallback keeps it too. */
  ghost predicate Accounted(s: State) {
    && RemoteValid(s.w.remote)
    && (s.phase.Purging? ==> Distinct(s.phase.todo) && forall p | p in s.phase.todo :: p in s.phase.mem)
  }

  lemma AccountedStep(at: (Rel, Stamp) -> Content, s: State, e: Event)
    requires Accounted(s) && Enabled(at, s, e)
    ensures Accounted(Step(s, e))
  {
    match e
    case RemotePut(p, c) => PutEffect(s.w.remote, p, Blake3(c));
    case RemoteDelete(p) => DeleteEffect(s.w.remote, p);
    case PushNext =>
      var q := s.phase.todo[0];
      if q in s.w.local {
        PutEffect(s.w.remote, q, Blake3(s.w.local[q].content));
      }
    case PurgeNext => PurgeAccounted(s);
    case _ => assert Step(s, e).w.remote == s.w.remote;
  }

  lemma RestDistinct(todo: seq<Rel>)
    requires todo != [] && Distinct(todo)
    ensures Distinct(todo[1..]) && forall p | p in todo[1..] :: p in todo && p != todo[0]
  {
    var rest := todo[1..];
    forall i, j | 0 <= i < j < |rest| ensures rest[i] != rest[j] {
      assert todo[i + 1] != todo[j + 1];
    }
    forall p | p in rest ensures p in todo && p != todo[0] {
      var i :| 0 <= i < |rest| && rest[i] == p;
      assert todo[0] != todo[i + 1];
    }
  }

  lemma PurgeOne(r: Remote, p: Rel, local: Local, view: map<Rel, Digest>, mem: Paths)
    requires RemoteValid(r)
    ensures var t := DeleteOne(p, local, view, PushState(r, mem));
            && RemoteValid(t.remote) && mem.Keys - {p} <= t.paths.Keys
            && (forall q | q != p || p in local || p !in view :: Latest(t.remote.rows, q) == Latest(r.rows, q))
  {
    DeleteEffect(r, p);
  }

  lemma PurgeAccounted(s: State)
    requires Accounted(s) && s.phase.Purging? && s.phase.todo != []
    ensures Accounted(Step(s, PurgeNext))
  {
    PurgeOne(s.w.remote, s.phase.todo[0], s.w.local, s.phase.view, s.phase.mem);
    RestDistinct(s.phase.todo);
  }

  lemma {:induction false} RunKeepsAccounted(at: (Rel, Stamp) -> Content, s: State, es: seq<Event>, i: nat)
    requires Fresh(at, s) && IsRun(at, s, es) && i <= |es|
    ensures Accounted(Exec(s, es[..i]))
  {
    if i > 0 {
      RunKeepsAccounted(at, s, es, i - 1);
      assert es[..i][..i - 1] == es[..i - 1];
      AccountedStep(at, Exec(s, es[..i - 1]), es[i - 1]);
    }
  }

  /** In every run, the fallback included, each disappearance of a file on either side has
      one of those causes. */
  lemma DeletionsAreJustified(at: (Rel, Stamp) -> Content, s: State, es: seq<Event>, i: nat, p: Rel)
    requires Fresh(at, s) && IsRun(at, s, es) && i < |es|
    ensures var a, b := Exec(s, es[..i]), Exec(s, es[..i + 1]);
            && (p in a.w.local && p !in b.w.local ==> RemovesLocally(a, es[i], p))
            && (RemoteAt(a.w.remote.rows, p).Some? && RemoteAt(b.w.remote.rows, p).None? ==> RemovesRemotely(a, es[i], p))
  {
    RunKeepsAccounted(at, s, es, i);
    assert es[..i + 1][..i] == es[..i];
    StepDeletesJustly(at, Exec(s, es[..i]), es[i], p);
  }

  lemma StepDeletesJustly(at: (Rel, Stamp) -> Content, s: State, e: Event, p: Rel)
    requires Accounted(s) && Enabled(at, s, e)
    ensures p in s.w.local && p !in Step(s, e).w.local ==> RemovesLocally(s, e, p)
    ensures RemoteAt(s.w.remote.rows, p).Some? && RemoteAt(Step(s, e).w.remote.rows, p).None? ==> RemovesRemotely(s, e, p)
  {
    StepRemovesLocally(s, e, p);
    match e
    case RemotePut(q, c) => PutEffect(s.w.remote, q, Blake3(c));
    case RemoteDelete(q) => DeleteEffect(s.w.remote, q);
    case PushNext => PushNextKeepsAlive(s, p);
    case PurgeNext => PurgeNextRemoves(s, p);
    case _ => assert Step(s, e).w.remote == s.w.remote;
  }

  lemma StepRemovesLocally(s: State, e: Event, p: Rel)
    ensures p in s.w.local && p !in Step(s, e).w.local ==> RemovesLocally(s, e, p)
  {
  }

  lemma PushNextKeepsAlive(s: State, p: Rel)
    requires RemoteValid(s.w.remote) && s.phase.Pushing? && s.phase.todo != []
    ensures RemoteAt(s.w.remote.rows, p).Some? ==> RemoteAt(Step(s, PushNext).w.remote.rows, p).Some?
  {
    var q := s.phase.todo[0];
    if q in s.w.local {
      PutEffect(s.w.remote, q, Blake3(s.w.local[q].content));
    }
  }

  lemma PurgeNextRemoves(s: State, p: Rel)
    requires RemoteValid(s.w.remote) && s.phase.Purging? && s.phase.todo != [] && s.phase.todo[0] in s.phase.mem
    ensures RemoteAt(s.w.remote.rows, p).Some? && RemoteAt(Step(s, PurgeNext).w.remote.rows, p).None? ==>
            RemovesRemotely(s, PurgeNext, p)
  {
    PurgeOne(s.w.remote, s.phase.todo[0], s.w.local, s.phase.view, s.phase.mem);
  }

  /** The events that deal with a path by name. */
  predicate Handles(s: State, e: Event, p: Rel) {
    match e
    case LocalWrite(q, _) => q == p
    case LocalDelete(q) => q == p
    case ApplyNext(_) => s.phase.Pulling? && s.phase.next < |s.phase.page| && s.phase.page[s.phase.next].path == p
    case PushNext => s.phase.Pushing? && s.phase.todo != [] && s.phase.todo[0] == p
    case HealNext(_) => s.phase.Healing? && s.phase.todo != [] && s.phase.todo[0] == p
    case _ => false
  }

  ghost predicate Unrecorded(s: State, p: Rel) {
    p !in s.w.saved.paths &&
    (match s.phase
     case Pulling(mem, _, _, _, _) => p !in mem
     case Pushing(mem, _, _) => p !in mem
     case Purging(mem, _, _) => p !in mem
     case Healing(mem, prior, _, _) => p !in mem && p !in prior
     case Pruning(mem, prior, _, _) => p !in mem && p !in prior
     case Healed(prior) => p !in prior
     case _ => true)
  }

  /** A local file the engine never recorded survives every prune, unchanged, in every run:
      fallback or not, failing or not, until an event handles it by name. */
  lemma {:induction false} UnrecordedFilesSurvive(s: State, es: seq<Event>, p: Rel)
    requires p in s.w.local && Unrecorded(s, p)
    requires forall i | 0 <= i < |es| :: !Handles(Exec(s, es[..i]), es[i], p)
    ensures var t := Exec(s, es); p in t.w.local && t.w.local[p] == s.w.local[p] && Unrecorded(t, p)
  {
    if es != [] {
      var n := |es| - 1;
      assert forall i | 0 <= i <= n :: es[..n][..i] == es[..i];
      UnrecordedFilesSurvive(s, es[..n], p);
      UnhandledKeeps(Exec(s, es[..n]), es[n], p);
    }
  }

  lemma UnhandledKeeps(s: State, e: Event, p: Rel)
    requires p in s.w.local && Unrecorded(s, p) && !Handles(s, e, p)
    ensures var t := Step(s, e); p in t.w.local && t.w.local[p] == s.w.local[p] && Unrecorded(t, p)
  {
  }

  /** The saved cursor is no later than the newest row's, nor is the end of a page in hand,
      which was asked for with the saved cursor. */
  ghost predicate CursorKnown(s: State) {
    var rows, ph := s.w.remote.rows, s.phase;
    && RemoteValid(s.w.remote) && s.w.saved.since <= SyncCursor(rows)
    && (ph.Pulling? ==>
          ph.since == s.w.saved.since && (ph.page != [] ==> Ms(ph.page[|ph.page| - 1].ts) <= SyncCursor(rows)))
  }

  lemma NewerRow(a: Remote, b: Remote, x: Row)
    requires RemoteValid(a) && b.rows != [] && b.rows[|b.rows| - 1] == x && x.ts >= a.now
    ensures SyncCursor(a.rows) <= SyncCursor(b.rows)
  {
    if a.rows != [] {
      RoundingIsMonotone(a.rows[|a.rows| - 1].ts, x.ts);
    }
  }

  lemma PutMovesCursorOn(r: Remote, p: Rel, h: Digest)
    requires RemoteValid(r) && h.Blake3?
    ensures RemoteValid(Put(r, p, h)) && SyncCursor(r.rows) <= SyncCursor(Put(r, p, h).rows)
  {
    PutEffect(r, p, h);
    NewerRow(r, Put(r, p, h), Row(p, h, Tick(r), false));
  }

  lemma DeleteMovesCursorOn(r: Remote, p: Rel)
    requires RemoteValid(r)
    ensures RemoteValid(Delete(r, p)) && SyncCursor(r.rows) <= SyncCursor(Delete(r, p).rows)
  {
    DeleteEffect(r, p);
    if Alive(Latest(r.rows, p)) {
      NewerRow(r, Delete(r, p), Row(p, Text(""), Tick(r), true));
    }
  }

  lemma FetchKnowsCursor(s: State, limit: nat)
    requires CursorKnown(s) && limit > 0
    ensures CursorKnown(Step(s, FetchPage(limit)))
  {
    var rows := s.w.remote.rows;
    var page := Page(rows, s.w.saved.since, limit);
    PageRows(s.w.remote, s.w.saved.since, limit);
    if page != [] {
      var x := page[|page| - 1];
      assert x in page;
      var i :| 0 <= i < |rows| && rows[i] == x;
      RoundingIsMonotone(x.ts, rows[|rows| - 1].ts);
    }
  }

  lemma StepKeepsCursor(at: (Rel, Stamp) -> Content, s: State, e: Event)
    requires CursorKnown(s) && Enabled(at, s, e)
    ensures CursorKnown(Step(s, e)) && s.w.saved.since <= Step(s, e).w.saved.since
  {
    match e
    case RemotePut(p, c) => PutMovesCursorOn(s.w.remote, p, Blake3(c));
    case RemoteDelete(p) => DeleteMovesCursorOn(s.w.remote, p);
    case PushNext =>
      var p := s.phase.todo[0];
      if p in s.w.local {
        PutMovesCursorOn(s.w.remote, p, Blake3(s.w.local[p].content));
      }
    case PurgeNext => DeleteMovesCursorOn(s.w.remote, s.phase.todo[0]);
    case FetchPage(limit) => FetchKnowsCursor(s, limit);
    case _ =>
  }

  /** No step of any run, the fallback included, moves the saved cursor back; and it is never
      past the newest row's. */
  lemma {:induction false} CursorNeverDecreases(at: (Rel, Stamp) -> Content, s: State, es: seq<Event>, i: nat)
    requires CursorKnown(s) && IsRun(at, s, es) && i <= |es|
    ensures CursorKnown(Exec(s, es[..i])) && s.w.saved.since <= Exec(s, es[..i]).w.saved.since
  {
    if i > 0 {
      CursorNeverDecreases(at, s, es, i - 1);
      assert es[..i][..i - 1] == es[..i - 1];
      StepKeepsCursor(at, Exec(s, es[..i - 1]), es[i - 1]);
    }
  }
}
