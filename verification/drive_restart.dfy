/** A delta pull that stops halfway and is started again. */
module DriveRestart {
  import opened Common
  import opened DrivePaths
  import opened DriveModel
  import opened DrivePaging
  import opened DriveReplay
  import opened DriveConverge

  /** A file the disk was writing when it failed: anything may be in it. */
  datatype Half = Half(path: Rel, file: File)

  function Spoil(local: Local, half: Option<Half>): Local {
    if half.None? then local else local[half.value.path := half.value.file]
  }

  /** What a delta pull leaves that saved `n` pages with their cursor and stopped after the
      entries `torn` of the next one, perhaps while writing the file of the entry after these:
      what it did to the manifest in `torn` is lost, what it did to local files stays. */
  ghost predicate Aborted(before: World, after: World, n: nat, lk: seq<Luck>, torn: seq<Row>, lt: seq<Luck>, half: Option<Half>) {
    var q := Delivered(before, n);
    var page := Page(before.remote.rows, q.since, PAGE_LIMIT);
    && RemoteValid(before.remote) && after.remote == before.remote
    && |lk| == |q.feed| && AllPullable(q.feed)
    && |lt| == |torn| && AllPullable(torn) && torn <= page
    && (half.Some? ==> |torn| < |page| && page[|torn|].path == half.value.path && !SyncSkipped(half.value.path))
    && var k := ApplyAll(q.feed, lk, Side(before.local, before.saved.paths));
    && after.local == Spoil(ApplyAll(torn, lt, k).local, half)
    && after.saved == Manifest(q.since, k.paths)
  }

  lemma RowNotPast(rows: seq<Row>, y: Row, x: Row)
    requires Apart(rows) && x in rows && y in rows && y.ts <= Mark(Ms(x.ts))
    ensures y.ts <= x.ts
  {
    var i :| 0 <= i < |rows| && rows[i] == y;
    var j :| 0 <= j < |rows| && rows[j] == x;
    RoundingError(x.ts);
  }

  /** A path whose last row the saved pages reached has it as its last row among them. */
  lemma KeptLatest(rows: seq<Row>, since: nat, q: Pull, ahead: seq<Row>, p: Rel)
    requires Increasing(rows) && Apart(rows) && Orderly(rows, since, q, ahead)
    requires Latest(rows, p).Some? && Mark(since) < Latest(rows, p).value.ts <= Mark(q.since)
    ensures Latest(q.feed, p) == Latest(rows, p)
  {
    var x := q.feed[|q.feed| - 1];
    RowNotPast(rows, Latest(rows, p).value, x);
    SinceLatest(rows, Mark(since), p);
    SinceLatest(rows, x.ts, p);
    LatestOfConcat(Squeeze(q.feed), ahead, p);
    SqueezeLatest(q.feed, p);
  }

  /** The entries of the torn page are rows past the saved cursor. */
  lemma TornRows(rows: seq<Row>, since: nat, torn: seq<Row>)
    requires torn <= Page(rows, since, PAGE_LIMIT)
    ensures forall x | x in torn :: x in rows && x.ts > Mark(since)
  {
    forall x | x in torn ensures x in rows && x.ts > Mark(since) {
      SinceMember(rows, Mark(since), x);
    }
  }

  /** Replay after failure: whatever page and whatever entry of it the pull stopped at, and
      whatever it left of the file it was writing, pulling again from the saved cursor with the
      server unchanged ends in the same files, the same manifest hashes and the same cursor as a
      pull that was never interrupted. */
  lemma ReplayAfterFailure(before: World, after: World, n: nat, lk: seq<Luck>, torn: seq<Row>, lt: seq<Luck>, half: Option<Half>,
                           m: nat, again: seq<Luck>, o: nat, once: seq<Luck>)
    requires Aborted(before, after, n, lk, torn, lt, half) && Apart(before.remote.rows)
    requires Silent(lk) && Silent(lt) && Silent(again) && Silent(once)
    requires !Delivered(after, m).more && |again| == |Delivered(after, m).feed|
    requires !Delivered(before, o).more && |once| == |Delivered(before, o).feed|
    ensures var a, b := Pulled(after, m, again), Pulled(before, o, once);
            SameOutcome(Side(a.local, a.saved.paths), Side(b.local, b.saved.paths)) && a.saved.since == b.saved.since
  {
    var a, b := Pulled(after, m, again), Pulled(before, o, once);
    forall p ensures SameAt(p, Side(a.local, a.saved.paths), Side(b.local, b.saved.paths)) {
      ReplayOfPath(before, after, n, lk, torn, lt, half, m, again, o, once, p);
    }
    var rows := before.remote.rows;
    PulledCursor(after, m, again);
    PulledCursor(before, o, once);
    var ahead := PagingCoversFeed(rows, before.saved.since, PAGE_LIMIT, n);
    var q := Delivered(before, n);
    if q.feed != [] {
      var i :| 0 <= i < |rows| && rows[i] == q.feed[|q.feed| - 1];
      assert rows[i].ts <= rows[|rows| - 1].ts;
      RoundingIsMonotone(rows[i].ts, rows[|rows| - 1].ts);
      PagesAreRows(rows, before.saved.since, PAGE_LIMIT, n);
    }
  }

  /** The half-written file is one the restarted pull comes to again. */
  lemma HalfIsPast(rows: seq<Row>, since: nat, torn: seq<Row>, half: Option<Half>, p: Rel)
    requires Increasing(rows) && (Latest(rows, p).Some? ==> Latest(rows, p).value.ts <= Mark(since))
    requires var page := Page(rows, since, PAGE_LIMIT);
             half.Some? ==> |torn| < |page| && page[|torn|].path == half.value.path
    ensures half.Some? ==> half.value.path != p
  {
    if half.Some? {
      var x := Page(rows, since, PAGE_LIMIT)[|torn|];
      assert x in Since(rows, Mark(since));
      SinceMember(rows, Mark(since), x);
      LatestIsNewest(rows, x);
    }
  }

  /** The row that decides a path in a pull from a cursor. */
  function Decider(rows: seq<Row>, since: nat, p: Rel): Option<Row> {
    if Latest(rows, p).Some? && Latest(rows, p).value.ts > Mark(since) then Latest(rows, p) else None
  }

  /** A path that is done with when the pull stops is as a whole pull leaves it. */
  lemma DoneWith(before: World, after: World, n: nat, lk: seq<Luck>, torn: seq<Row>, lt: seq<Luck>, half: Option<Half>, p: Rel)
    requires Aborted(before, after, n, lk, torn, lt, half) && Apart(before.remote.rows) && Silent(lk) && Silent(lt)
    requires SyncSkipped(p) || Decider(before.remote.rows, after.saved.since, p) == None
    ensures PulledAs(Decider(before.remote.rows, before.saved.since, p), p, Side(before.local, before.saved.paths),
                     Side(after.local, after.saved.paths))
  {
    var rows, s, q := before.remote.rows, Side(before.local, before.saved.paths), Delivered(before, n);
    var k := ApplyAll(q.feed, lk, s);
    PullEffect(q.feed, lk, s, p);
    PullEffect(torn, lt, k, p);
    if !SyncSkipped(p) {
      KeptDecides(before, n, p);
      TornRows(rows, q.since, torn);
      LatestNotAfter(rows, torn, Mark(q.since), p);
      HalfIsPast(rows, q.since, torn, half, p);
    }
  }

  lemma KeptDecides(before: World, n: nat, p: Rel)
    requires RemoteValid(before.remote) && Apart(before.remote.rows)
    requires Decider(before.remote.rows, Delivered(before, n).since, p) == None
    ensures Latest(Delivered(before, n).feed, p) == Decider(before.remote.rows, before.saved.since, p)
  {
    var rows, q := before.remote.rows, Delivered(before, n);
    if Decider(rows, before.saved.since, p).Some? {
      var ahead := PagingCoversFeed(rows, before.saved.since, PAGE_LIMIT, n);
      KeptLatest(rows, before.saved.since, q, ahead, p);
    } else {
      PagesAreRows(rows, before.saved.since, PAGE_LIMIT, n);
      LatestNotAfter(rows, q.feed, Mark(before.saved.since), p);
    }
  }

  lemma WholePull(w: World, m: nat, luck: seq<Luck>, p: Rel)
    requires RemoteValid(w.remote) && Apart(w.remote.rows) && Silent(luck)
    requires !Delivered(w, m).more && |luck| == |Delivered(w, m).feed|
    ensures PulledAs(Decider(w.remote.rows, w.saved.since, p), p, Side(w.local, w.saved.paths),
                     Side(Pulled(w, m, luck).local, Pulled(w, m, luck).saved.paths))
  {
    FeedPullable(w.remote, w.saved.since, m);
    PullEffect(Delivered(w, m).feed, luck, Side(w.local, w.saved.paths), p);
    DeliveredLatest(w.remote.rows, w.saved.since, PAGE_LIMIT, m, p);
  }

  lemma ReplayOfPath(before: World, after: World, n: nat, lk: seq<Luck>, torn: seq<Row>, lt: seq<Luck>, half: Option<Half>,
                     m: nat, again: seq<Luck>, o: nat, once: seq<Luck>, p: Rel)
    requires Aborted(before, after, n, lk, torn, lt, half) && Apart(before.remote.rows)
    requires Silent(lk) && Silent(lt) && Silent(again) && Silent(once)
    requires !Delivered(after, m).more && |again| == |Delivered(after, m).feed|
    requires !Delivered(before, o).more && |once| == |Delivered(before, o).feed|
    ensures var a, b := Pulled(after, m, again), Pulled(before, o, once);
            SameAt(p, Side(a.local, a.saved.paths), Side(b.local, b.saved.paths))
  {
    WholePull(after, m, again, p);
    WholePull(before, o, once, p);
    PagesAreRows(before.remote.rows, before.saved.since, PAGE_LIMIT, n);
    if SyncSkipped(p) || Decider(before.remote.rows, after.saved.since, p) == None {
      DoneWith(before, after, n, lk, torn, lt, half, p);
    }
  }
}
