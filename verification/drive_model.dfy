/** The three parties of the sync: the local tree, the server's rows and the manifest,
    with the effect of one pulled row, one pushed path and one propagated deletion. */
module DriveModel {
  import opened Common
  import opened DrivePaths

  type Content = seq<bv8>

  /** A content hash. `Blake3` is injective by construction; `Text` is any other string a
      hash field may hold (a tombstone's empty hash, a damaged manifest). */
  datatype Digest = Blake3(content: Content) | Text(hex: string)

  /** File size and modification time. A zero time is what a legacy manifest entry and a
      failed `stat` record; real files have a positive one. */
  datatype Stamp = Stamp(size: nat, mtimeMs: nat)

  datatype File = File(content: Content, stamp: Stamp)
  datatype Entry = Entry(hash: Digest, stamp: Stamp)
  type Local = map<Rel, File>
  type Paths = map<Rel, Entry>
  datatype Manifest = Manifest(since: nat, paths: Paths)

  // ------------------------------------------------------------- the server

  /** `ts` is the stored time, in microseconds. */
  datatype Row = Row(path: Rel, hash: Digest, ts: nat, deleted: bool)

  /** `rows` in the order of their time stamps; `now` is the time of the latest change;
      `waits` is how many microseconds will pass before each of the changes to come. */
  datatype Remote = Remote(rows: seq<Row>, now: nat, waits: seq<nat>)

  /** The largest error of a time that is rounded to milliseconds. */
  const SLACK: nat := 500

  /** When the next change happens. */
  function Tick(r: Remote): nat {
    r.now + 1 + if r.waits == [] then SLACK else r.waits[0]
  }

  function Later(r: Remote): seq<nat> {
    if r.waits == [] then [] else r.waits[1..]
  }

  /** The row that decides a path: its last one. */
  function Latest(rows: seq<Row>, p: Rel): (r: Option<Row>)
    ensures r.Some? ==> r.value in rows && r.value.path == p
  {
    if rows == [] then None
    else if rows[|rows| - 1].path == p then Some(rows[|rows| - 1])
    else Latest(rows[..|rows| - 1], p)
  }

  predicate Alive(r: Option<Row>) {
    r.Some? && !r.value.deleted
  }

  /** `GET /v1/file/tree`: the hash of every path whose last row is not a tombstone. */
  function Listing(rows: seq<Row>): (m: map<Rel, Digest>)
    ensures forall p :: p in m <==> Alive(Latest(rows, p))
    ensures forall p | p in m && Latest(rows, p).Some? :: m[p] == Latest(rows, p).value.hash
  {
    if rows == [] then map[]
    else
      var last, m := rows[|rows| - 1], Listing(rows[..|rows| - 1]);
      if last.deleted then m - {last.path} else m[last.path := last.hash]
  }

  /** The rows without the live row of `p`; tombstones stay. */
  function Retire(rows: seq<Row>, p: Rel): seq<Row> {
    if rows == [] then []
    else
      var last, rest := rows[|rows| - 1], Retire(rows[..|rows| - 1], p);
      if last.path == p && !last.deleted then rest else rest + [last]
  }

  /** Upload: the live row moves to the end with a new time, or a new row is added. */
  function Put(r: Remote, p: Rel, h: Digest): Remote {
    Remote(Retire(r.rows, p) + [Row(p, h, Tick(r), false)], Tick(r), Later(r))
  }

  /** Delete: a live row becomes a tombstone with a new time; otherwise nothing happens. */
  function Delete(r: Remote, p: Rel): Remote {
    if Alive(Latest(r.rows, p))
    then Remote(Retire(r.rows, p) + [Row(p, Text(""), Tick(r), true)], Tick(r), Later(r))
    else r
  }

  predicate Increasing(rows: seq<Row>) {
    forall i, j | 0 <= i < j < |rows| :: rows[i].ts < rows[j].ts
  }

  predicate RemoteValid(r: Remote) {
    Increasing(r.rows) && r.now >= 1000 &&
    forall i | 0 <= i < |r.rows| :: 1000 <= r.rows[i].ts <= r.now && (r.rows[i].deleted || r.rows[i].hash.Blake3?)
  }

  lemma {:induction false} RetireMember(rows: seq<Row>, p: Rel, x: Row)
    ensures x in Retire(rows, p) <==> x in rows && (x.path != p || x.deleted)
  {
    if rows != [] {
      RetireMember(rows[..|rows| - 1], p, x);
    }
  }

  lemma {:induction false} RetireLatest(rows: seq<Row>, p: Rel, q: Rel)
    requires q != p
    ensures Latest(Retire(rows, p), q) == Latest(rows, q)
  {
    if rows != [] {
      var last, kept := rows[|rows| - 1], Retire(rows[..|rows| - 1], p);
      RetireLatest(rows[..|rows| - 1], p, q);
      assert (kept + [last])[..|kept|] == kept;
    }
  }

  lemma {:induction false} RetireIncreasing(rows: seq<Row>, p: Rel)
    requires Increasing(rows)
    ensures Increasing(Retire(rows, p))
  {
    if rows != [] {
      var last, front := rows[|rows| - 1], rows[..|rows| - 1];
      var kept := Retire(front, p);
      RetireIncreasing(front, p);
      forall i | 0 <= i < |kept| ensures kept[i].ts < last.ts {
        RetireMember(front, p, kept[i]);
        var j :| 0 <= j < |front| && front[j] == kept[i];
      }
    }
  }

  lemma RetireKeeps(rows: seq<Row>, p: Rel)
    ensures forall x :: x in Retire(rows, p) <==> x in rows && (x.path != p || x.deleted)
    ensures forall q | q != p :: Latest(Retire(rows, p), q) == Latest(rows, q)
    ensures Increasing(rows) ==> Increasing(Retire(rows, p))
  {
    forall x ensures x in Retire(rows, p) <==> x in rows && (x.path != p || x.deleted) {
      RetireMember(rows, p, x);
    }
    forall q | q != p ensures Latest(Retire(rows, p), q) == Latest(rows, q) {
      RetireLatest(rows, p, q);
    }
    if Increasing(rows) {
      RetireIncreasing(rows, p);
    }
  }

  lemma AppendLatest(rows: seq<Row>, r: Row)
    ensures Latest(rows + [r], r.path) == Some(r)
    ensures forall q | q != r.path :: Latest(rows + [r], q) == Latest(rows, q)
  {
    assert (rows + [r])[..|rows|] == rows;
  }

  /** Changes more than half a millisecond apart: no two rows can be confused by rounding. */
  predicate Apart(rows: seq<Row>) {
    forall i, j | 0 <= i < j < |rows| :: rows[i].ts + SLACK < rows[j].ts
  }

  /** The rows so far and the changes to come are that far apart. */
  predicate Spaced(r: Remote) {
    Apart(r.rows) && forall i | 0 <= i < |r.waits| :: r.waits[i] >= SLACK
  }

  lemma {:induction false} RetireApart(rows: seq<Row>, p: Rel)
    requires Apart(rows)
    ensures Apart(Retire(rows, p))
  {
    if rows != [] {
      var last, front := rows[|rows| - 1], rows[..|rows| - 1];
      RetireApart(front, p);
      RetireKeeps(front, p);
      forall i | 0 <= i < |Retire(front, p)| ensures Retire(front, p)[i].ts + SLACK < last.ts {
        assert Retire(front, p)[i] in front;
      }
    }
  }

  /** Both changes keep the rows apart. */
  lemma ChangesStaySpaced(r: Remote, p: Rel, h: Digest)
    requires RemoteValid(r) && Spaced(r)
    ensures Spaced(Put(r, p, h)) && Spaced(Delete(r, p)) && Tick(r) > r.now + SLACK
  {
    var kept := Retire(r.rows, p);
    RetireApart(r.rows, p);
    RetireKeeps(r.rows, p);
    forall i | 0 <= i < |kept| ensures kept[i].ts <= r.now {
      assert kept[i] in r.rows;
    }
  }

  lemma PutEffect(r: Remote, p: Rel, h: Digest)
    requires RemoteValid(r) && h.Blake3?
    ensures RemoteValid(Put(r, p, h))
    ensures Latest(Put(r, p, h).rows, p) == Some(Row(p, h, Tick(r), false))
    ensures forall q | q != p :: Latest(Put(r, p, h).rows, q) == Latest(r.rows, q)
    ensures forall x | x in r.rows && x.deleted :: x in Put(r, p, h).rows
    ensures forall x | x in Put(r, p, h).rows :: x in r.rows || x.ts == Tick(r)
  {
    RetireKeeps(r.rows, p);
    AppendLatest(Retire(r.rows, p), Row(p, h, Tick(r), false));
  }

  lemma DeleteEffect(r: Remote, p: Rel)
    requires RemoteValid(r)
    ensures RemoteValid(Delete(r, p))
    ensures !Alive(Latest(Delete(r, p).rows, p))
    ensures Alive(Latest(r.rows, p)) ==> Latest(Delete(r, p).rows, p) == Some(Row(p, Text(""), Tick(r), true))
    ensures forall q | q != p :: Latest(Delete(r, p).rows, q) == Latest(r.rows, q)
    ensures forall x | x in r.rows && x.deleted :: x in Delete(r, p).rows
    ensures forall x | x in Delete(r, p).rows :: x in r.rows || x.ts == Tick(r)
  {
    RetireKeeps(r.rows, p);
    AppendLatest(Retire(r.rows, p), Row(p, Text(""), Tick(r), true));
  }

  /** In increasing rows the last row of a path is its newest. */
  lemma {:induction false} LatestIsNewest(rows: seq<Row>, x: Row)
    requires Increasing(rows) && x in rows
    ensures Latest(rows, x.path).Some? && x.ts <= Latest(rows, x.path).value.ts
    ensures x.ts == Latest(rows, x.path).value.ts ==> x == Latest(rows, x.path).value
  {
    var last, front := rows[|rows| - 1], rows[..|rows| - 1];
    assert rows == front + [last];
    if x in front && last.path != x.path {
      LatestIsNewest(front, x);
    }
  }

  // ------------------------------------------------------------- the change feed

  /** Rows newer than the cursor, oldest first. */
  function Since(rows: seq<Row>, cursor: nat): seq<Row> {
    if rows == [] then []
    else
      var rest := Since(rows[..|rows| - 1], cursor);
      if rows[|rows| - 1].ts > cursor then rest + [rows[|rows| - 1]] else rest
  }

  function Max(a: nat, b: nat): nat {
    if a < b then b else a
  }

  /** The server reports times in milliseconds, rounded, and takes a cursor `since` in
      milliseconds back to the exact time `Mark(since)` it compares with. */
  function Ms(ts: nat): nat {
    (ts + SLACK) / 1000
  }

  function Mark(since: nat): nat {
    1000 * since
  }

  /** One answer of `GET /v1/file/changes`. */
  function Page(rows: seq<Row>, since: nat, limit: nat): seq<Row> {
    var all := Since(rows, Mark(since));
    if |all| <= limit then all else all[..limit]
  }

  function NextSince(page: seq<Row>, since: nat): nat {
    if page == [] then since else Max(since, Ms(page[|page| - 1].ts))
  }

  /** `GET /v1/file/sync_cursor`. */
  function SyncCursor(rows: seq<Row>): nat {
    if rows == [] then 0 else Ms(rows[|rows| - 1].ts)
  }

  lemma {:induction false} SinceMember(rows: seq<Row>, cursor: nat, x: Row)
    ensures x in Since(rows, cursor) <==> x in rows && x.ts > cursor
  {
    if rows != [] {
      var last, front := rows[|rows| - 1], rows[..|rows| - 1];
      SinceMember(front, cursor, x);
      assert rows == front + [last];
    }
  }

  lemma {:induction false} SinceRows(rows: seq<Row>, cursor: nat)
    ensures forall x :: x in Since(rows, cursor) <==> x in rows && x.ts > cursor
    ensures Increasing(rows) ==> Increasing(Since(rows, cursor))
  {
    forall x ensures x in Since(rows, cursor) <==> x in rows && x.ts > cursor {
      SinceMember(rows, cursor, x);
    }
    if Increasing(rows) {
      SinceIncreasing(rows, cursor);
    }
  }

  lemma {:induction false} SinceIncreasing(rows: seq<Row>, cursor: nat)
    requires Increasing(rows)
    ensures Increasing(Since(rows, cursor))
  {
    if rows != [] {
      var last, front := rows[|rows| - 1], rows[..|rows| - 1];
      var rest := Since(front, cursor);
      SinceIncreasing(front, cursor);
      forall i | 0 <= i < |rest| ensures rest[i].ts < last.ts {
        SinceMember(front, cursor, rest[i]);
        var j :| 0 <= j < |front| && front[j] == rest[i];
      }
    }
  }

  /** Rows past a time say nothing of a path whose last row is not. */
  lemma LatestNotAfter(rows: seq<Row>, some: seq<Row>, from: nat, p: Rel)
    requires Increasing(rows) && forall x | x in some :: x in rows && x.ts > from
    requires Latest(rows, p).Some? ==> Latest(rows, p).value.ts <= from
    ensures Latest(some, p) == None
  {
    if Latest(some, p).Some? {
      LatestIsNewest(rows, Latest(some, p).value);
    }
  }

  /** A row newer than the cursor is the latest of its path in the feed exactly when it is
      in the whole table. */
  lemma {:induction false} SinceLatest(rows: seq<Row>, cursor: nat, p: Rel)
    requires Increasing(rows)
    ensures Latest(Since(rows, cursor), p) ==
            if Latest(rows, p).Some? && Latest(rows, p).value.ts > cursor then Latest(rows, p) else None
  {
    if rows != [] {
      var last, front := rows[|rows| - 1], rows[..|rows| - 1];
      SinceLatest(front, cursor, p);
      var rest := Since(front, cursor);
      assert (rest + [last])[..|rest|] == rest;
      if last.ts <= cursor && Latest(front, p).Some? {
        assert Latest(front, p).value in front;
      }
    }
  }

  /** The feed from the exact time of one of its rows is what follows that row. */
  lemma {:induction false} SinceAgain(rows: seq<Row>, cursor: nat, k: nat)
    requires Increasing(rows) && k < |Since(rows, cursor)|
    ensures Since(rows, Since(rows, cursor)[k].ts) == Since(rows, cursor)[k + 1..]
  {
    var last, front := rows[|rows| - 1], rows[..|rows| - 1];
    var rest := Since(front, cursor);
    if k < |rest| {
      SinceAgain(front, cursor, k);
      SinceMember(front, cursor, rest[k]);
      var j :| 0 <= j < |front| && front[j] == rest[k];
      assert rest[k].ts < last.ts;
    } else {
      NothingSince(rows, last.ts);
    }
  }

  lemma {:induction false} NothingSince(rows: seq<Row>, cursor: nat)
    requires forall i | 0 <= i < |rows| :: rows[i].ts <= cursor
    ensures Since(rows, cursor) == []
  {
    if rows != [] {
      NothingSince(rows[..|rows| - 1], cursor);
    }
  }

  /** Rows that come again. */
  predicate RoundsDown(ts: nat) {
    1 <= ts % 1000 < SLACK
  }

  /** A cursor taken from row `x` delivers `x` again exactly if its time rounds down, and skips
      a later row `y` exactly if `x`'s time rounds up and `y` is not past that millisecond. */
  lemma RoundedCursor(rows: seq<Row>, x: Row, y: Row)
    requires x in rows && y in rows && x.ts < y.ts
    ensures x in Since(rows, Mark(Ms(x.ts))) <==> RoundsDown(x.ts)
    ensures y !in Since(rows, Mark(Ms(x.ts))) <==> x.ts % 1000 >= SLACK && y.ts <= x.ts + (1000 - x.ts % 1000)
  {
    SinceMember(rows, Mark(Ms(x.ts)), x);
    SinceMember(rows, Mark(Ms(x.ts)), y);
    RoundingError(x.ts);
  }

  lemma RoundingError(ts: nat)
    ensures Mark(Ms(ts)) == if ts % 1000 < SLACK then ts - ts % 1000 else ts + (1000 - ts % 1000)
    ensures ts - SLACK < Mark(Ms(ts)) <= ts + SLACK
  {
  }

  lemma RoundingIsMonotone(a: nat, b: nat)
    requires a <= b
    ensures Ms(a) <= Ms(b)
  {
  }

  /** A cursor's own millisecond rounds to it, and anything past it to no less. */
  lemma PastMark(since: nat, ts: nat)
    requires ts > Mark(since)
    ensures Ms(ts) >= since
  {
  }

  lemma {:induction false} SinceSame(rows: seq<Row>, a: nat, b: nat)
    requires forall i | 0 <= i < |rows| :: a < rows[i].ts <==> b < rows[i].ts
    ensures Since(rows, a) == Since(rows, b)
  {
    if rows != [] {
      var front := rows[..|rows| - 1];
      forall i | 0 <= i < |front| ensures a < front[i].ts <==> b < front[i].ts {
        assert front[i] == rows[i];
      }
      SinceSame(front, a, b);
    }
  }

  lemma {:induction false} SinceOneMore(rows: seq<Row>, a: nat, k: nat)
    requires Increasing(rows) && k < |rows| && a < rows[k].ts
    requires forall i | 0 <= i < k :: rows[i].ts <= a
    ensures Since(rows, a) == [rows[k]] + Since(rows, rows[k].ts)
  {
    var n := |rows| - 1;
    var front := rows[..n];
    if k < n {
      SinceOneMore(front, a, k);
      assert front[k] == rows[k] && rows[k].ts < rows[n].ts;
    } else {
      NothingSince(front, a);
      NothingSince(rows, rows[n].ts);
    }
  }

  /** Between rows that are apart, the feed from a rounded cursor is what follows the row it
      came from, with that row once more if its time rounds down. */
  lemma SinceRounded(rows: seq<Row>, k: nat)
    requires Increasing(rows) && Apart(rows) && k < |rows|
    ensures Since(rows, Mark(Ms(rows[k].ts))) ==
            (if RoundsDown(rows[k].ts) then [rows[k]] else []) + Since(rows, rows[k].ts)
  {
    var x := rows[k];
    var m := Mark(Ms(x.ts));
    RoundingError(x.ts);
    forall i | 0 <= i < |rows| && i != k ensures m < rows[i].ts <==> i > k {
      if i < k {
        assert rows[i].ts + SLACK < x.ts;
      } else {
        assert x.ts + SLACK < rows[i].ts;
      }
    }
    if RoundsDown(x.ts) {
      SinceOneMore(rows, m, k);
    } else {
      forall i | 0 <= i < |rows| ensures m < rows[i].ts <==> x.ts < rows[i].ts {
        if i < k {
          assert rows[i].ts < x.ts;
        }
      }
      SinceSame(rows, m, x.ts);
    }
  }

  // ------------------------------------------------------------- pulling one row

  /** How the silent parts of one pulled row turn out: the stamp the disk gives a written
      file, whether reading it back works, and whether unlinking works. */
  datatype Luck = Luck(stamp: Stamp, stat: bool, unlink: bool)

  datatype Side = Side(local: Local, paths: Paths)

  predicate Pullable(r: Row) {
    SyncSkipped(r.path) || r.deleted || r.hash.Blake3?
  }

  /** `apply_remote_change`. */
  function ApplyChange(r: Row, l: Luck, s: Side): Side
    requires Pullable(r)
  {
    var p := r.path;
    if SyncSkipped(p) then s
    else if r.deleted then
      Side(if l.unlink then s.local - {p} else s.local, s.paths - {p})
    else if p in s.local && Blake3(s.local[p].content) == r.hash then
      if l.stat then s.(paths := s.paths[p := Entry(r.hash, s.local[p].stamp)]) else s
    else
      var seen := if l.stat then l.stamp else Stamp(|r.hash.content|, 0);
      Side(s.local[p := File(r.hash.content, l.stamp)], s.paths[p := Entry(r.hash, seen)])
  }

  /** The number `apply_remote_change` reports. */
  function ChangeCount(r: Row, s: Side): nat {
    if SyncSkipped(r.path) then 0
    else if r.deleted then 1
    else if r.path in s.local && Blake3(s.local[r.path].content) == r.hash then 0
    else 1
  }

  function ApplyAll(rows: seq<Row>, luck: seq<Luck>, s: Side): Side
    requires |luck| == |rows|
    requires forall r | r in rows :: Pullable(r)
  {
    if rows == [] then s
    else
      var n := |rows| - 1;
      ApplyChange(rows[n], luck[n], ApplyAll(rows[..n], luck[..n], s))
  }

  // ------------------------------------------------------------- pushing one path

  datatype PushState = PushState(remote: Remote, paths: Paths)

  predicate StampMatches(p: Rel, f: File, view: map<Rel, Digest>, paths: Paths) {
    p in paths && paths[p].stamp == f.stamp && p in view && view[p] == paths[p].hash
  }

  /** One iteration of `push_paths` and of `push_local_changes`; `view` is the listing
      fetched before the loop. */
  function PushOne(p: Rel, local: Local, view: map<Rel, Digest>, s: PushState): PushState {
    if Internal(p) || p !in local then s
    else if StampMatches(p, local[p], view, s.paths) then s
    else HashAndPush(p, local[p], view, s)
  }

  /** The same iteration without the stamp shortcut. */
  function PushOneByHash(p: Rel, local: Local, view: map<Rel, Digest>, s: PushState): PushState {
    if Internal(p) || p !in local then s else HashAndPush(p, local[p], view, s)
  }

  function HashAndPush(p: Rel, f: File, view: map<Rel, Digest>, s: PushState): PushState {
    var h := Blake3(f.content);
    var paths := s.paths[p := Entry(h, f.stamp)];
    if p in view && view[p] == h then s.(paths := paths) else PushState(Put(s.remote, p, h), paths)
  }

  function PushAll(todo: seq<Rel>, local: Local, view: map<Rel, Digest>, s: PushState): PushState {
    if todo == [] then s
    else PushOne(todo[|todo| - 1], local, view, PushAll(todo[..|todo| - 1], local, view, s))
  }

  // ------------------------------------------------------------- propagating deletions

  /** One iteration of `propagate_local_deletions`. */
  function DeleteOne(p: Rel, local: Local, view: map<Rel, Digest>, s: PushState): PushState {
    if p !in local && p in view then PushState(Delete(s.remote, p), s.paths - {p}) else s
  }

  function DeleteAll(todo: seq<Rel>, local: Local, view: map<Rel, Digest>, s: PushState): PushState {
    if todo == [] then s
    else DeleteOne(todo[|todo| - 1], local, view, DeleteAll(todo[..|todo| - 1], local, view, s))
  }

  // ------------------------------------------------------------- invariants

  /** The hypothesis behind the stamp shortcut: `at(p, s)` is the content any file at `p`
      with stamp `s` has. */
  ghost predicate LocalTrue(at: (Rel, Stamp) -> Content, local: Local) {
    forall p | p in local :: local[p].stamp.mtimeMs > 0 && local[p].content == at(p, local[p].stamp)
  }

  /** An entry with a real stamp has the hash of the content that stamp stands for, so an
      entry whose stamp matches the current file has that file's hash. */
  ghost predicate ManifestTrue(at: (Rel, Stamp) -> Content, paths: Paths) {
    forall p | p in paths :: paths[p].stamp.mtimeMs == 0 || paths[p].hash == Blake3(at(p, paths[p].stamp))
  }

  /** If the path is live and the cursor has passed it, it is in the manifest. */
  predicate CoveredAt(rows: seq<Row>, cursor: nat, paths: Paths, p: Rel) {
    !SyncSkipped(p) && Alive(Latest(rows, p)) && Latest(rows, p).value.ts <= cursor ==> p in paths
  }

  /** The disk hands out real stamps, and they stand for what was written. */
  ghost predicate Stamped(at: (Rel, Stamp) -> Content, r: Row, l: Luck) {
    l.stamp.mtimeMs > 0 &&
    (!SyncSkipped(r.path) && !r.deleted && r.hash.Blake3? ==> at(r.path, l.stamp) == r.hash.content)
  }

  /** The luck a theorem about pulled content needs: nothing fails silently either. */
  ghost predicate Lucky(at: (Rel, Stamp) -> Content, r: Row, l: Luck) {
    l.stat && l.unlink && Stamped(at, r, l)
  }

  /** A live row leaves its path in the manifest, unless the file already has the content and
      looking at it fails. */
  predicate Records(r: Row, l: Luck, local: Local) {
    l.stat || r.deleted || SyncSkipped(r.path) || !(r.path in local && Blake3(local[r.path].content) == r.hash)
  }
}
