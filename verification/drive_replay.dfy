/** What a delta pull does to one path, and the two stamp shortcuts. */
module DriveReplay {
  import opened Common
  import opened DrivePaths
  import opened DriveModel

  ghost predicate AllPullable(rows: seq<Row>) {
    forall r | r in rows :: Pullable(r)
  }

  predicate Silent(luck: seq<Luck>) {
    forall l | l in luck :: l.stat && l.unlink
  }

  predicate SameFile(p: Rel, a: Local, b: Local) {
    (p in a <==> p in b) && (p in a && p in b ==> a[p] == b[p])
  }

  predicate SameEntry(p: Rel, a: Paths, b: Paths) {
    (p in a <==> p in b) && (p in a && p in b ==> a[p] == b[p])
  }

  /** What pulling leaves of path `p` when `r` is the last row that names it: untouched
      without a row, absent after a tombstone, and otherwise the row's content with a
      manifest entry that carries the file's own stamp. */
  predicate PulledAs(r: Option<Row>, p: Rel, s: Side, t: Side) {
    if SyncSkipped(p) || r.None? then SameFile(p, t.local, s.local) && SameEntry(p, t.paths, s.paths)
    else if r.value.deleted then p !in t.local && p !in t.paths
    else p in t.local && p in t.paths && Blake3(t.local[p].content) == r.value.hash &&
         t.paths[p] == Entry(r.value.hash, t.local[p].stamp)
  }

  lemma ApplyChangeEffect(x: Row, l: Luck, s: Side, p: Rel)
    requires Pullable(x) && l.stat && l.unlink
    ensures PulledAs(if x.path == p then Some(x) else None, p, s, ApplyChange(x, l, s))
  {
  }

  /** The outcome of a whole pull for one path depends only on the last row that names it. */
  lemma {:induction false} PullEffect(rows: seq<Row>, luck: seq<Luck>, s: Side, p: Rel)
    requires |luck| == |rows| && AllPullable(rows) && Silent(luck)
    ensures PulledAs(Latest(rows, p), p, s, ApplyAll(rows, luck, s))
  {
    if rows != [] {
      var n := |rows| - 1;
      FrontPullable(rows, luck);
      PullEffect(rows[..n], luck[..n], s, p);
      ApplyChangeEffect(rows[n], luck[n], ApplyAll(rows[..n], luck[..n], s), p);
    }
  }

  lemma FrontPullable(rows: seq<Row>, luck: seq<Luck>)
    requires rows != [] && |luck| == |rows| && AllPullable(rows) && Silent(luck)
    ensures AllPullable(rows[..|rows| - 1]) && Silent(luck[..|rows| - 1])
    ensures Pullable(rows[|rows| - 1]) && luck[|rows| - 1].stat && luck[|rows| - 1].unlink
  {
    assert rows[|rows| - 1] in rows && luck[|rows| - 1] in luck;
    assert forall r | r in rows[..|rows| - 1] :: r in rows;
    assert forall l | l in luck[..|rows| - 1] :: l in luck;
  }

  lemma {:induction false} LatestOfConcat(a: seq<Row>, b: seq<Row>, p: Rel)
    ensures Latest(a + b, p) == if Latest(b, p).Some? then Latest(b, p) else Latest(a, p)
  {
    if b == [] {
      assert a + b == a;
    } else {
      LatestOfConcat(a, b[..|b| - 1], p);
      assert (a + b)[..|a + b| - 1] == a + b[..|b| - 1];
    }
  }

  predicate SameAt(p: Rel, a: Side, b: Side) {
    (p in a.local <==> p in b.local) && (p in a.paths <==> p in b.paths) &&
    (p in a.local && p in b.local ==> a.local[p].content == b.local[p].content) &&
    (p in a.paths && p in b.paths ==> a.paths[p].hash == b.paths[p].hash)
  }

  /** The same files with the same contents, and the same manifest paths with the same
      hashes. Stamps may differ: a replay may write a file again. */
  ghost predicate SameOutcome(a: Side, b: Side) {
    forall p :: SameAt(p, a, b)
  }

  /** Applying the same rows twice changes nothing the second time. */
  lemma ApplyTwice(rows: seq<Row>, first: seq<Luck>, second: seq<Luck>, s: Side)
    requires |first| == |rows| == |second| && AllPullable(rows) && Silent(first) && Silent(second)
    ensures SameOutcome(ApplyAll(rows, second, ApplyAll(rows, first, s)), ApplyAll(rows, first, s))
  {
    var t := ApplyAll(rows, first, s);
    forall p ensures SameAt(p, ApplyAll(rows, second, t), t)
    {
      PullEffect(rows, first, s, p);
      PullEffect(rows, second, t, p);
    }
  }

  // ------------------------------------------------------------- stamp shortcuts

  /** The push shortcut changes nothing: with true entries, an iteration that trusts the
      stamp and one that always hashes agree on the remote rows and on the manifest. */
  lemma PushShortcut(at: (Rel, Stamp) -> Content, p: Rel, local: Local, view: map<Rel, Digest>, s: PushState)
    requires LocalTrue(at, local) && ManifestTrue(at, s.paths)
    ensures PushOne(p, local, view, s) == PushOneByHash(p, local, view, s)
  {
    if p in local && StampMatches(p, local[p], view, s.paths) {
      assert s.paths[p] == Entry(Blake3(local[p].content), local[p].stamp);
      assert s.paths[p := s.paths[p]] == s.paths;
    }
  }

  /** One file of `pull_remote_changes`, with its shortcut. */
  function PullListed(p: Rel, h: Digest, l: Luck, s: Side): Side
    requires h.Blake3?
  {
    if SyncSkipped(p) then s
    else if p in s.paths && s.paths[p].hash == h && p in s.local && l.stat && s.local[p].stamp == s.paths[p].stamp then s
    else ApplyChange(Row(p, h, 0, false), l, s)
  }

  /** The pull shortcut changes nothing either. */
  lemma PullShortcut(at: (Rel, Stamp) -> Content, p: Rel, h: Digest, l: Luck, s: Side)
    requires LocalTrue(at, s.local) && ManifestTrue(at, s.paths) && h.Blake3?
    ensures PullListed(p, h, l, s) == ApplyChange(Row(p, h, 0, false), l, s)
  {
    if p in s.paths && p in s.local && s.paths[p].hash == h && s.local[p].stamp == s.paths[p].stamp {
      assert s.paths[p] == Entry(Blake3(s.local[p].content), s.local[p].stamp);
      assert s.paths[p := s.paths[p]] == s.paths;
    }
  }

  /** Both shortcuts rest on an invariant that every write keeps. */
  lemma PullKeepsManifestTrue(at: (Rel, Stamp) -> Content, r: Row, l: Luck, s: Side)
    requires Pullable(r) && Stamped(at, r, l) && LocalTrue(at, s.local) && ManifestTrue(at, s.paths)
    ensures LocalTrue(at, ApplyChange(r, l, s).local) && ManifestTrue(at, ApplyChange(r, l, s).paths)
  {
  }

  /** The invariant is needed. With an entry whose stamp matches but whose hash is another
      content's, the shortcut skips a file that hashing would upload. */
  lemma FalseEntryHidesAnEdit(p: Rel, f: File, other: Content, r: Remote)
    requires !Internal(p) && other != f.content
    requires RemoteValid(r) && Alive(Latest(r.rows, p)) && Latest(r.rows, p).value.hash == Blake3(other)
    ensures var s := PushState(r, map[p := Entry(Blake3(other), f.stamp)]);
            && PushOne(p, map[p := f], Listing(r.rows), s) == s
            && Latest(PushOneByHash(p, map[p := f], Listing(r.rows), s).remote.rows, p) == Some(Row(p, Blake3(f.content), Tick(r), false))
  {
    PutEffect(r, p, Blake3(f.content));
  }
}
