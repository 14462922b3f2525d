/** Over-the-air updates: several tasks download under one lock, stage on disk, mark ready and
    launch the installer, guarded by a mark on disk that outlives the process. The steps are
    the file operations and the decisions between them; tasks interleave at every step. */
module Ota {
  import opened Common

  type Path = seq<string>

  datatype Entry = Entry(name: string, data: Bytes)

  /** What the hash function and the archive reader compute. */
  datatype Codec = Codec(hash: Bytes -> string, entries: Bytes -> Option<seq<Entry>>)

  datatype Release = Release(version: int, min: int, hash: Option<string>, size: Option<int>)

  const PRIMARY: Path := ["alienai_remote_windows.exe"]
  const LEGACY: Path := ["c_remote_windows.exe"]
  const BROWSER: Path := ["alienai_remote_browser.exe"]
  const ZIP: Path := ["bundle.zip"]
  const READY: Path := [".ready"]
  const BACKOFF: Path := [".auto_apply_backoff_ms"]

  const WINDOW_MS: int := 30 * 60 * 1000

  /** The staging directory of one build: its files without the two markers, and the markers. */
  datatype Build = Build(files: map<Path, Bytes>, ready: bool, backoff: Option<int>)

  const NOTHING: Build := Build(map[], false, None)

  type Disk = map<int, Build>

  function At(disk: Disk, v: int): Build {
    if v in disk then disk[v] else NOTHING
  }

  predicate RequiresUpdate(agentBuild: int, rel: Release) {
    agentBuild < rel.min || rel.version > agentBuild
  }

  // ------------------------------------------------------------- what is checked before staging

  predicate HasHash(rel: Release) {
    rel.hash.Some? && rel.hash.value != []
  }

  predicate Accepts(c: Codec, rel: Release, bytes: Bytes) {
    && HasHash(rel)
    && (rel.size.Some? && rel.size.value > 0 ==> |bytes| == rel.size.value)
    && c.hash(bytes) == Lower(rel.hash.value)
  }

  datatype Dest = Skip | Bail | Put(path: Path)

  /** The pieces of a name between slashes of either kind. */
  function Pieces(name: string): (r: seq<string>)
    ensures |r| > 0
  {
    if name == [] then [[]]
    else
      var rest := Pieces(name[1..]);
      if name[0] == '/' || name[0] == '\\' then [[]] + rest else [[name[0]] + rest[0]] + rest[1..]
  }

  function Proper(pieces: seq<string>): Path {
    if pieces == [] then []
    else if pieces[0] == "" || pieces[0] == "." then Proper(pieces[1..])
    else [pieces[0]] + Proper(pieces[1..])
  }

  /** Where an archive entry goes: directories are skipped, names with `..` refused. */
  function Destination(name: string): Dest {
    var pieces := Pieces(name);
    if pieces[|pieces| - 1] == "" then Skip
    else if ".." in pieces || Proper(pieces) == [] then Bail
    else Put(Proper(pieces))
  }

  /** The files that the entries leave; a later entry wins. */
  function Contents(es: seq<Entry>): map<Path, Bytes> {
    if es == [] then map[]
    else
      var e := es[|es| - 1];
      var before := Contents(es[..|es| - 1]);
      var d := Destination(e.name);
      if d.Put? then before[d.path := e.data] else before
  }

  lemma ContentsSnoc(files: map<Path, Bytes>, es: seq<Entry>, n: nat)
    requires n < |es|
    ensures var d := Destination(es[n].name);
            files + Contents(es[..n + 1]) ==
            if d.Put? then (files + Contents(es[..n]))[d.path := es[n].data] else files + Contents(es[..n])
  {
    assert es[..n + 1][..n] == es[..n];
  }

  lemma FilesAgain(disk: Disk, v: int, files: map<Path, Bytes>, more: map<Path, Bytes>)
    requires v in disk
    ensures var d := disk[v := disk[v].(files := files)];
            d[v := d[v].(files := more)] == disk[v := disk[v].(files := more)]
  {
  }

  /** An archive that brings no file under the names staging uses itself. */
  predicate Clean(es: seq<Entry>) {
    forall i | 0 <= i < |es| :: Destination(es[i].name) !in {Put(ZIP), Put(READY), Put(BACKOFF)}
  }

  predicate Holds(files: map<Path, Bytes>, want: map<Path, Bytes>) {
    forall p | p in want :: p in files && files[p] == want[p]
  }

  predicate Blocked(b: Build, now: int) {
    b.backoff.Some? && b.backoff.value > 0 && now - b.backoff.value < WINDOW_MS
  }

  /** What an unfinished removal of a build's directory leaves. */
  function Remnant(b: Build, left: set<Path>): Build {
    Build(map p | p in b.files && p in left :: b.files[p], b.ready && READY in left, if BACKOFF in left then b.backoff else None)
  }

  /** `remove_dir_all`, whose failure is ignored: `left` is what survives. */
  function Removed(disk: Disk, v: int, left: set<Path>): Disk {
    if v !in disk then disk else if left == {} then disk - {v} else disk[v := Remnant(disk[v], left)]
  }

  /** The prune at the start of a process. */
  function Pruned(disk: Disk, build: int, left: map<int, set<Path>>): Disk {
    map v | v in disk && (v > build || v in left) :: if v > build then disk[v] else Remnant(disk[v], left[v])
  }

  /** An empty mark reads as time zero, which blocks nothing. */
  function Written(b: Build, now: int, wrote: Wrote): Build {
    match wrote
    case Whole => b.(backoff := Some(now))
    case Unwritten => b
    case Emptied => b.(backoff := Some(0))
  }

  function WithLegacyCopy(files: map<Path, Bytes>): map<Path, Bytes> {
    if PRIMARY !in files && LEGACY in files then files[PRIMARY := files[LEGACY]] else files
  }

  // ------------------------------------------------------------- the machine

  datatype Stage = Fresh | Cleared | Verified(bytes: Bytes) | Unpacking(bytes: Bytes, next: nat) | Unpacked(bytes: Bytes)

  /** The download that holds the lock. */
  datatype Job = Job(rel: Release, attempt: nat, stage: Stage)

  /** An automatic apply that found no backoff, when the clock said `now` and `seen` marks had
      been made. */
  datatype Phase = Passed | Prepared | Marked(mark: nat) | Launched
  datatype Apply = Apply(v: int, now: int, seen: nat, phase: Phase)

  /** How writing a mark turns out; a failure goes unnoticed, and may leave the file empty. */
  datatype Wrote = Whole | Unwritten | Emptied

  /** The attempt to write a mark that comes just before every automatic launch. */
  datatype Attempt = Attempt(v: int, ms: int, seen: nat, wrote: Wrote)

  datatype Origin = Origin(bytes: Bytes, hash: string)

  /** `origin`, `marks` and `launched` are history: what each ready build was made of, every
      attempt at a mark, and which of these were followed by a launch. */
  datatype State = State(disk: Disk, job: Option<Job>, applies: map<nat, Apply>, clock: int,
                         origin: map<int, Origin>, marks: seq<Attempt>, launched: set<nat>)

  datatype Step =
    | Begin(rel: Release)
    | Clear(left: set<Path>)
    | Fetch(bytes: Bytes)
    | SaveZip
    | Unpack
    | DropZip(ok: bool)
    | Finish
    | Fail(left: set<Path>)
    | Tick(now: int)
    | Check(t: nat, v: int)
    | Prepare(t: nat, browser: bool)
    | Mark(t: nat, wrote: Wrote)
    | Launch(t: nat)
    | Leave(t: nat)
    | Force(v: int, browser: bool)
    // the process ends at any point; the next one prunes, and `remains` is what survives of the
    // builds whose removal fails
    | Restart(build: int, remains: map<int, set<Path>>)

  function Parts(c: Codec, bytes: Bytes): seq<Entry> {
    var r := c.entries(bytes);
    if r.Some? then r.value else []
  }

  predicate Enabled(c: Codec, s: State, e: Step) {
    match e
    case Begin(rel) => s.job.None? && !At(s.disk, rel.version).ready
    case Clear(_) => s.job.Some? && s.job.value.stage.Fresh? && HasHash(s.job.value.rel)
    case Fetch(bytes) => s.job.Some? && s.job.value.stage.Cleared? && Accepts(c, s.job.value.rel, bytes) && Clean(Parts(c, bytes))
    case SaveZip => s.job.Some? && s.job.value.stage.Verified?
    case Unpack =>
      && s.job.Some? && s.job.value.stage.Unpacking?
      && c.entries(s.job.value.stage.bytes).Some?
      && s.job.value.stage.next < |Parts(c, s.job.value.stage.bytes)|
      && !Destination(Parts(c, s.job.value.stage.bytes)[s.job.value.stage.next].name).Bail?
    case DropZip(_) =>
      && s.job.Some? && s.job.value.stage.Unpacking?
      && c.entries(s.job.value.stage.bytes).Some?
      && s.job.value.stage.next == |Parts(c, s.job.value.stage.bytes)|
    case Finish => s.job.Some? && s.job.value.stage.Unpacked?
    case Fail(_) => s.job.Some?
    case Tick(_) => true
    case Check(t, v) => t !in s.applies && At(s.disk, v).ready && !Blocked(At(s.disk, v), s.clock)
    case Prepare(t, browser) =>
      && t in s.applies && s.applies[t].phase.Passed?
      && var files := At(s.disk, s.applies[t].v).files;
         if browser then BROWSER in files else PRIMARY in files || LEGACY in files
    case Mark(t, _) => t in s.applies && s.applies[t].phase.Prepared?
    case Launch(t) => t in s.applies && s.applies[t].phase.Marked?
    case Leave(t) => t in s.applies
    case Force(v, _) => At(s.disk, v).ready
    case Restart(_, _) => true
  }

  function WithFiles(s: State, v: int, files: map<Path, Bytes>, stage: Stage): State
    requires s.job.Some?
  {
    s.(disk := s.disk[v := At(s.disk, v).(files := files)], job := Some(s.job.value.(stage := stage)))
  }

  function Failed(s: State, left: set<Path>): State
    requires s.job.Some?
  {
    var j := s.job.value;
    s.(disk := Removed(s.disk, j.rel.version, left), job := if j.attempt < 3 then Some(Job(j.rel, j.attempt + 1, Fresh)) else None)
  }

  function Next(c: Codec, s: State, e: Step): State
    requires Enabled(c, s, e)
  {
    match e
    case Begin(rel) => s.(job := Some(Job(rel, 1, Fresh)))
    case Clear(left) =>
      var v := s.job.value.rel.version;
      s.(disk := s.disk[v := Remnant(At(s.disk, v), left)], job := Some(s.job.value.(stage := Cleared)))
    case Fetch(bytes) => s.(job := Some(s.job.value.(stage := Verified(bytes))))
    case SaveZip =>
      var j := s.job.value;
      WithFiles(s, j.rel.version, At(s.disk, j.rel.version).files[ZIP := j.stage.bytes], Unpacking(j.stage.bytes, 0))
    case Unpack =>
      var j := s.job.value;
      var entry := Parts(c, j.stage.bytes)[j.stage.next];
      var d := Destination(entry.name);
      var files := At(s.disk, j.rel.version).files;
      WithFiles(s, j.rel.version, if d.Put? then files[d.path := entry.data] else files, Unpacking(j.stage.bytes, j.stage.next + 1))
    case DropZip(ok) =>
      var j := s.job.value;
      var files := At(s.disk, j.rel.version).files;
      WithFiles(s, j.rel.version, if ok then files - {ZIP} else files, Unpacked(j.stage.bytes))
    case Finish =>
      var j := s.job.value;
      var v := j.rel.version;
      s.(disk := s.disk[v := At(s.disk, v).(ready := true)], job := None,
         origin := s.origin[v := Origin(j.stage.bytes, if j.rel.hash.Some? then j.rel.hash.value else [])])
    case Fail(left) => Failed(s, left)
    case Tick(now) => s.(clock := now)
    case Check(t, v) => s.(applies := s.applies[t := Apply(v, s.clock, |s.marks|, Passed)])
    case Prepare(t, browser) =>
      var a := s.applies[t];
      var b := At(s.disk, a.v);
      s.(disk := if browser then s.disk else s.disk[a.v := b.(files := WithLegacyCopy(b.files))],
         applies := s.applies[t := a.(phase := Prepared)])
    case Mark(t, wrote) =>
      var a := s.applies[t];
      s.(disk := s.disk[a.v := Written(At(s.disk, a.v), s.clock, wrote)],
         applies := s.applies[t := a.(phase := Marked(|s.marks|))],
         marks := s.marks + [Attempt(a.v, s.clock, a.seen, wrote)])
    case Launch(t) =>
      var a := s.applies[t];
      s.(applies := s.applies[t := a.(phase := Launched)], launched := s.launched + {a.phase.mark})
    case Leave(t) => s.(applies := s.applies - {t})
    case Force(v, browser) =>
      var b := At(s.disk, v);
      s.(disk := s.disk[v := b.(backoff := None, files := if browser then b.files else WithLegacyCopy(b.files))])
    case Restart(build, left) => s.(disk := Pruned(s.disk, build, left), job := None, applies := map[])
  }

  const START: State := State(map[], None, map[], 0, map[], [], {})

  // ------------------------------------------------------------- staging is sound

  /** A ready build holds every file of a bundle whose hash was the one published. */
  predicate ReadyOk(c: Codec, s: State, v: int) {
    At(s.disk, v).ready ==>
      && v in s.origin
      && c.hash(s.origin[v].bytes) == Lower(s.origin[v].hash)
      && Holds(At(s.disk, v).files, Contents(Parts(c, s.origin[v].bytes)))
  }

  /** A backoff mark stands only beside a ready marker. */
  predicate MarkOk(s: State, v: int) {
    At(s.disk, v).backoff.Some? ==> At(s.disk, v).ready
  }

  predicate StageOk(c: Codec, rel: Release, stage: Stage, files: map<Path, Bytes>) {
    match stage
    case Fresh => true
    case Cleared => HasHash(rel)
    case Verified(bytes) => Accepts(c, rel, bytes) && Clean(Parts(c, bytes))
    case Unpacking(bytes, n) =>
      && Accepts(c, rel, bytes) && Clean(Parts(c, bytes))
      && n <= |Parts(c, bytes)| && Holds(files, Contents(Parts(c, bytes)[..n]))
    case Unpacked(bytes) => Accepts(c, rel, bytes) && Holds(files, Contents(Parts(c, bytes)))
  }

  predicate JobOk(c: Codec, s: State) {
    s.job.Some? ==>
      && !At(s.disk, s.job.value.rel.version).ready
      && StageOk(c, s.job.value.rel, s.job.value.stage, At(s.disk, s.job.value.rel.version).files)
  }

  ghost predicate AppliesOk(s: State) {
    forall t | t in s.applies :: At(s.disk, s.applies[t].v).ready
  }

  ghost predicate Inv(c: Codec, s: State) {
    JobOk(c, s) && AppliesOk(s)
  }

  /** What is sound about one build. */
  predicate Sound(c: Codec, s: State, v: int) {
    ReadyOk(c, s, v) && MarkOk(s, v)
  }

  /** A prune that stops halfway: the ready marker outlives a file of the bundle, or the mark
      outlives the ready marker. */
  predicate Tears(c: Codec, s: State, e: Step, v: int) {
    && e.Restart? && v <= e.build && v in e.remains && At(s.disk, v).ready && v in s.origin
    && if READY in e.remains[v] then exists p | p in Contents(Parts(c, s.origin[v].bytes)) :: p !in e.remains[v]
       else BACKOFF in e.remains[v] && At(s.disk, v).backoff.Some?
  }

  lemma {:induction false} CleanContents(es: seq<Entry>)
    requires Clean(es)
    ensures ZIP !in Contents(es)
  {
    if es != [] {
      var before := es[..|es| - 1];
      assert Destination(es[|es| - 1].name) != Put(ZIP);
      forall i | 0 <= i < |before| ensures Destination(before[i].name) !in {Put(ZIP), Put(READY), Put(BACKOFF)} {
        assert before[i] == es[i];
      }
      CleanContents(before);
    }
  }

  predicate JobStep(e: Step) {
    e.Begin? || e.Clear? || e.Fetch? || e.SaveZip? || e.Unpack? || e.DropZip? || e.Finish? || e.Fail?
  }

  /** What a download does to the disk stays within its own build, which is not ready. */
  lemma JobKeepsOthers(c: Codec, s: State, e: Step, v: int)
    requires Inv(c, s) && Enabled(c, s, e) && JobStep(e)
    requires s.job.None? || v != s.job.value.rel.version
    ensures At(Next(c, s, e).disk, v) == At(s.disk, v)
    ensures v in s.origin ==> v in Next(c, s, e).origin && Next(c, s, e).origin[v] == s.origin[v]
  {
  }

  lemma UnpackingOk(c: Codec, s: State, e: Step)
    requires JobOk(c, s) && Enabled(c, s, e) && (e.SaveZip? || e.Unpack? || e.DropZip?)
    ensures JobOk(c, Next(c, s, e))
  {
    var stage := s.job.value.stage;
    var es := Parts(c, stage.bytes);
    match e
    case SaveZip =>
      assert es[..0] == [];
    case Unpack =>
      var n := stage.next;
      assert es[..n + 1][..n] == es[..n] && es[..n + 1][n] == es[n];
    case DropZip(_) =>
      assert es[..|es|] == es;
      CleanContents(es);
  }

  lemma JobOkStep(c: Codec, s: State, e: Step)
    requires Inv(c, s) && Enabled(c, s, e)
    ensures JobOk(c, Next(c, s, e))
  {
    if e.SaveZip? || e.Unpack? || e.DropZip? {
      UnpackingOk(c, s, e);
    }
  }

  lemma JobOwnBuild(c: Codec, s: State, e: Step)
    requires Inv(c, s) && Enabled(c, s, e) && JobStep(e) && s.job.Some? && Sound(c, s, s.job.value.rel.version)
    ensures Sound(c, Next(c, s, e), s.job.value.rel.version)
  {
  }

  lemma OtherStepBuild(c: Codec, s: State, e: Step, v: int)
    requires Inv(c, s) && Enabled(c, s, e) && !JobStep(e) && !e.Restart? && Sound(c, s, v)
    ensures Sound(c, Next(c, s, e), v)
  {
  }

  /** A restart leaves a sound build sound if and only if its prune does not tear it. */
  lemma RestartTears(c: Codec, s: State, e: Step, v: int)
    requires Sound(c, s, v) && e.Restart?
    ensures Sound(c, Next(c, s, e), v) <==> !Tears(c, s, e, v)
  {
    var b, t := At(s.disk, v), Next(c, s, e);
    if v <= e.build && v in e.remains && v in s.disk && b.ready && READY in e.remains[v] {
      var want := Contents(Parts(c, s.origin[v].bytes));
      forall p | p in want ensures p in At(t.disk, v).files <==> p in e.remains[v] {
      }
    }
  }

  lemma SoundStep(c: Codec, s: State, e: Step, v: int)
    requires Inv(c, s) && Enabled(c, s, e) && Sound(c, s, v) && !Tears(c, s, e, v)
    ensures Sound(c, Next(c, s, e), v)
  {
    if e.Restart? {
      RestartTears(c, s, e, v);
    } else if !JobStep(e) {
      OtherStepBuild(c, s, e, v);
    } else if s.job.Some? && v == s.job.value.rel.version {
      JobOwnBuild(c, s, e);
    } else {
      JobKeepsOthers(c, s, e, v);
    }
  }

  /** The prune does not reach the build, or fails to remove anything of it. */
  predicate Spares(s: State, e: Step, v: int) {
    e.Restart? ==> v > e.build || (v in e.remains && Remnant(At(s.disk, v), e.remains[v]) == At(s.disk, v))
  }

  lemma ReadyStays(c: Codec, s: State, e: Step, v: int)
    requires Inv(c, s) && Enabled(c, s, e) && At(s.disk, v).ready && Spares(s, e, v)
    ensures var b, d := At(s.disk, v), At(Next(c, s, e).disk, v);
            && d.ready && (d.files == b.files || d.files == WithLegacyCopy(b.files))
            && (v in s.origin ==> v in Next(c, s, e).origin && Next(c, s, e).origin[v] == s.origin[v])
  {
    if JobStep(e) {
      assert s.job.None? || v != s.job.value.rel.version;
      JobKeepsOthers(c, s, e, v);
    }
  }

  lemma AppliesStep(c: Codec, s: State, e: Step)
    requires Inv(c, s) && Enabled(c, s, e)
    ensures AppliesOk(Next(c, s, e))
  {
    var t := Next(c, s, e);
    if !e.Restart? {
      forall k | k in t.applies ensures At(t.disk, t.applies[k].v).ready {
        assert At(s.disk, t.applies[k].v).ready;
        ReadyStays(c, s, e, t.applies[k].v);
      }
    }
  }

  lemma InvStep(c: Codec, s: State, e: Step)
    requires Inv(c, s) && Enabled(c, s, e)
    ensures Inv(c, Next(c, s, e))
  {
    JobOkStep(c, s, e);
    AppliesStep(c, s, e);
  }

  // ------------------------------------------------------------- runs

  /** `ss` are the states of a run that takes the steps `es`. */
  ghost predicate IsRun(c: Codec, ss: seq<State>, es: seq<Step>) {
    && |ss| == |es| + 1
    && ss[0].(clock := 0) == START
    && forall i | 0 <= i < |es| :: Enabled(c, ss[i], es[i]) && ss[i + 1] == Next(c, ss[i], es[i])
  }

  lemma {:induction false} RunKeepsInv(c: Codec, ss: seq<State>, es: seq<Step>, i: nat)
    requires IsRun(c, ss, es) && i < |ss|
    ensures Inv(c, ss[i])
  {
    if i > 0 {
      RunKeepsInv(c, ss, es, i - 1);
      InvStep(c, ss[i - 1], es[i - 1]);
    }
  }

  /** In every run in which no prune tears the build: if it is ready it comes from bytes whose
      hash was the published one and has every file of that bundle, and its backoff mark
      implies ready. In every run at all an automatic apply is of a ready build. */
  lemma {:induction false} StagingIsSound(c: Codec, ss: seq<State>, es: seq<Step>, i: nat, v: int)
    requires IsRun(c, ss, es) && i < |ss|
    requires forall k | 0 <= k < i :: !Tears(c, ss[k], es[k], v)
    ensures Sound(c, ss[i], v)
    ensures forall t | t in ss[i].applies :: At(ss[i].disk, ss[i].applies[t].v).ready
  {
    RunKeepsInv(c, ss, es, i);
    if i > 0 {
      StagingIsSound(c, ss, es, i - 1, v);
      RunKeepsInv(c, ss, es, i - 1);
      SoundStep(c, ss[i - 1], es[i - 1], v);
    }
  }

  /** No restart on the way removes anything of the build. */
  predicate NotPruned(ss: seq<State>, es: seq<Step>, i: nat, j: nat, v: int)
    requires i <= j <= |es| < |ss|
  {
    forall k | i <= k < j :: Spares(ss[k], es[k], v)
  }

  /** Once ready, a build stays ready and as it was unpacked until it is pruned, whatever is
      downloaded or applied meanwhile; only the copy of the program under its new name may be
      added. */
  lemma {:induction false} ReadyBuildsAreFrozen(c: Codec, ss: seq<State>, es: seq<Step>, i: nat, j: nat, v: int)
    requires IsRun(c, ss, es) && i <= j <= |es| && At(ss[i].disk, v).ready && NotPruned(ss, es, i, j, v)
    ensures var b, d := At(ss[i].disk, v), At(ss[j].disk, v);
            && d.ready && (d.files == b.files || d.files == WithLegacyCopy(b.files))
            && (v in ss[i].origin ==> v in ss[j].origin && ss[j].origin[v] == ss[i].origin[v])
    decreases j
  {
    if i < j {
      ReadyBuildsAreFrozen(c, ss, es, i, j - 1, v);
      RunKeepsInv(c, ss, es, j - 1);
      ReadyStays(c, ss[j - 1], es[j - 1], v);
    }
  }

  // ------------------------------------------------------------- automatic launches

  /** What would take a build's mark away: the user forces it, or a prune removes a marker. */
  predicate Unmarks(e: Step, v: int) {
    || (e.Force? && e.v == v)
    || (e.Restart? && v <= e.build && !(v in e.remains && READY in e.remains[v] && BACKOFF in e.remains[v]))
  }

  predicate NeverUnmarked(es: seq<Step>, i: nat, v: int)
    requires i <= |es|
  {
    forall k | 0 <= k < i :: !Unmarks(es[k], v)
  }

  /** The recorded clock is past 1970 and does not go back. */
  predicate ClockForward(ss: seq<State>) {
    |ss| > 0 && ss[0].clock > 0 && forall k | 0 <= k < |ss| - 1 :: ss[k].clock <= ss[k + 1].clock
  }

  /** Attempt `c` emptied the mark file without having looked after mark `a` was made. */
  predicate Spoils(marks: seq<Attempt>, v: int, a: nat, c: nat)
    requires c < |marks|
  {
    marks[c].v == v && marks[c].wrote.Emptied? && marks[c].seen <= a
  }

  /** Mark `a` of build `v` was written, and none of the attempts up to `end` spoils it. */
  predicate Stands(marks: seq<Attempt>, v: int, a: nat, end: nat)
    requires end <= |marks|
  {
    a < end && marks[a].v == v && marks[a].wrote.Whole? && forall c | a < c < end :: !Spoils(marks, v, a, c)
  }

  /** A mark that stands is in the file, or half an hour has passed. */
  ghost predicate MarksOk(s: State, v: int) {
    && (forall a | 0 <= a < |s.marks| :: 0 < s.marks[a].ms <= s.clock)
    && (At(s.disk, v).backoff.Some? ==> At(s.disk, v).backoff.value <= s.clock)
    && forall a | 0 <= a < |s.marks| && Stands(s.marks, v, a, |s.marks|) ::
         (At(s.disk, v).backoff.Some? && s.marks[a].ms <= At(s.disk, v).backoff.value) || s.marks[a].ms + WINDOW_MS <= s.clock
  }

  /** An apply under way came long enough after every standing mark it could see. */
  ghost predicate ChecksOk(s: State, v: int) {
    && (forall t | t in s.applies :: s.applies[t].seen <= |s.marks| && s.applies[t].now <= s.clock)
    && forall t, a | t in s.applies && s.applies[t].v == v && 0 <= a < s.applies[t].seen && Stands(s.marks, v, a, s.applies[t].seen) ::
         s.marks[a].ms + WINDOW_MS <= s.applies[t].now
  }

  ghost predicate Spaced(s: State, v: int) {
    && (forall b | 0 <= b < |s.marks| :: s.marks[b].seen <= b)
    && forall a, b | 0 <= a < b < |s.marks| && s.marks[b].v == v && Stands(s.marks, v, a, s.marks[b].seen) ::
         s.marks[a].ms + WINDOW_MS <= s.marks[b].ms
  }

  ghost predicate LaunchInv(s: State, v: int) {
    MarkOk(s, v) && MarksOk(s, v) && ChecksOk(s, v) && Spaced(s, v) && s.clock > 0
  }

  ghost predicate GoesOn(c: Codec, s: State, e: Step, v: int) {
    Inv(c, s) && Enabled(c, s, e) && LaunchInv(s, v) && !Unmarks(e, v) && (e.Tick? ==> s.clock <= e.now)
  }

  /** Only an attempt at a mark touches what is written of it. */
  lemma BackoffStays(c: Codec, s: State, e: Step, v: int)
    requires Inv(c, s) && Enabled(c, s, e) && MarkOk(s, v) && !Unmarks(e, v)
    ensures MarkOk(Next(c, s, e), v)
    ensures At(s.disk, v).backoff.Some? || (e.Mark? && s.applies[e.t].v == v) ==>
              At(Next(c, s, e).disk, v).backoff ==
              if e.Mark? && s.applies[e.t].v == v then Written(At(s.disk, v), s.clock, e.wrote).backoff else At(s.disk, v).backoff
    ensures At(s.disk, v).backoff.None? && !(e.Mark? && s.applies[e.t].v == v) ==> At(Next(c, s, e).disk, v).backoff.None?
  {
    if JobStep(e) && (s.job.None? || v != s.job.value.rel.version) {
      JobKeepsOthers(c, s, e, v);
    }
  }

  lemma StandsBefore(marks: seq<Attempt>, x: Attempt, v: int, a: nat, end: nat)
    requires end <= |marks|
    ensures Stands(marks + [x], v, a, end) <==> Stands(marks, v, a, end)
  {
    forall c | a < c < end ensures Spoils(marks + [x], v, a, c) <==> Spoils(marks, v, a, c) {
    }
  }

  lemma StandsOneMore(marks: seq<Attempt>, x: Attempt, v: int, a: nat)
    requires a < |marks| && Stands(marks + [x], v, a, |marks| + 1)
    ensures Stands(marks, v, a, |marks|)
    ensures x.v == v && x.wrote.Emptied? ==> a < x.seen
    ensures forall end | a < end <= |marks| :: Stands(marks, v, a, end)
  {
    assert !Spoils(marks + [x], v, a, |marks|) || a == |marks|;
    forall c | a < c < |marks| ensures !Spoils(marks, v, a, c) {
      assert !Spoils(marks + [x], v, a, c);
    }
  }

  lemma MarksStep(c: Codec, s: State, e: Step, v: int)
    requires GoesOn(c, s, e, v)
    ensures MarksOk(Next(c, s, e), v)
  {
    var t := Next(c, s, e);
    BackoffStays(c, s, e, v);
    forall a | 0 <= a < |t.marks| && Stands(t.marks, v, a, |t.marks|)
      ensures (At(t.disk, v).backoff.Some? && t.marks[a].ms <= At(t.disk, v).backoff.value) || t.marks[a].ms + WINDOW_MS <= t.clock
    {
      if e.Mark? && a < |s.marks| {
        StandsOneMore(s.marks, t.marks[|s.marks|], v, a);
      }
    }
  }

  lemma ChecksStep(c: Codec, s: State, e: Step, v: int)
    requires GoesOn(c, s, e, v)
    ensures ChecksOk(Next(c, s, e), v)
  {
    var t := Next(c, s, e);
    forall k, a | k in t.applies && t.applies[k].v == v && 0 <= a < t.applies[k].seen && Stands(t.marks, v, a, t.applies[k].seen)
      ensures t.marks[a].ms + WINDOW_MS <= t.applies[k].now
    {
      if e.Mark? {
        StandsBefore(s.marks, t.marks[|s.marks|], v, a, t.applies[k].seen);
      }
    }
  }

  lemma SpacedStep(c: Codec, s: State, e: Step, v: int)
    requires GoesOn(c, s, e, v)
    ensures Spaced(Next(c, s, e), v)
  {
    var t := Next(c, s, e);
    if e.Mark? {
      forall a, b | 0 <= a < b < |t.marks| && t.marks[b].v == v && Stands(t.marks, v, a, t.marks[b].seen)
        ensures t.marks[a].ms + WINDOW_MS <= t.marks[b].ms
      {
        StandsBefore(s.marks, t.marks[|s.marks|], v, a, t.marks[b].seen);
      }
    }
  }

  lemma LaunchStep(c: Codec, s: State, e: Step, v: int)
    requires GoesOn(c, s, e, v)
    ensures LaunchInv(Next(c, s, e), v)
  {
    BackoffStays(c, s, e, v);
    MarksStep(c, s, e, v);
    ChecksStep(c, s, e, v);
    SpacedStep(c, s, e, v);
  }

  lemma {:induction false} RunKeepsLaunchInv(c: Codec, ss: seq<State>, es: seq<Step>, i: nat, v: int)
    requires IsRun(c, ss, es) && i <= |es| && ClockForward(ss) && NeverUnmarked(es, i, v)
    ensures LaunchInv(ss[i], v)
  {
    if i > 0 {
      RunKeepsLaunchInv(c, ss, es, i - 1, v);
      RunKeepsInv(c, ss, es, i - 1);
      assert es[i - 1].Tick? ==> ss[i - 1].clock <= ss[i].clock;
      LaunchStep(c, ss[i - 1], es[i - 1], v);
    }
  }

  /** Every launch has an attempt at a mark of its own. */
  ghost predicate LaunchesOk(s: State) {
    && (forall m | m in s.launched :: m < |s.marks|)
    && (forall t | t in s.applies && s.applies[t].phase.Marked? ::
          && s.applies[t].phase.mark < |s.marks| && s.applies[t].phase.mark !in s.launched
          && s.marks[s.applies[t].phase.mark].v == s.applies[t].v)
    && forall t, u | t in s.applies && u in s.applies && t != u && s.applies[t].phase.Marked? && s.applies[u].phase.Marked? ::
         s.applies[t].phase.mark != s.applies[u].phase.mark
  }

  lemma LaunchesStep(c: Codec, s: State, e: Step)
    requires LaunchesOk(s) && Enabled(c, s, e)
    ensures LaunchesOk(Next(c, s, e))
    ensures e.Launch? ==> s.applies[e.t].phase.mark !in s.launched
  {
  }

  /** Each launch in a run is a new one, with a mark attempted just before by the same task for
      the same build. */
  lemma {:induction false} EveryLaunchHasItsMark(c: Codec, ss: seq<State>, es: seq<Step>, i: nat)
    requires IsRun(c, ss, es) && i < |ss|
    ensures LaunchesOk(ss[i])
    ensures i < |es| && es[i].Launch? ==>
              var m := ss[i].applies[es[i].t].phase.mark;
              && m !in ss[i].launched && ss[i + 1].launched == ss[i].launched + {m}
              && m < |ss[i].marks| && ss[i].marks[m].v == ss[i].applies[es[i].t].v
  {
    if i > 0 {
      EveryLaunchHasItsMark(c, ss, es, i - 1);
      LaunchesStep(c, ss[i - 1], es[i - 1]);
    }
  }

  /** Two automatic launches of one build are at least 30 minutes apart by the recorded clock,
      across any number of restarts, if the mark of the earlier one was written, the later one
      looked after that, and no attempt in between that had not seen the mark emptied the file.
      `a` and `b` are the launches' attempts at a mark. */
  lemma LaunchesAreSpaced(c: Codec, ss: seq<State>, es: seq<Step>, i: nat, v: int, a: nat, b: nat)
    requires IsRun(c, ss, es) && i <= |es| && ClockForward(ss) && NeverUnmarked(es, i, v)
    requires a in ss[i].launched && b in ss[i].launched && a < b < |ss[i].marks| && ss[i].marks[b].v == v
    requires ss[i].marks[b].seen <= |ss[i].marks| && Stands(ss[i].marks, v, a, ss[i].marks[b].seen)
    ensures ss[i].marks[b].ms - ss[i].marks[a].ms >= 30 * 60 * 1000
  {
    RunKeepsLaunchInv(c, ss, es, i, v);
  }

  // ------------------------------------------------------------- what can follow

  /** Nothing that could renew the way to a launch of build `v`: the clock stands, the process
      goes on, the user does not force it, and no download of it finishes. */
  predicate Quiet(s: State, e: Step, v: int) {
    && !e.Tick? && !e.Restart?
    && !(e.Force? && e.v == v)
    && !(e.Finish? && s.job.Some? && s.job.value.rel.version == v)
  }

  /** With a build given, all steps are quiet for it. */
  ghost predicate Leads(c: Codec, ss: seq<State>, es: seq<Step>, quiet: Option<int>) {
    && |ss| == |es| + 1
    && (forall i | 0 <= i < |es| :: Enabled(c, ss[i], es[i]) && ss[i + 1] == Next(c, ss[i], es[i]))
    && (quiet.Some? ==> forall i | 0 <= i < |es| :: Quiet(ss[i], es[i], quiet.value))
  }

  ghost predicate Reaches(c: Codec, s: State, z: State, quiet: Option<int>) {
    exists ss: seq<State>, es: seq<Step> :: Leads(c, ss, es, quiet) && ss[0] == s && ss[|es|] == z
  }

  lemma ReachesHere(c: Codec, s: State, quiet: Option<int>)
    ensures Reaches(c, s, s, quiet)
  {
    var es: seq<Step> := [];
    assert Leads(c, [s], es, quiet) && [s][|es|] == s;
  }

  lemma ReachesVia(c: Codec, s: State, e: Step, z: State, quiet: Option<int>)
    requires Enabled(c, s, e) && Reaches(c, Next(c, s, e), z, quiet)
    requires quiet.Some? ==> Quiet(s, e, quiet.value)
    ensures Reaches(c, s, z, quiet)
  {
    var ss: seq<State>, es: seq<Step> :| Leads(c, ss, es, quiet) && ss[0] == Next(c, s, e) && ss[|es|] == z;
    var ss', es' := [s] + ss, [e] + es;
    forall i | 0 <= i < |es'|
      ensures Enabled(c, ss'[i], es'[i]) && ss'[i + 1] == Next(c, ss'[i], es'[i])
      ensures quiet.Some? ==> Quiet(ss'[i], es'[i], quiet.value)
    {
      if i > 0 {
        assert es'[i] == es[i - 1] && ss'[i] == ss[i - 1];
      }
    }
    assert Leads(c, ss', es', quiet) && ss'[|es'|] == z;
  }

  lemma ReachesOn(c: Codec, s: State, m: State, z: State, quiet: Option<int>)
    requires Reaches(c, s, m, quiet) && Reaches(c, m, z, quiet)
    ensures Reaches(c, s, z, quiet)
  {
    var ss: seq<State>, es: seq<Step> :| Leads(c, ss, es, quiet) && ss[0] == s && ss[|es|] == m;
    ReachesFrom(c, ss, es, 0, z, quiet);
  }

  lemma {:induction false} ReachesFrom(c: Codec, ss: seq<State>, es: seq<Step>, i: nat, z: State, quiet: Option<int>)
    requires Leads(c, ss, es, quiet) && i <= |es| && Reaches(c, ss[|es|], z, quiet)
    ensures Reaches(c, ss[i], z, quiet)
    decreases |es| - i
  {
    if i < |es| {
      ReachesFrom(c, ss, es, i + 1, z, quiet);
      ReachesVia(c, ss[i], es[i], z, quiet);
    }
  }

  lemma QuietReaches(c: Codec, s: State, z: State, v: int)
    requires Reaches(c, s, z, Some(v))
    ensures Reaches(c, s, z, None)
  {
    var ss: seq<State>, es: seq<Step> :| Leads(c, ss, es, Some(v)) && ss[0] == s && ss[|es|] == z;
    assert Leads(c, ss, es, None);
  }

  // ------------------------------------------------------------- when a build can be launched

  predicate Staged(files: map<Path, Bytes>) {
    BROWSER in files || PRIMARY in files || LEGACY in files
  }

  /** What a check accepts and a preparation can go on with. */
  predicate MayApply(s: State, v: int) {
    At(s.disk, v).ready && !Blocked(At(s.disk, v), s.clock) && Staged(At(s.disk, v).files)
  }

  /** An apply that is past its check and not stuck for want of the program. */
  predicate GoingOn(s: State, t: nat, v: int) {
    && t in s.applies && s.applies[t].v == v
    && match s.applies[t].phase
       case Passed => Staged(At(s.disk, v).files)
       case Prepared => true
       case Marked(_) => true
       case Launched => false
  }

  ghost predicate Launchable(s: State, v: int) {
    MayApply(s, v) || exists t :: GoingOn(s, t, v)
  }

  predicate Launching(s: State, t: nat, v: int) {
    t in s.applies && s.applies[t].v == v && s.applies[t].phase.Marked?
  }

  /** Quiet steps lead to a state in which a task launches the build. */
  ghost predicate CanLaunch(c: Codec, s: State, v: int) {
    exists z: State, t: nat :: Reaches(c, s, z, Some(v)) && Launching(z, t, v)
  }

  /** What preparing an apply makes of the build. */
  function Starting(b: Build): Build {
    if BROWSER in b.files then b else b.(files := WithLegacyCopy(b.files))
  }

  lemma LaunchThis(c: Codec, s: State, t: nat, v: int) returns (z: State)
    requires GoingOn(s, t, v)
    ensures Reaches(c, s, z, Some(v)) && Launching(z, t, v)
    decreases if s.applies[t].phase.Marked? then 0 else if s.applies[t].phase.Prepared? then 1 else 2
  {
    if s.applies[t].phase.Marked? {
      z := s;
      ReachesHere(c, s, Some(v));
    } else {
      var e := if s.applies[t].phase.Prepared? then Mark(t, Whole) else Prepare(t, BROWSER in At(s.disk, v).files);
      z := LaunchThis(c, Next(c, s, e), t, v);
      ReachesVia(c, s, e, z, Some(v));
    }
  }

  lemma UnlaunchableDownload(c: Codec, s: State, e: Step, v: int)
    requires Inv(c, s) && Enabled(c, s, e) && JobStep(e) && Quiet(s, e, v) && !Launchable(s, v)
    ensures !Launchable(Next(c, s, e), v)
  {
    var z := Next(c, s, e);
    if s.job.Some? && s.job.value.rel.version == v {
      assert !At(z.disk, v).ready;
    } else {
      JobKeepsOthers(c, s, e, v);
    }
    forall t ensures !GoingOn(z, t, v) {
      assert !GoingOn(s, t, v);
    }
  }

  lemma UnlaunchableStep(c: Codec, s: State, e: Step, v: int)
    requires Inv(c, s) && Enabled(c, s, e) && Quiet(s, e, v) && !Launchable(s, v)
    ensures !Launchable(Next(c, s, e), v)
  {
    if JobStep(e) {
      UnlaunchableDownload(c, s, e, v);
    } else {
      var z := Next(c, s, e);
      if e.Prepare? || e.Mark? {
        assert !GoingOn(s, e.t, v);
      }
      assert !MayApply(z, v);
      forall t ensures !GoingOn(z, t, v) {
        assert !GoingOn(s, t, v);
      }
    }
  }

  lemma {:induction false} UnlaunchableRun(c: Codec, ss: seq<State>, es: seq<Step>, i: nat, v: int)
    requires Leads(c, ss, es, Some(v)) && i <= |es| && Inv(c, ss[0]) && !Launchable(ss[0], v)
    ensures Inv(c, ss[i]) && !Launchable(ss[i], v)
  {
    if i > 0 {
      UnlaunchableRun(c, ss, es, i - 1, v);
      InvStep(c, ss[i - 1], es[i - 1]);
      UnlaunchableStep(c, ss[i - 1], es[i - 1], v);
    }
  }

  lemma FreshTask(applies: map<nat, Apply>) returns (t: nat)
    ensures t !in applies
  {
    var keys: set<nat>, bound: nat := applies.Keys, 0;
    while keys != {}
      invariant forall k | k in applies :: k in keys || k < bound
      decreases keys
    {
      var k :| k in keys;
      keys := keys - {k};
      bound := if k < bound then bound else k + 1;
    }
    t := bound;
  }

  /** While the clock stands, the process runs, the user does not force the build and no download
      of it finishes: it can be launched if and only if an apply of it is past its check and can
      go on, or it is ready with its program, and not held back by its mark. */
  lemma LaunchedAgainExactly(c: Codec, s: State, v: int)
    requires Inv(c, s)
    ensures CanLaunch(c, s, v) <==> MayApply(s, v) || exists t :: GoingOn(s, t, v)
  {
    if t :| GoingOn(s, t, v) {
      var z := LaunchThis(c, s, t, v);
    } else if MayApply(s, v) {
      var t := FreshTask(s.applies);
      var z := LaunchThis(c, Next(c, s, Check(t, v)), t, v);
      ReachesVia(c, s, Check(t, v), z, Some(v));
    } else if CanLaunch(c, s, v) {
      var z: State, t: nat :| Reaches(c, s, z, Some(v)) && Launching(z, t, v);
      var ss: seq<State>, es: seq<Step> :| Leads(c, ss, es, Some(v)) && ss[0] == s && ss[|es|] == z;
      UnlaunchableRun(c, ss, es, |es|, v);
      assert GoingOn(z, t, v);
    }
  }

  // ------------------------------------------------------------- how the spacing fails

  lemma ReachMarking(c: Codec, s: State, v: int, t: nat) returns (r: State)
    requires t !in s.applies && MayApply(s, v)
    ensures Reaches(c, s, r, Some(v))
    ensures r == s.(disk := s.disk[v := Starting(At(s.disk, v))], applies := s.applies[t := Apply(v, s.clock, |s.marks|, Prepared)])
  {
    var prepare := Prepare(t, BROWSER in At(s.disk, v).files);
    var s1 := Next(c, s, Check(t, v));
    r := s.(disk := s.disk[v := Starting(At(s.disk, v))], applies := s.applies[t := Apply(v, s.clock, |s.marks|, Prepared)]);
    assert Next(c, s1, prepare) == r;
    ReachesHere(c, r, Some(v));
    ReachesVia(c, s1, prepare, r, Some(v));
    ReachesVia(c, s, Check(t, v), r, Some(v));
  }

  lemma ReachLaunch(c: Codec, s: State, v: int, t: nat, wrote: Wrote) returns (r: State)
    requires t in s.applies && s.applies[t].v == v && s.applies[t].phase.Prepared?
    ensures Reaches(c, s, r, Some(v))
    ensures r == s.(disk := s.disk[v := Written(At(s.disk, v), s.clock, wrote)],
                    applies := s.applies[t := s.applies[t].(phase := Launched)],
                    marks := s.marks + [Attempt(v, s.clock, s.applies[t].seen, wrote)],
                    launched := s.launched + {|s.marks|})
  {
    var s1 := Next(c, s, Mark(t, wrote));
    r := Next(c, s1, Launch(t));
    ReachesHere(c, r, Some(v));
    ReachesVia(c, s1, Launch(t), r, Some(v));
    ReachesVia(c, s, Mark(t, wrote), r, Some(v));
  }

  lemma BothPrepared(c: Codec, s: State, v: int, t1: nat, t2: nat) returns (z: State)
    requires t1 != t2 && t1 !in s.applies && t2 !in s.applies && MayApply(s, v)
    ensures Reaches(c, s, z, Some(v)) && z.clock == s.clock && z.marks == s.marks && z.launched == s.launched
    ensures z.applies == s.applies[t1 := Apply(v, s.clock, |s.marks|, Prepared)][t2 := Apply(v, s.clock, |s.marks|, Prepared)]
    ensures At(z.disk, v).ready && Staged(At(z.disk, v).files)
  {
    var s1 := ReachMarking(c, s, v, t1);
    z := ReachMarking(c, s1, v, t2);
    ReachesOn(c, s, s1, z, Some(v));
  }

  /** One task launches the build while another, which looked no later, has still to make its
      mark. */
  lemma LaunchBeside(c: Codec, s: State, v: int, t1: nat, t2: nat) returns (z: State)
    requires t1 != t2 && t1 !in s.applies && t2 !in s.applies && MayApply(s, v)
    ensures Reaches(c, s, z, Some(v)) && z.clock == s.clock
    ensures z.marks == s.marks + [Attempt(v, s.clock, |s.marks|, Whole)] && z.launched == s.launched + {|s.marks|}
    ensures z.applies == s.applies[t1 := Apply(v, s.clock, |s.marks|, Launched)][t2 := Apply(v, s.clock, |s.marks|, Prepared)]
    ensures At(z.disk, v).ready && Staged(At(z.disk, v).files)
  {
    var s2 := BothPrepared(c, s, v, t1, t2);
    z := ReachLaunch(c, s2, v, t1, Whole);
    ReachesOn(c, s, s2, z, Some(v));
    assert z.applies == s.applies[t1 := Apply(v, s.clock, |s.marks|, Launched)][t2 := Apply(v, s.clock, |s.marks|, Prepared)];
  }

  /** If the later one looked before the earlier had made its mark, nothing keeps them apart:
      from any state where a build may be applied, two tasks can both launch it at once. */
  lemma OverlappingLaunchesAreNotSpaced(c: Codec, s: State, v: int, t1: nat, t2: nat) returns (z: State)
    requires t1 != t2 && t1 !in s.applies && t2 !in s.applies && MayApply(s, v)
    ensures Reaches(c, s, z, Some(v)) && z.clock == s.clock
    ensures z.marks == s.marks + [Attempt(v, s.clock, |s.marks|, Whole), Attempt(v, s.clock, |s.marks|, Whole)]
    ensures z.launched == s.launched + {|s.marks|, |s.marks| + 1}
  {
    var m := LaunchBeside(c, s, v, t1, t2);
    z := ReachLaunch(c, m, v, t2, Whole);
    ReachesOn(c, s, m, z, Some(v));
  }

  /** One uninterrupted automatic apply. */
  lemma LaunchNow(c: Codec, s: State, v: int, t: nat, wrote: Wrote) returns (z: State)
    requires t !in s.applies && MayApply(s, v)
    ensures Reaches(c, s, z, Some(v))
    ensures z.marks == s.marks + [Attempt(v, s.clock, |s.marks|, wrote)] && z.launched == s.launched + {|s.marks|}
    ensures z.clock == s.clock && v in z.disk && z.disk[v] == Written(Starting(At(s.disk, v)), s.clock, wrote)
  {
    var m := ReachMarking(c, s, v, t);
    z := ReachLaunch(c, m, v, t, wrote);
    ReachesOn(c, s, m, z, Some(v));
  }

  lemma SpoilMark(c: Codec, s: State, v: int, t: nat) returns (z: State)
    requires t in s.applies && s.applies[t].v == v && s.applies[t].phase.Prepared?
    requires At(s.disk, v).ready && Staged(At(s.disk, v).files)
    ensures Reaches(c, s, z, Some(v)) && MayApply(z, v)
    ensures z.marks == s.marks + [Attempt(v, s.clock, s.applies[t].seen, Emptied)]
    ensures z.launched == s.launched && z.clock == s.clock && z.applies.Keys == s.applies.Keys
  {
    z := Next(c, s, Mark(t, Emptied));
    ReachesHere(c, z, Some(v));
    ReachesVia(c, s, Mark(t, Emptied), z, Some(v));
  }

  lemma MarkAndSpoil(c: Codec, s: State, v: int, t1: nat, t2: nat, t3: nat) returns (z: State)
    requires t1 != t2 && t2 != t3 && t3 != t1 && t1 !in s.applies && t2 !in s.applies && t3 !in s.applies && MayApply(s, v)
    ensures Reaches(c, s, z, Some(v)) && z.clock == s.clock && t3 !in z.applies && MayApply(z, v)
    ensures z.marks == s.marks + [Attempt(v, s.clock, |s.marks|, Whole), Attempt(v, s.clock, |s.marks|, Emptied)]
    ensures z.launched == s.launched + {|s.marks|}
  {
    var m := LaunchBeside(c, s, v, t1, t2);
    z := SpoilMark(c, m, v, t2);
    ReachesOn(c, s, m, z, Some(v));
    assert t3 !in m.applies.Keys;
  }

  /** A mark that was written, and would be seen by all that look later, is spoilt by one that
      looked before it was made and leaves the file empty: a third task finds nothing there and
      launches the build again at once. */
  lemma {:induction false} EmptiedMarkIsNotSeen(c: Codec, s: State, v: int, t1: nat, t2: nat, t3: nat) returns (z: State)
    requires t1 != t2 && t2 != t3 && t3 != t1 && t1 !in s.applies && t2 !in s.applies && t3 !in s.applies && MayApply(s, v)
    ensures Reaches(c, s, z, Some(v)) && z.clock == s.clock
    ensures var n := |s.marks|;
            && z.marks == s.marks + [Attempt(v, s.clock, n, Whole), Attempt(v, s.clock, n, Emptied), Attempt(v, s.clock, n + 2, Whole)]
            && z.launched == s.launched + {n, n + 2} && Spoils(z.marks, v, n, n + 1)
  {
    var m := MarkAndSpoil(c, s, v, t1, t2, t3);
    z := LaunchNow(c, m, v, t3, Whole);
    ReachesOn(c, s, m, z, Some(v));
  }

  /** And the restart that follows. */
  lemma LaunchAndRestart(c: Codec, s: State, v: int, t: nat, wrote: Wrote, build: int) returns (z: State)
    requires t !in s.applies && MayApply(s, v) && v > build
    ensures Reaches(c, s, z, None)
    ensures z.marks == s.marks + [Attempt(v, s.clock, |s.marks|, wrote)] && z.launched == s.launched + {|s.marks|}
    ensures z.clock == s.clock && z.applies == map[] && At(z.disk, v) == Written(Starting(At(s.disk, v)), s.clock, wrote)
  {
    var m := LaunchNow(c, s, v, t, wrote);
    QuietReaches(c, s, m, v);
    z := Next(c, m, Restart(build, map[]));
    ReachesHere(c, z, None);
    ReachesVia(c, m, Restart(build, map[]), z, None);
    ReachesOn(c, s, m, z, None);
  }

  /** A mark that could not be written holds nothing back: after the restart the same build is
      launched again at the same time, and so on for ever. */
  lemma UnwrittenMarkRepeats(c: Codec, s: State, v: int, t: nat, wrote: Wrote, build: int) returns (z: State)
    requires t !in s.applies && MayApply(s, v) && v > build
    requires !wrote.Whole?
    ensures Reaches(c, s, z, None) && z.applies == map[] && MayApply(z, v) && z.clock == s.clock
    ensures z.marks == s.marks + [Attempt(v, s.clock, |s.marks|, wrote)] && z.launched == s.launched + {|s.marks|}
  {
    z := LaunchAndRestart(c, s, v, t, wrote, build);
  }

  /** A restart keeps a mark exactly for builds above the starting one, or where the removal
      fails to remove it. */
  lemma MarkOutlivesRestart(c: Codec, s: State, v: int, build: int, left: map<int, set<Path>>)
    requires At(s.disk, v).backoff.Some?
    ensures At(Next(c, s, Restart(build, left)).disk, v).backoff == At(s.disk, v).backoff
            <==> v > build || (v in left && BACKOFF in left[v])
  {
  }

  // ------------------------------------------------------------- below the floor

  /** Only the job, and the disk and the history of its build, differ. */
  ghost predicate OnlyStaged(s: State, z: State, v: int) {
    && z.applies == s.applies && z.clock == s.clock && z.marks == s.marks && z.launched == s.launched
    && At(z.disk, v).backoff == At(s.disk, v).backoff
  }

  predicate Unpackable(c: Codec, bytes: Bytes) {
    && c.entries(bytes).Some? && Clean(Parts(c, bytes))
    && forall i | 0 <= i < |Parts(c, bytes)| :: !Destination(Parts(c, bytes)[i].name).Bail?
  }

  lemma UnpackAll(c: Codec, s: State, bytes: Bytes) returns (z: State)
    requires JobOk(c, s) && s.job.Some? && s.job.value.stage.Unpacking? && s.job.value.stage.bytes == bytes && Unpackable(c, bytes)
    ensures Reaches(c, s, z, None) && z.job.None? && OnlyStaged(s, z, s.job.value.rel.version)
    ensures At(z.disk, s.job.value.rel.version).ready
    ensures Holds(At(z.disk, s.job.value.rel.version).files, Contents(Parts(c, bytes)))
    decreases |Parts(c, bytes)| - s.job.value.stage.next
  {
    if s.job.value.stage.next < |Parts(c, bytes)| {
      UnpackingOk(c, s, Unpack);
      z := UnpackAll(c, Next(c, s, Unpack), bytes);
      ReachesVia(c, s, Unpack, z, None);
    } else {
      UnpackingOk(c, s, DropZip(true));
      var s1 := Next(c, s, DropZip(true));
      z := Next(c, s1, Finish);
      ReachesHere(c, z, None);
      ReachesVia(c, s1, Finish, z, None);
      ReachesVia(c, s, DropZip(true), z, None);
    }
  }

  /** With the published bytes at hand, a build that is not ready can be made ready. */
  lemma DownloadSucceeds(c: Codec, s: State, rel: Release, bytes: Bytes) returns (z: State)
    requires s.job.None? && !At(s.disk, rel.version).ready && At(s.disk, rel.version).backoff.None?
    requires Accepts(c, rel, bytes) && Unpackable(c, bytes)
    ensures Reaches(c, s, z, None) && z.job.None? && OnlyStaged(s, z, rel.version)
    ensures At(z.disk, rel.version).ready && Holds(At(z.disk, rel.version).files, Contents(Parts(c, bytes)))
  {
    var s1 := Next(c, s, Begin(rel));
    var s2 := Next(c, s1, Clear({}));
    var s3 := Next(c, s2, Fetch(bytes));
    UnpackingOk(c, s3, SaveZip);
    z := UnpackAll(c, Next(c, s3, SaveZip), bytes);
    ReachesVia(c, s3, SaveZip, z, None);
    ReachesVia(c, s2, Fetch(bytes), z, None);
    ReachesVia(c, s1, Clear({}), z, None);
    ReachesVia(c, s, Begin(rel), z, None);
  }

  /** A release not above the running build is still required while the build is under its
      floor; then every start prunes it with its mark, and from whatever state it starts in,
      the build is downloaded and launched again without the clock moving. */
  lemma BelowFloorReleaseHasNoBackoff(c: Codec, s: State, rel: Release, build: int, bytes: Bytes) returns (z: State)
    requires rel.version <= build < rel.min
    requires Accepts(c, rel, bytes) && Unpackable(c, bytes) && Staged(Contents(Parts(c, bytes)))
    ensures RequiresUpdate(build, rel)
    ensures Reaches(c, s, z, None) && z.clock == s.clock
    ensures z.marks == s.marks + [Attempt(rel.version, s.clock, |s.marks|, Whole)] && z.launched == s.launched + {|s.marks|}
  {
    var v := rel.version;
    var s1 := Next(c, s, Restart(build, map[]));
    var s2 := DownloadSucceeds(c, s1, rel, bytes);
    z := LaunchNow(c, s2, v, 0, Whole);
    QuietReaches(c, s2, z, v);
    ReachesOn(c, s1, s2, z, None);
    ReachesVia(c, s, Restart(build, map[]), z, None);
  }

  // ------------------------------------------------------------- the operations

  /** What the world does to one download attempt: what the first removal leaves, whether the
      directory can be made, the body received, whether the archive can be saved, how many
      entries can be written, whether the archive goes away, whether the marker is written, and
      what the removal after a failure leaves. */
  datatype Luck = Luck(left: set<Path>, made: bool, body: Option<Bytes>, saved: bool, room: nat, dropped: bool,
                       marked: bool, after: set<Path>)

  class Staging {
    const codec: Codec
    var disk: Disk

    constructor (codec: Codec)
      ensures this.codec == codec && disk == map[]
    {
      this.codec, disk := codec, map[];
    }

    /** Everything but build `v` is as it was. */
    twostate predicate OnlyBuild(v: int)
      reads this
    {
      forall w | w != v :: At(disk, w) == At(old(disk), w)
    }

    method ExtractZip(v: int, es: seq<Entry>, room: nat) returns (ok: bool, n: nat)
      requires v in disk
      modifies this
      ensures n <= |es| && disk == old(disk)[v := old(disk[v]).(files := old(disk[v]).files + Contents(es[..n]))]
      ensures ok <==> n == |es|
      ensures !ok ==> Destination(es[n].name).Bail? || n >= room
    {
      ok, n := true, 0;
      ghost var was := disk;
      var files := disk[v].files;
      assert es[..0] == [] && files + map[] == files;
      while n < |es|
        invariant n <= |es| && ok
        invariant files == was[v].files + Contents(es[..n])
        invariant disk == was[v := was[v].(files := files)]
      {
        var d := Destination(es[n].name);
        ContentsSnoc(was[v].files, es, n);
        if d.Bail? || (d.Put? && n >= room) {
          ok := false;
          return;
        }
        if d.Put? {
          FilesAgain(was, v, files, files[d.path := es[n].data]);
          files := files[d.path := es[n].data];
          disk := disk[v := disk[v].(files := files)];
        }
        n := n + 1;
      }
      assert es[..|es|] == es;
    }

    /** Saves the archive, unpacks it, drops it and marks the build ready. */
    method Stage(v: int, bytes: Bytes, luck: Luck) returns (ok: bool)
      requires v in disk && !disk[v].ready
      modifies this
      ensures OnlyBuild(v) && v in disk && disk[v].ready == ok
      ensures ok && Clean(Parts(codec, bytes)) ==> Holds(disk[v].files, Contents(Parts(codec, bytes)))
      ensures ok && luck.dropped ==> disk[v].files == (old(disk[v]).files[ZIP := bytes] + Contents(Parts(codec, bytes))) - {ZIP}
    {
      if !luck.saved {
        return false;
      }
      disk := disk[v := disk[v].(files := disk[v].files[ZIP := bytes])];
      if codec.entries(bytes).None? {
        return false;
      }
      var es := Parts(codec, bytes);
      var n;
      ok, n := ExtractZip(v, es, luck.room);
      if !ok {
        return;
      }
      assert es[..|es|] == es;
      if luck.dropped {
        disk := disk[v := disk[v].(files := disk[v].files - {ZIP})];
      }
      if !luck.marked {
        return false;
      }
      disk := disk[v := disk[v].(ready := true)];
      if Clean(es) {
        CleanContents(es);
      }
    }

    method DownloadOnce(rel: Release, luck: Luck) returns (ok: bool)
      requires !At(disk, rel.version).ready
      modifies this
      ensures OnlyBuild(rel.version) && At(disk, rel.version).ready == ok
      ensures ok ==> luck.body.Some? && Accepts(codec, rel, luck.body.value)
      ensures ok && Clean(Parts(codec, luck.body.value))
              ==> Holds(At(disk, rel.version).files, Contents(Parts(codec, luck.body.value)))
      ensures ok && luck.left == {} && luck.dropped
              ==> At(disk, rel.version).files == (map[ZIP := luck.body.value] + Contents(Parts(codec, luck.body.value))) - {ZIP}
    {
      var v := rel.version;
      if !HasHash(rel) {
        return false;
      }
      disk := Removed(disk, v, luck.left);
      if !luck.made {
        return false;
      }
      disk := disk[v := At(disk, v)];
      if luck.body.None? || !Accepts(codec, rel, luck.body.value) {
        return false;
      }
      ok := Stage(v, luck.body.value, luck);
    }

    /** Three attempts. A build already ready is taken as it is, whatever this release's hash;
        otherwise success means that one of the bodies received has the published hash. */
    method Download(rel: Release, lucks: seq<Luck>) returns (ok: bool)
      requires |lucks| == 3
      modifies this
      ensures OnlyBuild(rel.version) && At(disk, rel.version).ready == ok
      ensures old(At(disk, rel.version)).ready ==> disk == old(disk)
      ensures ok && !old(At(disk, rel.version)).ready ==>
                exists k | 0 <= k < 3 ::
                  && lucks[k].body.Some? && Accepts(codec, rel, lucks[k].body.value)
                  && (Clean(Parts(codec, lucks[k].body.value))
                      ==> Holds(At(disk, rel.version).files, Contents(Parts(codec, lucks[k].body.value))))
    {
      if At(disk, rel.version).ready {
        return true;
      }
      ok := false;
      for attempt := 0 to 3
        invariant OnlyBuild(rel.version) && !At(disk, rel.version).ready
      {
        ok := DownloadOnce(rel, lucks[attempt]);
        if ok {
          return;
        }
        disk := Removed(disk, rel.version, lucks[attempt].after);
      }
      ok := false;
    }

    /** The greatest ready build above the running one (and build 0 if the running one is
        below it). */
    method StagedVersion(listing: seq<int>, agentBuild: int) returns (r: Option<int>)
      requires forall v :: v in listing <==> v in disk
      ensures r.Some? ==> r.value > agentBuild && (r.value == 0 || At(disk, r.value).ready)
      ensures forall v | v > agentBuild && v > 0 && At(disk, v).ready :: r.Some? && v <= r.value
    {
      var best := 0;
      for i := 0 to |listing|
        invariant best == 0 || (best > 0 && At(disk, best).ready)
        invariant forall j | 0 <= j < i && At(disk, listing[j]).ready :: listing[j] <= best
      {
        if At(disk, listing[i]).ready && listing[i] > best {
          best := listing[i];
        }
      }
      r := if best > agentBuild then Some(best) else None;
      forall v | v > agentBuild && v > 0 && At(disk, v).ready ensures r.Some? && v <= r.value {
        assert v in listing;
      }
    }

    /** `left` is what survives of the builds whose removal fails. */
    method Prune(listing: seq<int>, agentBuild: int, left: map<int, set<Path>>)
      requires forall v :: v in listing <==> v in disk
      requires forall i, j | 0 <= i < j < |listing| :: listing[i] != listing[j]
      modifies this
      ensures disk == Pruned(old(disk), agentBuild, left)
    {
      ghost var was := disk;
      ghost var done: set<int> := {};
      for i := 0 to |listing|
        invariant forall k | 0 <= k < |listing| :: listing[k] in done <==> k < i
        invariant forall v :: v in disk <==> v in was && (v !in done || v > agentBuild || v in left)
        invariant forall v | v in disk :: disk[v] == if v in done && v <= agentBuild then Remnant(was[v], left[v]) else was[v]
      {
        var v := listing[i];
        if v <= agentBuild {
          disk := if v in left then disk[v := Remnant(disk[v], left[v])] else disk - {v};
        }
        done := done + {v};
      }
    }

    /** An automatic apply with nothing else running: it launches exactly when updates apply
        here, no recent mark stands and the program is staged; before that it tries to leave
        its mark, and does not notice if it cannot. */
    method AutoApply(v: int, skipped: bool, browser: bool, now: int, wrote: Wrote) returns (launched: bool)
      requires v in disk
      modifies this
      ensures OnlyBuild(v) && v in disk
      ensures launched <==> !skipped && !Blocked(old(disk[v]), now)
                            && (if browser then BROWSER in old(disk[v]).files else PRIMARY in old(disk[v]).files || LEGACY in old(disk[v]).files)
      ensures disk[v].ready == old(disk[v]).ready
      ensures launched ==> disk[v].backoff == Written(old(disk[v]), now, wrote).backoff
      ensures !launched ==> disk[v].backoff == old(disk[v]).backoff
      ensures disk[v].files == if launched && !browser then WithLegacyCopy(old(disk[v]).files) else old(disk[v]).files
    {
      if skipped || Blocked(disk[v], now) {
        return false;
      }
      if !browser {
        disk := disk[v := disk[v].(files := WithLegacyCopy(disk[v].files))];
      }
      if (if browser then BROWSER else PRIMARY) !in disk[v].files {
        return false;
      }
      disk := disk[v := Written(disk[v], now, wrote)];
      launched := true;
    }
  }
}
