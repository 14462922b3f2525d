/** How a dispatched task run ends: play, heal, explore, and the one terminal report. */
module TaskReport {
  import opened Common

  /** The fields of a skill the decisions read or change. */
  datatype Skill = Skill(
    id: int, healMode: string, fromCatalog: bool, autoRun: bool, consecutiveOk: int,
    patchCount: int, patchEpoch: int, lastPatchedMs: int)

  datatype Action =
    | Played(ok: bool)              // a replay of the tape, to its end or to a failure
    | Explored(ok: bool)            // the exploration's command
    | Saved(skill: Skill)           // a skill sent to the server, which may refuse it
    | Stored(skill: Skill)          // a skill put into the agent's own store
    | CatalogReport(ok: bool)
    | Done(ok: bool)                // the terminal report of the run

  /** Everything the run meets: what is found, and how each attempt turns out. `plays` holds
      the outcomes of the replays in the order they are tried; `accepted` says whether the
      server takes an explored skill. */
  datatype World = World(local: Option<Skill>, listed: bool, installed: Option<Skill>, plays: seq<bool>, explored: bool,
                         accepted: bool, nowMs: int)

  const MAX_PATCHES_PER_DAY: int := 3
  const MAX_TRIES: nat := 3
  const DAY_SECS: int := 86400

  function PlayOk(w: World, k: nat): bool {
    k < |w.plays| && w.plays[k]
  }

  /** The skill an exploration builds. Of an existing one it takes over the id and the epoch,
      but neither the patch count nor the time of the last patch. */
  function ExploredSkill(existing: Option<Skill>): Skill {
    match existing
    case None => Skill(0, "", false, true, 1, 0, 0, 0)
    case Some(s) => Skill(s.id, "", false, true, 1, 0, s.patchEpoch + 1, 0)
  }

  /** `explore`: one attempt, one report. */
  function Explore(w: World, existing: Option<Skill>): seq<Action> {
    var skill := ExploredSkill(existing);
    if !w.explored then [Explored(false), Done(false)]
    else if w.accepted then [Explored(true), Saved(skill), Stored(skill), Done(true)]
    else [Explored(true), Saved(skill), Done(true)]
  }

  function Mode(s: string): string {
    Lower(Trim(s))
  }

  /** Integer division as Rust does it: toward zero. */
  function Quot(a: int, b: nat): int
    requires b > 0
  {
    if a >= 0 then a / b else -(-a / b)
  }

  function EffectivePatches(s: Skill, nowMs: int): int {
    var since := if s.lastPatchedMs > 0 then Quot(nowMs - s.lastPatchedMs, 1000) else DAY_SECS + 1;
    if since > DAY_SECS then 0 else s.patchCount
  }

  predicate BreakerTripped(s: Skill, nowMs: int) {
    EffectivePatches(s, nowMs) >= MAX_PATCHES_PER_DAY
  }

  /** `heal_retry_only` from its `t`-th try on; `k` replays were made before. */
  function Retry(w: World, k: nat, t: nat): seq<Action>
    decreases MAX_TRIES - t
  {
    if t >= MAX_TRIES then [Done(false)]
    else if PlayOk(w, k) then [Played(true), Done(true)]
    else [Played(false)] + Retry(w, k + 1, t + 1)
  }

  method HealRetryOnly(w: World, k: nat) returns (trace: seq<Action>)
    ensures trace == Retry(w, k, 0)
  {
    trace := [];
    var t := 0;
    while t < MAX_TRIES
      invariant t <= MAX_TRIES
      invariant trace + Retry(w, k + t, t) == Retry(w, k, 0)
    {
      var ok := PlayOk(w, k + t);
      if ok {
        return trace + [Played(true), Done(true)];
      }
      Regroup(trace, [Played(false)], Retry(w, k + t + 1, t + 1));
      trace, t := trace + [Played(false)], t + 1;
    }
    trace := trace + [Done(false)];
  }

  lemma Regroup(a: seq<Action>, b: seq<Action>, c: seq<Action>)
    ensures a + (b + c) == (a + b) + c
  {
  }

  /** What a repair is meant to record: one more patch, now. */
  function Patched(s: Skill, nowMs: int): Skill {
    s.(patchCount := EffectivePatches(s, nowMs) + 1, patchEpoch := s.patchEpoch + 1, lastPatchedMs := nowMs, consecutiveOk := 0)
  }

  /** `heal`, after `k` replays of which the last failed. */
  function Heal(w: World, s: Skill, k: nat): seq<Action> {
    if Mode(s.healMode) == "off" then [Done(false)]
    else if Mode(s.healMode) == "retry" then Retry(w, k, 0)
    else if BreakerTripped(s, w.nowMs) then [Saved(s.(autoRun := false)), Stored(s.(autoRun := false)), Done(false)]
    else Explore(w, Some(Patched(s, w.nowMs)))
  }

  function BumpOk(s: Skill): Skill {
    s.(consecutiveOk := s.consecutiveOk + 1, patchCount := 0)
  }

  /** `dispatch`. */
  function Dispatch(w: World): seq<Action> {
    match w.local
    case Some(s) =>
      (if PlayOk(w, 0)
       then [Played(true), Saved(BumpOk(s))] + (if s.fromCatalog then [CatalogReport(true)] else []) + [Done(true)]
       else [Played(false)] + (if s.fromCatalog then [CatalogReport(false)] else []) + Heal(w, s, 1))
    case None =>
      if !w.listed then Explore(w, None)
      else
        match w.installed
        case None => Explore(w, None)
        case Some(s) =>
          if PlayOk(w, 0) then [Stored(s), Played(true), Saved(BumpOk(s)), Done(true)]
          else [Stored(s), Played(false)] + Explore(w, None)
  }

  function Reports(trace: seq<Action>): seq<bool> {
    if trace == [] then [] else (if trace[0].Done? then [trace[0].ok] else []) + Reports(trace[1..])
  }

  function Attempts(trace: seq<Action>): seq<bool> {
    if trace == [] then []
    else (if trace[0].Played? || trace[0].Explored? then [trace[0].ok] else []) + Attempts(trace[1..])
  }

  /** What a trace that follows attempts ending with `last` must look like: no more than one
      report, at the very end, and true to the last attempt made. */
  ghost predicate EndsTruly(trace: seq<Action>, before: seq<bool>) {
    && trace != [] && trace[|trace| - 1].Done? && |Reports(trace)| == 1
    && |before + Attempts(trace)| > 0
    && Reports(trace) == [(before + Attempts(trace))[|before + Attempts(trace)| - 1]]
  }

  lemma DoneEnds(ok: bool, before: seq<bool>)
    requires before != [] && before[|before| - 1] == ok
    ensures EndsTruly([Done(ok)], before)
  {
    assert [Done(ok)][1..] == [] && before + [] == before;
  }

  lemma AttemptFirst(a: Action, tail: seq<Action>, before: seq<bool>)
    requires (a.Played? || a.Explored?) && EndsTruly(tail, before + [a.ok])
    ensures EndsTruly([a] + tail, before)
  {
    assert ([a] + tail)[1..] == tail;
    assert before + ([a.ok] + Attempts(tail)) == before + [a.ok] + Attempts(tail);
  }

  lemma NoteFirst(a: Action, tail: seq<Action>, before: seq<bool>)
    requires (a.Saved? || a.Stored? || a.CatalogReport?) && EndsTruly(tail, before)
    ensures EndsTruly([a] + tail, before)
  {
    assert ([a] + tail)[1..] == tail;
  }

  lemma {:induction false} RetryEndsTruly(w: World, k: nat, t: nat, before: seq<bool>)
    requires before != [] && !before[|before| - 1]
    ensures EndsTruly(Retry(w, k, t), before)
    decreases MAX_TRIES - t
  {
    if t >= MAX_TRIES {
      DoneEnds(false, before);
    } else if PlayOk(w, k) {
      DoneEnds(true, before + [true]);
      AttemptFirst(Played(true), [Done(true)], before);
    } else {
      RetryEndsTruly(w, k + 1, t + 1, before + [false]);
      AttemptFirst(Played(false), Retry(w, k + 1, t + 1), before);
    }
  }

  lemma ExploreEndsTruly(w: World, existing: Option<Skill>, before: seq<bool>)
    ensures EndsTruly(Explore(w, existing), before)
  {
    var skill := ExploredSkill(existing);
    var done := [Done(w.explored)];
    var seen := before + [w.explored];
    DoneEnds(w.explored, seen);
    if !w.explored {
      AttemptFirst(Explored(false), done, before);
    } else {
      NoteFirst(Stored(skill), done, seen);
      var tail := if w.accepted then [Stored(skill)] + done else done;
      NoteFirst(Saved(skill), tail, seen);
      AttemptFirst(Explored(true), [Saved(skill)] + tail, before);
      assert [Explored(true)] + ([Saved(skill)] + tail) == Explore(w, existing);
    }
  }

  lemma HealEndsTruly(w: World, s: Skill, k: nat)
    ensures EndsTruly(Heal(w, s, k), [false])
  {
    var paused := s.(autoRun := false);
    DoneEnds(false, [false]);
    RetryEndsTruly(w, k, 0, [false]);
    NoteFirst(Stored(paused), [Done(false)], [false]);
    NoteFirst(Saved(paused), [Stored(paused)] + [Done(false)], [false]);
    assert [Saved(paused)] + ([Stored(paused)] + [Done(false)]) == [Saved(paused), Stored(paused), Done(false)];
    ExploreEndsTruly(w, Some(Patched(s, w.nowMs)), [false]);
  }

  /** A replay that succeeded, whatever is saved or noted before the report. */
  lemma SuccessEndsTruly(s: Skill, fromCatalog: bool)
    ensures EndsTruly([Played(true), Saved(s)] + (if fromCatalog then [CatalogReport(true)] else []) + [Done(true)], [])
  {
    DoneEnds(true, [true]);
    NoteFirst(CatalogReport(true), [Done(true)], [true]);
    var rest := (if fromCatalog then [CatalogReport(true)] else []) + [Done(true)];
    assert !fromCatalog ==> rest == [Done(true)];
    NoteFirst(Saved(s), rest, [true]);
    assert [] + [true] == [true];
    AttemptFirst(Played(true), [Saved(s)] + rest, []);
    assert [Played(true)] + ([Saved(s)] + rest) == [Played(true), Saved(s)] + (if fromCatalog then [CatalogReport(true)] else []) + [Done(true)];
  }

  /** A replay that failed, and what came after it. */
  lemma FailureEndsTruly(note: bool, tail: seq<Action>)
    requires EndsTruly(tail, [false])
    ensures EndsTruly([Played(false)] + (if note then [CatalogReport(false)] else []) + tail, [])
  {
    NoteFirst(CatalogReport(false), tail, [false]);
    var rest := (if note then [CatalogReport(false)] else []) + tail;
    assert !note ==> rest == tail;
    assert [] + [false] == [false];
    AttemptFirst(Played(false), rest, []);
    assert [Played(false)] + rest == [Played(false)] + (if note then [CatalogReport(false)] else []) + tail;
  }

  /** Whatever the store, the catalog, the install, the replays, the heal mode, the breaker
      and the exploration do, a dispatched run reports done exactly once, as its last act,
      and reports success exactly when the last attempt made succeeded. */
  lemma ExactlyOneReport(w: World)
    ensures EndsTruly(Dispatch(w), [])
  {
    match w.local
    case Some(s) =>
      SuccessEndsTruly(BumpOk(s), s.fromCatalog);
      HealEndsTruly(w, s, 1);
      FailureEndsTruly(s.fromCatalog, Heal(w, s, 1));
    case None =>
      ExploreEndsTruly(w, None, []);
      if w.listed && w.installed.Some? {
        InstalledEndsTruly(w, w.installed.value);
      }
  }

  lemma InstalledEndsTruly(w: World, s: Skill)
    requires w.local.None? && w.listed && w.installed == Some(s)
    ensures EndsTruly(Dispatch(w), [])
  {
    ExploreEndsTruly(w, None, [false]);
    FailureEndsTruly(false, Explore(w, None));
    SuccessEndsTruly(BumpOk(s), false);
    var rest := if PlayOk(w, 0) then [Played(true), Saved(BumpOk(s))] + [] + [Done(true)] else [Played(false)] + [] + Explore(w, None);
    NoteFirst(Stored(s), rest, []);
    assert [Stored(s)] + rest == Dispatch(w);
  }

  // ------------------------------------------------------------- the breaker

  /** Within a day of the last patch, three patches trip the breaker; a day later it is open
      again. */
  lemma BreakerTripsExactly(s: Skill, nowMs: int)
    ensures BreakerTripped(s, nowMs) <==>
            s.patchCount >= MAX_PATCHES_PER_DAY && s.lastPatchedMs > 0 && nowMs < s.lastPatchedMs + (DAY_SECS + 1) * 1000
  {
    var d := nowMs - s.lastPatchedMs;
    if d >= 0 {
      assert d == 1000 * (d / 1000) + d % 1000;
    }
  }

  predicate Keeps(a: Action, x: Skill) {
    a == Saved(x) || a == Stored(x)
  }

  predicate BelowLimit(s: Option<Skill>) {
    s.Some? ==> s.value.patchCount < MAX_PATCHES_PER_DAY
  }

  /** The repair's own record of the patch is lost: whatever an exploration saves or stores has
      patch count 0 and no time of a last patch, even when it repairs a patched skill. */
  lemma RepairForgetsThePatch(w: World, s: Skill, x: Skill, i: nat)
    requires var trace := Explore(w, Some(Patched(s, w.nowMs))); i < |trace| && Keeps(trace[i], x)
    ensures x.patchCount == 0 && x.lastPatchedMs == 0 && x.id == s.id && x.patchEpoch == s.patchEpoch + 2
  {
  }

  /** Of what a run finds, only a skill that already has three patches keeps any: every other
      skill the run saves or stores is below the limit, and the breaker stays shut. */
  lemma RunStaysBelowLimit(w: World, x: Skill, i: nat)
    requires BelowLimit(w.local) && BelowLimit(w.installed)
    requires i < |Dispatch(w)| && Keeps(Dispatch(w)[i], x)
    ensures x.patchCount < MAX_PATCHES_PER_DAY
    ensures w.local.Some? ==> !BreakerTripped(w.local.value, w.nowMs)
  {
    var a := Dispatch(w)[i];
    assert a in Dispatch(w);
    if w.local.Some? {
      var s := w.local.value;
      if !PlayOk(w, 0) {
        assert a in Heal(w, s, 1);
        HealStaysBelowLimit(w, s, 1, a, x);
      }
    } else if !(w.listed && w.installed.Some?) || !PlayOk(w, 0) {
      assert a in Explore(w, None) || a == Stored(w.installed.value);
    }
  }

  lemma HealStaysBelowLimit(w: World, s: Skill, k: nat, a: Action, x: Skill)
    requires s.patchCount < MAX_PATCHES_PER_DAY && a in Heal(w, s, k) && Keeps(a, x)
    ensures x.patchCount < MAX_PATCHES_PER_DAY
  {
    if Mode(s.healMode) == "retry" {
      RetryKeepsNothing(w, k, 0, a);
    }
  }

  lemma {:induction false} RetryKeepsNothing(w: World, k: nat, t: nat, a: Action)
    requires a in Retry(w, k, t)
    ensures !a.Saved? && !a.Stored?
    decreases MAX_TRIES - t
  {
    if t < MAX_TRIES && !PlayOk(w, k) && a != Played(false) {
      RetryKeepsNothing(w, k + 1, t + 1, a);
    }
  }

  /** A series of runs: each finds the skill of the run before, one which that run saved or
      stored, none, or one from elsewhere; `foreign` says of which runs the last. */
  ghost predicate Series(ws: seq<World>, foreign: set<nat>) {
    forall i | 0 <= i < |ws| :: i == 0 || i in foreign || ComesFrom(ws[i - 1], ws[i].local)
  }

  ghost predicate ComesFrom(w: World, found: Option<Skill>) {
    found.Some? ==> found == w.local || exists k :: 0 <= k < |Dispatch(w)| && Keeps(Dispatch(w)[k], found.value)
  }

  /** The agent's own repairs never trip its breaker, however many there are and however close
      together: a series of runs meets it only if a skill that had three patches came from
      elsewhere. */
  lemma {:induction false} OwnRepairsNeverTrip(ws: seq<World>, foreign: set<nat>, i: nat)
    requires Series(ws, foreign) && i < |ws|
    requires forall k | 0 <= k <= i :: BelowLimit(ws[k].installed) && (k == 0 || k in foreign ==> BelowLimit(ws[k].local))
    ensures BelowLimit(ws[i].local)
    ensures ws[i].local.Some? ==> !BreakerTripped(ws[i].local.value, ws[i].nowMs)
  {
    if i > 0 && i !in foreign && ws[i].local.Some? {
      OwnRepairsNeverTrip(ws, foreign, i - 1);
      assert ComesFrom(ws[i - 1], ws[i].local);
      if ws[i].local != ws[i - 1].local {
        var k :| 0 <= k < |Dispatch(ws[i - 1])| && Keeps(Dispatch(ws[i - 1])[k], ws[i].local.value);
        RunStaysBelowLimit(ws[i - 1], ws[i].local.value, k);
      }
    }
  }

  // ------------------------------------------------------------- the browser agent's handler

  /** The fields a prompt that is JSON may have. */
  datatype Body = Body(slotId: Option<string>, steps: Option<seq<string>>, tabId: Option<string>)

  datatype Params = Params(slotId: string, steps: seq<string>, tabId: Option<string>)

  /** The request `handle_act` makes of a prompt; text that is no JSON is an address. */
  function ParamsOf(prompt: string, parsed: Option<Body>, navigate: string -> string): Params {
    var body := if parsed.Some? then parsed.value else Body(Some("default"), Some([navigate(Trim(prompt))]), None);
    Params(if body.slotId.Some? then body.slotId.value else "default", if body.steps.Some? then body.steps.value else [], body.tabId)
  }

  /** A terminal report: status 4 is done, 5 is failed. */
  datatype Report = Report(runId: int, status: int, summary: string, error: string, delivered: bool)

  datatype Run = Completed(text: string) | Broke(error: string)

  class BrowserTasks {
    /** The reports handed to the network, in order. */
    var reports: seq<Report>

    constructor ()
      ensures reports == []
    {
      reports := [];
    }

    /** `task_done`: whether the post goes through or not, the answer is success. */
    method TaskDone(runId: int, ok: bool, detail: string, sent: bool) returns (failed: bool)
      modifies this
      ensures !failed
      ensures reports == old(reports) + [Report(runId, if ok then 4 else 5, if ok then detail else "", if ok then "" else detail, sent)]
    {
      reports := reports + [Report(runId, if ok then 4 else 5, if ok then detail else "", if ok then "" else detail, sent)];
      failed := false;
    }

    /** `handle_act`; `run` is what the engine makes of the request. */
    method HandleAct(runId: int, prompt: string, parsed: Option<Body>, navigate: string -> string, run: Params -> Run, sent: bool)
      returns (error: Option<string>)
      modifies this
      ensures var r := run(ParamsOf(prompt, parsed, navigate));
              && error == (if r.Broke? then Some(r.error) else None)
              && reports == if r.Broke? then old(reports) else old(reports) + [Report(runId, 4, r.text, "", sent)]
    {
      var slot, steps, tab := "default", [], None;
      if parsed.None? {
        steps := [navigate(Trim(prompt))];
      } else {
        if parsed.value.slotId.Some? {
          slot := parsed.value.slotId.value;
        }
        if parsed.value.steps.Some? {
          steps := parsed.value.steps.value;
        }
        tab := parsed.value.tabId;
      }
      var result := run(Params(slot, steps, tab));
      if result.Broke? {
        return Some(result.error);
      }
      var failed := TaskDone(runId, true, result.text, sent);
      return if failed then Some("report") else None;
    }

    /** The registered handler: exactly one report for the run, true to how the engine's run
        ended, even if it cannot be delivered. */
    method Handle(runId: int, prompt: string, parsed: Option<Body>, navigate: string -> string, run: Params -> Run,
                  sent: bool, sentAgain: bool)
      modifies this
      ensures var r := run(ParamsOf(prompt, parsed, navigate));
              reports == old(reports) + [if r.Broke? then Report(runId, 5, "", r.error, sentAgain) else Report(runId, 4, r.text, "", sent)]
    {
      var error := HandleAct(runId, prompt, parsed, navigate, run, sent);
      if error.Some? {
        var _ := TaskDone(runId, false, error.value, sentAgain);
      }
    }
  }
}
