/** The browser engine's download waiter: one slot, one timer per waiter, superseding,
    timing out, saving and shutting down in any order. */
module Downloads {
  import opened Common

  datatype Verdict = Superseded | TimedOut | SavedFile | SaveFailed | ShutDown

  datatype Settled = Settled(waiter: nat, verdict: Verdict)

  /** `slot` is `downloadWaiter`; `timers` are the pending timeouts; `saving` the waiters a
      download was handed to; `settled` every resolve or reject so far. Waiters are numbered
      as they come. */
  datatype State = State(slot: Option<nat>, timers: set<nat>, saving: set<nat>, settled: seq<Settled>, next: nat)

  datatype Step = Wait | Timer(w: nat) | Download | SaveResult(w: nat, ok: bool) | Shutdown

  predicate Enabled(s: State, e: Step) {
    match e
    case Timer(w) => w in s.timers
    case SaveResult(w, _) => w in s.saving
    case _ => true
  }

  function Next(s: State, e: Step): State {
    match e
    case Wait =>
      var t := if s.slot.Some? then s.(timers := s.timers - {s.slot.value}, settled := s.settled + [Settled(s.slot.value, Superseded)]) else s;
      t.(slot := Some(t.next), timers := t.timers + {t.next}, next := t.next + 1)
    case Timer(w) => s.(slot := None, timers := s.timers - {w}, settled := s.settled + [Settled(w, TimedOut)])
    case Download =>
      if s.slot.None? then s
      else s.(slot := None, timers := s.timers - {s.slot.value}, saving := s.saving + {s.slot.value})
    case SaveResult(w, ok) => s.(saving := s.saving - {w}, settled := s.settled + [Settled(w, if ok then SavedFile else SaveFailed)])
    case Shutdown =>
      if s.slot.None? then s
      else s.(slot := None, timers := s.timers - {s.slot.value}, settled := s.settled + [Settled(s.slot.value, ShutDown)])
  }

  const START: State := State(None, {}, {}, [], 0)

  function Times(log: seq<Settled>, w: nat): nat {
    if log == [] then 0 else Times(log[..|log| - 1], w) + if log[|log| - 1].waiter == w then 1 else 0
  }

  function Bit(b: bool): nat {
    if b then 1 else 0
  }

  /** Only the slot's waiter has a live timer; every waiter is the slot, being saved, or
      settled once, and only one of these. */
  ghost predicate Inv(s: State) {
    && s.timers == (if s.slot.Some? then {s.slot.value} else {})
    && forall w: nat :: Bit(s.slot == Some(w)) + Bit(w in s.saving) + Times(s.settled, w) == Bit(w < s.next)
  }

  lemma LogTimes(log: seq<Settled>, x: Settled, w: nat)
    ensures Times(log + [x], w) == Times(log, w) + Bit(x.waiter == w)
  {
    assert (log + [x])[..|log|] == log;
  }

  lemma StepKeepsInv(s: State, e: Step)
    requires Inv(s) && Enabled(s, e)
    ensures Inv(Next(s, e))
  {
    var t := Next(s, e);
    assert s.slot.Some? ==> s.slot.value < s.next by {
      if s.slot.Some? {
        assert Bit(s.slot == Some(s.slot.value)) == 1;
      }
    }
    forall w: nat
      ensures Bit(t.slot == Some(w)) + Bit(w in t.saving) + Times(t.settled, w) == Bit(w < t.next)
    {
      assert Bit(s.slot == Some(w)) + Bit(w in s.saving) + Times(s.settled, w) == Bit(w < s.next);
      if |t.settled| > |s.settled| {
        LogTimes(s.settled, t.settled[|s.settled|], w);
        assert t.settled == s.settled + [t.settled[|s.settled|]];
      }
    }
  }

  function Run(s: State, es: seq<Step>): State {
    if es == [] then s else Next(Run(s, es[..|es| - 1]), es[|es| - 1])
  }

  ghost predicate IsRun(s: State, es: seq<Step>) {
    forall i | 0 <= i < |es| :: Enabled(Run(s, es[..i]), es[i])
  }

  lemma {:induction false} RunKeepsInv(es: seq<Step>, i: nat)
    requires IsRun(START, es) && i <= |es|
    ensures Inv(Run(START, es[..i]))
  {
    if i > 0 {
      RunKeepsInv(es, i - 1);
      assert es[..i][..i - 1] == es[..i - 1];
      StepKeepsInv(Run(START, es[..i - 1]), es[i - 1]);
    }
  }

  /** In every run: no waiter settles twice, a waiter that is neither waiting nor being
      saved has settled, and a timer that fires is the timer of the waiter in the slot, so
      none clears a newer waiter. */
  lemma WaitersSettleOnce(es: seq<Step>, i: nat, w: nat)
    requires IsRun(START, es) && i <= |es|
    ensures var s := Run(START, es[..i]);
            && Times(s.settled, w) <= 1
            && (w < s.next ==> (Times(s.settled, w) == 1 <==> s.slot != Some(w) && w !in s.saving))
            && (i < |es| && es[i] == Timer(w) ==> s.slot == Some(w))
  {
    RunKeepsInv(es, i);
    var s := Run(START, es[..i]);
    assert Bit(s.slot == Some(w)) + Bit(w in s.saving) + Times(s.settled, w) == Bit(w < s.next);
  }

  /** After a shutdown every waiter is settled except those whose download is being saved. */
  lemma ShutdownLeavesNoWaiter(es: seq<Step>, w: nat)
    requires IsRun(START, es) && es != [] && es[|es| - 1] == Shutdown
    ensures var s := Run(START, es);
            s.timers == {} && (w < s.next && w !in s.saving ==> Times(s.settled, w) == 1)
  {
    RunKeepsInv(es, |es|);
    assert es[..|es|] == es;
    var s := Run(START, es);
    assert Bit(s.slot == Some(w)) + Bit(w in s.saving) + Times(s.settled, w) == Bit(w < s.next);
  }

  class Waiters {
    var slot: Option<nat>
    var timers: set<nat>
    var saving: set<nat>
    var settled: seq<Settled>
    var next: nat

    constructor ()
      ensures S() == START
    {
      slot, timers, saving, settled, next := None, {}, {}, [], 0;
    }

    ghost function S(): State
      reads this
    {
      State(slot, timers, saving, settled, next)
    }

    method DownloadWait() returns (w: nat)
      modifies this
      ensures S() == Next(old(S()), Wait) && slot == Some(w)
    {
      if slot.Some? {
        timers := timers - {slot.value};
        settled := settled + [Settled(slot.value, Superseded)];
      }
      w := next;
      slot, timers, next := Some(w), timers + {w}, next + 1;
    }

    method TimerFires(w: nat)
      requires w in timers
      modifies this
      ensures S() == Next(old(S()), Timer(w))
    {
      slot, timers := None, timers - {w};
      settled := settled + [Settled(w, TimedOut)];
    }

    method OnDownload() returns (taken: Option<nat>)
      modifies this
      ensures S() == Next(old(S()), Download) && taken == old(slot)
    {
      taken := slot;
      if slot.None? {
        return;
      }
      timers, saving, slot := timers - {slot.value}, saving + {slot.value}, None;
    }

    method Saved(w: nat, ok: bool)
      requires w in saving
      modifies this
      ensures S() == Next(old(S()), SaveResult(w, ok))
    {
      saving := saving - {w};
      settled := settled + [Settled(w, if ok then SavedFile else SaveFailed)];
    }

    method OnShutdown()
      modifies this
      ensures S() == Next(old(S()), Shutdown)
    {
      if slot.Some? {
        timers := timers - {slot.value};
        settled := settled + [Settled(slot.value, ShutDown)];
        slot := None;
      }
    }
  }
}
