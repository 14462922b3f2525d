/** The browser engine's tab table under interleaved requests. A request runs from one
    `await` to the next without interruption; those stretches are the steps here. */
module Tabs {
  import opened Common

  /** `pages` lists the keys of the tab map in insertion order; tab n is `tab_n`. */
  datatype Table = Table(pages: seq<nat>, active: Option<nat>, tabSeq: nat, context: bool)

  const EMPTY: Table := Table([], None, 0, false)

  // ------------------------------------------------------------- the stretches

  function Register(t: Table): Table {
    t.(tabSeq := t.tabSeq + 1, pages := t.pages + [t.tabSeq + 1])
  }

  function ActivateLast(t: Table): Table {
    t.(active := if t.pages == [] then None else Some(t.pages[|t.pages| - 1]))
  }

  /** A new tab that becomes the active one: the end of `tabNew`, and of a launch that found
      no page. */
  function OpenTab(t: Table): Table {
    var u := Register(t);
    u.(active := Some(u.tabSeq))
  }

  function Activate(t: Table, id: nat): Table {
    if id in t.pages then t.(active := Some(id)) else t
  }

  function Without(pages: seq<nat>, id: nat): seq<nat> {
    if pages == [] then [] else if pages[0] == id then pages[1..] else [pages[0]] + Without(pages[1..], id)
  }

  /** `tabClose`: the last tab is sent home instead of being closed. */
  function CloseTab(t: Table, id: nat): Table {
    if id !in t.pages || |t.pages| <= 1 then t
    else
      var rest := Without(t.pages, id);
      t.(pages := rest, active := if t.active != Some(id) then t.active else if rest == [] then None else Some(rest[0]))
  }

  function Clear(t: Table): Table {
    t.(pages := [], active := None)
  }

  // ------------------------------------------------------------- the table's invariant

  predicate Ascending(s: seq<nat>) {
    forall i, j | 0 <= i < j < |s| :: s[i] < s[j]
  }

  /** The active tab is a live tab or none; ids grow in insertion order up to the counter. */
  predicate TableValid(t: Table) {
    && (t.active.Some? ==> t.active.value in t.pages)
    && Ascending(t.pages)
    && forall i | 0 <= i < |t.pages| :: 1 <= t.pages[i] <= t.tabSeq
  }

  lemma {:induction false} WithoutEffect(pages: seq<nat>, id: nat)
    requires Ascending(pages) && id in pages
    ensures forall x :: x in Without(pages, id) <==> x in pages && x != id
    ensures Ascending(Without(pages, id)) && |Without(pages, id)| == |pages| - 1
  {
    assert pages == [pages[0]] + pages[1..];
    if pages[0] != id {
      WithoutEffect(pages[1..], id);
      var rest := Without(pages[1..], id);
      forall i | 0 <= i < |rest| ensures pages[0] < rest[i] {
        assert rest[i] in pages[1..];
      }
    } else {
      forall x | x in pages[1..] ensures x != id {
      }
    }
  }

  lemma CloseEffect(t: Table, id: nat)
    requires TableValid(t)
    ensures TableValid(CloseTab(t, id))
    ensures t.pages != [] ==> CloseTab(t, id).pages != []
    ensures t.active.Some? ==> CloseTab(t, id).active.Some?
    ensures forall x | x in t.pages && x != id :: x in CloseTab(t, id).pages
    ensures forall x | x in CloseTab(t, id).pages :: x in t.pages
    ensures id in t.pages && |t.pages| > 1 ==>
              id !in CloseTab(t, id).pages
              && CloseTab(t, id).active == if t.active == Some(id) then Some(CloseTab(t, id).pages[0]) else t.active
    ensures id !in t.pages || |t.pages| == 1 ==> CloseTab(t, id) == t
  {
    if id in t.pages && |t.pages| > 1 {
      WithoutEffect(t.pages, id);
      var rest := Without(t.pages, id);
      assert rest[0] in rest;
      forall i | 0 <= i < |rest| ensures 1 <= rest[i] <= t.tabSeq {
        assert rest[i] in t.pages;
      }
    }
  }

  // ------------------------------------------------------------- interleaved requests

  /** Where a request stands. `intact` means no clear has happened since the launch began to
      register pages. */
  datatype Call =
    | LaunchStart | LaunchCleared | LaunchBare | LaunchReady
    | Registering(left: nat, intact: bool)
    | Opening(intact: bool)
    | Launched(intact: bool)
    | NewStart | NewOpening | NewDone(id: nat)
    | ShutStart | ShutCleared | ShutDone
    | Failed

  datatype System = System(t: Table, calls: map<nat, Call>, issued: seq<nat>)

  datatype Step =
    | Begin(c: nat, call: Call)        // a request arrives
    | ClearTabs(c: nat)                // a shutdown, or a launch's own, empties the table
    | DropContext(c: nat)              // and later drops the browser context
    | GetContext(c: nat)               // a launch obtains a context
    | FindPages(c: nat, n: nat)        // and finds n restored pages
    | RegisterNext(c: nat)
    | FinishLaunch(c: nat)
    | OpenFirst(c: nat)
    | CheckContext(c: nat)             // the head of tabNew
    | FinishNew(c: nat)
    | TabActivate(id: nat)
    | TabClose(id: nat)
    | Fail(c: nat)                     // an awaited call rejects, for a new tab even once it is there

  predicate At(s: System, c: nat, call: Call) {
    c in s.calls && s.calls[c] == call
  }

  predicate Enabled(s: System, e: Step) {
    match e
    case Begin(c, call) => c !in s.calls && (call.LaunchStart? || call.NewStart? || call.ShutStart?)
    case ClearTabs(c) => At(s, c, LaunchStart) || At(s, c, ShutStart)
    case DropContext(c) => At(s, c, LaunchCleared) || At(s, c, ShutCleared)
    case GetContext(c) => At(s, c, LaunchBare)
    case FindPages(c, _) => At(s, c, LaunchReady)
    case RegisterNext(c) => c in s.calls && s.calls[c].Registering? && s.calls[c].left > 0
    case FinishLaunch(c) => c in s.calls && s.calls[c].Registering? && s.calls[c].left == 0
    case OpenFirst(c) => c in s.calls && s.calls[c].Opening?
    case CheckContext(c) => At(s, c, NewStart)
    case FinishNew(c) => At(s, c, NewOpening)
    case TabActivate(_) => true
    case TabClose(_) => true
    case Fail(c) => c in s.calls && !s.calls[c].Launched? && !s.calls[c].ShutDone?
  }

  function Broken(call: Call): Call {
    match call
    case Registering(n, _) => Registering(n, false)
    case Opening(_) => Opening(false)
    case Launched(_) => Launched(false)
    case _ => call
  }

  function Next(s: System, e: Step): System
    requires Enabled(s, e)
  {
    match e
    case Begin(c, call) => s.(calls := s.calls[c := call])
    case ClearTabs(c) =>
      var broken := map k | k in s.calls :: Broken(s.calls[k]);
      s.(t := Clear(s.t), calls := broken[c := if s.calls[c].LaunchStart? then LaunchCleared else ShutCleared])
    case DropContext(c) =>
      s.(t := s.t.(context := false), calls := s.calls[c := if s.calls[c].LaunchCleared? then LaunchBare else ShutDone])
    case GetContext(c) => s.(t := s.t.(context := true), calls := s.calls[c := LaunchReady])
    case FindPages(c, n) =>
      if !s.t.context then s.(calls := s.calls[c := Failed])
      else if n == 0 then s.(calls := s.calls[c := Opening(true)])
      else System(Register(s.t), s.calls[c := Registering(n - 1, true)], s.issued + [s.t.tabSeq + 1])
    case RegisterNext(c) =>
      System(Register(s.t), s.calls[c := Registering(s.calls[c].left - 1, s.calls[c].intact)], s.issued + [s.t.tabSeq + 1])
    case FinishLaunch(c) => System(ActivateLast(s.t), s.calls[c := Launched(s.calls[c].intact)], s.issued)
    case OpenFirst(c) => System(OpenTab(s.t), s.calls[c := Launched(true)], s.issued + [s.t.tabSeq + 1])
    case CheckContext(c) => s.(calls := s.calls[c := if s.t.context then NewOpening else Failed])
    case FinishNew(c) => System(OpenTab(s.t), s.calls[c := NewDone(s.t.tabSeq + 1)], s.issued + [s.t.tabSeq + 1])
    case TabActivate(id) => s.(t := Activate(s.t, id))
    case TabClose(id) => s.(t := CloseTab(s.t, id))
    case Fail(c) => s.(calls := s.calls[c := Failed])
  }

  /** A launch that went through undisturbed, or is far enough, holds the table open. */
  predicate HoldsOpen(t: Table, call: Call) {
    match call
    case Registering(_, intact) => intact ==> t.pages != []
    case Launched(intact) => intact ==> t.pages != [] && t.active.Some?
    case _ => true
  }

  ghost predicate Inv(s: System) {
    && TableValid(s.t)
    && |s.issued| == s.t.tabSeq && (forall i | 0 <= i < |s.issued| :: s.issued[i] == i + 1)
    && forall c | c in s.calls :: HoldsOpen(s.t, s.calls[c])
  }

  /** A table that is at least as open as another. */
  predicate StillOpen(t: Table, u: Table) {
    (t.pages != [] ==> u.pages != []) && (t.active.Some? ==> u.active.Some?)
  }

  lemma RegisterEffect(t: Table)
    requires TableValid(t)
    ensures TableValid(Register(t)) && TableValid(OpenTab(t)) && TableValid(ActivateLast(t))
    ensures StillOpen(t, Register(t)) && StillOpen(t, OpenTab(t)) && StillOpen(t, ActivateLast(t))
    ensures Register(t).pages != [] && OpenTab(t).pages != [] && OpenTab(t).active.Some?
    ensures t.pages != [] ==> ActivateLast(t).pages != [] && ActivateLast(t).active.Some?
  {
  }

  /** Every step but a clear leaves the table as open as it was. */
  lemma StepKeepsTable(s: System, e: Step)
    requires TableValid(s.t) && Enabled(s, e)
    ensures TableValid(Next(s, e).t)
    ensures !e.ClearTabs? ==> StillOpen(s.t, Next(s, e).t)
  {
    RegisterEffect(s.t);
    if e.TabClose? {
      CloseEffect(s.t, e.id);
    }
  }

  lemma StepKeepsIssued(s: System, e: Step)
    requires Inv(s) && Enabled(s, e)
    ensures var z := Next(s, e);
            |z.issued| == z.t.tabSeq && forall i | 0 <= i < |z.issued| :: z.issued[i] == i + 1
  {
  }

  lemma StepKeepsCalls(s: System, e: Step, c: nat)
    requires Inv(s) && Enabled(s, e) && StillOpen(s.t, Next(s, e).t) && !e.ClearTabs? && c in Next(s, e).calls
    ensures HoldsOpen(Next(s, e).t, Next(s, e).calls[c])
  {
    RegisterEffect(s.t);
    if c in s.calls {
      assert HoldsOpen(s.t, s.calls[c]);
    }
  }

  lemma StepKeepsInv(s: System, e: Step)
    requires Inv(s) && Enabled(s, e)
    ensures Inv(Next(s, e))
  {
    StepKeepsTable(s, e);
    StepKeepsIssued(s, e);
    if !e.ClearTabs? {
      forall c | c in Next(s, e).calls ensures HoldsOpen(Next(s, e).t, Next(s, e).calls[c]) {
        StepKeepsCalls(s, e, c);
      }
    }
  }

  datatype Trace = Nil | Cons(front: Trace, last: Step)

  ghost predicate Reaches(s: System, tr: Trace, z: System) {
    match tr
    case Nil => z == s
    case Cons(front, e) => exists m :: Reaches(s, front, m) && Enabled(m, e) && z == Next(m, e)
  }

  lemma {:induction false} RunKeepsInv(s: System, tr: Trace, z: System)
    requires Inv(s) && Reaches(s, tr, z)
    ensures Inv(z)
  {
    match tr
    case Nil =>
    case Cons(front, e) =>
      var m :| Reaches(s, front, m) && Enabled(m, e) && z == Next(m, e);
      RunKeepsInv(s, front, m);
      StepKeepsInv(m, e);
  }

  /** Interleaved tabs. In every state any interleaving of launches, new tabs, activations,
      closes and shutdowns can reach: the active tab is a live tab or none; the ids handed
      out are 1, 2, 3, … across all launches, so none is ever reused; and from the moment a
      launch has finished until some request clears the table, there is a tab and one of
      them is active. */
  lemma InterleavedTabs(tr: Trace, z: System)
    requires Reaches(NOTHING, tr, z)
    ensures z.t.active.Some? ==> z.t.active.value in z.t.pages
    ensures forall i | 0 <= i < |z.issued| :: z.issued[i] == i + 1
    ensures forall p | p in z.t.pages :: p in z.issued
    ensures (exists c :: At(z, c, Launched(true))) ==> z.t.pages != [] && z.t.active.Some?
  {
    RunKeepsInv(NOTHING, tr, z);
    forall p | p in z.t.pages ensures p in z.issued {
      assert z.issued[p - 1] == p;
    }
  }

  /** A step that puts a tab into the table. */
  predicate Registers(s: System, e: Step) {
    e.RegisterNext? || e.OpenFirst? || e.FinishNew? || (e.FindPages? && e.n > 0 && s.t.context)
  }

  /** Exactly when the table is empty: after a clear, and until something is registered. */
  lemma EmptyExactly(s: System, e: Step)
    requires TableValid(s.t) && Enabled(s, e)
    ensures Next(s, e).t.pages == [] <==> e.ClearTabs? || (s.t.pages == [] && !Registers(s, e))
  {
    RegisterEffect(s.t);
    if e.TabClose? {
      CloseEffect(s.t, e.id);
    }
  }

  lemma OneMore(s: System, tr: Trace, m: System, e: Step)
    requires Reaches(s, tr, m) && Enabled(m, e)
    ensures Reaches(s, Cons(tr, e), Next(m, e))
  {
  }

  lemma ThreeMore(s: System, tr: Trace, m: System, a: Step, b: Step, c: Step) returns (longer: Trace)
    requires Reaches(s, tr, m) && Enabled(m, a) && Enabled(Next(m, a), b) && Enabled(Next(Next(m, a), b), c)
    ensures Reaches(s, longer, Next(Next(Next(m, a), b), c))
  {
    OneMore(s, tr, m, a);
    OneMore(s, Cons(tr, a), Next(m, a), b);
    OneMore(s, Cons(Cons(tr, a), b), Next(Next(m, a), b), c);
    longer := Cons(Cons(Cons(tr, a), b), c);
  }

  const NOTHING: System := System(EMPTY, map[], [])

  /** A launch up to where it has its context. */
  lemma LaunchUnderWay() returns (tr: Trace, z: System)
    ensures Reaches(NOTHING, tr, z) && z == System(Table([], None, 0, true), map[0 := LaunchReady], [])
  {
    tr := ThreeMore(NOTHING, Nil, NOTHING, Begin(0, LaunchStart), ClearTabs(0), DropContext(0));
    var bare := System(EMPTY, map[0 := LaunchBare], []);
    assert Next(Next(Next(NOTHING, Begin(0, LaunchStart)), ClearTabs(0)), DropContext(0)) == bare;
    OneMore(NOTHING, tr, bare, GetContext(0));
    tr, z := Cons(tr, GetContext(0)), Next(bare, GetContext(0));
  }

  /** A shutdown that clears the table after a launch has registered its pages, but before it
      activates one, leaves a launched engine without any tab. */
  lemma ClearDuringLaunchEmptiesTheTable() returns (tr: Trace, z: System)
    ensures Reaches(NOTHING, tr, z)
    ensures At(z, 0, Launched(false)) && z.t == Table([], None, 1, true)
  {
    var s;
    tr, s := LaunchUnderWay();
    tr := ThreeMore(NOTHING, tr, s, FindPages(0, 1), Begin(1, ShutStart), ClearTabs(1));
    var m := Next(Next(Next(s, FindPages(0, 1)), Begin(1, ShutStart)), ClearTabs(1));
    assert m == System(Table([], None, 1, true), map[0 := Registering(0, false), 1 := ShutCleared], [1]);
    OneMore(NOTHING, tr, m, FinishLaunch(0));
    tr, z := Cons(tr, FinishLaunch(0)), Next(m, FinishLaunch(0));
  }

  /** A shutdown that cleared the table before the launch found its pages. */
  lemma LaunchAfterClear() returns (tr: Trace, z: System)
    ensures Reaches(NOTHING, tr, z)
    ensures z == System(Table([1], Some(1), 1, true), map[0 := Launched(true), 1 := ShutCleared], [1])
  {
    var s;
    tr, s := LaunchUnderWay();
    tr := ThreeMore(NOTHING, tr, s, Begin(1, ShutStart), ClearTabs(1), FindPages(0, 1));
    var m := Next(Next(Next(s, Begin(1, ShutStart)), ClearTabs(1)), FindPages(0, 1));
    assert m == System(Table([1], None, 1, true), map[0 := Registering(0, true), 1 := ShutCleared], [1]);
    OneMore(NOTHING, tr, m, FinishLaunch(0));
    tr, z := Cons(tr, FinishLaunch(0)), Next(m, FinishLaunch(0));
  }

  /** When it then drops the context, tabs are in the table and one of them is active, and yet
      every new tab is refused. */
  lemma DropAfterLaunchRefusesNewTabs(c: nat) returns (tr: Trace, z: System)
    requires c > 1
    ensures Reaches(NOTHING, tr, z)
    ensures z.t == Table([1], Some(1), 1, false) && At(z, 0, Launched(true)) && At(z, c, Failed)
  {
    var s;
    tr, s := LaunchAfterClear();
    tr := ThreeMore(NOTHING, tr, s, DropContext(1), Begin(c, NewStart), CheckContext(c));
    z := Next(Next(Next(s, DropContext(1)), Begin(c, NewStart)), CheckContext(c));
  }

  /** A new tab is refused exactly if there is no context, whatever the table holds. */
  lemma NewTabRefusedExactly(s: System, c: nat)
    requires At(s, c, NewStart)
    ensures At(Next(s, CheckContext(c)), c, Failed) <==> !s.t.context
  {
  }

  // ------------------------------------------------------------- batches of steps

  datatype BrowserStep =
    | StepActivate(id: nat)
    | StepNew(opens: bool, rebinds: bool)
    | StepClose(tab: Option<nat>, rebinds: bool)
    | StepPage(tab: Option<nat>, works: bool)

  /** `mine` says that `tab`, the batch's current tab, was set by one of its own steps and
      not by the caller. */
  datatype Batch = Batch(t: Table, tab: Option<nat>, mine: bool, ok: bool)

  function Or(a: Option<nat>, b: Option<nat>): Option<nat> {
    if a.Some? then a else b
  }

  /** Closing a tab binds the screencast anew if it was the active one or is the last. */
  predicate ClosingRebinds(t: Table, id: nat) {
    |t.pages| <= 1 || t.active == Some(id)
  }

  /** A screencast that cannot be bound again (`rebinds`) makes the step throw when the table
      has changed already. */
  function DoStep(b: Batch, step: BrowserStep): Batch {
    if !b.ok then b
    else
      match step
      case StepActivate(id) =>
        if id in b.t.pages then Batch(Activate(b.t, id), Some(id), true, true) else b.(ok := false)
      case StepNew(opens, rebinds) =>
        if !b.t.context || !opens then b.(ok := false)
        else if !rebinds then b.(t := OpenTab(b.t), ok := false)
        else Batch(OpenTab(b.t), Some(b.t.tabSeq + 1), true, true)
      case StepClose(tab, rebinds) =>
        var id := Or(tab, Or(b.tab, b.t.active));
        if id.None? || id.value !in b.t.pages then b.(ok := false)
        else
          var t := CloseTab(b.t, id.value);
          if !rebinds && ClosingRebinds(b.t, id.value) then b.(t := t, ok := false)
          else if b.tab == id then Batch(t, t.active, true, true) else b.(t := t)
      case StepPage(tab, works) =>
        var id := Or(tab, Or(b.tab, b.t.active));
        if id.Some? && id.value in b.t.pages && works then b else b.(ok := false)
  }

  function DoSteps(b: Batch, steps: seq<BrowserStep>): Batch {
    if steps == [] then b else DoStep(DoSteps(b, steps[..|steps| - 1]), steps[|steps| - 1])
  }

  ghost predicate BatchValid(b: Batch) {
    TableValid(b.t) && (b.ok && b.mine ==> if b.tab.Some? then b.tab.value in b.t.pages else b.t.active.None?)
  }

  /** A batch that runs alone: until a step throws, the tab its own steps chose is live after
      every step, and is missing only if no tab is active. The table stays valid throughout. */
  lemma {:induction false} BatchTabStaysLive(t: Table, tab: Option<nat>, steps: seq<BrowserStep>)
    requires TableValid(t)
    ensures BatchValid(DoSteps(Batch(t, tab, false, true), steps))
  {
    if steps != [] {
      var n := |steps| - 1;
      BatchTabStaysLive(t, tab, steps[..n]);
      BatchStepValid(DoSteps(Batch(t, tab, false, true), steps[..n]), steps[n]);
    }
  }

  lemma BatchCloseValid(b: Batch, tab: Option<nat>, rebinds: bool)
    requires BatchValid(b)
    ensures BatchValid(DoStep(b, StepClose(tab, rebinds)))
  {
    var id := Or(tab, Or(b.tab, b.t.active));
    if id.Some? {
      CloseEffect(b.t, id.value);
    }
  }

  lemma BatchOpenValid(b: Batch, step: BrowserStep)
    requires BatchValid(b) && step.StepNew?
    ensures BatchValid(DoStep(b, step))
  {
    RegisterEffect(b.t);
  }

  lemma BatchStepValid(b: Batch, step: BrowserStep)
    requires BatchValid(b)
    ensures BatchValid(DoStep(b, step))
  {
    match step
    case StepNew(_, _) => BatchOpenValid(b, step);
    case StepClose(tab, rebinds) => BatchCloseValid(b, tab, rebinds);
    case _ =>
  }

  /** The hypothesis is needed: a tab handed in by the caller may be dead from the start,
      and then every step that relies on it fails. */
  lemma CallersTabMayBeDead(t: Table, tab: nat)
    requires tab !in t.pages
    ensures !DoStep(Batch(t, Some(tab), false, true), StepPage(None, true)).ok
  {
  }

  // ------------------------------------------------------------- the engine object

  class BrowserEngine {
    var pages: seq<nat>
    var activeTabId: Option<nat>
    var tabSeq: nat
    var context: bool

    constructor ()
      ensures T() == EMPTY
    {
      pages, activeTabId, tabSeq, context := [], None, 0, false;
    }

    ghost function T(): Table
      reads this
    {
      Table(pages, activeTabId, tabSeq, context)
    }

    method NextTabId() returns (id: nat)
      modifies this`tabSeq
      ensures tabSeq == old(tabSeq) + 1 && id == tabSeq
    {
      tabSeq := tabSeq + 1;
      id := tabSeq;
    }

    method RegisterPage() returns (id: nat)
      modifies this
      ensures T() == Register(old(T())) && id == tabSeq
    {
      id := NextTabId();
      pages := pages + [id];
    }

    /** Launch, from the moment its context exists, without interruption. */
    method AdoptPages(existing: nat)
      requires TableValid(T()) && pages == []
      modifies this
      ensures TableValid(T()) && context == old(context)
      ensures pages != [] && activeTabId == Some(pages[|pages| - 1])
      ensures |pages| == (if existing == 0 then 1 else existing) && tabSeq == old(tabSeq) + |pages|
      ensures forall p | p in pages :: p > old(tabSeq)
    {
      var first := tabSeq;
      if existing == 0 {
        var id := RegisterPage();
        activeTabId := Some(id);
        return;
      }
      var i := 0;
      while i < existing
        invariant i <= existing && |pages| == i && tabSeq == first + i && context == old(context)
        invariant activeTabId == old(activeTabId)
        invariant forall k | 0 <= k < i :: pages[k] == first + k + 1
      {
        var _ := RegisterPage();
        i := i + 1;
      }
      activeTabId := Some(pages[|pages| - 1]);
    }

    method TabActivate(id: nat) returns (ok: bool)
      modifies this
      ensures T() == Activate(old(T()), id) && (ok <==> id in pages)
    {
      ok := id in pages;
      if ok {
        activeTabId := Some(id);
      }
    }

    /** The tab stays, and is active, even if its request fails at the screencast. */
    method TabNew(opens: bool, rebinds: bool) returns (id: Option<nat>)
      modifies this
      ensures id == if old(context) && opens && rebinds then Some(old(tabSeq) + 1) else None
      ensures T() == if old(context) && opens then OpenTab(old(T())) else old(T())
    {
      if !context || !opens {
        return None;
      }
      var n := RegisterPage();
      activeTabId := Some(n);
      return if rebinds then Some(n) else None;
    }

    method TabClose(id: nat, rebinds: bool) returns (ok: bool)
      modifies this
      ensures T() == CloseTab(old(T()), id)
      ensures ok <==> id in old(pages) && (rebinds || !ClosingRebinds(old(T()), id))
    {
      ok := id in pages;
      if !ok {
        return;
      }
      if |pages| <= 1 {
        return rebinds;
      }
      pages := Without(pages, id);
      if activeTabId == Some(id) {
        activeTabId := if pages == [] then None else Some(pages[0]);
        ok := rebinds;
      }
    }

    method Shutdown()
      modifies this
      ensures T() == Clear(old(T())).(context := false)
    {
      pages, activeTabId, context := [], None, false;
    }

    /** `runSteps`. */
    method RunSteps(steps: seq<BrowserStep>, defaultTab: Option<nat>) returns (ok: bool, batchTab: Option<nat>, ghost mine: bool)
      modifies this
      ensures Batch(T(), batchTab, mine, ok) == DoSteps(Batch(old(T()), defaultTab, false, true), steps)
    {
      ok, batchTab, mine := true, defaultTab, false;
      ghost var start := Batch(T(), defaultTab, false, true);
      var i := 0;
      while i < |steps|
        invariant 0 <= i <= |steps| && ok
        invariant Batch(T(), batchTab, mine, ok) == DoSteps(start, steps[..i])
      {
        assert steps[..i + 1][..i] == steps[..i];
        match steps[i] {
          case StepActivate(id) =>
            ok := TabActivate(id);
            if ok {
              batchTab, mine := Some(id), true;
            }
          case StepNew(opens, rebinds) =>
            var id := TabNew(opens, rebinds);
            if id.Some? {
              batchTab, mine := id, true;
            } else {
              ok := false;
            }
          case StepClose(tab, rebinds) =>
            var id := Or(tab, Or(batchTab, activeTabId));
            if id.None? {
              ok := false;
            } else {
              ok := TabClose(id.value, rebinds);
              if ok && batchTab == id {
                batchTab, mine := activeTabId, true;
              }
            }
          case StepPage(tab, works) =>
            var id := Or(tab, Or(batchTab, activeTabId));
            ok := id.Some? && id.value in pages && works;
        }
        i := i + 1;
        if !ok {
          ThrowEndsBatch(start, steps, i);
          return;
        }
      }
      assert steps[..i] == steps;
    }
  }

  lemma {:induction false} ThrowEndsBatch(b: Batch, steps: seq<BrowserStep>, i: nat)
    requires i <= |steps| && !DoSteps(b, steps[..i]).ok
    ensures DoSteps(b, steps) == DoSteps(b, steps[..i])
    decreases |steps|
  {
    if i == |steps| {
      assert steps[..i] == steps;
    } else {
      assert steps[..|steps| - 1][..i] == steps[..i];
      ThrowEndsBatch(b, steps[..|steps| - 1], i);
    }
  }
}
